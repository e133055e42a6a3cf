/** The child-profile handlers of the auth controller, as pure transitions
    over the child store. Store-assigned identifiers are parameters. */
module ChildController {
  import opened Wrappers
  import opened UserModel
  import opened ChildModel
  import opened Replies

  datatype ChildStep = ChildStep(children: Children, reply: Reply)

  /** The age tiering of `addChild`: start at level 1, raise to 2 for ages 3
      and 4, raise to 3 from age 5. */
  function InitialLevel(age: int): (level: int)
    ensures level in {1, 2, 3}
    ensures age < 3 ==> level == 1
    ensures 3 <= age <= 4 ==> level == 2
    ensures age >= 5 ==> level == 3
  {
    if age >= 5 then 3 else if 3 <= age <= 4 then 2 else 1
  }

  /** An older child never starts on a lower level. */
  lemma InitialLevelMonotone(younger: int, older: int)
    requires younger <= older
    ensures InitialLevel(younger) <= InitialLevel(older)
  {
  }

  /** `addChild`: the body fields may be absent; a document missing a required
      field is refused on save (500, nothing stored). The parent account is
      not looked up. */
  function AddChild(children: Children, parentId: Option<AccountId>, name: Option<string>,
                    age: Option<int>, newId: ChildId): (r: ChildStep)
    requires newId !in children
    ensures (parentId.None? || parentId == Some("") || name.None? || name == Some("") || age.None?) ==>
      r.children == children && r.reply == Reply(500, Message(ServerError))
    ensures r.reply.status == 201 <==>
      parentId.Some? && parentId.value != "" && name.Some? && name.value != "" && age.Some?
    ensures r.reply.status == 201 ==>
      && r.children.Keys == children.Keys + {newId}
      && (forall k :: k in children ==> r.children[k] == children[k])
      && var c := r.children[newId];
      && r.reply.body == ChildRecord(c)
      && c.id == newId && c.parentId == parentId.value && c.name == name.value
      && c.age == age.value && c.stars == 0 && c.highScore == 0
      && (age.value < 3 ==> c.currentLevel == 1)
      && (3 <= age.value <= 4 ==> c.currentLevel == 2)
      && (age.value >= 5 ==> c.currentLevel == 3)
  {
    match (parentId, name, age)
    case (Some(p), Some(n), Some(y)) =>
      if p == "" || n == "" then ChildStep(children, Reply(500, Message(ServerError)))
      else
        var c := NewChild(newId, p, n, y, Some(InitialLevel(y)));
        ChildStep(children[newId := c], Reply(201, ChildRecord(c)))
    case _ => ChildStep(children, Reply(500, Message(ServerError)))
  }

  /** The children whose `parentId` is the given one. */
  function ChildrenOf(children: Children, parentId: AccountId): (r: Children)
    ensures forall k :: k in r <==> k in children && children[k].parentId == parentId
    ensures forall k :: k in r ==> r[k] == children[k]
  {
    map k | k in children && children[k].parentId == parentId :: children[k]
  }

  /** `getChildren`. */
  function GetChildren(children: Children, parentId: AccountId): (r: Reply)
    ensures r.status == 200 && r.body.ChildList?
    ensures forall k :: k in r.body.children <==> k in children && children[k].parentId == parentId
    ensures forall k :: k in r.body.children ==> r.body.children[k] == children[k]
  {
    Reply(200, ChildList(ChildrenOf(children, parentId)))
  }

  /** `updateChildProgress`: `stars` and `currentLevel` are always written;
      `highScore` only when the request carries one (an explicit 0 included). */
  function UpdateChildProgress(children: Children, id: ChildId, stars: int, currentLevel: int,
                               highScore: Option<int>): (r: ChildStep)
    ensures id !in children ==>
      r.children == children && r.reply == Reply(404, Message(ChildNotFound))
    ensures id in children ==>
      && r.children.Keys == children.Keys
      && (forall k :: k in children && k != id ==> r.children[k] == children[k])
      && var c := r.children[id];
      && r.reply == Reply(200, ChildRecord(c))
      && c.stars == stars && c.currentLevel == currentLevel
      && (highScore.Some? ==> c.highScore == highScore.value)
      && (highScore.None? ==> c.highScore == children[id].highScore)
      && c.id == children[id].id && c.parentId == children[id].parentId
      && c.name == children[id].name && c.age == children[id].age
  {
    if id !in children then ChildStep(children, Reply(404, Message(ChildNotFound)))
    else
      var prev := children[id];
      var c := prev.(stars := stars, currentLevel := currentLevel,
                     highScore := highScore.GetOr(prev.highScore));
      ChildStep(children[id := c], Reply(200, ChildRecord(c)))
  }

  /** `deleteChild`. */
  function DeleteChild(children: Children, id: ChildId): (r: ChildStep)
    ensures id !in children ==>
      r.children == children && r.reply == Reply(404, Message(ChildNotFound))
    ensures id in children ==>
      && r.children.Keys == children.Keys - {id}
      && (forall k :: k in r.children ==> r.children[k] == children[k])
      && r.reply == Reply(200, Message(ChildDeleted))
  {
    if id !in children then ChildStep(children, Reply(404, Message(ChildNotFound)))
    else ChildStep(children - {id}, Reply(200, Message(ChildDeleted)))
  }
}
