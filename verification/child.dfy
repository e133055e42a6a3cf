/** The child sub-profile record (the `Child` schema). */
module ChildModel {
  import opened Wrappers
  import UserModel

  type ChildId = string

  /** A stored child. `parentId` names the owning account; the schema's
      `ref` documents that link but nothing checks the account exists. */
  datatype Child = Child(
    id: ChildId,
    parentId: UserModel.AccountId,
    name: string,
    age: int,
    currentLevel: int,
    stars: int,
    highScore: int)

  type Children = map<ChildId, Child>

  /** A freshly constructed child: `currentLevel` defaults to 1 when not
      given, `stars` and `highScore` start at 0. */
  function NewChild(id: ChildId, parentId: UserModel.AccountId, name: string, age: int,
                    currentLevel: Option<int>): (c: Child)
    ensures c.id == id && c.parentId == parentId && c.name == name && c.age == age
    ensures currentLevel.Some? ==> c.currentLevel == currentLevel.value
    ensures currentLevel.None? ==> c.currentLevel == 1
    ensures c.stars == 0 && c.highScore == 0
  {
    Child(id, parentId, name, age, currentLevel.GetOr(1), 0, 0)
  }

  /** The required fields are present: Mongoose refuses an empty string for
      a required text field, and an empty `parentId` is not an identifier. */
  predicate ChildOk(c: Child) {
    c.parentId != "" && c.name != ""
  }

  /** Store invariant: each child sits under its own identifier and is well formed. */
  predicate ChildrenOk(children: Children) {
    forall k :: k in children ==> children[k].id == k && ChildOk(children[k])
  }
}
