/** Properties relating the child-profile handlers to each other and to
    the child store invariant. */
module ChildProperties {
  import opened Wrappers
  import opened UserModel
  import opened ChildModel
  import opened Replies
  import opened ChildController

  /** Adding, updating and deleting keep every stored child under its own
      identifier with its required fields present. */
  lemma AddChildKeepsChildrenOk(children: Children, parentId: Option<AccountId>,
                                name: Option<string>, age: Option<int>, newId: ChildId)
    requires ChildrenOk(children) && newId !in children
    ensures ChildrenOk(AddChild(children, parentId, name, age, newId).children)
  {
  }

  lemma UpdateChildProgressKeepsChildrenOk(children: Children, id: ChildId, stars: int,
                                           currentLevel: int, highScore: Option<int>)
    requires ChildrenOk(children)
    ensures ChildrenOk(UpdateChildProgress(children, id, stars, currentLevel, highScore).children)
  {
  }

  lemma DeleteChildKeepsChildrenOk(children: Children, id: ChildId)
    requires ChildrenOk(children)
    ensures ChildrenOk(DeleteChild(children, id).children)
  {
  }

  /** A child just added is listed under its parent, with its stored record,
      and the other parents' lists are unchanged. */
  lemma AddedChildIsListed(children: Children, parentId: AccountId, name: string, age: int,
                           newId: ChildId, other: AccountId)
    requires newId !in children && parentId != "" && name != ""
    requires other != parentId
    ensures var r := AddChild(children, Some(parentId), Some(name), Some(age), newId);
      && newId in GetChildren(r.children, parentId).body.children
      && r.reply.body == ChildRecord(GetChildren(r.children, parentId).body.children[newId])
      && GetChildren(r.children, other) == GetChildren(children, other)
  {
  }

  /** A deleted child is listed under no parent, and every other child's
      listing is unchanged. */
  lemma DeletedChildIsNotListed(children: Children, id: ChildId, parentId: AccountId)
    ensures var after := DeleteChild(children, id).children;
      && id !in GetChildren(after, parentId).body.children
      && ChildrenOf(after, parentId) == ChildrenOf(children, parentId) - {id}
  {
  }

  /** The listings of two different parents never share a child, and every
      child appears in its own parent's listing. */
  lemma ListingsPartitionChildren(children: Children, p: AccountId, q: AccountId)
    requires p != q
    ensures ChildrenOf(children, p).Keys !! ChildrenOf(children, q).Keys
    ensures forall k :: k in children ==> k in ChildrenOf(children, children[k].parentId)
  {
  }

  /** A supplied high score survives every later update that omits one,
      while stars and level follow the latest update. */
  lemma HighScoreSurvivesLaterUpdates(children: Children, id: ChildId, s1: int, l1: int, h: int,
                                      s2: int, l2: int)
    requires id in children
    ensures var first := UpdateChildProgress(children, id, s1, l1, Some(h)).children;
            var second := UpdateChildProgress(first, id, s2, l2, None).children;
            second[id].highScore == h && second[id].stars == s2 && second[id].currentLevel == l2
  {
  }

  /** Two updates with the same progress in a row leave the same store as
      one. */
  lemma UpdateChildProgressIdempotent(children: Children, id: ChildId, stars: int,
                                      currentLevel: int, highScore: Option<int>)
    ensures var once := UpdateChildProgress(children, id, stars, currentLevel, highScore).children;
            UpdateChildProgress(once, id, stars, currentLevel, highScore).children == once
  {
  }

  /** Deleting a child that was just added restores the store. */
  lemma DeleteUndoesAdd(children: Children, parentId: Option<AccountId>, name: Option<string>,
                        age: Option<int>, newId: ChildId)
    requires newId !in children
    ensures var added := AddChild(children, parentId, name, age, newId);
            added.reply.status == 201 ==> DeleteChild(added.children, newId).children == children
  {
  }
}
