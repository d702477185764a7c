/** What moveItem (src/App.tsx:275-326) does to the containers of the open
    project. */
module MoveProperties {
  import opened Types
  import opened Seqs
  import opened Containers
  import opened Engine

  /** ItemsIn reads only the pool and the categories. */
  lemma SameContents(p: Project, q: Project)
    requires p.items == q.items && p.categories == q.categories
    ensures forall c :: ItemsIn(q, c) == ItemsIn(p, c)
  {
  }

  /** moveItem leaves the whole state as it is, updatedAt included, when no
      project is open, the source category does not exist, or the source
      holds no item with that id. */
  lemma MoveItemUnchanged(s: AppState, itemId: Id, fromId: Option<Id>, toId: Option<Id>, now: string)
    requires || !Truthy(s.currentProjectId)
             || CurrentIndex(s).None?
             || ItemsIn(s.projects[CurrentIndex(s).value], fromId).None?
             || forall x | x in ItemsIn(s.projects[CurrentIndex(s).value], fromId).value :: x.id != itemId
    ensures MoveItem(s, itemId, fromId, toId, now) == s
  {
  }

  /** The open project after a move that finds its item. */
  lemma MovedProject(s: AppState, itemId: Id, fromId: Option<Id>, toId: Option<Id>, now: string)
    requires FindsItem(s, itemId, fromId)
    ensures var i := CurrentIndex(s).value;
            var p := s.projects[i];
            var k := IndexOf(ItemsIn(p, fromId).value, ItemKey, itemId).value;
            var q := MoveItem(s, itemId, fromId, toId, now).projects[i];
            && q == TakeAndPut(p, fromId, k, toId).(updatedAt := now)
            && (forall c :: ItemsIn(q, c) == ItemsIn(TakeAndPut(p, fromId, k, toId), c))
            && AllItems(q) == AllItems(TakeAndPut(p, fromId, k, toId))
  {
    var i := CurrentIndex(s).value;
    var p := s.projects[i];
    var k := IndexOf(ItemsIn(p, fromId).value, ItemKey, itemId).value;
    var t := TakeAndPut(p, fromId, k, toId);
    SameContents(t, t.(updatedAt := now));
  }

  /** Into another, existing container: the item leaves the source and
      becomes the destination's last element; no other container changes. */
  lemma TakeAndPutElsewhere(p: Project, fromId: Option<Id>, k: nat, toId: Option<Id>)
    requires ItemsIn(p, fromId).Some? && k < |ItemsIn(p, fromId).value|
    requires fromId != toId && ItemsIn(p, toId).Some?
    ensures var xs, ys := ItemsIn(p, fromId).value, ItemsIn(p, toId).value;
            var q := TakeAndPut(p, fromId, k, toId);
            && ItemsIn(q, fromId) == Some(xs[..k] + xs[k + 1..])
            && ItemsIn(q, toId) == Some(ys + [xs[k]])
            && (forall c | c != fromId && c != toId :: ItemsIn(q, c) == ItemsIn(p, c))
  {
    var xs := ItemsIn(p, fromId).value;
    var p1 := WithItems(p, fromId, xs[..k] + xs[k + 1..]);
    assert ItemsIn(p1, toId) == ItemsIn(p, toId);
  }

  /** Into the same container: the item is taken out and appended again. */
  lemma TakeAndPutSame(p: Project, fromId: Option<Id>, k: nat)
    requires ItemsIn(p, fromId).Some? && k < |ItemsIn(p, fromId).value|
    ensures var xs := ItemsIn(p, fromId).value;
            var q := TakeAndPut(p, fromId, k, fromId);
            && ItemsIn(q, fromId) == Some(xs[..k] + xs[k + 1..] + [xs[k]])
            && (forall c | c != fromId :: ItemsIn(q, c) == ItemsIn(p, c))
  {
    var xs := ItemsIn(p, fromId).value;
    var p1 := WithItems(p, fromId, xs[..k] + xs[k + 1..]);
    assert ItemsIn(p1, fromId) == Some(xs[..k] + xs[k + 1..]);
  }

  /** Pushing one item onto a container adds exactly that item to the
      project's multiset of items. */
  lemma PushBag(p: Project, c: Option<Id>, x: Item)
    requires ItemsIn(p, c).Some?
    ensures multiset(AllItems(WithItems(p, c, ItemsIn(p, c).value + [x])))
              == multiset(AllItems(p)) + multiset{x}
  {
    var ys := ItemsIn(p, c).value;
    var m, my := multiset(AllItems(p)), multiset(ys);
    ContainerInProject(p, c);
    assert my <= m;
    assert multiset(ys + [x]) == my + multiset{x};
    assert m - my + (my + multiset{x}) == m + multiset{x};
  }

  /** After the splice, the destination exists exactly when it did before. */
  lemma SpliceKeepsContainers(p: Project, fromId: Option<Id>, k: nat, toId: Option<Id>)
    requires ItemsIn(p, fromId).Some? && k < |ItemsIn(p, fromId).value|
    ensures var xs := ItemsIn(p, fromId).value;
            ItemsIn(WithItems(p, fromId, xs[..k] + xs[k + 1..]), toId).Some? <==> ItemsIn(p, toId).Some?
  {
  }

  /** What the splice and push do to the multiset of the project's items:
      nothing when the destination exists, and take away the moved item when
      it does not. */
  lemma TakeAndPutBag(p: Project, fromId: Option<Id>, k: nat, toId: Option<Id>)
    requires ItemsIn(p, fromId).Some? && k < |ItemsIn(p, fromId).value|
    ensures var xs := ItemsIn(p, fromId).value;
            var q := TakeAndPut(p, fromId, k, toId);
            && (ItemsIn(p, toId).Some? ==> multiset(AllItems(q)) == multiset(AllItems(p)))
            && (ItemsIn(p, toId).None? ==> multiset(AllItems(q)) == multiset(AllItems(p)) - multiset{xs[k]})
  {
    var xs := ItemsIn(p, fromId).value;
    var p1 := WithItems(p, fromId, xs[..k] + xs[k + 1..]);
    var x := xs[k];
    SpliceOut(p, fromId, k);
    SpliceKeepsContainers(p, fromId, k, toId);
    if ItemsIn(p1, toId).Some? {
      PushBag(p1, toId, x);
      ItemInBag(p, fromId, k);
    }
  }

  /** The item at a container's position is one of the project's items. */
  lemma ItemInBag(p: Project, c: Option<Id>, k: nat)
    requires ItemsIn(p, c).Some? && k < |ItemsIn(p, c).value|
    ensures ItemsIn(p, c).value[k] in multiset(AllItems(p))
    ensures multiset(AllItems(p)) - multiset{ItemsIn(p, c).value[k]} + multiset{ItemsIn(p, c).value[k]}
              == multiset(AllItems(p))
  {
    ContainerInProject(p, c);
    assert ItemsIn(p, c).value[k] in multiset(ItemsIn(p, c).value);
  }

  /** When the item is found and the destination is another existing
      container, the item leaves the source and becomes the last element of
      the destination, with the same id and name; every other container is
      untouched and updatedAt is set. */
  lemma MoveItemToEnd(s: AppState, itemId: Id, fromId: Option<Id>, toId: Option<Id>, now: string)
    requires FindsItem(s, itemId, fromId)
    requires fromId != toId
    requires ItemsIn(s.projects[CurrentIndex(s).value], toId).Some?
    ensures var i := CurrentIndex(s).value;
            var p, q := s.projects[i], MoveItem(s, itemId, fromId, toId, now).projects[i];
            var xs, ys := ItemsIn(p, fromId).value, ItemsIn(p, toId).value;
            var k := IndexOf(xs, ItemKey, itemId).value;
            && xs[k].id == itemId
            && ItemsIn(q, fromId) == Some(xs[..k] + xs[k + 1..])
            && ItemsIn(q, toId) == Some(ys + [xs[k]])
            && (forall c | c != fromId && c != toId :: ItemsIn(q, c) == ItemsIn(p, c))
            && q.updatedAt == now
  {
    var i := CurrentIndex(s).value;
    var p := s.projects[i];
    var k := IndexOf(ItemsIn(p, fromId).value, ItemKey, itemId).value;
    MovedProject(s, itemId, fromId, toId, now);
    TakeAndPutElsewhere(p, fromId, k, toId);
  }

  /** Moving an item to the container it is in takes it out and appends it
      again: it goes to the end, and nothing else moves. */
  lemma MoveItemSameContainer(s: AppState, itemId: Id, fromId: Option<Id>, now: string)
    requires FindsItem(s, itemId, fromId)
    ensures var i := CurrentIndex(s).value;
            var p, q := s.projects[i], MoveItem(s, itemId, fromId, fromId, now).projects[i];
            var xs := ItemsIn(p, fromId).value;
            var k := IndexOf(xs, ItemKey, itemId).value;
            && ItemsIn(q, fromId) == Some(xs[..k] + xs[k + 1..] + [xs[k]])
            && (forall c | c != fromId :: ItemsIn(q, c) == ItemsIn(p, c))
            && q.updatedAt == now
  {
    var i := CurrentIndex(s).value;
    var p := s.projects[i];
    var k := IndexOf(ItemsIn(p, fromId).value, ItemKey, itemId).value;
    MovedProject(s, itemId, fromId, fromId, now);
    TakeAndPutSame(p, fromId, k);
  }

  /** A move into an existing container keeps the multiset of every
      project's items. */
  lemma MoveItemConserves(s: AppState, itemId: Id, fromId: Option<Id>, toId: Option<Id>, now: string)
    requires CurrentIndex(s).Some?
    requires ItemsIn(s.projects[CurrentIndex(s).value], toId).Some?
    ensures forall k | 0 <= k < |s.projects| ::
              multiset(AllItems(MoveItem(s, itemId, fromId, toId, now).projects[k])) == multiset(AllItems(s.projects[k]))
  {
    if FindsItem(s, itemId, fromId) {
      var i := CurrentIndex(s).value;
      var p := s.projects[i];
      var k := IndexOf(ItemsIn(p, fromId).value, ItemKey, itemId).value;
      var r := MoveItem(s, itemId, fromId, toId, now);
      MovedProject(s, itemId, fromId, toId, now);
      TakeAndPutBag(p, fromId, k, toId);
      forall j | 0 <= j < |s.projects|
        ensures multiset(AllItems(r.projects[j])) == multiset(AllItems(s.projects[j]))
      {
        if j != i {
          assert r.projects[j] == s.projects[j];
        }
      }
    }
  }


  /** Into a container that does not exist: the item is spliced out and
      pushed nowhere, so the project loses it. */
  lemma TakeAndPutNowhere(p: Project, fromId: Option<Id>, k: nat, toId: Option<Id>)
    requires ItemsIn(p, fromId).Some? && k < |ItemsIn(p, fromId).value|
    requires ItemsIn(p, toId).None?
    ensures var xs := ItemsIn(p, fromId).value;
            var q := TakeAndPut(p, fromId, k, toId);
            && ItemsIn(q, fromId) == Some(xs[..k] + xs[k + 1..])
            && (forall c | c != fromId :: ItemsIn(q, c) == ItemsIn(p, c))
            && multiset(AllItems(q)) == multiset(AllItems(p)) - multiset{xs[k]}
            && (ProjectWellFormed(p) ==> xs[k] !in AllItems(q))
  {
    var xs := ItemsIn(p, fromId).value;
    SpliceOut(p, fromId, k);
    SpliceKeepsContainers(p, fromId, k, toId);
    if ProjectWellFormed(p) {
      ItemOnce(p, xs[k]);
    }
  }

  /** moveItem can lose an item: when the destination category does not
      exist, the item is spliced out of the source and pushed nowhere, yet
      updatedAt is set. In a well-formed project the item is then gone. */
  lemma MoveItemLosesItem(s: AppState, itemId: Id, fromId: Option<Id>, toId: Option<Id>, now: string)
    requires FindsItem(s, itemId, fromId)
    requires ItemsIn(s.projects[CurrentIndex(s).value], toId).None?
    ensures var i := CurrentIndex(s).value;
            var p, q := s.projects[i], MoveItem(s, itemId, fromId, toId, now).projects[i];
            var xs := ItemsIn(p, fromId).value;
            var k := IndexOf(xs, ItemKey, itemId).value;
            && ItemsIn(q, fromId) == Some(xs[..k] + xs[k + 1..])
            && (forall c | c != fromId :: ItemsIn(q, c) == ItemsIn(p, c))
            && multiset(AllItems(q)) == multiset(AllItems(p)) - multiset{xs[k]}
            && q.updatedAt == now
            && (ProjectWellFormed(p) ==> xs[k] !in AllItems(q))
  {
    var i := CurrentIndex(s).value;
    var p := s.projects[i];
    var k := IndexOf(ItemsIn(p, fromId).value, ItemKey, itemId).value;
    MovedProject(s, itemId, fromId, toId, now);
    TakeAndPutNowhere(p, fromId, k, toId);
  }

  /** In a well-formed project an item occurs at most once. */
  lemma ItemOnce(p: Project, x: Item)
    requires ProjectWellFormed(p)
    ensures multiset(AllItems(p))[x] <= 1
  {
    UniqueKeysOnce(AllItems(p), ItemKey, x);
  }

}
