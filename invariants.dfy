/** The application's central invariant, that ids are unique and so every
    item sits in exactly one container, is kept by every updater of
    src/App.tsx, given that `crypto.randomUUID()` yields ids not in use. The
    one exception to "every item stays" is moveItem to a missing category,
    which loses the item; it still keeps the ids unique. */
module Invariants {
  import opened Types
  import opened Seqs
  import opened BulkText
  import opened Containers
  import opened Engine
  import opened MoveProperties
  import opened UpdateProperties

  /** Replacing one project by a well-formed project with the same id keeps
      the state well formed. */
  lemma ReplaceWellFormed(s: AppState, i: nat, q: Project)
    requires WellFormed(s) && i < |s.projects|
    requires q.id == s.projects[i].id && ProjectWellFormed(q)
    ensures WellFormed(Replace(s, i, q))
  {
    assert Keys(Replace(s, i, q).projects, ProjectKey) == Keys(s.projects, ProjectKey);
  }

  /** A project whose category ids are those of a well-formed project and
      whose items are among its items is well formed. */
  lemma FewerItemsWellFormed(p: Project, q: Project)
    requires ProjectWellFormed(p)
    requires Keys(q.categories, CategoryKey) == Keys(p.categories, CategoryKey)
    requires multiset(AllItems(q)) <= multiset(AllItems(p))
    ensures ProjectWellFormed(q)
  {
    UniqueKeysSubBag(AllItems(q), AllItems(p), ItemKey);
  }

  lemma MoveItemWellFormed(s: AppState, itemId: Id, fromId: Option<Id>, toId: Option<Id>, now: string)
    requires WellFormed(s)
    ensures WellFormed(MoveItem(s, itemId, fromId, toId, now))
  {
    if FindsItem(s, itemId, fromId) {
      var i := CurrentIndex(s).value;
      var p := s.projects[i];
      var k := IndexOf(ItemsIn(p, fromId).value, ItemKey, itemId).value;
      var t := TakeAndPut(p, fromId, k, toId);
      MovedProject(s, itemId, fromId, toId, now);
      TakeAndPutBag(p, fromId, k, toId);
      FewerItemsWellFormed(p, t.(updatedAt := now));
      ReplaceWellFormed(s, i, t.(updatedAt := now));
    }
  }

  lemma DeleteItemWellFormed(s: AppState, itemId: Id, container: Option<Id>, now: string)
    requires WellFormed(s)
    ensures WellFormed(DeleteItem(s, itemId, container, now))
  {
    if CurrentIndex(s).Some? {
      var i := CurrentIndex(s).value;
      var p := s.projects[i];
      var q := DeleteItem(s, itemId, container, now).projects[i];
      if ItemsIn(p, container).Some? {
        var xs := ItemsIn(p, container).value;
        var m, mx, mw := multiset(AllItems(p)), multiset(xs), multiset(Without(xs, ItemKey, itemId));
        ContainerInProject(p, container);
        assert mw <= mx <= m;
        assert multiset(AllItems(q)) == m - mx + mw;
        assert m - mx + mw <= m;
      }
      FewerItemsWellFormed(p, q);
      ReplaceWellFormed(s, i, q);
    }
  }

  /** A project whose categories and items are among those of a well-formed
      project is well formed. */
  lemma FewerCategoriesWellFormed(p: Project, q: Project)
    requires ProjectWellFormed(p)
    requires multiset(q.categories) <= multiset(p.categories)
    requires multiset(AllItems(q)) <= multiset(AllItems(p))
    ensures ProjectWellFormed(q)
  {
    UniqueKeysSubBag(q.categories, p.categories, CategoryKey);
    UniqueKeysSubBag(AllItems(q), AllItems(p), ItemKey);
  }

  lemma DeleteCategoryWellFormed(s: AppState, categoryId: Id, moveItemsToPool: bool, now: string)
    requires WellFormed(s)
    ensures WellFormed(DeleteCategory(s, categoryId, moveItemsToPool, now))
  {
    if CurrentIndex(s).Some? {
      var i := CurrentIndex(s).value;
      var p := s.projects[i];
      if IndexOf(p.categories, CategoryKey, categoryId).Some? {
        var q := DeleteCategory(s, categoryId, moveItemsToPool, now).projects[i];
        DeleteCategoryFound(s, categoryId, moveItemsToPool, now);
        assert q.categories == Without(p.categories, CategoryKey, categoryId);
        FewerCategoriesWellFormed(p, q);
        ReplaceWellFormed(s, i, q);
      }
    }
  }

  lemma ClearProjectWellFormed(s: AppState, clearPool: bool, now: string)
    requires WellFormed(s)
    ensures WellFormed(ClearProject(s, clearPool, now))
  {
    if CurrentIndex(s).Some? {
      var i := CurrentIndex(s).value;
      var q := ClearProject(s, clearPool, now).projects[i];
      assert Keys(q.categories, CategoryKey) == [];
      ReplaceWellFormed(s, i, q);
    }
  }

  lemma RenameCategoryWellFormed(s: AppState, categoryId: Id, newName: string, now: string)
    requires WellFormed(s)
    ensures WellFormed(RenameCategory(s, categoryId, newName, now))
  {
    if Trim(newName) != [] && CurrentIndex(s).Some? {
      var i := CurrentIndex(s).value;
      var p := s.projects[i];
      if IndexOf(p.categories, CategoryKey, categoryId).Some? {
        var j := IndexOf(p.categories, CategoryKey, categoryId).value;
        var q := Renamed(p, j, Trim(newName)).(updatedAt := now);
        assert ProjectWellFormed(q);
        ReplaceWellFormed(s, i, q);
      }
    }
  }

  /** Appending an empty category with a new id keeps a project well formed. */
  lemma AppendCategoryWellFormed(p: Project, c: Category)
    requires ProjectWellFormed(p) && c.items == []
    requires forall d | d in p.categories :: d.id != c.id
    ensures ProjectWellFormed(p.(categories := p.categories + [c]))
  {
    var q := p.(categories := p.categories + [c]);
    KeysAppend(p.categories, [c], CategoryKey);
    var ks := Keys(p.categories, CategoryKey);
    assert forall k | 0 <= k < |ks| :: ks[k] != c.id by {
      forall k | 0 <= k < |ks| ensures ks[k] != c.id {
        assert p.categories[k] in p.categories;
      }
    }
    UniqueAppend(ks, [c.id]);
    FlattenAppend(p.categories, [c]);
    assert AllItems(q) == AllItems(p);
  }

  lemma AddCategoryWellFormed(s: AppState, name: string, freshId: Id, now: string)
    requires WellFormed(s) && Unused(s, freshId)
    ensures WellFormed(AddCategory(s, name, freshId, now))
  {
    if AddsCategory(s, name) {
      var i := CurrentIndex(s).value;
      var p := s.projects[i];
      var c := Category(freshId, name, []);
      assert p in s.projects;
      AppendCategoryWellFormed(p, c);
      var q := p.(categories := p.categories + [c]).(updatedAt := now);
      assert AddCategory(s, name, freshId, now) == Replace(s, i, q);
      ReplaceWellFormed(s, i, q);
    }
  }

  /** Ids for the new items of addBulkItems: pairwise distinct and unused. */
  ghost predicate FreshIds(s: AppState, ids: seq<Id>)
  {
    Unique(ids) && forall k | 0 <= k < |ids| :: Unused(s, ids[k])
  }

  /** Appending items whose ids are distinct and new to the pool keeps a
      project well formed. */
  lemma AppendItemsWellFormed(p: Project, added: seq<Item>)
    requires ProjectWellFormed(p) && Unique(Keys(added, ItemKey))
    requires forall x, y | x in AllItems(p) && y in added :: x.id != y.id
    ensures ProjectWellFormed(p.(items := p.items + added))
  {
    var q := p.(items := p.items + added);
    var both := AllItems(p) + added;
    var ks, ns := Keys(AllItems(p), ItemKey), Keys(added, ItemKey);
    assert forall a, b | 0 <= a < |ks| && 0 <= b < |ns| :: ks[a] != ns[b] by {
      forall a, b | 0 <= a < |ks| && 0 <= b < |ns| ensures ks[a] != ns[b] {
        assert AllItems(p)[a] in AllItems(p);
        assert added[b] in added;
      }
    }
    UniqueAppend(ks, ns);
    KeysAppend(AllItems(p), added, ItemKey);
    assert AllItems(q) == p.items + added + Flatten(p.categories);
    assert multiset(AllItems(q)) == multiset(both);
    UniqueKeysSubBag(AllItems(q), both, ItemKey);
  }

  lemma AddBulkItemsWellFormed(s: AppState, text: string, freshIds: seq<Id>, now: string)
    requires WellFormed(s) && FreshIds(s, freshIds)
    requires |freshIds| == |BulkNames(text)|
    ensures WellFormed(AddBulkItems(s, text, freshIds, now))
  {
    if AddsItems(s, text) {
      var i := CurrentIndex(s).value;
      var p := s.projects[i];
      var added := NewItems(freshIds, BulkNames(text));
      assert p in s.projects;
      forall x, y | x in AllItems(p) && y in added ensures x.id != y.id {
        var b :| 0 <= b < |added| && added[b] == y;
        assert Keys(added, ItemKey)[b] == freshIds[b];
        assert Unused(s, freshIds[b]);
      }
      AppendItemsWellFormed(p, added);
      var q := p.(items := p.items + added).(updatedAt := now);
      assert AddBulkItems(s, text, freshIds, now) == Replace(s, i, q);
      ReplaceWellFormed(s, i, q);
    }
  }

  lemma CreateProjectWellFormed(s: AppState, name: string, description: string, freshId: Id,
                                created: string, updated: string)
    requires WellFormed(s) && Unused(s, freshId)
    ensures WellFormed(CreateProject(s, name, description, freshId, created, updated))
  {
    var r := CreateProject(s, name, description, freshId, created, updated);
    var ks := Keys(s.projects, ProjectKey);
    assert forall k | 0 <= k < |ks| :: ks[k] != freshId by {
      forall k | 0 <= k < |ks| ensures ks[k] != freshId {
        assert s.projects[k] in s.projects;
      }
    }
    UniqueAppend(ks, [freshId]);
    KeysAppend(s.projects, [r.projects[|s.projects|]], ProjectKey);
    assert r.projects == s.projects + [r.projects[|s.projects|]];
  }

  lemma DeleteProjectWellFormed(s: AppState, projectId: Id)
    requires WellFormed(s)
    ensures WellFormed(DeleteProject(s, projectId))
  {
    var r := DeleteProject(s, projectId);
    UniqueKeysSubBag(r.projects, s.projects, ProjectKey);
    forall k | 0 <= k < |r.projects| ensures ProjectWellFormed(r.projects[k]) {
      assert r.projects[k] in r.projects;
      var a :| 0 <= a < |s.projects| && s.projects[a] == r.projects[k];
    }
  }

  lemma SelectProjectWellFormed(s: AppState, project: Project)
    requires WellFormed(s)
    ensures WellFormed(SelectProject(s, project)) && WellFormed(Deselect(s))
  {
  }
}
