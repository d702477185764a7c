/** What each updater of src/App.tsx other than moveItem does to the open
    project, stated container by container. */
module UpdateProperties {
  import opened Types
  import opened Seqs
  import opened BulkText
  import opened Containers
  import opened Engine

  /** An updater that changes only the current project keeps every project id
      and the selection, so it keeps which project is current. */
  lemma CurrentIndexKept(s: AppState, r: AppState)
    requires OnlyCurrentChanged(s, r)
    ensures CurrentIndex(r) == CurrentIndex(s)
  {
    forall k | 0 <= k < |s.projects| ensures r.projects[k].id == s.projects[k].id {
      if r.projects[k] != s.projects[k] {
        var p := s.projects[k];
        assert r.projects[k].(items := p.items, categories := p.categories, updatedAt := p.updatedAt) == p;
      }
    }
    assert Keys(r.projects, ProjectKey) == Keys(s.projects, ProjectKey);
    if s.currentProjectId.Some? {
      IndexOfKeys(r.projects, ProjectKey, s.projects, ProjectKey, s.currentProjectId.value);
    }
  }

  /** deleteProject on an id that no project carries keeps the project list;
      the selection is still cleared when it names that id. */
  lemma DeleteProjectUnknown(s: AppState, projectId: Id)
    requires forall k | 0 <= k < |s.projects| :: s.projects[k].id != projectId
    ensures DeleteProject(s, projectId).projects == s.projects
  {
    WithoutAbsent(s.projects, ProjectKey, projectId);
  }

  /** With unique project ids, deleteProject removes exactly the project with
      that id and keeps the others in their order. */
  lemma DeleteProjectKeepsOrder(s: AppState, j: nat)
    requires j < |s.projects|
    requires Unique(Keys(s.projects, ProjectKey))
    ensures DeleteProject(s, s.projects[j].id).projects == s.projects[..j] + s.projects[j + 1..]
  {
    WithoutUnique(s.projects, ProjectKey, j);
  }

  /** Deleting the current project leaves no project open. */
  lemma DeleteProjectClosesCurrent(s: AppState)
    requires s.currentProjectId.Some?
    ensures CurrentIndex(DeleteProject(s, s.currentProjectId.value)).None?
  {
  }

  /** With unique project ids, deleting a project other than the open one
      keeps the open project open. */
  lemma DeleteProjectKeepsCurrent(s: AppState, projectId: Id)
    requires Unique(Keys(s.projects, ProjectKey))
    requires CurrentIndex(s).Some? && s.currentProjectId != Some(projectId)
    ensures var r := DeleteProject(s, projectId);
            CurrentIndex(r).Some? && r.projects[CurrentIndex(r).value] == s.projects[CurrentIndex(s).value]
  {
    var p := s.projects[CurrentIndex(s).value];
    var r := DeleteProject(s, projectId);
    assert p in r.projects;
    assert CurrentIndex(r).Some?;
    var x := r.projects[CurrentIndex(r).value];
    assert x in s.projects;
    UniqueKeyDetermines(s.projects, ProjectKey, x, p);
  }

  /** deleteCategory on the open project, when it has a category with that
      id: the first such category's items join the end of the pool if asked,
      and with unique category ids exactly that category goes, the others
      keeping their order. Moving keeps the project's items; not moving loses
      that category's items. */
  lemma DeleteCategoryFound(s: AppState, categoryId: Id, moveItemsToPool: bool, now: string)
    requires CurrentIndex(s).Some?
    requires IndexOf(s.projects[CurrentIndex(s).value].categories, CategoryKey, categoryId).Some?
    requires Unique(Keys(s.projects[CurrentIndex(s).value].categories, CategoryKey))
    ensures var i := CurrentIndex(s).value;
            var p, q := s.projects[i], DeleteCategory(s, categoryId, moveItemsToPool, now).projects[i];
            var j := IndexOf(p.categories, CategoryKey, categoryId).value;
            && q.items == (if moveItemsToPool then p.items + p.categories[j].items else p.items)
            && q.categories == p.categories[..j] + p.categories[j + 1..]
            && q.updatedAt == now
            && multiset(AllItems(q)) == (if moveItemsToPool then multiset(AllItems(p))
                                         else multiset(AllItems(p)) - multiset(p.categories[j].items))
  {
    var i := CurrentIndex(s).value;
    var p := s.projects[i];
    var j := IndexOf(p.categories, CategoryKey, categoryId).value;
    var pool := if moveItemsToPool then p.items + p.categories[j].items else p.items;
    var t := p.(items := pool, categories := Without(p.categories, CategoryKey, categoryId));
    DropCategory(p, j, moveItemsToPool);
    assert DeleteCategory(s, categoryId, moveItemsToPool, now).projects[i] == t.(updatedAt := now);
  }

  /** The project-level step of deleteCategory, for unique category ids. */
  lemma DropCategory(p: Project, j: nat, moveItemsToPool: bool)
    requires j < |p.categories|
    requires Unique(Keys(p.categories, CategoryKey))
    ensures var cs := p.categories;
            var pool := if moveItemsToPool then p.items + cs[j].items else p.items;
            var q := p.(items := pool, categories := Without(cs, CategoryKey, cs[j].id));
            && q.categories == cs[..j] + cs[j + 1..]
            && multiset(AllItems(q)) == (if moveItemsToPool then multiset(AllItems(p))
                                         else multiset(AllItems(p)) - multiset(cs[j].items))
  {
    var cs := p.categories;
    WithoutUnique(cs, CategoryKey, j);
    FlattenUpdate(cs, j, cs[j]);
    FlattenAppend(cs[..j], cs[j + 1..]);
    var a, b, c := multiset(Flatten(cs[..j])), multiset(cs[j].items), multiset(Flatten(cs[j + 1..]));
    assert multiset(AllItems(p)) == multiset(p.items) + a + b + c;
  }

  /** deleteCategory leaves the state as it is when no project is open or the
      open project has no category with that id. */
  lemma DeleteCategoryUnknown(s: AppState, categoryId: Id, moveItemsToPool: bool, now: string)
    requires CurrentIndex(s).Some? ==>
               forall c | c in s.projects[CurrentIndex(s).value].categories :: c.id != categoryId
    ensures DeleteCategory(s, categoryId, moveItemsToPool, now) == s
  {
    if CurrentIndex(s).Some? {
      var cs := s.projects[CurrentIndex(s).value].categories;
      assert forall k | 0 <= k < |cs| :: cs[k] in cs;
    }
  }

  /** renameCategory with a blank name changes nothing. */
  lemma RenameCategoryBlank(s: AppState, categoryId: Id, newName: string, now: string)
    requires AllWhitespace(newName)
    ensures RenameCategory(s, categoryId, newName, now) == s
  {
    TrimBlank(newName);
  }

  /** renameCategory on a category id the open project does not have, or
      with no project open, changes nothing, not even updatedAt. */
  lemma RenameCategoryUnknown(s: AppState, categoryId: Id, newName: string, now: string)
    requires CurrentIndex(s).Some? ==>
               forall c | c in s.projects[CurrentIndex(s).value].categories :: c.id != categoryId
    ensures RenameCategory(s, categoryId, newName, now) == s
  {
    if CurrentIndex(s).Some? {
      var cs := s.projects[CurrentIndex(s).value].categories;
      assert forall k | 0 <= k < |cs| :: cs[k] in cs;
    }
  }

  /** With a non-blank name, the first category with that id takes the
      trimmed name and keeps its items, and every other category stays as it
      was. */
  lemma RenameCategoryFound(s: AppState, categoryId: Id, newName: string, now: string)
    requires !AllWhitespace(newName) && CurrentIndex(s).Some?
    requires IndexOf(s.projects[CurrentIndex(s).value].categories, CategoryKey, categoryId).Some?
    ensures var i := CurrentIndex(s).value;
            var p, q := s.projects[i], RenameCategory(s, categoryId, newName, now).projects[i];
            var j := IndexOf(p.categories, CategoryKey, categoryId).value;
            && |q.categories| == |p.categories|
            && q.categories[j] == Category(categoryId, Trim(newName), p.categories[j].items)
            && (forall k | 0 <= k < |p.categories| && k != j :: q.categories[k] == p.categories[k])
            && q.items == p.items
            && q.updatedAt == now
  {
    TrimBlank(newName);
    var i := CurrentIndex(s).value;
    var p := s.projects[i];
    var j := IndexOf(p.categories, CategoryKey, categoryId).value;
    assert RenameCategory(s, categoryId, newName, now).projects[i] == Renamed(p, j, Trim(newName)).(updatedAt := now);
  }

  /** Clearing twice is clearing once: the second clear finds no categories
      and, when the pool is kept, the same pool. */
  lemma ClearProjectIdempotent(s: AppState, clearPool: bool, now: string)
    ensures ClearProject(ClearProject(s, clearPool, now), clearPool, now) == ClearProject(s, clearPool, now)
  {
    var r := ClearProject(s, clearPool, now);
    CurrentIndexKept(s, r);
    if CurrentIndex(s).Some? {
      var i := CurrentIndex(s).value;
      var q := r.projects[i];
      assert q.items + Flatten(q.categories) == q.items;
      assert q.(items := q.items, categories := [], updatedAt := now) == q;
    }
  }

  /** With clearPool false, clearProject keeps every item: the pool becomes
      the old pool followed by each category's items in category order. */
  lemma ClearProjectKeepsItems(s: AppState, now: string)
    requires CurrentIndex(s).Some?
    ensures var i := CurrentIndex(s).value;
            var p, q := s.projects[i], ClearProject(s, false, now).projects[i];
            && q.items == p.items + Flatten(p.categories)
            && multiset(AllItems(q)) == multiset(AllItems(p))
  {
  }

  /** deleteItem touches only the named container; when that container
      exists every item with the id leaves it and the others stay in order.
      updatedAt is set either way. */
  lemma DeleteItemOnlyContainer(s: AppState, itemId: Id, container: Option<Id>, now: string)
    requires CurrentIndex(s).Some?
    ensures var i := CurrentIndex(s).value;
            var p, q := s.projects[i], DeleteItem(s, itemId, container, now).projects[i];
            && (forall c | c != container :: ItemsIn(q, c) == ItemsIn(p, c))
            && |q.categories| == |p.categories|
            && (forall k | 0 <= k < |p.categories| :: q.categories[k].(items := p.categories[k].items) == p.categories[k])
            && (forall k | 0 <= k < |p.categories| && q.categories[k] != p.categories[k] ::
                  container.Some? && IndexOf(p.categories, CategoryKey, container.value) == Some(k))
            && (ItemsIn(p, container).None? ==> q.items == p.items && q.categories == p.categories)
            && (ItemsIn(p, container).Some? ==>
                  var xs, ys := ItemsIn(p, container).value, ItemsIn(q, container).value;
                  && ItemsIn(q, container).Some?
                  && ys == Without(xs, ItemKey, itemId)
                  && (forall x | x in ys :: x in xs && x.id != itemId)
                  && (forall k | 0 <= k < |xs| && xs[k].id != itemId :: xs[k] in ys))
            && q.updatedAt == now
  {
    var i := CurrentIndex(s).value;
    var t := Deleted(s.projects[i], itemId, container);
    SameContainers(t, now);
  }

  /** Setting updatedAt leaves every container as it was. */
  lemma SameContainers(p: Project, now: string)
    ensures forall c :: ItemsIn(p.(updatedAt := now), c) == ItemsIn(p, c)
  {
    forall c ensures ItemsIn(p.(updatedAt := now), c) == ItemsIn(p, c) {
    }
  }

  /** deleteItem on an id the container does not hold still sets updatedAt,
      and changes nothing else. */
  lemma DeleteItemAbsent(s: AppState, itemId: Id, container: Option<Id>, now: string)
    requires CurrentIndex(s).Some?
    requires var p := s.projects[CurrentIndex(s).value];
             ItemsIn(p, container).Some? ==> forall x | x in ItemsIn(p, container).value :: x.id != itemId
    ensures var i := CurrentIndex(s).value;
            DeleteItem(s, itemId, container, now) == Replace(s, i, s.projects[i].(updatedAt := now))
  {
    var i := CurrentIndex(s).value;
    var p := s.projects[i];
    if ItemsIn(p, container).Some? {
      var xs := ItemsIn(p, container).value;
      assert forall k | 0 <= k < |xs| :: xs[k] in xs;
      WithoutAbsent(xs, ItemKey, itemId);
      WithSameItems(p, container);
    }
  }

  /** In a well-formed project, deleting the item at position k of a
      container removes exactly that item: the container keeps the others in
      order and the project's multiset of items loses just that one. */
  lemma DeleteItemRemovesOne(s: AppState, container: Option<Id>, k: nat, now: string)
    requires CurrentIndex(s).Some?
    requires ProjectWellFormed(s.projects[CurrentIndex(s).value])
    requires ItemsIn(s.projects[CurrentIndex(s).value], container).Some?
    requires k < |ItemsIn(s.projects[CurrentIndex(s).value], container).value|
    ensures var i := CurrentIndex(s).value;
            var p := s.projects[i];
            var xs := ItemsIn(p, container).value;
            var q := DeleteItem(s, xs[k].id, container, now).projects[i];
            && ItemsIn(q, container) == Some(xs[..k] + xs[k + 1..])
            && multiset(AllItems(q)) == multiset(AllItems(p)) - multiset{xs[k]}
  {
    var i := CurrentIndex(s).value;
    var p := s.projects[i];
    var xs := ItemsIn(p, container).value;
    ContainerKeysUnique(p, container);
    WithoutUnique(xs, ItemKey, k);
    var t := WithItems(p, container, xs[..k] + xs[k + 1..]);
    var q := DeleteItem(s, xs[k].id, container, now).projects[i];
    assert q == t.(updatedAt := now);
    assert ItemsIn(q, container) == ItemsIn(t, container);
    SpliceOut(p, container, k);
  }

  /** In a well-formed project the items of one container have unique ids. */
  lemma ContainerKeysUnique(p: Project, c: Option<Id>)
    requires ProjectWellFormed(p)
    requires ItemsIn(p, c).Some?
    ensures Unique(Keys(ItemsIn(p, c).value, ItemKey))
  {
    var xs := ItemsIn(p, c).value;
    if c.Some? {
      var j := IndexOf(p.categories, CategoryKey, c.value).value;
      FlattenUpdate(p.categories, j, p.categories[j]);
    }
    UniqueKeysSubBag(xs, AllItems(p), ItemKey);
  }

  /** Adding a name with no surrounding whitespace a second time changes
      nothing: the first call stored exactly the name the second call looks
      for. */
  lemma AddCategoryTrimmedOnce(s: AppState, name: string, id1: Id, id2: Id, now1: string, now2: string)
    requires IsTrimmed(name)
    ensures var r := AddCategory(s, name, id1, now1);
            AddCategory(r, name, id2, now2) == r
  {
    var r := AddCategory(s, name, id1, now1);
    CurrentIndexKept(s, r);
    TrimTrimmed(name);
    if AddsCategory(s, name) {
      var i := CurrentIndex(s).value;
      var cs := r.projects[i].categories;
      assert cs[|cs| - 1].name == Trim(name);
    }
  }

  /** The duplicate test looks for the trimmed name but the category keeps
      the name as typed, so a name with a leading space is stored again on
      every call: two categories named " Todo". */
  lemma AddCategoryUntrimmedTwice()
    ensures var s0 := AppState([Project("p", "", "", "t0", "t0", [], [])], Some("p"));
            var s1 := AddCategory(s0, " Todo", "c1", "t1");
            var s2 := AddCategory(s1, " Todo", "c2", "t2");
            s2.projects[0].categories == [Category("c1", " Todo", []), Category("c2", " Todo", [])]
  {
    var s0 := AppState([Project("p", "", "", "t0", "t0", [], [])], Some("p"));
    assert " Todo" == [' '] + "Todo";
    TrimLeadingSpace("Todo");
    assert CurrentIndex(s0) == Some(0);
    var s1 := AddCategory(s0, " Todo", "c1", "t1");
    assert AddsCategory(s0, " Todo");
    assert s1.projects[0].categories == [Category("c1", " Todo", [])];
    CurrentIndexKept(s0, s1);
    assert AddsCategory(s1, " Todo");
  }

  /** Text made only of whitespace and separators adds nothing: "", "   " and
      "***" all leave the state as it is. */
  lemma AddBulkItemsBlank(s: AppState, text: string, freshIds: seq<Id>, now: string)
    requires forall k | 0 <= k < |text| :: IsWhitespace(text[k]) || text[k] == Separator
    requires |freshIds| == |BulkNames(text)|
    ensures AddBulkItems(s, text, freshIds, now) == s
  {
    BulkNamesEmpty(text);
  }

  /** Names that are non-empty, trimmed and free of `*`, typed into the bulk
      box joined by `*`, become new pool items with exactly those names, in
      that order, after the existing pool. */
  lemma AddBulkItemsJoined(s: AppState, names: seq<string>, freshIds: seq<Id>, now: string)
    requires |names| >= 1
    requires forall k | 0 <= k < |names| :: names[k] != [] && IsTrimmed(names[k]) && Separator !in names[k]
    requires Truthy(s.currentProjectId) && CurrentIndex(s).Some?
    requires |freshIds| == |names|
    ensures BulkNames(Join(names)) == names
    ensures var i := CurrentIndex(s).value;
            var p, q := s.projects[i], AddBulkItems(s, Join(names), freshIds, now).projects[i];
            && q.items == p.items + NewItems(freshIds, names)
            && q.categories == p.categories
            && q.updatedAt == now
  {
    BulkNamesJoin(names);
    JoinNotBlank(names);
  }
}
