/** The state holder of src/App.tsx as an object: the fields of AppState,
    and the updaters that find the current project and then change it step
    by step (`push`, `splice`, field assignments, the `forEach` of
    clearProject). Each method is proved to leave the state that the
    matching Engine function describes, so every property proved of Engine
    holds of these methods. */
module Store {
  import opened Types
  import opened Seqs
  import opened BulkText
  import opened Containers
  import opened Engine
  import opened SavedState

  /** `find`/`findIndex(x => key(x) === id)` as a loop; None is -1 or
      undefined. */
  method FindIndex<T>(s: seq<T>, key: T -> Id, id: Id) returns (r: Option<nat>)
    ensures r == IndexOf(s, key, id)
  {
    var n := 0;
    while n < |s|
      invariant n <= |s|
      invariant forall k | 0 <= k < n :: key(s[k]) != id
    {
      if key(s[n]) == id {
        return Some(n);
      }
      n := n + 1;
    }
    return None;
  }

  /** `categories.some(cat => cat.name === name)` as a loop. */
  method HasCategoryNamed(cs: seq<Category>, name: string) returns (b: bool)
    ensures b <==> exists j | 0 <= j < |cs| :: cs[j].name == name
  {
    b := false;
    var n := 0;
    while n < |cs| && !b
      invariant n <= |cs|
      invariant b <==> exists j | 0 <= j < n :: cs[j].name == name
    {
      b := cs[n].name == name;
      n := n + 1;
    }
  }

  class ProjectStore {
    var projects: seq<Project>
    var currentProjectId: Option<Id>

    function State(): AppState
      reads this
    {
      AppState(projects, currentProjectId)
    }

    /** The useState initialiser. */
    constructor Load(saved: Saved)
      ensures State() == Restore(saved)
    {
      var s := Restore(saved);
      projects := s.projects;
      currentProjectId := s.currentProjectId;
    }

    /** `projects.find(p => p.id === currentProjectId)`. */
    method FindCurrent() returns (r: Option<nat>)
      ensures r == CurrentIndex(State())
    {
      match currentProjectId
      case None => r := None;
      case Some(id) => r := FindIndex(projects, ProjectKey, id);
    }

    /** addCategory (src/App.tsx:219-245). */
    method AddCategory(name: string, freshId: Id, now: string)
      modifies this
      ensures State() == Engine.AddCategory(old(State()), name, freshId, now)
    {
      if Trim(name) == [] || !Truthy(currentProjectId) {
        return;
      }
      var i := FindCurrent();
      if i.Some? {
        var p := projects[i.value];
        var found := HasCategoryNamed(p.categories, Trim(name));
        if !found {
          p := p.(categories := p.categories + [Category(freshId, name, [])]);
          p := p.(updatedAt := now);
          projects := projects[i.value := p];
        }
      }
    }

    /** renameCategory (src/App.tsx:109-126). */
    method RenameCategory(categoryId: Id, newName: string, now: string)
      modifies this
      ensures State() == Engine.RenameCategory(old(State()), categoryId, newName, now)
    {
      if Trim(newName) == [] {
        return;
      }
      var i := FindCurrent();
      if i.Some? {
        var p := projects[i.value];
        var j := FindIndex(p.categories, CategoryKey, categoryId);
        if j.Some? {
          p := p.(categories := p.categories[j.value := p.categories[j.value].(name := Trim(newName))]);
          assert p == Renamed(projects[i.value], j.value, Trim(newName));
          p := p.(updatedAt := now);
          projects := projects[i.value := p];
        }
      }
    }

    /** deleteCategory (src/App.tsx:83-107). */
    method DeleteCategory(categoryId: Id, moveItemsToPool: bool, now: string)
      modifies this
      ensures State() == Engine.DeleteCategory(old(State()), categoryId, moveItemsToPool, now)
    {
      var i := FindCurrent();
      if i.Some? {
        var p := projects[i.value];
        var j := FindIndex(p.categories, CategoryKey, categoryId);
        if j.Some? {
          if moveItemsToPool {
            p := p.(items := p.items + p.categories[j.value].items);
          }
          p := p.(categories := Without(p.categories, CategoryKey, categoryId));
          p := p.(updatedAt := now);
          projects := projects[i.value := p];
        }
      }
    }

    /** clearProject (src/App.tsx:128-151): the `forEach` pushes each
        category's items onto the pool in turn. */
    method ClearProject(clearPool: bool, now: string)
      modifies this
      ensures State() == Engine.ClearProject(old(State()), clearPool, now)
    {
      var i := FindCurrent();
      if i.Some? {
        var p := projects[i.value];
        var cs := p.categories;
        var n := 0;
        while n < |cs|
          invariant n <= |cs|
          invariant projects == old(projects) && currentProjectId == old(currentProjectId)
          invariant p.categories == cs
          invariant p.items == projects[i.value].items + Flatten(cs[..n])
          invariant p.(items := projects[i.value].items) == projects[i.value]
        {
          assert cs[..n + 1] == cs[..n] + [cs[n]];
          FlattenAppend(cs[..n], [cs[n]]);
          p := p.(items := p.items + cs[n].items);
          n := n + 1;
        }
        assert cs[..n] == cs;
        p := p.(categories := []);
        if clearPool {
          p := p.(items := []);
        }
        p := p.(updatedAt := now);
        projects := projects[i.value := p];
      }
    }

    /** deleteItem (src/App.tsx:153-176). */
    method DeleteItem(itemId: Id, container: Option<Id>, now: string)
      modifies this
      ensures State() == Engine.DeleteItem(old(State()), itemId, container, now)
    {
      var i := FindCurrent();
      if i.Some? {
        var p := projects[i.value];
        match container {
          case None =>
            p := p.(items := Without(p.items, ItemKey, itemId));
          case Some(categoryId) =>
            var j := FindIndex(p.categories, CategoryKey, categoryId);
            if j.Some? {
              var c := p.categories[j.value];
              p := p.(categories := p.categories[j.value := c.(items := Without(c.items, ItemKey, itemId))]);
            }
        }
        p := p.(updatedAt := now);
        projects := projects[i.value := p];
      }
    }

    /** addBulkItems (src/App.tsx:247-273). */
    method AddBulkItems(text: string, freshIds: seq<Id>, now: string)
      requires |freshIds| == |BulkNames(text)|
      modifies this
      ensures State() == Engine.AddBulkItems(old(State()), text, freshIds, now)
    {
      if Trim(text) == [] || !Truthy(currentProjectId) {
        return;
      }
      var names := BulkNames(text);
      if names == [] {
        return;
      }
      var i := FindCurrent();
      if i.Some? {
        var p := projects[i.value];
        p := p.(items := p.items + NewItems(freshIds, names));
        p := p.(updatedAt := now);
        projects := projects[i.value := p];
      }
    }

    /** moveItem (src/App.tsx:275-326): `splice` the item out of the source,
        then `push` it onto the destination if that exists. */
    method MoveItem(itemId: Id, fromId: Option<Id>, toId: Option<Id>, now: string)
      modifies this
      ensures State() == Engine.MoveItem(old(State()), itemId, fromId, toId, now)
    {
      var i := FindCurrent();
      if Truthy(currentProjectId) && i.Some? {
        var found, p := SpliceAndPush(projects[i.value], fromId, itemId, toId);
        if found {
          projects := projects[i.value := p.(updatedAt := now)];
        }
      }
    }
  }

  /** The body of moveItem once the project is found: splice the item out of
      the source container and push it onto the destination. Nothing is found
      when the source category or the item is missing. */
  method SpliceAndPush(p: Project, fromId: Option<Id>, itemId: Id, toId: Option<Id>)
    returns (found: bool, q: Project)
    ensures found <==> ItemsIn(p, fromId).Some? && IndexOf(ItemsIn(p, fromId).value, ItemKey, itemId).Some?
    ensures found ==> q == TakeAndPut(p, fromId, IndexOf(ItemsIn(p, fromId).value, ItemKey, itemId).value, toId)
    ensures !found ==> q == p
  {
    var item;
    item, q := Splice(p, fromId, itemId);
    found := item.Some?;
    if found {
      q := Push(q, toId, item.value);
    }
  }

  /** The first half of moveItem: `findIndex` and `splice` on the source
      container. No item when the source category or the item is missing. */
  method Splice(p: Project, fromId: Option<Id>, itemId: Id) returns (item: Option<Item>, q: Project)
    ensures item.None? <==> ItemsIn(p, fromId).None? || IndexOf(ItemsIn(p, fromId).value, ItemKey, itemId).None?
    ensures item.None? ==> q == p
    ensures item.Some? ==>
              var xs := ItemsIn(p, fromId).value;
              var k := IndexOf(xs, ItemKey, itemId).value;
              && item.value == xs[k] && item.value.id == itemId
              && q == WithItems(p, fromId, xs[..k] + xs[k + 1..])
  {
    item, q := None, p;
    match fromId {
      case None =>
        var found := FindIndex(p.items, ItemKey, itemId);
        if found.Some? {
          var k := found.value;
          item := Some(p.items[k]);
          q := p.(items := p.items[..k] + p.items[k + 1..]);
        }
      case Some(categoryId) =>
        var j := FindIndex(p.categories, CategoryKey, categoryId);
        if j.Some? {
          var c := p.categories[j.value];
          var found := FindIndex(c.items, ItemKey, itemId);
          if found.Some? {
            var k := found.value;
            item := Some(c.items[k]);
            q := p.(categories := p.categories[j.value := c.(items := c.items[..k] + c.items[k + 1..])]);
          }
        }
    }
  }

  /** The second half of moveItem: `push` onto the destination container,
      or nothing when no category has that id. */
  method Push(p: Project, toId: Option<Id>, x: Item) returns (q: Project)
    ensures ItemsIn(p, toId).None? ==> q == p
    ensures ItemsIn(p, toId).Some? ==> q == WithItems(p, toId, ItemsIn(p, toId).value + [x])
  {
    q := p;
    match toId {
      case None =>
        q := p.(items := p.items + [x]);
      case Some(categoryId) =>
        var j := FindIndex(p.categories, CategoryKey, categoryId);
        if j.Some? {
          var c := p.categories[j.value];
          q := p.(categories := p.categories[j.value := c.(items := c.items + [x])]);
        }
    }
  }
}
