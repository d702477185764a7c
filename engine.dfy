/** The project-state mutation engine of src/App.tsx: what each `setState`
    updater turns the previous AppState into. `crypto.randomUUID()` becomes a
    fresh-id parameter and `new Date().toISOString()` a `now` parameter. The
    updaters that mutate the found project in place are also written as
    methods of Store.ProjectStore, which are proved to agree with these
    functions. */
module Engine {
  import opened Types
  import opened Seqs
  import opened BulkText
  import opened Containers

  /** The position of the current project:
      `projects.find(p => p.id === currentProjectId)`. */
  function CurrentIndex(s: AppState): (r: Option<nat>)
    ensures r.Some? ==> r.value < |s.projects| && s.currentProjectId == Some(s.projects[r.value].id)
    ensures r.Some? ==> forall k | 0 <= k < r.value :: s.projects[k].id != s.currentProjectId.value
    ensures r.None? <==> (s.currentProjectId.None? ||
                          forall k | 0 <= k < |s.projects| :: s.projects[k].id != s.currentProjectId.value)
  {
    match s.currentProjectId
    case None => None
    case Some(id) => IndexOf(s.projects, ProjectKey, id)
  }

  /** The state with the project at `i` replaced. */
  function Replace(s: AppState, i: nat, p: Project): AppState
    requires i < |s.projects|
  {
    s.(projects := s.projects[i := p])
  }

  /** `r` differs from `s` at most in the current project's items, categories
      and updatedAt. */
  ghost predicate OnlyCurrentChanged(s: AppState, r: AppState)
  {
    && r.currentProjectId == s.currentProjectId
    && |r.projects| == |s.projects|
    && forall k | 0 <= k < |s.projects| && r.projects[k] != s.projects[k] ::
         && CurrentIndex(s) == Some(k)
         && r.projects[k].(items := s.projects[k].items,
                           categories := s.projects[k].categories,
                           updatedAt := s.projects[k].updatedAt) == s.projects[k]
  }

  /** deleteProject (src/App.tsx:68-81), after the confirmation dialog: every
      project with that id goes, and the selection is cleared exactly when it
      named that id. */
  function DeleteProject(s: AppState, projectId: Id): (r: AppState)
    ensures forall p | p in r.projects :: p in s.projects && p.id != projectId
    ensures forall p | p in s.projects && p.id != projectId :: p in r.projects
    ensures r.currentProjectId.None? <==> (s.currentProjectId.None? || s.currentProjectId == Some(projectId))
    ensures r.currentProjectId.Some? ==> r.currentProjectId == s.currentProjectId
  {
    AppState(Without(s.projects, ProjectKey, projectId),
             if s.currentProjectId == Some(projectId) then None else s.currentProjectId)
  }

  /** selectProject (src/App.tsx:208-213): opens the project passed in. The id
      is not checked against the project list. */
  function SelectProject(s: AppState, project: Project): (r: AppState)
    ensures r.projects == s.projects
    ensures r.currentProjectId == Some(project.id)
    ensures project in s.projects ==>
              CurrentIndex(r).Some? && r.projects[CurrentIndex(r).value].id == project.id
  {
    s.(currentProjectId := Some(project.id))
  }

  /** The "back to projects" button (src/App.tsx:390): no project is open. */
  function Deselect(s: AppState): (r: AppState)
    ensures r.projects == s.projects
    ensures r.currentProjectId == None
    ensures CurrentIndex(r).None?
  {
    s.(currentProjectId := None)
  }

  /** createProject (src/App.tsx:178-206): appends an empty project; its two
      timestamps come from two separate clock readings. The name is not
      validated here; the form does that before calling. */
  function CreateProject(s: AppState, name: string, description: string, freshId: Id,
                         created: string, updated: string): (r: AppState)
    ensures r.currentProjectId == s.currentProjectId
    ensures |r.projects| == |s.projects| + 1 && r.projects[..|s.projects|] == s.projects
    ensures r.projects[|s.projects|] == Project(freshId, name, description, created, updated, [], [])
  {
    s.(projects := s.projects + [Project(freshId, name, description, created, updated, [], [])])
  }

  /** Whether addCategory would add: the trimmed name is not empty, a project
      is open, and no category of it is named like the trimmed name. */
  predicate AddsCategory(s: AppState, name: string)
  {
    && Trim(name) != []
    && Truthy(s.currentProjectId)
    && CurrentIndex(s).Some?
    && var p := s.projects[CurrentIndex(s).value];
       forall j | 0 <= j < |p.categories| :: p.categories[j].name != Trim(name)
  }

  /** addCategory (src/App.tsx:219-245). The duplicate test compares with the
      trimmed name, but the category keeps the name as typed. */
  function AddCategory(s: AppState, name: string, freshId: Id, now: string): (r: AppState)
    ensures OnlyCurrentChanged(s, r)
    ensures !AddsCategory(s, name) ==> r == s
    ensures AddsCategory(s, name) ==>
              var i := CurrentIndex(s).value;
              && r.projects[i].categories == s.projects[i].categories + [Category(freshId, name, [])]
              && r.projects[i].items == s.projects[i].items
              && r.projects[i].updatedAt == now
  {
    if !AddsCategory(s, name) then s
    else
      var i := CurrentIndex(s).value;
      var p := s.projects[i];
      Replace(s, i, p.(categories := p.categories + [Category(freshId, name, [])], updatedAt := now))
  }

  /** Category j of `p` takes the name `name`; nothing else changes. */
  function Renamed(p: Project, j: nat, name: string): (q: Project)
    requires j < |p.categories|
    ensures |q.categories| == |p.categories|
    ensures q.categories[j] == p.categories[j].(name := name)
    ensures forall k | 0 <= k < |p.categories| && k != j :: q.categories[k] == p.categories[k]
    ensures q.(categories := p.categories) == p
    ensures Keys(q.categories, CategoryKey) == Keys(p.categories, CategoryKey)
    ensures AllItems(q) == AllItems(p)
  {
    var cs := p.categories[j := p.categories[j].(name := name)];
    FlattenUpdate(p.categories, j, cs[j]);
    assert Keys(cs, CategoryKey) == Keys(p.categories, CategoryKey);
    p.(categories := cs)
  }

  /** renameCategory (src/App.tsx:109-126): the first category with that id
      of the current project takes the trimmed new name. Other categories'
      names are not checked. */
  function RenameCategory(s: AppState, categoryId: Id, newName: string, now: string): (r: AppState)
    ensures OnlyCurrentChanged(s, r)
    ensures CurrentIndex(s).Some? ==>
              var i := CurrentIndex(s).value;
              r.projects[i].(categories := s.projects[i].categories, updatedAt := s.projects[i].updatedAt) == s.projects[i]
  {
    if Trim(newName) == [] then s
    else match CurrentIndex(s)
      case None => s
      case Some(i) =>
        var p := s.projects[i];
        match IndexOf(p.categories, CategoryKey, categoryId)
        case None => s
        case Some(j) => Replace(s, i, Renamed(p, j, Trim(newName)).(updatedAt := now))
  }

  /** deleteCategory (src/App.tsx:83-107): when the current project has a
      category with that id, the first such category's items are appended to
      the pool if `moveItemsToPool`, and every category with that id is
      removed. */
  function DeleteCategory(s: AppState, categoryId: Id, moveItemsToPool: bool, now: string): (r: AppState)
    ensures OnlyCurrentChanged(s, r)
    ensures CurrentIndex(s).Some? ==>
              var p, q := s.projects[CurrentIndex(s).value], r.projects[CurrentIndex(s).value];
              && (forall c | c in q.categories :: c in p.categories && c.id != categoryId)
              && (forall k | 0 <= k < |p.categories| && p.categories[k].id != categoryId :: p.categories[k] in q.categories)
  {
    match CurrentIndex(s)
    case None => s
    case Some(i) =>
      var p := s.projects[i];
      match IndexOf(p.categories, CategoryKey, categoryId)
      case None => s
      case Some(j) =>
        var pool := if moveItemsToPool then p.items + p.categories[j].items else p.items;
        Replace(s, i, p.(items := pool,
                         categories := Without(p.categories, CategoryKey, categoryId),
                         updatedAt := now))
  }

  /** clearProject (src/App.tsx:128-151): every category's items go to the
      pool in category order, the categories go, and with `clearPool` the
      pool is emptied too. */
  function ClearProject(s: AppState, clearPool: bool, now: string): (r: AppState)
    ensures OnlyCurrentChanged(s, r)
    ensures CurrentIndex(s).Some? ==>
              var i := CurrentIndex(s).value;
              && r.projects[i].categories == []
              && AllItems(r.projects[i]) == (if clearPool then [] else AllItems(s.projects[i]))
              && r.projects[i].updatedAt == now
  {
    match CurrentIndex(s)
    case None => s
    case Some(i) =>
      var p := s.projects[i];
      Replace(s, i, p.(items := if clearPool then [] else p.items + Flatten(p.categories),
                       categories := [],
                       updatedAt := now))
  }

  /** deleteItem (src/App.tsx:153-176), after the confirmation dialog: the
      named container (the pool for None) loses every item with that id; the
      project's updatedAt is set whenever the project exists, even when
      nothing was removed. */
  function DeleteItem(s: AppState, itemId: Id, container: Option<Id>, now: string): (r: AppState)
    ensures OnlyCurrentChanged(s, r)
    ensures CurrentIndex(s).Some? ==> r.projects[CurrentIndex(s).value].updatedAt == now
  {
    match CurrentIndex(s)
    case None => s
    case Some(i) => Replace(s, i, Deleted(s.projects[i], itemId, container).(updatedAt := now))
  }

  /** The project with every item with that id gone from the container,
      when the container exists. */
  function Deleted(p: Project, itemId: Id, container: Option<Id>): (q: Project)
    ensures q.(items := p.items, categories := p.categories) == p
    ensures |q.categories| == |p.categories|
    ensures forall k | 0 <= k < |p.categories| :: q.categories[k].(items := p.categories[k].items) == p.categories[k]
    ensures forall k | 0 <= k < |p.categories| && q.categories[k] != p.categories[k] ::
              container.Some? && IndexOf(p.categories, CategoryKey, container.value) == Some(k)
  {
    match ItemsIn(p, container)
    case None => p
    case Some(xs) => WithItems(p, container, Without(xs, ItemKey, itemId))
  }

  /** The items addBulkItems creates: one per name, with the matching id. */
  function NewItems(ids: seq<Id>, names: seq<string>): (r: seq<Item>)
    requires |ids| == |names|
    ensures |r| == |names|
    ensures Keys(r, ItemKey) == ids
    ensures forall k | 0 <= k < |r| :: r[k].name == names[k]
  {
    seq(|names|, k requires 0 <= k < |names| => Item(ids[k], names[k]))
  }

  /** Whether addBulkItems would add: the text is not blank, a project is
      open, and the text yields at least one name. */
  predicate AddsItems(s: AppState, text: string)
  {
    && Trim(text) != []
    && Truthy(s.currentProjectId)
    && BulkNames(text) != []
    && CurrentIndex(s).Some?
  }

  /** addBulkItems (src/App.tsx:247-273): one new item per name the text
      yields, appended to the pool in text order. */
  function AddBulkItems(s: AppState, text: string, freshIds: seq<Id>, now: string): (r: AppState)
    requires |freshIds| == |BulkNames(text)|
    ensures OnlyCurrentChanged(s, r)
    ensures !AddsItems(s, text) ==> r == s
    ensures AddsItems(s, text) ==>
              var i := CurrentIndex(s).value;
              && r.projects[i].items == s.projects[i].items + NewItems(freshIds, BulkNames(text))
              && r.projects[i].categories == s.projects[i].categories
              && r.projects[i].updatedAt == now
  {
    if !AddsItems(s, text) then s
    else
      var i := CurrentIndex(s).value;
      var p := s.projects[i];
      Replace(s, i, p.(items := p.items + NewItems(freshIds, BulkNames(text)), updatedAt := now))
  }

  /** Whether moveItem finds the item: a project is open, the source
      container exists and holds an item with that id. */
  predicate FindsItem(s: AppState, itemId: Id, fromId: Option<Id>)
  {
    && Truthy(s.currentProjectId)
    && CurrentIndex(s).Some?
    && ItemsIn(s.projects[CurrentIndex(s).value], fromId).Some?
    && IndexOf(ItemsIn(s.projects[CurrentIndex(s).value], fromId).value, ItemKey, itemId).Some?
  }

  /** The splice and push of moveItem on one project: the item at position
      `k` of the source leaves it and is appended to the destination, which is
      looked up after the splice; no destination, no append. */
  function TakeAndPut(p: Project, fromId: Option<Id>, k: nat, toId: Option<Id>): (q: Project)
    requires ItemsIn(p, fromId).Some? && k < |ItemsIn(p, fromId).value|
    ensures q.(items := p.items, categories := p.categories) == p
    ensures Keys(q.categories, CategoryKey) == Keys(p.categories, CategoryKey)
    ensures |q.categories| == |p.categories|
    ensures forall k | 0 <= k < |p.categories| :: q.categories[k].(items := p.categories[k].items) == p.categories[k]
    ensures forall k | 0 <= k < |p.categories| && q.categories[k] != p.categories[k] ::
              || (fromId.Some? && IndexOf(p.categories, CategoryKey, fromId.value) == Some(k))
              || (toId.Some? && IndexOf(p.categories, CategoryKey, toId.value) == Some(k))
  {
    var xs := ItemsIn(p, fromId).value;
    var p1 := WithItems(p, fromId, xs[..k] + xs[k + 1..]);
    match ItemsIn(p1, toId)
    case None => p1
    case Some(ys) => WithItems(p1, toId, ys + [xs[k]])
  }

  /** moveItem (src/App.tsx:275-326): the first item with that id is spliced
      out of the source container and pushed onto the destination. When the
      destination category does not exist the item is pushed nowhere, and
      updatedAt is still set. */
  function MoveItem(s: AppState, itemId: Id, fromId: Option<Id>, toId: Option<Id>, now: string): (r: AppState)
    ensures OnlyCurrentChanged(s, r)
    ensures !FindsItem(s, itemId, fromId) ==> r == s
  {
    if !FindsItem(s, itemId, fromId) then s
    else
      var i := CurrentIndex(s).value;
      var p := s.projects[i];
      var k := IndexOf(ItemsIn(p, fromId).value, ItemKey, itemId).value;
      Replace(s, i, TakeAndPut(p, fromId, k, toId).(updatedAt := now))
  }
}
