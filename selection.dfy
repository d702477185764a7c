/** The second invariant of the application: a set `currentProjectId` names
    a listed project, so the project view always has a project to show. The
    updaters keep it; deleteProject keeps it by clearing the selection when
    the open project goes (src/App.tsx:77-78). Two entry points do not
    establish it: start-up keeps any truthy saved id, and selectProject does
    not check its argument against the list. */
module Selection {
  import opened Types
  import opened BulkText
  import opened Engine
  import opened SavedState
  import opened UpdateProperties

  /** No project is open, or the open id belongs to a listed project. */
  predicate OpenIsListed(s: AppState)
  {
    s.currentProjectId.None? || CurrentIndex(s).Some?
  }

  /** An updater that changes only the open project keeps the open project
      listed. */
  lemma OnlyCurrentChangedListed(s: AppState, r: AppState)
    requires OnlyCurrentChanged(s, r) && OpenIsListed(s)
    ensures OpenIsListed(r)
  {
    CurrentIndexKept(s, r);
  }

  lemma DeleteProjectListed(s: AppState, projectId: Id)
    requires OpenIsListed(s)
    ensures OpenIsListed(DeleteProject(s, projectId))
  {
    if s.currentProjectId.Some? && s.currentProjectId != Some(projectId) {
      var p := s.projects[CurrentIndex(s).value];
      var r := DeleteProject(s, projectId);
      assert p in r.projects;
      var k :| 0 <= k < |r.projects| && r.projects[k] == p;
    }
  }

  lemma CreateProjectListed(s: AppState, name: string, description: string, freshId: Id,
                            created: string, updated: string)
    requires OpenIsListed(s)
    ensures OpenIsListed(CreateProject(s, name, description, freshId, created, updated))
  {
    var r := CreateProject(s, name, description, freshId, created, updated);
    if CurrentIndex(s).Some? {
      var i := CurrentIndex(s).value;
      assert r.projects[i] == r.projects[..|s.projects|][i] == s.projects[i];
    }
  }

  /** Selecting a listed project, or deselecting, leaves the open project
      listed. */
  lemma SelectProjectListed(s: AppState, project: Project)
    requires project in s.projects
    ensures OpenIsListed(SelectProject(s, project)) && OpenIsListed(Deselect(s))
  {
  }

  lemma AddCategoryListed(s: AppState, name: string, freshId: Id, now: string)
    requires OpenIsListed(s)
    ensures OpenIsListed(AddCategory(s, name, freshId, now))
  {
    OnlyCurrentChangedListed(s, AddCategory(s, name, freshId, now));
  }

  lemma RenameCategoryListed(s: AppState, categoryId: Id, newName: string, now: string)
    requires OpenIsListed(s)
    ensures OpenIsListed(RenameCategory(s, categoryId, newName, now))
  {
    OnlyCurrentChangedListed(s, RenameCategory(s, categoryId, newName, now));
  }

  lemma DeleteCategoryListed(s: AppState, categoryId: Id, moveItemsToPool: bool, now: string)
    requires OpenIsListed(s)
    ensures OpenIsListed(DeleteCategory(s, categoryId, moveItemsToPool, now))
  {
    OnlyCurrentChangedListed(s, DeleteCategory(s, categoryId, moveItemsToPool, now));
  }

  lemma ClearProjectListed(s: AppState, clearPool: bool, now: string)
    requires OpenIsListed(s)
    ensures OpenIsListed(ClearProject(s, clearPool, now))
  {
    OnlyCurrentChangedListed(s, ClearProject(s, clearPool, now));
  }

  lemma DeleteItemListed(s: AppState, itemId: Id, container: Option<Id>, now: string)
    requires OpenIsListed(s)
    ensures OpenIsListed(DeleteItem(s, itemId, container, now))
  {
    OnlyCurrentChangedListed(s, DeleteItem(s, itemId, container, now));
  }

  lemma AddBulkItemsListed(s: AppState, text: string, freshIds: seq<Id>, now: string)
    requires OpenIsListed(s)
    requires |freshIds| == |BulkNames(text)|
    ensures OpenIsListed(AddBulkItems(s, text, freshIds, now))
  {
    OnlyCurrentChangedListed(s, AddBulkItems(s, text, freshIds, now));
  }

  lemma MoveItemListed(s: AppState, itemId: Id, fromId: Option<Id>, toId: Option<Id>, now: string)
    requires OpenIsListed(s)
    ensures OpenIsListed(MoveItem(s, itemId, fromId, toId, now))
  {
    OnlyCurrentChangedListed(s, MoveItem(s, itemId, fromId, toId, now));
  }

  /** Start-up can open a project that is not listed: a saved object with no
      projects and the current id "p". */
  lemma RestoreUnlisted()
    ensures !OpenIsListed(Restore(Object(Some([]), Some("p"))))
  {
    assert Truthy(Some("p"));
  }

  /** selectProject opens whatever project it is given, listed or not. */
  lemma SelectProjectUnlisted()
    ensures !OpenIsListed(SelectProject(AppState([], None), Project("p", "", "", "", "", [], [])))
  {
  }
}
