/** Start-up (src/App.tsx:14-30): the state is restored from what was saved
    under "sortflowState", after a light normalisation of the parsed value.
    Reading storage and parsing JSON are not modelled; the parsed value is
    given as a `Saved`. */
module SavedState {
  import opened Types

  /** What start-up finds. `Missing` is an absent or empty saved string,
      `Unparsable` a string JSON.parse rejects, `NotAnObject` a parsed null,
      number, string or boolean. For an object, `projects` is None when the
      field is not an array, and `currentProjectId` is None when the field is
      absent, null or another falsy non-string value. */
  datatype Saved =
    | Missing
    | Unparsable
    | NotAnObject
    | Object(projects: Option<seq<Project>>, currentProjectId: Option<Id>)

  /** The useState initialiser: a saved object keeps its projects array (or
      gets []) and its current id when that is truthy (or gets null);
      anything else yields the initial state. */
  function Restore(saved: Saved): (r: AppState)
    ensures r.currentProjectId.Some? ==> Truthy(r.currentProjectId)
    ensures saved.Object? ==>
              r.currentProjectId == (if Truthy(saved.currentProjectId) then saved.currentProjectId else None)
    ensures r.projects == (if saved.Object? && saved.projects.Some? then saved.projects.value else [])
    ensures !saved.Object? ==> r == InitialState
  {
    match saved
    case Object(projects, currentProjectId) =>
      AppState(
        match projects case Some(ps) => ps case None => [],
        if Truthy(currentProjectId) then currentProjectId else None)
    case _ => InitialState
  }

  /** What JSON.stringify then JSON.parse make of a state. */
  function Saving(s: AppState): Saved
  {
    Object(Some(s.projects), s.currentProjectId)
  }

  /** Saving and restoring gives the state back, except that an empty
      current id comes back as null. */
  lemma RestoreSaving(s: AppState)
    ensures Restore(Saving(s)) == s <==> s.currentProjectId != Some("")
    ensures Restore(Saving(s)) == s.(currentProjectId := if Truthy(s.currentProjectId) then s.currentProjectId else None)
  {
  }

  /** A restored state survives another save and restore unchanged. */
  lemma RestoreStable(saved: Saved)
    ensures Restore(Saving(Restore(saved))) == Restore(saved)
  {
    RestoreSaving(Restore(saved));
  }
}
