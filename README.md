# Sortflow project-state engine in Dafny

Sortflow organises named items of a project into categories. Each project
has an unsorted pool of items and a list of categories, and each category
owns its own list of items. Everything the application does to this tree
happens in the `setState` updaters of `src/App.tsx`. This project models
those updaters and proves what they do.

The modelled updaters are: delete, create, select and deselect a project;
add, rename and delete a category; clear a project; delete an item; add
items in bulk from `*`-separated text; move an item between containers. The
model also covers the normalisation of the saved state at start-up.

Layout:

- `types.dfy` (`Types`): the records of `src/types.ts`, and the JavaScript
  truthiness of `currentProjectId`.
- `seqs.dfy` (`Seqs`): `find`/`findIndex`, `filter` and `map` by id, and
  uniqueness of ids.
- `bulk_text.dfy` (`BulkText`): `String.prototype.trim`, `split("*")`, and
  the `split`/`map(trim)`/`filter` pipeline of the bulk box, with its
  round trip.
- `containers.dfy` (`Containers`): a container is the pool (`null`) or the
  first category with an id. This module reads and replaces a container's
  items, and states the invariant that ids are unique.
- `engine.dfy` (`Engine`): each updater as a function from the previous
  state to the next.
- `store.dfy` (`Store`): the state holder as a class whose methods change
  the found project step by step (`find`, `splice`, `push`, the `forEach`
  of clearProject). Each method is proved to agree with its `Engine`
  function.
- `move_properties.dfy`, `update_properties.dfy`: what each updater does,
  container by container.
- `invariants.dfy` (`Invariants`): every updater keeps ids unique, given
  fresh ids from `crypto.randomUUID()`.
- `saved_state.dfy` (`SavedState`): the start-up normalisation.
- `selection.dfy` (`Selection`): the invariant that an open project is a
  listed one, kept by every updater and broken by start-up and by selecting
  an unlisted project.

Three definitions serve as reference definitions and carry no contract of
their own; lemmas characterise them instead:

- `Containers.ItemsIn` reads a container: the pool for `null`, or the first
  category with the id (`Seqs.IndexOf`). `Containers.WithItems` states
  what writing a container back changes.
- `Containers.Flatten` collects the category items in category order.
  `Containers.FlattenAppend` and `Containers.FlattenUpdate` characterise it.
- `SavedState.Saving` is what `JSON.stringify` then `JSON.parse` make of a
  state. `SavedState.RestoreSaving` and `SavedState.RestoreStable` state
  the save-and-restore round trip.

Conventions: `Option<Id>` stands for `string | null`, with `None` as
`null`. `crypto.randomUUID()` becomes a fresh-id parameter. The well-formedness
lemmas require that id to be unused. `new Date().toISOString()` becomes a
timestamp parameter. The updaters read `state.currentProjectId` from the
closure. The model takes it from the state the updater receives.

## Model

| member | source | states |
|---|---|---|
| Seqs.IndexOf | src/App.tsx:300-302 | the result is the first position whose id matches, or None exactly when no element has the id |
| Seqs.Without | src/App.tsx:99-101 | keeps exactly the elements with another id, and yields a sub-multiset of the input |
| Seqs.WithoutAppend | src/App.tsx:99-101 | filtering distributes over concatenation, so it keeps the order of what it keeps |
| Seqs.WithoutUnique | src/App.tsx:76 | with unique ids, filtering out the id at position j removes exactly that element and keeps the others in order |
| Seqs.UniqueByCount | src/types.ts:1-25 | ids are unique exactly when no id occurs more than once in the multiset |
| Seqs.UniqueKeysSubBag | src/types.ts:1-25 | unique ids stay unique in any sub-multiset of the records |
| Seqs.UniqueKeysOnce | src/types.ts:1-25 | in a list whose keys are unique, no element occurs twice |
| BulkText.Trim | src/App.tsx:252 | trim leaves no whitespace at either end |
| BulkText.TrimBlank | src/App.tsx:252 | the trim is empty exactly when the text is all whitespace |
| BulkText.TrimWithin | src/App.tsx:252 | trimming adds no character |
| BulkText.TrimTrimmed | src/App.tsx:252 | a text with no whitespace at either end is its own trim |
| BulkText.TrimLeadingSpace | src/App.tsx:252 | a leading space is trimmed away from a trimmed text |
| BulkText.Split | src/App.tsx:251 | split("*") yields at least one piece, and no piece holds a `*` |
| BulkText.JoinSplit | src/App.tsx:251 | joining the pieces with `*` gives back the text |
| BulkText.SplitJoin | src/App.tsx:251 | splitting `*`-free pieces joined with `*` gives back the pieces |
| BulkText.TrimAndDropEmpty | src/App.tsx:252-253 | there are no more names than pieces |
| BulkText.TrimAndDropEmptyClean | src/App.tsx:252-253 | every kept name is non-empty and trimmed |
| BulkText.TrimAndDropEmptyNone | src/App.tsx:252-253 | no name is kept exactly when every piece is blank |
| BulkText.TrimAndDropEmptyKeeps | src/App.tsx:252-253 | the trim of every piece is kept unless it is empty |
| BulkText.TrimAndDropEmptyFrom | src/App.tsx:252-253 | every kept name is the trim of some piece |
| BulkText.TrimAndDropEmptyNoSeparator | src/App.tsx:251-253 | pieces free of `*` give names free of `*` |
| BulkText.TrimAndDropEmptyAppend | src/App.tsx:250-253 | pieces are processed in order, so names follow the order of the text |
| BulkText.BulkNames | src/App.tsx:250-253 | every name of the bulk box is non-empty, trimmed and free of `*` |
| BulkText.BulkNamesEmpty | src/App.tsx:255 | the bulk box yields no name exactly when the text holds only whitespace and `*` (so "", "   " and "***" yield none) |
| BulkText.BulkNamesJoin | src/App.tsx:250-253 | clean names joined with `*` are parsed back into the same names, in order |
| BulkText.JoinNotBlank | src/App.tsx:248-251 | names joined with `*` whose first name starts with a non-blank character are not blank |
| Containers.FlattenAppend | src/App.tsx:136-138 | collecting category items distributes over concatenation of category lists |
| Containers.FlattenUpdate | src/App.tsx:136-138 | replacing one category changes the collected items only at its place |
| Containers.WithItems | src/App.tsx:161-169 | replacing a container's items changes that container only: the pool or exactly one category's items; every category keeps its id and name, every other category stays, and the multiset of items changes by exactly the old and new lists |
| Containers.ContainerInProject | src/App.tsx:289-309 | a container's items are among the project's items |
| Containers.SpliceOut | src/App.tsx:294-305 | splicing position k out of a container takes exactly that item out of the project's multiset of items |
| Containers.WithSameItems | src/App.tsx:161-169 | giving a container back its own items changes nothing |
| Engine.CurrentIndex | src/App.tsx:215-217 | the open project is the first with the current id; None exactly when there is no current id or no project carries it |
| Engine.DeleteProject | src/App.tsx:68-81 | exactly the projects with another id remain, and the selection becomes null exactly when it was null or named that id |
| Engine.SelectProject | src/App.tsx:208-213 | the projects are unchanged and the given project's id becomes the current id; a listed project becomes the open project |
| Engine.Deselect | src/App.tsx:390 | the projects are unchanged, the current id becomes null, and no project is open |
| Engine.CreateProject | src/App.tsx:178-206 | an empty project with the fresh id, name, description and both timestamps is appended, and the rest stays |
| Engine.AddCategory | src/App.tsx:219-245 | does nothing unless the trimmed name is non-empty, a project is open and no category has the trimmed name; otherwise exactly one empty category with the fresh id and the untrimmed name is appended, and updatedAt is set |
| Engine.Renamed | src/App.tsx:118-121 | exactly category j takes the new name; the other categories, the category ids, the pool and all the items stay |
| Engine.RenameCategory | src/App.tsx:109-126 | only the open project changes, and at most in its categories and updatedAt; its pool and other fields stay |
| Engine.DeleteCategory | src/App.tsx:83-107 | only the open project changes; exactly its categories with another id remain |
| Engine.ClearProject | src/App.tsx:128-151 | the open project is left with no categories and with all its items in the pool, or with none when clearing the pool; updatedAt is set |
| Engine.DeleteItem | src/App.tsx:153-176 | only the open project changes, and its updatedAt is set whenever it exists |
| Engine.NewItems | src/App.tsx:264-267 | one item per name, carrying the given ids and the names in order |
| Engine.AddBulkItems | src/App.tsx:247-273 | does nothing unless the text is not blank, a project is open and the text yields names; otherwise the new items are appended to the pool, categories are unchanged and updatedAt is set |
| Engine.TakeAndPut | src/App.tsx:289-320 | the splice and push change only item lists: every category keeps its id and name, and the only categories that change are the first with the source id and the first with the destination id |
| Engine.MoveItem | src/App.tsx:275-326 | only the open project changes, and nothing at all changes unless the item is found in the source |
| MoveProperties.MoveItemUnchanged | src/App.tsx:280-309 | the state is left as it is, updatedAt included, when no project is open, the source category is missing or holds no item with the id |
| MoveProperties.MoveItemToEnd | src/App.tsx:289-323 | a found item leaves the source and becomes the last element of another existing destination; every other container is unchanged and updatedAt is set |
| MoveProperties.MoveItemSameContainer | src/App.tsx:289-323 | moving into the same container takes the item out and appends it at the end, and nothing else moves |
| MoveProperties.MoveItemConserves | src/App.tsx:289-323 | a move into an existing container keeps the multiset of items of every project |
| MoveProperties.MoveItemLosesItem | src/App.tsx:315-323 | when the destination category is missing, the item leaves the source and the project, every other container is unchanged, and updatedAt is still set |
| MoveProperties.TakeAndPutBag | src/App.tsx:289-320 | the splice and push keep the project's multiset of items when the destination exists and lose exactly the moved item when it does not |
| MoveProperties.TakeAndPutElsewhere | src/App.tsx:289-320 | into another existing container: source minus the item, destination plus the item at the end, others unchanged |
| MoveProperties.TakeAndPutSame | src/App.tsx:289-320 | into the same container: the item is re-appended at the end, others unchanged |
| MoveProperties.TakeAndPutNowhere | src/App.tsx:289-320 | into a missing category: the source loses the item and so does the project, every other container is unchanged; in a well-formed project the item is then gone |
| MoveProperties.PushBag | src/App.tsx:312-321 | pushing onto a container adds exactly that item to the project's multiset of items |
| MoveProperties.MovedProject | src/App.tsx:275-326 | a move that finds its item replaces the open project by the spliced-and-pushed project with updatedAt set |
| MoveProperties.ItemOnce | src/types.ts:1-25 | in a project with unique item ids, no item occurs twice |
| UpdateProperties.CurrentIndexKept | src/App.tsx:89-91 | an updater that changes only the open project keeps which project is open |
| UpdateProperties.DeleteProjectUnknown | src/App.tsx:76 | deleting an id no project carries keeps the project list |
| UpdateProperties.DeleteProjectKeepsOrder | src/App.tsx:76 | with unique project ids, exactly the deleted project goes and the rest keep their order |
| UpdateProperties.DeleteProjectClosesCurrent | src/App.tsx:77-78 | deleting the open project leaves no project open |
| UpdateProperties.DeleteProjectKeepsCurrent | src/App.tsx:77-78 | with unique project ids, deleting another project keeps the open project open |
| UpdateProperties.DeleteCategoryFound | src/App.tsx:93-102 | on an existing category (ids unique): exactly that category goes and the others keep their order; the pool gains its items at the end when moving, and otherwise they leave the project; updatedAt is set |
| UpdateProperties.DropCategory | src/App.tsx:95-101 | the project-level step: the remaining categories and the multiset of items after removing category j |
| UpdateProperties.DeleteCategoryUnknown | src/App.tsx:92-104 | an unknown category id or no open project changes nothing, not even updatedAt |
| UpdateProperties.RenameCategoryBlank | src/App.tsx:110 | a blank name changes nothing |
| UpdateProperties.RenameCategoryUnknown | src/App.tsx:114-122 | an unknown category id or no open project changes nothing, not even updatedAt |
| UpdateProperties.RenameCategoryFound | src/App.tsx:109-126 | with a non-blank name, the first category with the id takes the trimmed name and keeps its items, the others stay, the pool stays and updatedAt is set |
| UpdateProperties.ClearProjectKeepsItems | src/App.tsx:136-140 | without clearing the pool, the pool becomes the old pool followed by each category's items in category order, and no item is lost |
| UpdateProperties.ClearProjectIdempotent | src/App.tsx:128-151 | clearing twice gives the same state as clearing once |
| UpdateProperties.DeleteItemOnlyContainer | src/App.tsx:160-171 | only the named container changes: every category keeps its id and name, no category but the first with the id changes, and that container becomes its old items without those with the id, in order; updatedAt is set |
| Engine.Deleted | src/App.tsx:161-170 | the filter changes only an item list: every category keeps its id and name, and no category but the first with the container id changes |
| UpdateProperties.DeleteItemAbsent | src/App.tsx:160-171 | deleting an id the container does not hold changes only updatedAt |
| UpdateProperties.DeleteItemRemovesOne | src/App.tsx:161-169 | in a well-formed project, deleting the item at position k removes just that item from its container and from the project |
| UpdateProperties.ContainerKeysUnique | src/App.tsx:161-169 | in a well-formed project each container's item ids are unique |
| UpdateProperties.AddCategoryTrimmedOnce | src/App.tsx:230-240 | adding a name without surrounding whitespace a second time changes nothing |
| UpdateProperties.AddCategoryUntrimmedTwice | src/App.tsx:231-239 | adding " Todo" twice stores two categories named " Todo" |
| UpdateProperties.AddBulkItemsBlank | src/App.tsx:248-255 | text of only whitespace and `*` leaves the state unchanged |
| UpdateProperties.AddBulkItemsJoined | src/App.tsx:247-273 | clean names joined with `*` become new pool items with those names, in order, after the existing pool |
| Invariants.ReplaceWellFormed | src/types.ts:1-25 | replacing one project by a well-formed one with the same id keeps the state well formed |
| Invariants.FewerItemsWellFormed | src/types.ts:1-25 | same category ids and a sub-multiset of the items keep a project well formed |
| Invariants.FewerCategoriesWellFormed | src/types.ts:1-25 | a sub-multiset of the categories and of the items keeps a project well formed |
| Invariants.MoveItemWellFormed | src/App.tsx:275-326 | moveItem keeps ids unique |
| Invariants.DeleteItemWellFormed | src/App.tsx:153-176 | deleteItem keeps ids unique |
| Invariants.DeleteCategoryWellFormed | src/App.tsx:83-107 | deleteCategory keeps ids unique |
| Invariants.ClearProjectWellFormed | src/App.tsx:128-151 | clearProject keeps ids unique |
| Invariants.RenameCategoryWellFormed | src/App.tsx:109-126 | renameCategory keeps ids unique |
| Invariants.AddCategoryWellFormed | src/App.tsx:219-245 | with an unused fresh id, addCategory keeps ids unique |
| Invariants.AppendCategoryWellFormed | src/App.tsx:234-239 | appending an empty category with a new id keeps a project well formed |
| Invariants.AddBulkItemsWellFormed | src/App.tsx:247-273 | with distinct unused fresh ids, addBulkItems keeps ids unique |
| Invariants.AppendItemsWellFormed | src/App.tsx:262-268 | appending items with distinct new ids to the pool keeps a project well formed |
| Invariants.CreateProjectWellFormed | src/App.tsx:178-206 | with an unused fresh id, createProject keeps ids unique |
| Invariants.DeleteProjectWellFormed | src/App.tsx:68-81 | deleteProject keeps ids unique |
| Invariants.SelectProjectWellFormed | src/App.tsx:208-213 | selecting or deselecting a project keeps ids unique |
| SavedState.Restore | src/App.tsx:14-30 | a saved object keeps its projects array or gets none, and keeps its current id exactly when that is truthy (otherwise null); a non-object gives the initial state |
| SavedState.RestoreSaving | src/App.tsx:19-23 | saving and restoring gives the state back exactly when the current id is not "" (which comes back as null) |
| SavedState.RestoreStable | src/App.tsx:19-23 | a restored state survives another save and restore unchanged |
| Selection.OnlyCurrentChangedListed | src/App.tsx:89-91 | an updater that changes only the open project keeps the open project listed |
| Selection.DeleteProjectListed | src/App.tsx:68-81 | deleteProject keeps the open project listed, by clearing the selection when it deletes the open project |
| Selection.CreateProjectListed | src/App.tsx:178-206 | createProject keeps the open project listed |
| Selection.SelectProjectListed | src/App.tsx:208-213 | selecting a listed project, or deselecting, leaves the open project listed |
| Selection.AddCategoryListed | src/App.tsx:219-245 | addCategory keeps the open project listed |
| Selection.RenameCategoryListed | src/App.tsx:109-126 | renameCategory keeps the open project listed |
| Selection.DeleteCategoryListed | src/App.tsx:83-107 | deleteCategory keeps the open project listed |
| Selection.ClearProjectListed | src/App.tsx:128-151 | clearProject keeps the open project listed |
| Selection.DeleteItemListed | src/App.tsx:153-176 | deleteItem keeps the open project listed |
| Selection.AddBulkItemsListed | src/App.tsx:247-273 | addBulkItems keeps the open project listed |
| Selection.MoveItemListed | src/App.tsx:275-326 | moveItem keeps the open project listed |
| Selection.RestoreUnlisted | src/App.tsx:19-23 | start-up can open an unlisted project: a saved object with no projects and a truthy current id |
| Selection.SelectProjectUnlisted | src/App.tsx:208-213 | selectProject opens a project that is not listed, since it does not check its argument |
| Store.FindIndex | src/App.tsx:300-302 | the loop finds the first position with the id, or none |
| Store.HasCategoryNamed | src/App.tsx:231-233 | the loop answers whether some category has the name |
| Store.ProjectStore.Load | src/App.tsx:14-30 | the store starts from the restored saved state |
| Store.ProjectStore.FindCurrent | src/App.tsx:89-91 | the open project is found by the loop |
| Store.ProjectStore.AddCategory | src/App.tsx:219-245 | the new state is Engine.AddCategory of the old |
| Store.ProjectStore.RenameCategory | src/App.tsx:109-126 | the new state is Engine.RenameCategory of the old |
| Store.ProjectStore.DeleteCategory | src/App.tsx:83-107 | the new state is Engine.DeleteCategory of the old |
| Store.ProjectStore.ClearProject | src/App.tsx:128-151 | the forEach loop leaves the state Engine.ClearProject gives |
| Store.ProjectStore.DeleteItem | src/App.tsx:153-176 | the new state is Engine.DeleteItem of the old |
| Store.ProjectStore.AddBulkItems | src/App.tsx:247-273 | the new state is Engine.AddBulkItems of the old |
| Store.ProjectStore.MoveItem | src/App.tsx:275-326 | the new state is Engine.MoveItem of the old |
| Store.Splice | src/App.tsx:289-309 | yields the first item with the id and the project without it, or no item and the project unchanged when the source or the item is missing |
| Store.Push | src/App.tsx:311-321 | appends to an existing destination, and changes nothing when the category is missing |
| Store.SpliceAndPush | src/App.tsx:289-321 | the splice and push find the item exactly when the source and the item exist, and then yield the project Engine.TakeAndPut describes; otherwise the project is unchanged |

## Left out

- The JSX rendering, the save-status toast and the new-category input field are presentation only.
- `localStorage`, `JSON.parse`/`JSON.stringify` and the `beforeunload` save are browser I/O. `SavedState.Saved` stands for the parsed value.
- SavedState.Saving: assumes that `JSON.stringify` then `JSON.parse` give back a well-typed state unchanged. Serialisation is not modelled.
- SavedState.Restore: a truthy `currentProjectId` that is not a string (a number, say) is kept by the source. The model's parsed value holds only strings, so it cannot express that case. Elements of a saved `projects` array are taken to be well-typed projects; the source does not check them either.
- The `window.confirm` dialogs of deleteProject and deleteItem belong to the calling layer. The model starts after the user confirmed.
- The drag-and-drop components call these updaters. They never issue a move within one container (src/components/DroppableContainer.tsx:28). The delete-category menu always passes the default `true` (src/App.tsx:509). The model covers every argument anyway.
- Engine.CreateProject: the name is not required to be non-blank. The project form checks that before calling (src/components/ProjectList.tsx:16).
- The project form, the tailwind configuration and the unused storage atom (`src/store/atoms.ts`) are not part of this model.
- The updaters copy the state shallowly (`{ ...prev }`) and then change the found project in place, so the previous state's project object is changed as well. The model gives each state its own project values, so this aliasing is not captured.
- The updaters read `state.currentProjectId` from the render closure, not from `prev`. The model treats it as part of the state the updater receives, so a stale closure is not modelled.
- `crypto.randomUUID()` and `new Date()` are parameters. Their actual values, and whether the ids are unique, are not modelled.
- BulkText.Trim: works on code points. JavaScript strings are UTF-16, which makes no difference for the whitespace set trim removes.
