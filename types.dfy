/** The records the application keeps (src/types.ts): items, categories that own
    item lists, projects that own an unsorted pool and a list of categories, and
    the application state that holds the projects and the current selection. */
module Types {

  /** Identifiers are the strings `crypto.randomUUID()` produces. */
  type Id = string

  datatype Option<T> = None | Some(value: T)

  datatype Item = Item(id: Id, name: string)

  datatype Category = Category(id: Id, name: string, items: seq<Item>)

  /** `createdAt` and `updatedAt` are ISO-8601 strings; `items` is the unsorted pool. */
  datatype Project = Project(
    id: Id,
    name: string,
    description: string,
    createdAt: string,
    updatedAt: string,
    items: seq<Item>,
    categories: seq<Category>)

  /** `currentProjectId` is `string | null`; None stands for null. */
  datatype AppState = AppState(projects: seq<Project>, currentProjectId: Option<Id>)

  /** The state the application starts from when nothing usable was saved. */
  const InitialState: AppState := AppState([], None)

  // The `.id` of each record, as a function value for the generic searches.
  function ItemKey(x: Item): Id { x.id }
  function CategoryKey(c: Category): Id { c.id }
  function ProjectKey(p: Project): Id { p.id }

  /** JavaScript truthiness of `currentProjectId`: null and "" are both falsy. */
  predicate Truthy(id: Option<Id>)
  {
    id.Some? && id.value != ""
  }
}
