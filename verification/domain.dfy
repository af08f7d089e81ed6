/** The records the task list works on, as the store returns them. */
module Domain {
  import opened Wrappers

  /** A date kept by the store as ISO-8601 text. `at` is the instant the text
      denotes (milliseconds since the epoch); comparisons use `at`, the edit
      form uses `text`. */
  datatype Stamp = Stamp(at: int, text: string)

  /** A task. `categoryId` is the string form of the owning category's id;
      `createdAt` and `completedAt` are instants. */
  datatype Task = Task(
    Id: int,
    title: string,
    description: string,
    categoryId: string,
    priority: string,
    dueDate: Option<Stamp>,
    completed: bool,
    createdAt: int,
    completedAt: Option<int>)

  datatype Category = Category(Id: int, name: string, color: string)

  /** The object a form hands to the store's `create`/`update`. `dueDate` is the
      date text of the form; `completed` is present only when the form sets it. */
  datatype TaskDraft = TaskDraft(
    title: string,
    description: string,
    categoryId: string,
    priority: string,
    dueDate: Option<string>,
    completed: Option<bool>)

  datatype CategoryDraft = CategoryDraft(name: string, color: string)

  /** The four priorities the forms offer. */
  const KnownPriorities: set<string> := {"low", "medium", "high", "urgent"}

  /** No two categories share an id. */
  ghost predicate DistinctIds(categories: seq<Category>) {
    forall i, j :: 0 <= i < j < |categories| ==> categories[i].Id != categories[j].Id
  }
}
