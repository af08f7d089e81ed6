/** The overdue predicate and the date sort. Date formatting is not part of
    this model. */
module DateUtils {
  import opened Wrappers
  import opened Domain
  import opened Ordering
  import TaskUtils

  /** `isOverdue(dueDate, completed)` evaluated at instant `now`. */
  function IsOverdue(dueDate: Option<Stamp>, completed: bool := false, now: int): (r: bool)
    ensures completed ==> !r
    ensures dueDate.None? ==> !r
    ensures !completed && dueDate.Some? ==> (r <==> dueDate.value.at < now)
  {
    if dueDate.None? || completed then false else dueDate.value.at < now
  }

  /** The status filter's "overdue" test is this predicate applied to the task's
      own fields, with the due date read as one instant (a full ISO timestamp). */
  lemma OverdueAgreesWithStatusFilter(t: Task, now: int)
    ensures TaskUtils.Holds(TaskUtils.PastDue(now), t) == IsOverdue(t.dueDate, t.completed, now)
  {
  }

  /** The date fields a task can be sorted by. */
  datatype DateField = CreatedAt | DueDate | CompletedAt

  /** `new Date(item[field])` as an instant; an absent date is `null`, which
      `new Date` reads as the epoch. */
  function DateValue(t: Task, field: DateField): int {
    match field
    case CreatedAt => t.createdAt
    case DueDate => if t.dueDate.Some? then t.dueDate.value.at else 0
    case CompletedAt => t.completedAt.GetOr(0)
  }

  function DateKey(field: DateField): Task -> int {
    t => DateValue(t, field)
  }

  /** `sortByDate`: a stable sort of a copy by the named date, oldest first
      unless `ascending` is false. */
  function SortByDate(items: seq<Task>, dateField: DateField := CreatedAt, ascending: bool := true): (r: seq<Task>)
    ensures multiset(r) == multiset(items)
    ensures ascending ==> forall i, j :: 0 <= i < j < |r| ==> DateValue(r[i], dateField) <= DateValue(r[j], dateField)
    ensures !ascending ==> forall i, j :: 0 <= i < j < |r| ==> DateValue(r[i], dateField) >= DateValue(r[j], dateField)
  {
    StableSortCorrect(items, DateKey(dateField), !ascending);
    StableSort(items, DateKey(dateField), !ascending)
  }

  /** Items with the same date keep their input order. */
  lemma SortByDateStable(items: seq<Task>, dateField: DateField, ascending: bool, when: int)
    ensures WithKey(SortByDate(items, dateField, ascending), DateKey(dateField), when)
         == WithKey(items, DateKey(dateField), when)
  {
    StableSortCorrect(items, DateKey(dateField), !ascending);
  }
}
