/** The value mappings of one task card: badge variant and CSS class of a
    priority, the overdue flag, and what a click on the checkbox does. */
module TaskCard {
  import opened Wrappers
  import opened Domain
  import DateUtils
  import TaskUtils

  /** `getPriorityColor`: the badge variant of a priority. */
  function PriorityColor(priority: string): (r: string)
    ensures priority == "low" ==> r == "success"
    ensures priority == "medium" ==> r == "warning"
    ensures priority == "high" ==> r == "accent"
    ensures priority == "urgent" ==> r == "error"
    ensures priority !in KnownPriorities ==> r == "default"
  {
    match priority
    case "low" => "success"
    case "medium" => "warning"
    case "high" => "accent"
    case "urgent" => "error"
    case _ => "default"
  }

  /** `getPriorityClass`: the CSS class of a priority. */
  function PriorityClass(priority: string): (r: string)
    ensures priority in KnownPriorities ==> r == "priority-" + priority
    ensures priority !in KnownPriorities ==> r == ""
  {
    match priority
    case "low" => "priority-low"
    case "medium" => "priority-medium"
    case "high" => "priority-high"
    case "urgent" => "priority-urgent"
    case _ => ""
  }

  /** The badge, the class and the sort weight recognise the same four
      priorities; every other string gets the fallback of each, and the four
      badge variants are distinct. */
  lemma PriorityMappingsAgree(p: string, q: string)
    ensures PriorityColor(p) == "default" <==> PriorityClass(p) == ""
    ensures PriorityClass(p) == "" ==> TaskUtils.PriorityWeight(p) == 1
    ensures p in KnownPriorities && q in KnownPriorities && p != q ==> PriorityColor(p) != PriorityColor(q)
  {
  }

  /** `isOverdue`: `task.dueDate && new Date(task.dueDate) < new Date() && !task.completed`. */
  function CardIsOverdue(task: Task, now: int): (r: bool)
    ensures r ==> !task.completed && task.dueDate.Some?
  {
    task.dueDate.Some? && task.dueDate.value.at < now && !task.completed
  }

  /** The card's flag is the shared overdue predicate, with the due date read
      as one instant (a full ISO timestamp). */
  lemma CardOverdueAgrees(task: Task, now: int)
    ensures CardIsOverdue(task, now) == DateUtils.IsOverdue(task.dueDate, task.completed, now)
  {
  }

  /** What a click on the checkbox does: the id handed to `onToggleComplete`,
      and whether the confetti is shown. */
  datatype ToggleEffect = ToggleEffect(forwardedId: int, confetti: bool)

  function HandleToggleComplete(task: Task): (r: ToggleEffect)
    ensures r.forwardedId == task.Id
    ensures r.confetti <==> !task.completed
  {
    ToggleEffect(task.Id, !task.completed)
  }
}
