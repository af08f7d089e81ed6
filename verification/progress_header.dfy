/** The progress header: the overall completion percentage, the "today"
    percentage and the number of remaining tasks, from three counts given by
    the page. The ring geometry drawn from the percentage is not modelled. */
module ProgressHeader {
  import opened Wrappers
  import opened Numbers

  /** The header's props; an absent count defaults to 0. */
  datatype Props = Props(totalTasks: Option<int>, completedTasks: Option<int>, todayTasks: Option<int>)

  function Total(p: Props): int { p.totalTasks.GetOr(0) }
  function Completed(p: Props): int { p.completedTasks.GetOr(0) }
  function Today(p: Props): int { p.todayTasks.GetOr(0) }

  /** `completionPercentage`: completed over total, as a rounded percentage,
      and 0 when there are no tasks. */
  function CompletionPercentage(p: Props): (r: int)
    ensures Total(p) <= 0 ==> r == 0
    ensures Total(p) > 0 ==>
      2 * Total(p) * r - Total(p) <= 200 * Completed(p) < 2 * Total(p) * r + Total(p)
    ensures 0 <= Completed(p) <= Total(p) ==> 0 <= r <= 100
  {
    RoundedPercent(Completed(p), Total(p))
  }

  /** `todayCompletionPercentage`: the completed count over the count of tasks
      created today, as a rounded percentage, and 0 when none was. */
  function TodayCompletionPercentage(p: Props): (r: int)
    ensures Today(p) <= 0 ==> r == 0
    ensures Today(p) > 0 ==>
      2 * Today(p) * r - Today(p) <= 200 * Completed(p) < 2 * Today(p) * r + Today(p)
    ensures 0 <= Completed(p) <= Today(p) ==> 0 <= r <= 100
  {
    RoundedPercent(Completed(p), Today(p))
  }

  /** The "Remaining" figure. */
  function Remaining(p: Props): (r: int)
    ensures r + Completed(p) == Total(p)
    ensures Completed(p) <= Total(p) ==> r >= 0
  {
    Total(p) - Completed(p)
  }

  /** All tasks done gives 100 percent, none done gives 0. */
  lemma CompletionExtremes(p: Props)
    requires Total(p) > 0
    ensures Completed(p) == Total(p) ==> CompletionPercentage(p) == 100
    ensures Completed(p) == 0 ==> CompletionPercentage(p) == 0
  {
    RoundedPercentExtremes(Total(p));
  }

  /** Without props every figure is 0. */
  lemma AbsentCountsGiveZero()
    ensures var p := Props(None, None, None);
      CompletionPercentage(p) == 0 && TodayCompletionPercentage(p) == 0 && Remaining(p) == 0
  {
  }

  /** The today percentage divides the overall completed count by the count of
      tasks created today, so with consistent counts (completed and today both
      at most total) it still exceeds 100: two completed tasks, one of them
      created today, read 200 percent. */
  lemma TodayPercentageExceedsHundred()
    ensures var p := Props(Some(2), Some(2), Some(1));
      Completed(p) <= Total(p) && Today(p) <= Total(p) && TodayCompletionPercentage(p) == 200
  {
  }
}
