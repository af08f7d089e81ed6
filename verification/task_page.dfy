/** The task page: the route's category, the page's own snapshot of tasks and
    categories, the counts it hands to the progress header, and the refresh
    counter whose every change reloads the snapshot. */
module TaskPage {
  import opened Wrappers
  import opened Text
  import opened Seqs
  import opened Domain
  import opened TaskUtils
  import ProgressHeader
  import TaskList
  import FilterBar
  import CategorySidebar

  const MsPerDay: int := 86400000

  /** The calendar day an instant falls on, in a zone `offsetMs` milliseconds
      ahead of UTC (the comparison of `toDateString()` values). */
  function LocalDay(ts: int, offsetMs: int): (d: int)
    ensures d * MsPerDay <= ts + offsetMs < d * MsPerDay + MsPerDay
  {
    (ts + offsetMs) / MsPerDay
  }

  /** Two instants on the same day are less than a day apart. */
  lemma SameDayIsWithinADay(a: int, b: int, offsetMs: int)
    requires LocalDay(a, offsetMs) == LocalDay(b, offsetMs)
    ensures -MsPerDay < a - b < MsPerDay
  {
    var d := LocalDay(a, offsetMs);
    assert d * MsPerDay <= a + offsetMs < d * MsPerDay + MsPerDay;
    assert d * MsPerDay <= b + offsetMs < d * MsPerDay + MsPerDay;
  }

  /** The page's `getFilteredTasks`: the whole snapshot without a route
      category, otherwise the tasks of that category in snapshot order. */
  function PageTasks(tasks: seq<Task>, routeId: string): (r: seq<Task>)
    ensures routeId == "" ==> r == tasks
    ensures routeId != "" ==> forall t :: t in r <==> t in tasks && t.categoryId == routeId
    ensures routeId != "" ==>
      forall t :: multiset(r)[t] == if t.categoryId == routeId then multiset(tasks)[t] else 0
    ensures Subsequence(r, tasks)
  {
    SubsequenceReflexive(tasks);
    HoldsSingle(InCategory(routeId));
    if routeId == "" then tasks else Keep(tasks, [InCategory(routeId)])
  }

  /** The page's filter is `filterTasksByCategory` with the route's text, and
      what the list view shows before any search or filter-bar choice. */
  lemma PageTasksAgree(tasks: seq<Task>, routeId: string)
    ensures PageTasks(tasks, routeId) == FilterTasksByCategory(tasks, CategoryText(routeId))
    ensures PageTasks(tasks, routeId)
         == Keep(tasks, TaskList.ActiveCriteria(routeId, "", FilterBar.Cleared))
  {
    assert TaskList.ActiveCriteria(routeId, "", FilterBar.Cleared)
        == if routeId != "" then [InCategory(routeId)] else [];
    KeepNothing(tasks);
  }

  /** The tasks created on the day of `now`, in order. */
  function CreatedToday(s: seq<Task>, now: int, offsetMs: int): (r: seq<Task>)
    ensures forall t :: t in r <==> t in s && LocalDay(t.createdAt, offsetMs) == LocalDay(now, offsetMs)
    ensures forall t :: (multiset(r)[t] ==
      if LocalDay(t.createdAt, offsetMs) == LocalDay(now, offsetMs) then multiset(s)[t] else 0)
    ensures forall t :: t in r ==> -MsPerDay < t.createdAt - now < MsPerDay
    ensures Subsequence(r, s)
    decreases |s|
  {
    if s == [] then []
    else
      var rest := CreatedToday(s[1..], now, offsetMs);
      assert s == [s[0]] + s[1..];
      assert multiset(s) == multiset{s[0]} + multiset(s[1..]);
      if LocalDay(s[0].createdAt, offsetMs) == LocalDay(now, offsetMs) then
        SameDayIsWithinADay(s[0].createdAt, now, offsetMs);
        assert multiset([s[0]] + rest) == multiset{s[0]} + multiset(rest);
        assert ([s[0]] + rest)[1..] == rest;
        [s[0]] + rest
      else rest
  }

  /** The three counts the page hands to the progress header. */
  datatype PageCounts = PageCounts(total: int, completed: int, today: int)

  /** `totalTasks`, `completedTasks` and `todayTasks` over the page's tasks. */
  function Counts(tasks: seq<Task>, routeId: string, now: int, offsetMs: int): (r: PageCounts)
    ensures r.total == |PageTasks(tasks, routeId)|
    ensures r.completed == |Keep(PageTasks(tasks, routeId), [IsCompleted])|
    ensures r.today == |CreatedToday(PageTasks(tasks, routeId), now, offsetMs)|
    ensures 0 <= r.completed <= r.total && 0 <= r.today <= r.total
    ensures r.total <= |tasks|
  {
    var shown := PageTasks(tasks, routeId);
    var today := CreatedToday(shown, now, offsetMs);
    SubsequenceContained(today, shown);
    SubsequenceContained(shown, tasks);
    PageCounts(|shown|, CountCompleted(shown), |today|)
  }

  /** The props the page passes to the progress header. */
  function HeaderProps(c: PageCounts): ProgressHeader.Props {
    ProgressHeader.Props(Some(c.total), Some(c.completed), Some(c.today))
  }

  /** The header's overall percentage for the page's counts is a percentage,
      and the remaining figure is the number of pending tasks shown. */
  lemma HeaderFiguresBounded(tasks: seq<Task>, routeId: string, now: int, offsetMs: int)
    ensures var c := Counts(tasks, routeId, now, offsetMs);
      && 0 <= ProgressHeader.CompletionPercentage(HeaderProps(c)) <= 100
      && ProgressHeader.Remaining(HeaderProps(c)) == |Keep(PageTasks(tasks, routeId), [IsPending])|
  {
    StatusPartition(PageTasks(tasks, routeId));
  }

  /** `currentCategory`: no category without a route id, otherwise the first
      category whose id prints as the route id. */
  function CurrentCategory(categories: seq<Category>, routeId: string): (r: Option<Category>)
    ensures routeId == "" ==> r.None?
    ensures routeId != "" && r.None? ==> forall c :: c in categories ==> IdString(c.Id) != routeId
    ensures r.Some? ==>
      exists i :: 0 <= i < |categories| && categories[i] == r.value && IdString(r.value.Id) == routeId
        && forall j :: 0 <= j < i ==> IdString(categories[j].Id) != routeId
  {
    if routeId == "" then None else FindCategory(categories, routeId)
  }

  /** `categories.find(cat => cat.Id.toString() === routeId)`. */
  function FindCategory(categories: seq<Category>, routeId: string): (r: Option<Category>)
    ensures r.None? ==> forall c :: c in categories ==> IdString(c.Id) != routeId
    ensures r.Some? ==>
      exists i :: 0 <= i < |categories| && categories[i] == r.value && IdString(r.value.Id) == routeId
        && forall j :: 0 <= j < i ==> IdString(categories[j].Id) != routeId
    decreases |categories|
  {
    if categories == [] then None
    else if IdString(categories[0].Id) == routeId then Some(categories[0])
    else
      var r := FindCategory(categories[1..], routeId);
      assert forall c :: c in categories ==> c == categories[0] || c in categories[1..];
      if r.Some? then
        var i :| 0 <= i < |categories[1..]| && categories[1..][i] == r.value && IdString(r.value.Id) == routeId
          && forall j :: 0 <= j < i ==> IdString(categories[1..][j].Id) != routeId;
        assert categories[i + 1] == r.value;
        r
      else r
  }

  /** With distinct ids the route names at most one category, and that one is
      the current category. */
  lemma CurrentCategoryUnique(categories: seq<Category>, routeId: string, c: Category)
    requires DistinctIds(categories)
    requires c in categories && IdString(c.Id) == routeId
    ensures CurrentCategory(categories, routeId) == Some(c)
  {
    var r := CurrentCategory(categories, routeId);
    var i :| 0 <= i < |categories| && categories[i] == r.value && IdString(r.value.Id) == routeId;
    var k :| 0 <= k < |categories| && categories[k] == c;
    IdStringInjective(c.Id, r.value.Id);
    assert i == k;
  }

  /** The sidebar highlights a listed category exactly when the page shows it
      as the current category (with distinct ids). */
  lemma ActiveCardIsCurrentCategory(categories: seq<Category>, routeId: string, c: Category)
    requires DistinctIds(categories) && c in categories
    ensures CategorySidebar.IsActive(routeId, c) <==> CurrentCategory(categories, routeId) == Some(c)
  {
    if CategorySidebar.IsActive(routeId, c) {
      CurrentCategoryUnique(categories, routeId, c);
    }
  }

  class TaskPage {
    /** The route's `categoryId` ("" when the route has none). */
    const routeCategoryId: string
    var tasks: seq<Task>
    var categories: seq<Category>
    var refreshTrigger: nat

    /** The page as first rendered, before its first load. */
    constructor (routeCategoryId: string)
      ensures this.routeCategoryId == routeCategoryId
      ensures tasks == [] && categories == [] && refreshTrigger == 0
    {
      this.routeCategoryId := routeCategoryId;
      tasks, categories := [], [];
      refreshTrigger := 0;
    }

    /** `loadData`, given what both `getAll` calls returned: both collections
        are replaced only when both reads succeeded; a failure is only logged. */
    method LoadData(tasksResult: Fetch<seq<Task>>, categoriesResult: Fetch<seq<Category>>)
      modifies this
      ensures tasksResult.Fetched? && categoriesResult.Fetched? ==>
        tasks == tasksResult.value && categories == categoriesResult.value
      ensures !(tasksResult.Fetched? && categoriesResult.Fetched?) ==>
        tasks == old(tasks) && categories == old(categories)
      ensures refreshTrigger == old(refreshTrigger)
    {
      if tasksResult.Fetched? && categoriesResult.Fetched? {
        tasks := tasksResult.value;
        categories := categoriesResult.value;
      }
    }

    /** `triggerRefresh`: the counter goes up by one, and the change reloads
        the snapshot from the store. It is also what the list's updates and
        both modals' saves call. */
    method TriggerRefresh(tasksResult: Fetch<seq<Task>>, categoriesResult: Fetch<seq<Category>>)
      modifies this
      ensures refreshTrigger == old(refreshTrigger) + 1
      ensures tasksResult.Fetched? && categoriesResult.Fetched? ==>
        tasks == tasksResult.value && categories == categoriesResult.value
      ensures !(tasksResult.Fetched? && categoriesResult.Fetched?) ==>
        tasks == old(tasks) && categories == old(categories)
    {
      refreshTrigger := refreshTrigger + 1;
      LoadData(tasksResult, categoriesResult);
    }

    /** `handleAddTask`, where `create` is what the store's `create` call
        answered for the draft and the two fetches are what the reload that
        follows a success reads. */
    method HandleAddTask(create: Outcome, tasksResult: Fetch<seq<Task>>, categoriesResult: Fetch<seq<Category>>)
      modifies this
      ensures create == Success ==> refreshTrigger == old(refreshTrigger) + 1
      ensures create == Failure ==> refreshTrigger == old(refreshTrigger)
      ensures create == Success && tasksResult.Fetched? && categoriesResult.Fetched? ==>
        tasks == tasksResult.value && categories == categoriesResult.value
      ensures !(create == Success && tasksResult.Fetched? && categoriesResult.Fetched?) ==>
        tasks == old(tasks) && categories == old(categories)
    {
      if create == Success {
        TriggerRefresh(tasksResult, categoriesResult);
      }
    }

    /** The counts shown for the current snapshot at instant `now`. */
    function Summary(now: int, offsetMs: int): (r: PageCounts)
      reads this
      ensures r.total == |PageTasks(tasks, routeCategoryId)|
      ensures r.total - r.completed == |Keep(PageTasks(tasks, routeCategoryId), [IsPending])|
      ensures 0 <= r.completed <= r.total && 0 <= r.today <= r.total
    {
      StatusPartition(PageTasks(tasks, routeCategoryId));
      Counts(tasks, routeCategoryId, now, offsetMs)
    }
  }
}
