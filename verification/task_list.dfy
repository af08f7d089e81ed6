/** The task list view: its snapshot of tasks and categories, the load state,
    completion toggling and deletion through the store, and the combined
    filter that decides which tasks are shown, split into pending and
    completed. */
module TaskList {
  import opened Wrappers
  import opened Text
  import opened Seqs
  import opened Domain
  import opened TaskUtils
  import opened FilterBar
  import TaskCard

  const LoadError: string := "Failed to load tasks. Please try again."

  // ---------------------------------------------------------------- snapshot updates

  /** The task `handleToggleComplete` computes locally: completion flipped,
      `completedAt` set to `now` when it becomes completed and cleared otherwise. */
  function Toggled(t: Task, now: int): (r: Task)
    ensures r.completed == !t.completed
    ensures r.completed ==> r.completedAt == Some(now)
    ensures !r.completed ==> r.completedAt == None
    ensures r.(completed := t.completed, completedAt := t.completedAt) == t
  {
    t.(completed := !t.completed, completedAt := if !t.completed then Some(now) else None)
  }

  /** Toggling a pending task twice gives it back with no completion time. */
  lemma ToggleTwice(t: Task, now1: int, now2: int)
    requires !t.completed
    ensures Toggled(t, now1).completedAt == Some(now1)
    ensures Toggled(Toggled(t, now1), now2) == t.(completedAt := None)
  {
  }

  /** The card raises its confetti exactly when the toggle completes the task. */
  lemma ConfettiWhenCompleting(t: Task, now: int)
    ensures TaskCard.HandleToggleComplete(t).confetti == Toggled(t, now).completed
  {
  }

  /** `tasks.find(t => t.Id === id)`: the first task with that id. */
  function FindById(s: seq<Task>, id: int): (r: Option<Task>)
    ensures r.None? <==> forall t :: t in s ==> t.Id != id
    ensures r.Some? ==>
      exists i :: 0 <= i < |s| && s[i] == r.value && r.value.Id == id && forall j :: 0 <= j < i ==> s[j].Id != id
    decreases |s|
  {
    if s == [] then None
    else if s[0].Id == id then Some(s[0])
    else
      var r := FindById(s[1..], id);
      assert forall t :: t in s[1..] ==> t in s;
      assert s[0] !in s[1..] ==> forall t :: t in s ==> t == s[0] || t in s[1..];
      if r.Some? then
        var i :| 0 <= i < |s[1..]| && s[1..][i] == r.value && r.value.Id == id
          && forall j :: 0 <= j < i ==> s[1..][j].Id != id;
        assert s[i + 1] == r.value;
        r
      else r
  }

  /** `tasks.map(t => t.Id === id ? u : t)`. */
  function ReplaceById(s: seq<Task>, id: int, u: Task): (r: seq<Task>)
    ensures |r| == |s|
    ensures forall i :: 0 <= i < |s| ==> r[i] == if s[i].Id == id then u else s[i]
  {
    seq(|s|, i requires 0 <= i < |s| => if s[i].Id == id then u else s[i])
  }

  /** `tasks.filter(t => t.Id !== id)`. */
  function RemoveById(s: seq<Task>, id: int): (r: seq<Task>)
    ensures forall t :: t in r <==> t in s && t.Id != id
    ensures forall t: Task :: t.Id != id ==> multiset(r)[t] == multiset(s)[t]
    ensures Subsequence(r, s)
    decreases |s|
  {
    if s == [] then []
    else
      var rest := RemoveById(s[1..], id);
      assert s == [s[0]] + s[1..];
      if s[0].Id != id then
        assert ([s[0]] + rest)[1..] == rest;
        [s[0]] + rest
      else rest
  }

  // ---------------------------------------------------------------- combined filter

  /** The status filter of this view: "completed" and "pending" narrow, every
      other value (including "overdue") does nothing. */
  function StatusCriteria(status: string): (r: seq<Criterion>)
    ensures |r| <= 1
    ensures r != [] <==> status in StatusOptions
  {
    if status == "completed" then [IsCompleted]
    else if status == "pending" then [IsPending]
    else []
  }

  /** The criteria of `getFilteredTasks`, in the order of its passes: route
      category, search, priority, status, filter-bar category. */
  function ActiveCriteria(routeCategory: string, searchTerm: string, filters: Filters): (r: seq<Criterion>)
    ensures |r| <= 5
    ensures r == [] <==> (routeCategory == "" && searchTerm == "" && filters.priority == ""
      && filters.status !in {"completed", "pending"} && filters.category == "")
  {
    (if routeCategory != "" then [InCategory(routeCategory)] else [])
    + (if searchTerm != "" then [MatchesText(Lower(searchTerm))] else [])
    + (if filters.priority != "" then [HasPriority(filters.priority)] else [])
    + StatusCriteria(filters.status)
    + (if filters.category != "" then [InCategory(filters.category)] else [])
  }

  /** A task passes every active criterion of the view. */
  predicate Admits(routeCategory: string, searchTerm: string, filters: Filters, t: Task): (b: bool)
    ensures routeCategory == "" && searchTerm == "" && filters == Cleared ==> b
    ensures b ==> HoldsAll(StatusCriteria(filters.status), t)
    ensures b && routeCategory != "" && filters.category != "" ==> routeCategory == filters.category
  {
    && (routeCategory != "" ==> t.categoryId == routeCategory)
    && (searchTerm != "" ==> MatchesSearch(t, searchTerm))
    && (filters.priority != "" ==> t.priority == filters.priority)
    && (filters.status == "completed" ==> t.completed)
    && (filters.status == "pending" ==> !t.completed)
    && (filters.category != "" ==> t.categoryId == filters.category)
  }

  /** A task meets the status pass exactly when it has the status asked for. */
  lemma StatusCriteriaMeaning(status: string, t: Task)
    ensures HoldsAll(StatusCriteria(status), t)
        <==> (status == "completed" ==> t.completed) && (status == "pending" ==> !t.completed)
  {
    HoldsSingle(IsCompleted);
    HoldsSingle(IsPending);
    assert "completed" != "pending" by { assert "completed"[0] != "pending"[0]; }
  }

  lemma ActiveCriteriaMeaning(routeCategory: string, searchTerm: string, filters: Filters)
    ensures forall t :: HoldsAll(ActiveCriteria(routeCategory, searchTerm, filters), t)
                    <==> Admits(routeCategory, searchTerm, filters, t)
  {
    var byRoute := if routeCategory != "" then [InCategory(routeCategory)] else [];
    var bySearch := if searchTerm != "" then [MatchesText(Lower(searchTerm))] else [];
    var byPriority := if filters.priority != "" then [HasPriority(filters.priority)] else [];
    var byStatus := StatusCriteria(filters.status);
    var byCategory := if filters.category != "" then [InCategory(filters.category)] else [];
    HoldsSingle(InCategory(routeCategory));
    HoldsSingle(MatchesText(Lower(searchTerm)));
    HoldsSingle(HasPriority(filters.priority));
    HoldsSingle(InCategory(filters.category));
    forall t ensures HoldsAll(ActiveCriteria(routeCategory, searchTerm, filters), t)
                 <==> Admits(routeCategory, searchTerm, filters, t) {
      HoldsAllAppend(byRoute + bySearch + byPriority + byStatus, byCategory, t);
      HoldsAllAppend(byRoute + bySearch + byPriority, byStatus, t);
      HoldsAllAppend(byRoute + bySearch, byPriority, t);
      HoldsAllAppend(byRoute, bySearch, t);
      StatusCriteriaMeaning(filters.status, t);
    }
  }

  /** What the combined filter keeps: every task that passes all active
      criteria, in snapshot order, and the whole snapshot when no criterion
      is active. */
  lemma CombinedFilterMeaning(tasks: seq<Task>, routeCategory: string, searchTerm: string, filters: Filters)
    ensures var r := Keep(tasks, ActiveCriteria(routeCategory, searchTerm, filters));
      && (forall t :: t in r <==> t in tasks && Admits(routeCategory, searchTerm, filters, t))
      && Subsequence(r, tasks)
      && ((routeCategory == "" && searchTerm == "" && filters.priority == "" &&
           filters.status !in {"completed", "pending"} && filters.category == "") ==> r == tasks)
  {
    ActiveCriteriaMeaning(routeCategory, searchTerm, filters);
    KeepNothing(tasks);
  }

  /** For each status the filter bar offers, this view's status filter is
      `filterTasksByStatus`; for "overdue" it does nothing at all. */
  lemma StatusFilterAgreement(s: seq<Task>, status: string, now: int)
    ensures status in StatusOptions ==> Keep(s, StatusCriteria(status)) == FilterTasksByStatus(s, status, now)
    ensures status !in {"completed", "pending"} ==> Keep(s, StatusCriteria(status)) == s
  {
    KeepNothing(s);
  }

  /** One narrowing pass of `getFilteredTasks`: filtering the result of the
      earlier passes by one more criterion is filtering the snapshot by all
      of them. */
  method Narrow(tasks: seq<Task>, filtered: seq<Task>, ghost applied: seq<Criterion>, c: Criterion)
    returns (narrowed: seq<Task>)
    requires filtered == Keep(tasks, applied)
    ensures narrowed == Keep(tasks, applied + [c])
  {
    KeepKeep(tasks, applied, [c]);
    narrowed := Keep(filtered, [c]);
  }

  /** The status pass of `getFilteredTasks`: only "completed" and "pending"
      narrow the list. */
  method NarrowByStatus(tasks: seq<Task>, filtered: seq<Task>, ghost applied: seq<Criterion>, status: string)
    returns (narrowed: seq<Task>)
    requires filtered == Keep(tasks, applied)
    ensures narrowed == Keep(tasks, applied + StatusCriteria(status))
  {
    narrowed := filtered;
    if status != "" {
      if status == "completed" {
        narrowed := Narrow(tasks, filtered, applied, IsCompleted);
      } else if status == "pending" {
        narrowed := Narrow(tasks, filtered, applied, IsPending);
      }
    }
    if status != "completed" && status != "pending" {
      assert applied + StatusCriteria(status) == applied;
    }
  }

  // ---------------------------------------------------------------- partition

  /** `pendingTasks` and `completedTasks` of the filtered list. */
  function SplitByStatus(filtered: seq<Task>): (r: (seq<Task>, seq<Task>))
    ensures forall t :: t in r.0 <==> t in filtered && !t.completed
    ensures forall t :: t in r.1 <==> t in filtered && t.completed
    ensures Subsequence(r.0, filtered) && Subsequence(r.1, filtered)
    ensures multiset(r.0) + multiset(r.1) == multiset(filtered)
    ensures |r.0| + |r.1| == |filtered|
  {
    StatusPartition(filtered);
    HoldsSingle(IsPending);
    HoldsSingle(IsCompleted);
    (Keep(filtered, [IsPending]), Keep(filtered, [IsCompleted]))
  }

  // ---------------------------------------------------------------- the view

  class TaskList {
    /** The `categoryId` prop (the route's category, "" when absent). */
    const categoryId: string
    var tasks: seq<Task>
    var categories: seq<Category>
    var loading: bool
    var error: string
    var searchTerm: string
    var filters: Filters

    constructor (categoryId: string)
      ensures this.categoryId == categoryId
      ensures tasks == [] && categories == [] && loading && error == ""
      ensures searchTerm == "" && filters == Cleared
    {
      this.categoryId := categoryId;
      tasks, categories := [], [];
      loading, error := true, "";
      searchTerm, filters := "", Cleared;
    }

    /** The first half of `loadData`, before the store answers. */
    method BeginLoad()
      modifies this
      ensures loading && error == ""
      ensures tasks == old(tasks) && categories == old(categories)
      ensures searchTerm == old(searchTerm) && filters == old(filters)
    {
      loading := true;
      error := "";
    }

    /** The rest of `loadData`, given what both `getAll` calls returned: both
        collections are replaced only if both reads succeeded. */
    method CompleteLoad(tasksResult: Fetch<seq<Task>>, categoriesResult: Fetch<seq<Category>>)
      modifies this
      ensures !loading
      ensures tasksResult.Fetched? && categoriesResult.Fetched? ==>
        tasks == tasksResult.value && categories == categoriesResult.value && error == old(error)
      ensures !(tasksResult.Fetched? && categoriesResult.Fetched?) ==>
        tasks == old(tasks) && categories == old(categories) && error == LoadError
      ensures searchTerm == old(searchTerm) && filters == old(filters)
    {
      if tasksResult.Fetched? && categoriesResult.Fetched? {
        tasks := tasksResult.value;
        categories := categoriesResult.value;
      } else {
        error := LoadError;
      }
      loading := false;
    }

    /** The whole of `loadData`: it always ends with loading off, and with an
        error exactly when a read failed. */
    method LoadData(tasksResult: Fetch<seq<Task>>, categoriesResult: Fetch<seq<Category>>)
      modifies this
      ensures !loading
      ensures error == "" <==> tasksResult.Fetched? && categoriesResult.Fetched?
      ensures tasksResult.Fetched? && categoriesResult.Fetched? ==>
        tasks == tasksResult.value && categories == categoriesResult.value
      ensures !(tasksResult.Fetched? && categoriesResult.Fetched?) ==>
        tasks == old(tasks) && categories == old(categories) && error == LoadError
      ensures searchTerm == old(searchTerm) && filters == old(filters)
    {
      BeginLoad();
      CompleteLoad(tasksResult, categoriesResult);
    }

    /** `handleToggleComplete(taskId)` at instant `now`, where `update` is what
        the store's `update` call answered. `sent` is the task passed to that
        call (None: no call was made); `notify` says whether `onTaskUpdate` ran. */
    method HandleToggleComplete(taskId: int, now: int, update: Outcome) returns (sent: Option<Task>, notify: bool)
      modifies this
      ensures sent.None? <==> forall t :: t in old(tasks) ==> t.Id != taskId
      ensures sent.Some? ==>
        FindById(old(tasks), taskId).Some? && sent.value == Toggled(FindById(old(tasks), taskId).value, now)
      ensures notify <==> sent.Some? && update == Success
      ensures notify ==> tasks == ReplaceById(old(tasks), taskId, sent.value)
      ensures !notify ==> tasks == old(tasks)
      ensures categories == old(categories) && loading == old(loading) && error == old(error)
      ensures searchTerm == old(searchTerm) && filters == old(filters)
    {
      var found := FindById(tasks, taskId);
      if found.None? {
        return None, false;
      }
      var updatedTask := Toggled(found.value, now);
      sent := Some(updatedTask);
      if update == Success {
        tasks := ReplaceById(tasks, taskId, updatedTask);
        notify := true;
      } else {
        notify := false;
      }
    }

    /** `handleDeleteTask(taskId)`, where `delete` is what the store's `delete`
        call answered; `notify` says whether `onTaskUpdate` ran. */
    method HandleDeleteTask(taskId: int, delete: Outcome) returns (notify: bool)
      modifies this
      ensures notify <==> delete == Success
      ensures notify ==> tasks == RemoveById(old(tasks), taskId)
      ensures !notify ==> tasks == old(tasks)
      ensures categories == old(categories) && loading == old(loading) && error == old(error)
      ensures searchTerm == old(searchTerm) && filters == old(filters)
    {
      if delete == Success {
        tasks := RemoveById(tasks, taskId);
        notify := true;
      } else {
        notify := false;
      }
    }

    /** `setSearchTerm`, wired to the search bar. */
    method SetSearchTerm(term: string)
      modifies this`searchTerm
      ensures searchTerm == term
    {
      searchTerm := term;
    }

    /** `setFilters`, wired to the filter bar's `onFilterChange`. */
    method SetFilters(f: Filters)
      modifies this`filters
      ensures filters == f
    {
      filters := f;
    }

    /** `getFilteredTasks`: narrowing passes over the snapshot. */
    method GetFilteredTasks() returns (filtered: seq<Task>)
      ensures filtered == Keep(tasks, ActiveCriteria(categoryId, searchTerm, filters))
    {
      ghost var byRoute := if categoryId != "" then [InCategory(categoryId)] else [];
      ghost var bySearch := if searchTerm != "" then [MatchesText(Lower(searchTerm))] else [];
      ghost var byPriority := if filters.priority != "" then [HasPriority(filters.priority)] else [];
      ghost var byStatus := StatusCriteria(filters.status);
      ghost var byCategory := if filters.category != "" then [InCategory(filters.category)] else [];
      filtered := tasks;
      ghost var applied: seq<Criterion> := [];
      KeepNothing(tasks);
      if categoryId != "" {
        filtered := Narrow(tasks, filtered, applied, InCategory(categoryId));
        applied := applied + [InCategory(categoryId)];
      }
      assert applied == byRoute;
      if searchTerm != "" {
        filtered := Narrow(tasks, filtered, applied, MatchesText(Lower(searchTerm)));
        applied := applied + [MatchesText(Lower(searchTerm))];
      }
      assert applied == byRoute + bySearch;
      if filters.priority != "" {
        filtered := Narrow(tasks, filtered, applied, HasPriority(filters.priority));
        applied := applied + [HasPriority(filters.priority)];
      }
      assert applied == byRoute + bySearch + byPriority;
      filtered := NarrowByStatus(tasks, filtered, applied, filters.status);
      applied := applied + byStatus;
      assert applied == byRoute + bySearch + byPriority + byStatus;
      if filters.category != "" {
        filtered := Narrow(tasks, filtered, applied, InCategory(filters.category));
        applied := applied + [InCategory(filters.category)];
      }
      assert applied == byRoute + bySearch + byPriority + byStatus + byCategory;
    }
  }
}
