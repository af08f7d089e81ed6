/** The pure query functions over task lists: priority weighting and sorting,
    status, category and text filters, and aggregate statistics. */
module TaskUtils {
  import opened Wrappers
  import opened Text
  import opened Seqs
  import opened Domain
  import opened Ordering
  import opened Numbers

  // ---------------------------------------------------------------- priority

  /** Lookup in `{urgent: 4, high: 3, medium: 2, low: 1}`, defaulting to 1. */
  function PriorityWeight(priority: string): (w: int)
    ensures 1 <= w <= 4
    ensures w == 4 <==> priority == "urgent"
    ensures w == 3 <==> priority == "high"
    ensures w == 2 <==> priority == "medium"
    ensures w == 1 <==> priority !in {"urgent", "high", "medium"}
  {
    if priority == "urgent" then 4
    else if priority == "high" then 3
    else if priority == "medium" then 2
    else 1
  }

  function Weight(t: Task): int {
    PriorityWeight(t.priority)
  }

  /** The tasks of `s` whose priority weighs `w`, in their order in `s`. */
  function OfWeight(s: seq<Task>, w: int): seq<Task> {
    WithKey(s, Weight, w)
  }

  /** `sortTasksByPriority`: a stable sort of a copy by weight, heaviest first
      unless `ascending`. */
  function SortTasksByPriority(tasks: seq<Task>, ascending: bool := false): (r: seq<Task>)
    ensures multiset(r) == multiset(tasks)
    ensures !ascending ==> forall i, j :: 0 <= i < j < |r| ==> Weight(r[i]) >= Weight(r[j])
    ensures ascending ==> forall i, j :: 0 <= i < j < |r| ==> Weight(r[i]) <= Weight(r[j])
  {
    StableSortCorrect(tasks, Weight, !ascending);
    StableSort(tasks, Weight, !ascending)
  }

  /** Tasks of equal weight keep their input order. */
  lemma SortTasksByPriorityStable(tasks: seq<Task>, ascending: bool, w: int)
    ensures OfWeight(SortTasksByPriority(tasks, ascending), w) == OfWeight(tasks, w)
  {
    StableSortCorrect(tasks, Weight, !ascending);
  }

  // ---------------------------------------------------------------- filters

  /** One condition a filter pass checks. `MatchesText` holds the already
      lower-cased search term. */
  datatype Criterion =
    | IsCompleted
    | IsPending
    | PastDue(now: int)
    | InCategory(id: string)
    | MatchesText(term: string)
    | HasPriority(priority: string)

  predicate Holds(c: Criterion, t: Task) {
    match c
    case IsCompleted => t.completed
    case IsPending => !t.completed
    case PastDue(now) => !t.completed && t.dueDate.Some? && t.dueDate.value.at < now
    case InCategory(id) => t.categoryId == id
    case MatchesText(term) => Contains(Lower(t.title), term) || Contains(Lower(t.description), term)
    case HasPriority(p) => t.priority == p
  }

  predicate HoldsAll(cs: seq<Criterion>, t: Task) {
    forall c :: c in cs ==> Holds(c, t)
  }

  /** A single criterion is checked on its own. */
  lemma HoldsSingle(c: Criterion)
    ensures forall t :: HoldsAll([c], t) <==> Holds(c, t)
  {
    forall t ensures HoldsAll([c], t) <==> Holds(c, t) {
      assert c in [c];
    }
  }

  /** Meeting the criteria of two lists is meeting both lists. */
  lemma HoldsAllAppend(a: seq<Criterion>, b: seq<Criterion>, t: Task)
    ensures HoldsAll(a + b, t) <==> HoldsAll(a, t) && HoldsAll(b, t)
  {
    assert forall c :: c in a + b <==> c in a || c in b;
  }

  /** `s.filter(...)` with a callback that checks every criterion of `cs`. */
  function Keep(s: seq<Task>, cs: seq<Criterion>): (r: seq<Task>)
    ensures |r| <= |s|
    ensures forall t :: t in r <==> t in s && HoldsAll(cs, t)
    ensures forall t :: multiset(r)[t] == if HoldsAll(cs, t) then multiset(s)[t] else 0
    ensures Subsequence(r, s)
    decreases |s|
  {
    if s == [] then []
    else
      var rest := Keep(s[1..], cs);
      assert s == [s[0]] + s[1..];
      if HoldsAll(cs, s[0]) then
        assert ([s[0]] + rest)[1..] == rest;
        [s[0]] + rest
      else
        rest
  }

  lemma {:induction false} KeepNothing(s: seq<Task>)
    ensures Keep(s, []) == s
    decreases |s|
  {
    if s != [] {
      KeepNothing(s[1..]);
    }
  }

  /** Two passes narrow like one pass checking both sets of criteria. */
  lemma {:induction false} KeepKeep(s: seq<Task>, a: seq<Criterion>, b: seq<Criterion>)
    ensures Keep(Keep(s, a), b) == Keep(s, a + b)
    decreases |s|
  {
    if s != [] {
      KeepKeep(s[1..], a, b);
      assert HoldsAll(a + b, s[0]) <==> HoldsAll(a, s[0]) && HoldsAll(b, s[0]);
      if HoldsAll(a, s[0]) {
        assert Keep(s, a)[1..] == Keep(s[1..], a);
      }
    }
  }

  /** Criteria that accept the same tasks filter alike. */
  lemma {:induction false} KeepSame(s: seq<Task>, a: seq<Criterion>, b: seq<Criterion>)
    requires forall t :: HoldsAll(a, t) <==> HoldsAll(b, t)
    ensures Keep(s, a) == Keep(s, b)
    decreases |s|
  {
    if s != [] {
      KeepSame(s[1..], a, b);
    }
  }

  /** The passes of a combined filter commute. */
  lemma KeepCommutes(s: seq<Task>, a: seq<Criterion>, b: seq<Criterion>)
    ensures Keep(Keep(s, a), b) == Keep(Keep(s, b), a)
  {
    KeepKeep(s, a, b);
    KeepKeep(s, b, a);
    KeepSame(s, a + b, b + a);
  }

  /** A weaker test keeps at least as many tasks. */
  lemma {:induction false} KeepMonotone(s: seq<Task>, a: seq<Criterion>, b: seq<Criterion>)
    requires forall t :: HoldsAll(a, t) ==> HoldsAll(b, t)
    ensures |Keep(s, a)| <= |Keep(s, b)|
    decreases |s|
  {
    if s != [] {
      KeepMonotone(s[1..], a, b);
    }
  }

  /** Completed and pending tasks split the input: no task is in both, and
      together they hold every task of the input as often as it occurs. */
  lemma StatusPartition(s: seq<Task>)
    ensures var done, open := Keep(s, [IsCompleted]), Keep(s, [IsPending]);
      && multiset(done) + multiset(open) == multiset(s)
      && |done| + |open| == |s|
      && forall t :: !(t in done && t in open)
  {
    var done, open := Keep(s, [IsCompleted]), Keep(s, [IsPending]);
    HoldsSingle(IsCompleted);
    HoldsSingle(IsPending);
    forall t ensures (multiset(done) + multiset(open))[t] == multiset(s)[t] {
    }
    assert multiset(done) + multiset(open) == multiset(s);
    assert |multiset(done) + multiset(open)| == |multiset(s)|;
  }

  /** The statuses `filterTasksByStatus` recognises. */
  const StatusKeywords: set<string> := {"completed", "pending", "overdue"}

  /** `filterTasksByStatus`; "overdue" compares due dates with `now`. */
  function FilterTasksByStatus(tasks: seq<Task>, status: string, now: int): (r: seq<Task>)
    ensures Subsequence(r, tasks)
    ensures status == "completed" ==> forall t :: t in r <==> t in tasks && t.completed
    ensures status == "pending" ==> forall t :: t in r <==> t in tasks && !t.completed
    ensures status == "overdue" ==> forall t :: t in r <==>
      t in tasks && !t.completed && t.dueDate.Some? && t.dueDate.value.at < now
    ensures status !in StatusKeywords ==> r == tasks
    ensures status == "completed" ==>
      forall t :: multiset(r)[t] == if t.completed then multiset(tasks)[t] else 0
    ensures status == "pending" ==>
      forall t :: multiset(r)[t] == if !t.completed then multiset(tasks)[t] else 0
    ensures status == "overdue" ==>
      forall t :: multiset(r)[t] ==
        if !t.completed && t.dueDate.Some? && t.dueDate.value.at < now then multiset(tasks)[t] else 0
  {
    SubsequenceReflexive(tasks);
    HoldsSingle(IsCompleted);
    HoldsSingle(IsPending);
    HoldsSingle(PastDue(now));
    if status == "completed" then Keep(tasks, [IsCompleted])
    else if status == "pending" then Keep(tasks, [IsPending])
    else if status == "overdue" then Keep(tasks, [PastDue(now)])
    else tasks
  }

  /** The category argument of `filterTasksByCategory`: absent, a string, or a
      numeric id. */
  datatype CategoryArg = NoCategory | CategoryText(text: string) | CategoryNumber(n: int)

  /** The argument is truthy in JavaScript. */
  predicate Given(a: CategoryArg) {
    match a
    case NoCategory => false
    case CategoryText(s) => s != ""
    case CategoryNumber(n) => n != 0
  }

  /** `categoryId.toString()`. */
  function ArgString(a: CategoryArg): string {
    match a
    case NoCategory => ""
    case CategoryText(s) => s
    case CategoryNumber(n) => IdString(n)
  }

  /** `filterTasksByCategory`. */
  function FilterTasksByCategory(tasks: seq<Task>, categoryId: CategoryArg): (r: seq<Task>)
    ensures !Given(categoryId) ==> r == tasks
    ensures Given(categoryId) ==> forall t :: t in r <==> t in tasks && t.categoryId == ArgString(categoryId)
    ensures Given(categoryId) ==>
      forall t :: multiset(r)[t] == if t.categoryId == ArgString(categoryId) then multiset(tasks)[t] else 0
    ensures Subsequence(r, tasks)
  {
    SubsequenceReflexive(tasks);
    HoldsSingle(InCategory(ArgString(categoryId)));
    if !Given(categoryId) then tasks else Keep(tasks, [InCategory(ArgString(categoryId))])
  }

  /** The task's lower-cased title or description contains the lower-cased term. */
  predicate MatchesSearch(t: Task, searchTerm: string): (b: bool)
    ensures searchTerm == "" ==> b
    ensures b <==> ((exists i :: OccursAt(Lower(t.title), Lower(searchTerm), i))
                 || (exists i :: OccursAt(Lower(t.description), Lower(searchTerm), i)))
  {
    ContainsIffOccurs(Lower(t.title), Lower(searchTerm));
    ContainsIffOccurs(Lower(t.description), Lower(searchTerm));
    Contains(Lower(t.title), Lower(searchTerm)) || Contains(Lower(t.description), Lower(searchTerm))
  }

  /** `searchTasks`. */
  function SearchTasks(tasks: seq<Task>, searchTerm: string): (r: seq<Task>)
    ensures searchTerm == "" ==> r == tasks
    ensures searchTerm != "" ==> forall t :: t in r <==> t in tasks && MatchesSearch(t, searchTerm)
    ensures searchTerm != "" ==>
      forall t :: multiset(r)[t] == if MatchesSearch(t, searchTerm) then multiset(tasks)[t] else 0
    ensures Subsequence(r, tasks)
  {
    SubsequenceReflexive(tasks);
    HoldsSingle(MatchesText(Lower(searchTerm)));
    if searchTerm == "" then tasks else Keep(tasks, [MatchesText(Lower(searchTerm))])
  }

  /** Searching does not depend on the case of the term. */
  lemma SearchIgnoresTermCase(tasks: seq<Task>, a: string, b: string)
    requires Lower(a) == Lower(b)
    ensures SearchTasks(tasks, a) == SearchTasks(tasks, b)
  {
  }

  // ---------------------------------------------------------------- statistics

  /** The number of completed tasks. */
  function CountCompleted(s: seq<Task>): (n: nat)
    ensures n <= |s|
    ensures forall now :: n == |FilterTasksByStatus(s, "completed", now)|
  {
    |Keep(s, [IsCompleted])|
  }

  datatype TaskStats = TaskStats(total: int, completed: int, pending: int, overdue: int, completionRate: int)

  /** `getTaskStats`, with `now` for the overdue count. */
  function GetTaskStats(tasks: seq<Task>, now: int): (r: TaskStats)
    ensures r.total == |tasks| && r.completed == CountCompleted(tasks)
    ensures r.pending + r.completed == r.total
    ensures r.pending == |Keep(tasks, [IsPending])|
    ensures 0 <= r.overdue <= r.pending
    ensures r.overdue == |FilterTasksByStatus(tasks, "overdue", now)|
    ensures r.total == 0 ==> r == TaskStats(0, 0, 0, 0, 0)
    ensures 0 <= r.completionRate <= 100
    ensures r.total > 0 ==>
      2 * r.total * r.completionRate - r.total <= 200 * r.completed < 2 * r.total * r.completionRate + r.total
  {
    var total := |tasks|;
    var completed := CountCompleted(tasks);
    var overdue := |Keep(tasks, [PastDue(now)])|;
    StatusPartition(tasks);
    HoldsSingle(PastDue(now));
    HoldsSingle(IsPending);
    KeepMonotone(tasks, [PastDue(now)], [IsPending]);
    TaskStats(total, completed, total - completed, overdue, RoundedPercent(completed, total))
  }
}
