/** The category sidebar: its own snapshot of categories and tasks, the load
    state, the per-category task counts and which category card is active. */
module CategorySidebar {
  import opened Wrappers
  import opened Text
  import opened Domain
  import opened TaskUtils

  const LoadError: string := "Failed to load categories"

  /** `getTaskCount(id)`: the tasks whose category is the string form of `id`. */
  function TaskCount(tasks: seq<Task>, id: int): (n: nat)
    ensures n == |FilterTasksByCategory(tasks, CategoryText(IdString(id)))|
    ensures n <= TotalTasks(tasks)
  {
    |Keep(tasks, [InCategory(IdString(id))])|
  }

  /** `getTotalTasks`. */
  function TotalTasks(tasks: seq<Task>): (n: nat)
    ensures n == |tasks|
    ensures n == |Keep(tasks, [IsCompleted])| + |Keep(tasks, [IsPending])|
  {
    StatusPartition(tasks);
    |tasks|
  }

  /** `getCompletedTasks`. */
  function CompletedTasks(tasks: seq<Task>): (n: nat)
    ensures n <= TotalTasks(tasks)
    ensures n == |Keep(tasks, [IsCompleted])|
  {
    CountCompleted(tasks)
  }

  /** The count of a category with a non-zero id is the length of what
      `filterTasksByCategory` keeps for that id; the sidebar does not treat id
      0 as "no category", so there the two differ. */
  lemma TaskCountMatchesCategoryFilter(tasks: seq<Task>, id: int)
    ensures id != 0 ==> TaskCount(tasks, id) == |FilterTasksByCategory(tasks, CategoryNumber(id))|
    ensures id == 0 ==> FilterTasksByCategory(tasks, CategoryNumber(id)) == tasks
    ensures id == 0 ==> TaskCount(tasks, id) == |FilterTasksByCategory(tasks, CategoryText("0"))|
  {
  }

  /** Counting one task on its own: 1 when it belongs to the category. */
  lemma {:induction false} TaskCountCons(t: Task, rest: seq<Task>, id: int)
    ensures TaskCount([t] + rest, id) == (if t.categoryId == IdString(id) then 1 else 0) + TaskCount(rest, id)
  {
    HoldsSingle(InCategory(IdString(id)));
    assert ([t] + rest)[0] == t;
    assert ([t] + rest)[1..] == rest;
  }

  /** A category card is highlighted when the route's category is its id. */
  predicate IsActive(routeId: string, c: Category): (b: bool)
    ensures b ==> routeId != ""
    ensures b ==> (routeId[0] == '-' <==> c.Id < 0)
  {
    routeId == IdString(c.Id)
  }

  /** Without a route category no card is highlighted. */
  lemma NoRouteNoActiveCard(categories: seq<Category>)
    ensures forall c :: c in categories ==> !IsActive("", c)
  {
    forall c | c in categories ensures !IsActive("", c) {
      assert IdString(c.Id) != [];
    }
  }

  /** With distinct ids at most one card is highlighted. */
  lemma AtMostOneActiveCard(categories: seq<Category>, routeId: string)
    requires DistinctIds(categories)
    ensures forall i, j ::
      (0 <= i < |categories| && 0 <= j < |categories| &&
       IsActive(routeId, categories[i]) && IsActive(routeId, categories[j])) ==> i == j
  {
    forall i, j | 0 <= i < |categories| && 0 <= j < |categories|
      && IsActive(routeId, categories[i]) && IsActive(routeId, categories[j])
      ensures i == j
    {
      IdStringInjective(categories[i].Id, categories[j].Id);
    }
  }

  /** The counts shown next to the listed categories, added up. */
  function SumCounts(categories: seq<Category>, tasks: seq<Task>): nat
    decreases |categories|
  {
    if categories == [] then 0 else TaskCount(tasks, categories[0].Id) + SumCounts(categories[1..], tasks)
  }

  /** How many listed categories a task is counted under. */
  function Hits(categories: seq<Category>, t: Task): nat
    decreases |categories|
  {
    if categories == [] then 0
    else (if t.categoryId == IdString(categories[0].Id) then 1 else 0) + Hits(categories[1..], t)
  }

  lemma {:induction false} SumCountsCons(categories: seq<Category>, t: Task, rest: seq<Task>)
    ensures SumCounts(categories, [t] + rest) == Hits(categories, t) + SumCounts(categories, rest)
    decreases |categories|
  {
    if categories != [] {
      TaskCountCons(t, rest, categories[0].Id);
      SumCountsCons(categories[1..], t, rest);
    }
  }

  lemma {:induction false} NoHits(categories: seq<Category>, t: Task)
    requires forall c :: c in categories ==> IdString(c.Id) != t.categoryId
    ensures Hits(categories, t) == 0
    decreases |categories|
  {
    if categories != [] {
      assert categories[0] in categories;
      assert forall c :: c in categories[1..] ==> c in categories;
      NoHits(categories[1..], t);
    }
  }

  /** With distinct ids a task is counted under at most one category. */
  lemma {:induction false} HitsAtMostOne(categories: seq<Category>, t: Task)
    requires DistinctIds(categories)
    ensures Hits(categories, t) <= 1
    decreases |categories|
  {
    if categories != [] {
      var rest := categories[1..];
      assert DistinctIds(rest) by {
        forall i, j | 0 <= i < j < |rest| ensures rest[i].Id != rest[j].Id {
          assert rest[i] == categories[i + 1] && rest[j] == categories[j + 1];
        }
      }
      if t.categoryId == IdString(categories[0].Id) {
        forall c | c in rest ensures IdString(c.Id) != t.categoryId {
          var k :| 0 <= k < |rest| && rest[k] == c;
          assert categories[k + 1] == c;
          if IdString(c.Id) == t.categoryId {
            IdStringInjective(c.Id, categories[0].Id);
          }
        }
        NoHits(rest, t);
      } else {
        HitsAtMostOne(rest, t);
      }
    }
  }

  /** With distinct ids the counts of the listed categories add up to at most
      the total: no task is counted twice. */
  lemma {:induction false} SumOfCountsBounded(categories: seq<Category>, tasks: seq<Task>)
    requires DistinctIds(categories)
    ensures SumCounts(categories, tasks) <= TotalTasks(tasks)
    decreases |tasks|
  {
    if tasks == [] {
      ZeroCounts(categories);
    } else {
      assert tasks == [tasks[0]] + tasks[1..];
      SumCountsCons(categories, tasks[0], tasks[1..]);
      HitsAtMostOne(categories, tasks[0]);
      SumOfCountsBounded(categories, tasks[1..]);
    }
  }

  lemma {:induction false} ZeroCounts(categories: seq<Category>)
    ensures SumCounts(categories, []) == 0
    decreases |categories|
  {
    if categories != [] {
      ZeroCounts(categories[1..]);
    }
  }

  class CategorySidebar {
    /** The route's `categoryId` ("" when the route has none). */
    const routeId: string
    var categories: seq<Category>
    var tasks: seq<Task>
    var loading: bool
    var error: string

    constructor (routeId: string)
      ensures this.routeId == routeId
      ensures categories == [] && tasks == [] && loading && error == ""
    {
      this.routeId := routeId;
      categories, tasks := [], [];
      loading, error := true, "";
    }

    /** The first steps of `loadData`: loading on, error cleared. */
    method BeginLoad()
      modifies this
      ensures loading && error == ""
      ensures categories == old(categories) && tasks == old(tasks)
    {
      loading := true;
      error := "";
    }

    /** The rest of `loadData`, given what both `getAll` calls returned. */
    method CompleteLoad(categoriesResult: Fetch<seq<Category>>, tasksResult: Fetch<seq<Task>>)
      modifies this
      ensures !loading
      ensures categoriesResult.Fetched? && tasksResult.Fetched? ==>
        categories == categoriesResult.value && tasks == tasksResult.value && error == old(error)
      ensures !(categoriesResult.Fetched? && tasksResult.Fetched?) ==>
        categories == old(categories) && tasks == old(tasks) && error == LoadError
    {
      if categoriesResult.Fetched? && tasksResult.Fetched? {
        categories := categoriesResult.value;
        tasks := tasksResult.value;
      } else {
        error := LoadError;
      }
      loading := false;
    }

    /** The whole of `loadData`: it always ends with loading off, and with an
        error exactly when a read failed. */
    method LoadData(categoriesResult: Fetch<seq<Category>>, tasksResult: Fetch<seq<Task>>)
      modifies this
      ensures !loading
      ensures error == "" <==> categoriesResult.Fetched? && tasksResult.Fetched?
      ensures categoriesResult.Fetched? && tasksResult.Fetched? ==>
        categories == categoriesResult.value && tasks == tasksResult.value
      ensures !(categoriesResult.Fetched? && tasksResult.Fetched?) ==>
        categories == old(categories) && tasks == old(tasks) && error == LoadError
    {
      BeginLoad();
      CompleteLoad(categoriesResult, tasksResult);
    }
  }
}
