/** The filter bar: three select boxes (priority, status, category) whose
    values it keeps and reports to its parent on every change. */
module FilterBar {
  import opened Wrappers

  datatype Filters = Filters(priority: string, status: string, category: string)

  datatype FilterKey = Priority | Status | Category

  /** The `currentFilters` prop: each key may or may not be given. */
  datatype FilterOverrides = FilterOverrides(priority: Option<string>, status: Option<string>, category: Option<string>)

  const Cleared: Filters := Filters("", "", "")

  /** The only statuses the status selector offers. */
  const StatusOptions: seq<string> := ["pending", "completed"]

  function Get(f: Filters, key: FilterKey): string {
    match key
    case Priority => f.priority
    case Status => f.status
    case Category => f.category
  }

  /** `{ ...filters, [key]: value }`. */
  function With(f: Filters, key: FilterKey, value: string): (r: Filters)
    ensures Get(r, key) == value
    ensures forall other :: other != key ==> Get(r, other) == Get(f, other)
  {
    match key
    case Priority => f.(priority := value)
    case Status => f.(status := value)
    case Category => f.(category := value)
  }

  /** `{ priority: '', status: '', category: '', ...currentFilters }`. */
  function Initial(current: FilterOverrides): (r: Filters)
    ensures Get(r, Priority) == current.priority.GetOr("")
    ensures Get(r, Status) == current.status.GetOr("")
    ensures Get(r, Category) == current.category.GetOr("")
  {
    Filters(current.priority.GetOr(""), current.status.GetOr(""), current.category.GetOr(""))
  }

  /** Some filter value is not the empty string. */
  predicate Active(f: Filters): (b: bool)
    ensures b <==> f != Cleared
  {
    f.priority != "" || f.status != "" || f.category != ""
  }

  lemma ActiveIffSomeKeySet(f: Filters)
    ensures Active(f) <==> exists key :: Get(f, key) != ""
  {
    if f.priority != "" { assert Get(f, Priority) != ""; }
    if f.status != "" { assert Get(f, Status) != ""; }
    if f.category != "" { assert Get(f, Category) != ""; }
  }

  class FilterBar {
    var filters: Filters

    constructor (currentFilters: FilterOverrides)
      ensures filters == Initial(currentFilters)
    {
      filters := Initial(currentFilters);
    }

    /** `handleFilterChange(key, value)`: sets one key and reports the new set. */
    method HandleFilterChange(key: FilterKey, value: string) returns (reported: Filters)
      modifies this
      ensures Get(filters, key) == value
      ensures forall other :: other != key ==> Get(filters, other) == Get(old(filters), other)
      ensures reported == filters
    {
      var newFilters := With(filters, key, value);
      filters := newFilters;
      reported := newFilters;
    }

    /** `clearFilters`: empties every key and reports the cleared set. */
    method ClearFilters() returns (reported: Filters)
      modifies this
      ensures filters == Cleared && reported == Cleared
      ensures !HasActiveFilters()
    {
      filters := Cleared;
      reported := Cleared;
    }

    predicate HasActiveFilters(): (b: bool)
      reads this
      ensures b <==> exists key :: Get(filters, key) != ""
    {
      ActiveIffSomeKeySet(filters);
      Active(filters)
    }
  }
}
