/**
 * The All Tasks page (src/components/pages/AllTasks.jsx): which filter kind and value it
 * hands to `useTasks` for its search box and filter menu, how those two inputs reset
 * each other, and the empty-list title.
 */
module AllTasks {
  import opened Js
  import opened UseTasks

  /** `['high', 'medium', 'low'].includes(f)`. */
  predicate IsPriority(f: string)
  {
    f == "high" || f == "medium" || f == "low"
  }

  /** `['active', 'completed', 'today', 'overdue'].includes(f)`. */
  predicate IsKind(f: string)
  {
    f == "active" || f == "completed" || f == "today" || f == "overdue"
  }

  /**
   * The `filterType`/`filterValue` derivation: a search query wins over the filter; a
   * priority filter becomes `priority` with the priority as value; the four kinds pass
   * through with no value; anything else is `all`. The last two ensures say what the
   * hook then loads: a priority filter searches for the priority's name, and `overdue`
   * loads every task.
   */
  method SelectFilter(searchQuery: string, currentFilter: string) returns (filterType: string, filterValue: Field<Scalar>)
    ensures searchQuery != "" ==> filterType == "search" && filterValue == Val(Str(searchQuery))
    ensures searchQuery == "" && IsPriority(currentFilter) ==>
      filterType == "priority" && filterValue == Val(Str(currentFilter))
    ensures searchQuery == "" && IsKind(currentFilter) ==> filterType == currentFilter && filterValue == Null
    ensures searchQuery == "" && !IsPriority(currentFilter) && !IsKind(currentFilter) ==>
      filterType == "all" && filterValue == Null
    ensures searchQuery != "" ==> HookQuery(filterType, filterValue) == SearchFor(searchQuery)
    ensures searchQuery == "" && IsPriority(currentFilter) ==> HookQuery(filterType, filterValue) == SearchFor(currentFilter)
    ensures searchQuery == "" && currentFilter == "overdue" ==> HookQuery(filterType, filterValue) == All
  {
    filterType := "all";
    filterValue := Null;
    if searchQuery != "" {
      filterType := "search";
      filterValue := Val(Str(searchQuery));
    } else if currentFilter != "all" {
      if IsPriority(currentFilter) {
        filterType := "priority";
        filterValue := Val(Str(currentFilter));
      } else if IsKind(currentFilter) {
        filterType := currentFilter;
      }
    }
  }

  /**
   * The empty-list title: "No tasks found" exactly when searching, "No tasks yet" for
   * the `all` filter, otherwise the filter's name.
   */
  function EmptyTitle(searchQuery: string, currentFilter: string): (r: string)
    ensures r == "No tasks found" <==> searchQuery != ""
    ensures searchQuery == "" ==> (r == "No tasks yet" <==> currentFilter == "all")
    ensures searchQuery == "" && currentFilter != "all" ==> r == "No " + currentFilter + " tasks"
  {
    if searchQuery != "" then "No tasks found"
    else if currentFilter == "all" then "No tasks yet"
    else
      var r := "No " + currentFilter + " tasks";
      assert r[|r| - 1] == 's';
      r
  }

  /** The page's `currentFilter` and `searchQuery` state. */
  class Page {
    var currentFilter: string
    var searchQuery: string

    constructor ()
      ensures currentFilter == "all" && searchQuery == ""
    {
      currentFilter := "all";
      searchQuery := "";
    }

    /** `handleFilter`: sets the filter and always clears the search. */
    method HandleFilter(filter: string)
      modifies this
      ensures currentFilter == filter && searchQuery == ""
    {
      currentFilter := filter;
      searchQuery := "";
    }

    /** `handleSearch`: sets the query; a non-empty one resets the filter to `all`. */
    method HandleSearch(query: string)
      modifies this
      ensures searchQuery == query
      ensures currentFilter == if query != "" then "all" else old(currentFilter)
    {
      searchQuery := query;
      if query != "" {
        currentFilter := "all";
      }
    }
  }
}
