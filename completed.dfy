/**
 * The Completed page (src/components/pages/Completed.jsx): completed tasks, or the search
 * results narrowed to completed tasks while a query is typed.
 */
module Completed {
  import opened Js
  import opened Seqs
  import opened TaskService
  import opened UseTasks

  /** `searchQuery ? 'search' : 'completed'`. */
  function FilterType(searchQuery: string): string
  {
    if searchQuery != "" then "search" else "completed"
  }

  /** `searchQuery || null`. */
  function FilterValue(searchQuery: string): Field<Scalar>
  {
    if searchQuery != "" then Val(Str(searchQuery)) else Null
  }

  /** The hook loads the completed tasks, or searches for the query when there is one. */
  lemma LoadedQuery(searchQuery: string)
    ensures searchQuery == "" ==> HookQuery(FilterType(searchQuery), FilterValue(searchQuery)) == ByStatus("completed")
    ensures searchQuery != "" ==> HookQuery(FilterType(searchQuery), FilterValue(searchQuery)) == SearchFor(searchQuery)
  {
  }

  /** `filteredTasks`: while searching, the tasks whose `status` is `'completed'`. */
  function FilteredTasks(searchQuery: string, tasks: seq<Task>): (r: seq<Task>)
    ensures searchQuery == "" ==> r == tasks
    ensures searchQuery != "" ==> Selects(r, tasks, HasStatus("completed"))
  {
    FilterSelects(tasks, HasStatus("completed"));
    if searchQuery != "" then Filter(tasks, HasStatus("completed")) else tasks
  }

  function CompletedMatch(query: string): Task -> bool
  {
    (t: Task) => MatchesQuery(query)(t) && HasStatus("completed")(t)
  }

  /**
   * While searching, the page shows exactly the completed stored tasks that match the
   * query, in store order (when no task makes the search throw).
   */
  lemma SearchShowsCompletedMatches(store: TaskStore, searchQuery: string, today: string)
    requires searchQuery != "" && Searchable(store.tasks, searchQuery)
    ensures Fetch(store, HookQuery(FilterType(searchQuery), FilterValue(searchQuery)), today).Ok?
    ensures FilteredTasks(searchQuery, Fetch(store, HookQuery(FilterType(searchQuery), FilterValue(searchQuery)), today).value)
         == Filter(store.tasks, CompletedMatch(searchQuery))
  {
    assert HookQuery(FilterType(searchQuery), FilterValue(searchQuery)) == SearchFor(searchQuery);
    SearchAllIsFilter(store.tasks, searchQuery);
    assert store.Search(searchQuery) == Some(Filter(store.tasks, MatchesQuery(searchQuery)));
    FilterFilter(store.tasks, MatchesQuery(searchQuery), HasStatus("completed"), CompletedMatch(searchQuery));
  }

  /** `searchQuery ? 'No completed tasks found' : 'No completed tasks yet'`. */
  function EmptyTitle(searchQuery: string): (r: string)
    ensures r == "No completed tasks found" <==> searchQuery != ""
    ensures r == "No completed tasks yet" <==> searchQuery == ""
  {
    if searchQuery != "" then "No completed tasks found" else "No completed tasks yet"
  }
}
