/**
 * The category page (src/components/pages/CategoryTasks.jsx): the tasks of the category
 * named by the route, the search inside it, the category shown in the header, and the
 * empty-list title. The route parameter is `None` when the URL has none.
 */
module CategoryTasks {
  import opened Js
  import opened Seqs
  import opened TaskService
  import opened UseTasks
  import CategoryService

  /** The route parameter as a JavaScript value: a string, or `undefined`. */
  function RouteValue(categoryId: Option<string>): Field<Scalar>
  {
    if categoryId.Some? then Val(Str(categoryId.value)) else Absent
  }

  /** `searchQuery ? "search" : "category"`. */
  function FilterType(searchQuery: string): string
  {
    if searchQuery != "" then "search" else "category"
  }

  /** `searchQuery || categoryId`. */
  function FilterValue(searchQuery: string, categoryId: Option<string>): Field<Scalar>
  {
    if searchQuery != "" then Val(Str(searchQuery)) else RouteValue(categoryId)
  }

  /**
   * The hook searches for the query when there is one; otherwise it loads the tasks
   * whose `categoryId` is the route's string (`null` without a route parameter, by the
   * hook's default), so a task whose `categoryId` is a number is never listed.
   */
  lemma LoadedQuery(searchQuery: string, categoryId: Option<string>, t: Task)
    ensures searchQuery != "" ==> HookQuery(FilterType(searchQuery), FilterValue(searchQuery, categoryId)) == SearchFor(searchQuery)
    ensures searchQuery == "" ==>
      HookQuery(FilterType(searchQuery), FilterValue(searchQuery, categoryId)) == ByCategory(WithDefault(RouteValue(categoryId)))
    ensures searchQuery == "" && categoryId.Some? ==>
      HookQuery(FilterType(searchQuery), FilterValue(searchQuery, categoryId)) == ByCategory(Val(Str(categoryId.value)))
    ensures searchQuery == "" && categoryId.None? ==>
      HookQuery(FilterType(searchQuery), FilterValue(searchQuery, categoryId)) == ByCategory(Null)
    ensures t.categoryId.Val? && t.categoryId.v.Num? ==> !InCategory(WithDefault(RouteValue(categoryId)))(t)
  {
  }

  /** `task.category_id_c === parseInt(categoryId)`: never true when `parseInt` gives NaN. */
  function InRouteCategory(categoryId: Option<string>): Task -> bool
  {
    (t: Task) => ParseIntOf(RouteValue(categoryId)).Some? && t.category_id_c == Val(Num(ParseIntOf(RouteValue(categoryId)).value))
  }

  /** `filteredTasks`: while searching, only the tasks of the route's category (by `category_id_c`). */
  function FilteredTasks(searchQuery: string, categoryId: Option<string>, tasks: seq<Task>): (r: seq<Task>)
    ensures searchQuery == "" ==> r == tasks
    ensures searchQuery != "" ==> Selects(r, tasks, InRouteCategory(categoryId))
  {
    FilterSelects(tasks, InRouteCategory(categoryId));
    if searchQuery != "" then Filter(tasks, InRouteCategory(categoryId)) else tasks
  }

  function CategoryMatch(query: string, categoryId: Option<string>): Task -> bool
  {
    (t: Task) => MatchesQuery(query)(t) && InRouteCategory(categoryId)(t)
  }

  /**
   * While searching, the page shows exactly the stored tasks that match the query and
   * whose `category_id_c` is the route's number, in store order (when no task makes
   * the search throw).
   */
  lemma SearchShowsCategoryMatches(store: TaskStore, searchQuery: string, categoryId: Option<string>, today: string)
    requires searchQuery != "" && Searchable(store.tasks, searchQuery)
    ensures Fetch(store, HookQuery(FilterType(searchQuery), FilterValue(searchQuery, categoryId)), today).Ok?
    ensures FilteredTasks(searchQuery, categoryId,
                          Fetch(store, HookQuery(FilterType(searchQuery), FilterValue(searchQuery, categoryId)), today).value)
         == Filter(store.tasks, CategoryMatch(searchQuery, categoryId))
  {
    assert HookQuery(FilterType(searchQuery), FilterValue(searchQuery, categoryId)) == SearchFor(searchQuery);
    SearchAllIsFilter(store.tasks, searchQuery);
    assert store.Search(searchQuery) == Some(Filter(store.tasks, MatchesQuery(searchQuery)));
    FilterFilter(store.tasks, MatchesQuery(searchQuery), InRouteCategory(categoryId), CategoryMatch(searchQuery, categoryId));
  }

  /**
   * The current-category effect: with categories loaded and a truthy route id, the
   * first category whose `Id` is `parseInt(categoryId)` (or none); otherwise the
   * previous value stays.
   */
  function CurrentCategory(prev: Option<CategoryService.Category>, categories: seq<CategoryService.Category>,
                           categoryId: Option<string>): (r: Option<CategoryService.Category>)
    ensures !(|categories| > 0 && categoryId.Some? && categoryId.value != "") ==> r == prev
    ensures |categories| > 0 && categoryId.Some? && categoryId.value != "" ==>
      (r.Some? <==> exists i :: 0 <= i < |categories| && CategoryService.IdIs(ParseInt(categoryId.value))(categories[i]))
    ensures |categories| > 0 && categoryId.Some? && categoryId.value != "" && r.Some? ==>
      exists k :: (0 <= k < |categories| && r.value == categories[k] &&
        CategoryService.IdIs(ParseInt(categoryId.value))(categories[k]) &&
        forall j :: 0 <= j < k ==> !CategoryService.IdIs(ParseInt(categoryId.value))(categories[j]))
  {
    if |categories| > 0 && categoryId.Some? && categoryId.value != "" then
      Find(categories, CategoryService.IdIs(ParseInt(categoryId.value)))
    else prev
  }

  /**
   * The empty-list title: "No tasks found" while searching, else the lowercased name of
   * the current category, or "category" when there is none or its name is empty.
   */
  function EmptyTitle(searchQuery: string, current: Option<CategoryService.Category>): (r: string)
    ensures r == "No tasks found" <==> searchQuery != ""
    ensures searchQuery == "" && current.Some? && TruthyStr(current.value.Name) ==>
      r == "No " + ToLower(current.value.Name.v) + " tasks"
    ensures searchQuery == "" && !(current.Some? && TruthyStr(current.value.Name)) ==> r == "No category tasks"
  {
    if searchQuery != "" then "No tasks found"
    else
      var r := "No " + (if current.Some? && current.value.Name.Val? && ToLower(current.value.Name.v) != ""
                        then ToLower(current.value.Name.v) else "category") + " tasks";
      assert r[|r| - 1] == 's';
      r
  }
}
