/**
 * The `useTasks` hook (src/hooks/useTasks.js): which store query a filter kind runs,
 * and how the hook's local task list, loading flag and error change on load, toggle
 * and delete.
 */
module UseTasks {
  import opened Js
  import opened Seqs
  import opened TaskService

  /** The store query a load ends up running. */
  datatype Query =
    | Today
    | Upcoming
    | ByStatus(status: string)
    | ByCategory(categoryId: Field<Scalar>)
    | SearchFor(query: string)
    | SearchNonString   // `search` given a truthy value that has no `toLowerCase`: a TypeError
    | All

  /**
   * The `switch (filterType)` of `loadTasks`, with its fall-throughs as written:
   * `category` runs `getByCategory` twice (same result); `priority` has no `break`, so
   * its filtered list is overwritten by the `search` case; `overdue`, `all` and any
   * other kind reach `default`.
   */
  function Dispatch(filterType: string, filterValue: Field<Scalar>): Query
  {
    match filterType
    case "today" => Today
    case "upcoming" => Upcoming
    case "completed" => ByStatus("completed")
    case "category" => ByCategory(filterValue)
    case "priority" => SearchCase(filterValue)
    case "search" => SearchCase(filterValue)
    case "active" => ByStatus("active")
    case _ => All
  }

  /** The default parameter `filterValue = null`: a missing value arrives as `null`. */
  function WithDefault(filterValue: Field<Scalar>): (r: Field<Scalar>)
    ensures !r.Absent?
    ensures !filterValue.Absent? ==> r == filterValue
  {
    if filterValue.Absent? then Null else filterValue
  }

  /** `useTasks(filterType, filterValue)`: the query a load runs, the default applied first. */
  function HookQuery(filterType: string, filterValue: Field<Scalar>): Query
  {
    Dispatch(filterType, WithDefault(filterValue))
  }

  /**
   * A page that passes no value loads as if it passed `null`: `category` lists the
   * tasks whose `categoryId` is `null`, not those without the key.
   */
  lemma MissingValueIsNull(filterType: string)
    ensures HookQuery(filterType, Absent) == Dispatch(filterType, Null)
    ensures HookQuery("category", Absent) == ByCategory(Null)
  {
  }

  /** The `search` case: `search(filterValue)` when it is truthy, else `getAll()`. */
  function SearchCase(filterValue: Field<Scalar>): Query
  {
    if !Truthy(filterValue) then All
    else match filterValue.v
      case Str(s) => SearchFor(s)
      case Num(_) => SearchNonString
  }

  /** The dispatch table for the kinds with a query of their own. */
  lemma DispatchKinds(v: Field<Scalar>)
    ensures Dispatch("today", v) == Today && Dispatch("upcoming", v) == Upcoming
    ensures Dispatch("completed", v) == ByStatus("completed") && Dispatch("active", v) == ByStatus("active")
    ensures Dispatch("category", v) == ByCategory(v)
  {
  }

  /**
   * `priority` falls through into `search`: with a truthy value the tasks are the search
   * results for it (the priority subset is discarded), with a falsy one all tasks.
   */
  lemma PriorityFallsThrough(v: Field<Scalar>)
    ensures Dispatch("priority", v) == Dispatch("search", v)
    ensures v.Val? && v.v.Str? && v.v.s != "" ==> Dispatch("priority", v) == SearchFor(v.v.s)
    ensures !Truthy(v) ==> Dispatch("priority", v) == All
  {
  }

  /** Every kind but the seven named ones, `overdue` and `all` among them, loads all tasks. */
  lemma OtherKindsLoadAll(filterType: string, v: Field<Scalar>)
    requires filterType !in {"today", "upcoming", "completed", "category", "priority", "search", "active"}
    ensures Dispatch(filterType, v) == All
    ensures Dispatch("overdue", v) == All && Dispatch("all", v) == All
  {
  }

  /** The tasks a query returns, or the failure that `loadTasks` catches. */
  function Fetch(store: TaskStore, q: Query, today: string): Result<seq<Task>>
    reads store
  {
    match q
    case Today => Ok(store.GetToday(today))
    case Upcoming => Ok(store.GetUpcoming(today))
    case ByStatus(s) => Ok(store.GetByStatus(s))
    case ByCategory(c) => Ok(store.GetByCategory(c))
    case SearchFor(s) =>
      (match store.Search(s)
       case Some(r) => Ok(r)
       case None => Err("TypeError"))
    case SearchNonString => Err("TypeError")
    case All => Ok(store.GetAll())
  }

  const LoadError := "Failed to load tasks. Please try again."
  const UpdateError := "Failed to update task. Please try again."

  /** The status a toggle asks for: `task.status_c === "completed" ? "active" : "completed"`. */
  function NewStatus(t: Task): string
  {
    if t.status_c == Val("completed") then "active" else "completed"
  }

  /** `t.Id === taskId`. */
  function HasId(taskId: Field<Scalar>): Task -> bool
  {
    (t: Task) => AsScalar(t.Id) == taskId
  }

  function LacksId(taskId: Field<Scalar>): Task -> bool
  {
    (t: Task) => AsScalar(t.Id) != taskId
  }

  /** `t.Id === taskId ? { ...t, ...updated } : t`. */
  function PatchWith(taskId: Field<Scalar>, updated: Task): Task -> Task
  {
    (t: Task) => if AsScalar(t.Id) == taskId then Merge(t, updated) else t
  }

  /**
   * The toggle reads `status_c` but writes `status`: the record the store returns keeps
   * the stored `status_c`, so when that agrees with the local one, toggling the patched
   * task again asks for the same status.
   */
  lemma ToggleRepeatsRequest(local: Task, stored: Task, id: int, now: int)
    requires stored.status_c == local.status_c
    ensures NewStatus(Merge(local, Updated(stored, Empty.(status := Val(NewStatus(local))), id, now)))
         == NewStatus(local)
  {
  }

  /** Whether the store has a task that `update(taskId, ...)` finds. */
  predicate StoreHas(stored: seq<Task>, taskId: Field<Scalar>)
  {
    exists i :: 0 <= i < |stored| && IdIs(ParseIntOf(taskId))(stored[i])
  }

  class TasksHook {
    var tasks: seq<Task>
    var loading: bool
    var error: Option<string>
    const store: TaskStore

    /** The hook's initial state: no tasks, loading, no error. */
    constructor (store: TaskStore)
      ensures this.store == store
      ensures tasks == [] && loading && error.None?
    {
      this.store := store;
      tasks := [];
      loading := true;
      error := None;
    }

    /**
     * `loadTasks()`: runs the dispatched query; on success the list is its result and
     * the error is cleared, on failure the list is kept and the load error is set.
     * Loading is over either way.
     */
    method LoadTasks(filterType: string, filterValue: Field<Scalar>, today: string)
      modifies this
      ensures !loading
      ensures Fetch(store, HookQuery(filterType, filterValue), today).Ok? ==>
        tasks == Fetch(store, HookQuery(filterType, filterValue), today).value && error.None?
      ensures Fetch(store, HookQuery(filterType, filterValue), today).Err? ==>
        tasks == old(tasks) && error == Some(LoadError)
    {
      loading := true;
      error := None;
      var data := Fetch(store, Dispatch(filterType, WithDefault(filterValue)), today);
      if data.Ok? {
        tasks := data.value;
      } else {
        error := Some(LoadError);
      }
      loading := false;
    }

    /**
     * `toggleTask(taskId)`: nothing happens unless the local list has the task; then
     * the store updates its status, and every local element with that `Id` is merged
     * with the returned record, the rest unchanged and in place. A failed update sets
     * the update error and leaves the list alone.
     */
    method ToggleTask(taskId: Field<Scalar>, now: int)
      requires store.Valid()
      modifies this, store
      ensures store.Valid()
      ensures loading == old(loading)
      ensures Find(old(tasks), HasId(taskId)).None? ==>
        tasks == old(tasks) && error == old(error) && store.tasks == old(store.tasks)
      ensures Find(old(tasks), HasId(taskId)).Some? && !StoreHas(old(store.tasks), taskId) ==>
        tasks == old(tasks) && error == Some(UpdateError) && store.tasks == old(store.tasks)
      ensures Find(old(tasks), HasId(taskId)).Some? && StoreHas(old(store.tasks), taskId) ==>
        var patch := Empty.(status := Val(NewStatus(Find(old(tasks), HasId(taskId)).value)));
        error == old(error) &&
        exists k :: (0 <= k < |old(store.tasks)| && IdIs(ParseIntOf(taskId))(old(store.tasks)[k]) &&
          store.tasks == old(store.tasks)[k := Updated(old(store.tasks)[k], patch, ParseIntOf(taskId).value, now)] &&
          tasks == Map(old(tasks), PatchWith(taskId, store.tasks[k])))
    {
      var task := Find(tasks, HasId(taskId));
      if task.None? {
        return;
      }
      var patch := Empty.(status := Val(NewStatus(task.value)));
      var result := store.Update(taskId, patch, now);
      if result.Err? {
        error := Some(UpdateError);
        return;
      }
      tasks := Map(tasks, PatchWith(taskId, result.value));
    }

    /** `deleteTask(taskId)`: deletes in the store, then drops every local element with that `Id`. */
    method DeleteTask(taskId: Field<Scalar>)
      requires store.Valid()
      modifies this, store
      ensures store.Valid()
      ensures store.tasks == Filter(old(store.tasks), IdIsNot(ParseIntOf(taskId)))
      ensures tasks == Filter(old(tasks), LacksId(taskId))
      ensures Selects(tasks, old(tasks), LacksId(taskId))
      ensures error == old(error) && loading == old(loading)
    {
      var _ := store.Delete(taskId);
      FilterSelects(tasks, LacksId(taskId));
      tasks := Filter(tasks, LacksId(taskId));
    }
  }
}
