/**
 * The task store (src/services/api/taskService.js): an ordered collection of task
 * records with id allocation, create/update/delete, lookups, date-window filters and
 * search, and the completion bookkeeping of `update`.
 */
module TaskService {
  import opened Js
  import opened Seqs
  import opened FileUtils

  /**
   * A task record, or a patch of one (the fields a patch leaves missing are `Absent`).
   * Both the plain fields and the `*_c` fields of the record API are kept, as the code
   * reads both. `createdAt`/`completedAt` are timestamps; `dueDate` is a `YYYY-MM-DD` string.
   */
  datatype Task = Task(
    Id: Field<int>,
    title: Field<string>,
    description: Field<string>,
    priority: Field<string>,
    categoryId: Field<Scalar>,
    dueDate: Field<string>,
    status: Field<string>,
    createdAt: Field<int>,
    completedAt: Field<int>,
    files: Field<seq<FileProps>>,
    title_c: Field<string>,
    description_c: Field<string>,
    priority_c: Field<string>,
    status_c: Field<string>,
    category_id_c: Field<Scalar>,
    due_date_c: Field<string>,
    files_c: Field<seq<FileProps>>)

  /** The record with no properties, `{}`. */
  const Empty: Task := Task(Absent, Absent, Absent, Absent, Absent, Absent, Absent, Absent, Absent,
                            Absent, Absent, Absent, Absent, Absent, Absent, Absent, Absent)

  /** `{...base, ...top}`. */
  function Merge(base: Task, top: Task): Task
  {
    Task(Over(base.Id, top.Id), Over(base.title, top.title), Over(base.description, top.description),
         Over(base.priority, top.priority), Over(base.categoryId, top.categoryId),
         Over(base.dueDate, top.dueDate), Over(base.status, top.status),
         Over(base.createdAt, top.createdAt), Over(base.completedAt, top.completedAt),
         Over(base.files, top.files), Over(base.title_c, top.title_c),
         Over(base.description_c, top.description_c), Over(base.priority_c, top.priority_c),
         Over(base.status_c, top.status_c), Over(base.category_id_c, top.category_id_c),
         Over(base.due_date_c, top.due_date_c), Over(base.files_c, top.files_c))
  }

  /** Spreading a record over `{}`, or `{}` over a record, copies it. */
  lemma MergeIdentity(t: Task)
    ensures Merge(Empty, t) == t && Merge(t, Empty) == t
  {
  }

  /** Spreading in two steps is spreading the combination. */
  lemma MergeAssociative(a: Task, b: Task, c: Task)
    ensures Merge(Merge(a, b), c) == Merge(a, Merge(b, c))
  {
  }

  // ---------------------------------------------------------------------------
  // Store invariants

  /** Every stored task has a numeric `Id`, and no two share one. */
  predicate ValidTasks(ts: seq<Task>)
  {
    && (forall i :: 0 <= i < |ts| ==> ts[i].Id.Val?)
    && (forall i, j :: 0 <= i < j < |ts| ==> ts[i].Id != ts[j].Id)
  }

  /** The `Id`s, in store order. */
  function Ids(ts: seq<Task>): seq<int>
    requires forall i :: 0 <= i < |ts| ==> ts[i].Id.Val?
  {
    Values(ts, (t: Task) => t.Id)
  }

  /** `ts.reduce((max, task) => Math.max(max, task.Id), 0)`: at least 0 and every `Id`. */
  function MaxId(ts: seq<Task>): (r: int)
    requires forall i :: 0 <= i < |ts| ==> ts[i].Id.Val?
    ensures r >= 0 && forall i :: 0 <= i < |ts| ==> ts[i].Id.v <= r
    ensures r == 0 || exists i :: 0 <= i < |ts| && r == ts[i].Id.v
  {
    MaxFrom(Ids(ts), 0)
  }

  /** `task.Id === parseInt(id)`: never true when `parseInt` gives NaN. */
  function IdIs(id: Option<int>): Task -> bool
  {
    (t: Task) => id.Some? && t.Id == Val(id.value)
  }

  function IdIsNot(id: Option<int>): Task -> bool
  {
    (t: Task) => !(id.Some? && t.Id == Val(id.value))
  }

  /** r consists of exactly the elements of s that satisfy p, in their order in s. */
  predicate Selects<T(==)>(r: seq<T>, s: seq<T>, p: T -> bool)
  {
    && Subsequence(r, s)
    && (forall i :: 0 <= i < |r| ==> p(r[i]))
    && (forall i :: 0 <= i < |s| && p(s[i]) ==> s[i] in r)
  }

  lemma FilterSelects<T>(s: seq<T>, p: T -> bool)
    ensures Selects(Filter(s, p), s, p)
  {
    FilterIsSubsequence(s, p);
    FilterMembers(s, p);
  }

  // ---------------------------------------------------------------------------
  // Query predicates

  function InCategory(c: Field<Scalar>): Task -> bool
  {
    (t: Task) => t.categoryId == c
  }

  function HasStatus(s: string): Task -> bool
  {
    (t: Task) => t.status == Val(s)
  }

  predicate ActiveTask(t: Task)
  {
    t.status == Val("active")
  }

  /** `task.status === 'active' && task.dueDate === today`. */
  function DueToday(today: string): Task -> bool
  {
    (t: Task) => ActiveTask(t) && t.dueDate == Val(today)
  }

  /** `task.status === 'active' && task.dueDate && task.dueDate > today`. */
  function DueAfter(today: string): Task -> bool
  {
    (t: Task) => ActiveTask(t) && TruthyStr(t.dueDate) && StrLess(today, t.dueDate.v)
  }

  /** `task.status === 'active' && task.dueDate && task.dueDate < today`. */
  function DueBefore(today: string): Task -> bool
  {
    (t: Task) => ActiveTask(t) && TruthyStr(t.dueDate) && StrLess(t.dueDate.v, today)
  }

  /** An active task with a due date falls in exactly one of the three windows. */
  lemma WindowsPartition(t: Task, today: string)
    requires ActiveTask(t) && TruthyStr(t.dueDate)
    ensures DueToday(today)(t) || DueAfter(today)(t) || DueBefore(today)(t)
    ensures !(DueToday(today)(t) && DueAfter(today)(t))
    ensures !(DueToday(today)(t) && DueBefore(today)(t))
    ensures !(DueAfter(today)(t) && DueBefore(today)(t))
  {
    StrLessTrichotomy(today, t.dueDate.v);
    StrLessIrreflexive(today);
  }

  /**
   * A task that is not active, or whose due date is falsy (missing, `null` or the `""`
   * the form saves for no date), is in none of the windows; today's date is never empty.
   */
  lemma Undated(t: Task, today: string)
    requires !ActiveTask(t) || !TruthyStr(t.dueDate)
    ensures !DueAfter(today)(t) && !DueBefore(today)(t)
    ensures today != "" ==> !DueToday(today)(t)
    ensures t.dueDate.Absent? || t.dueDate.Null? || !ActiveTask(t) ==> !DueToday(today)(t)
  {
  }

  /**
   * `search`'s test on one task, with `None` for the TypeError thrown when the title
   * (or, when the title does not match, the description) is not a string.
   */
  function SearchTest(t: Task, q: string): Option<bool>
  {
    if !t.title.Val? then None
    else if Includes(ToLower(t.title.v), q) then Some(true)
    else if !t.description.Val? then None
    else Some(Includes(ToLower(t.description.v), q))
  }

  /** The task's title, or else its description, contains the query, ignoring case. */
  function MatchesQuery(query: string): Task -> bool
  {
    (t: Task) => t.title.Val? &&
      (Includes(ToLower(t.title.v), ToLower(query)) ||
       (t.description.Val? && Includes(ToLower(t.description.v), ToLower(query))))
  }

  /** `ts.filter(...)` with the search test, failing at the first task that throws. */
  function SearchAll(ts: seq<Task>, q: string): Option<seq<Task>>
    decreases |ts|
  {
    if ts == [] then Some([])
    else match SearchTest(ts[0], q)
      case None => None
      case Some(keep) =>
        match SearchAll(ts[1..], q)
        case None => None
        case Some(rest) => Some((if keep then [ts[0]] else []) + rest)
  }

  /** No task makes the search test throw. */
  predicate Searchable(ts: seq<Task>, query: string)
  {
    forall i :: 0 <= i < |ts| ==> SearchTest(ts[i], ToLower(query)).Some?
  }

  /**
   * When no task makes the test throw, search keeps exactly the matching tasks, in
   * order; otherwise it fails.
   */
  lemma {:induction false} SearchAllIsFilter(ts: seq<Task>, query: string)
    ensures Searchable(ts, query) ==> SearchAll(ts, ToLower(query)) == Some(Filter(ts, MatchesQuery(query)))
    ensures !Searchable(ts, query) ==> SearchAll(ts, ToLower(query)) == None
    decreases |ts|
  {
    if ts != [] {
      SearchAllIsFilter(ts[1..], query);
      if !Searchable(ts[1..], query) {
        var i :| 0 <= i < |ts[1..]| && SearchTest(ts[1..][i], ToLower(query)).None?;
        assert ts[1..][i] == ts[i + 1];
      } else if SearchTest(ts[0], ToLower(query)).Some? {
        assert Searchable(ts, query) by {
          forall i | 0 <= i < |ts| ensures SearchTest(ts[i], ToLower(query)).Some? {
            if i > 0 { assert ts[i] == ts[1..][i - 1]; }
          }
        }
      }
    }
  }

  /** Search is case-insensitive: lowercasing the query changes nothing. */
  lemma SearchIgnoresQueryCase(ts: seq<Task>, query: string)
    ensures SearchAll(ts, ToLower(ToLower(query))) == SearchAll(ts, ToLower(query))
  {
    ToLowerIdempotent(query);
  }

  // ---------------------------------------------------------------------------
  // update's merge and completion bookkeeping

  /**
   * The record `update(id, patch)` stores over `old`: the merge, with `Id` forced to
   * the parsed id, then `completedAt` set to now on active→completed and cleared on
   * completed→active, judged by the status of `prev`, the stored record.
   */
  function Updated(prev: Task, patch: Task, id: int, now: int): Task
  {
    var merged := Merge(prev, patch).(Id := Val(id));
    if patch.status == Val("completed") && prev.status == Val("active") then merged.(completedAt := Val(now))
    else if patch.status == Val("active") && prev.status == Val("completed") then merged.(completedAt := Null)
    else merged
  }

  /** The bookkeeping touches only `completedAt`, and only on the two status transitions. */
  lemma UpdatedSpec(prev: Task, patch: Task, id: int, now: int)
    ensures Updated(prev, patch, id, now).(completedAt := Merge(prev, patch).completedAt)
         == Merge(prev, patch).(Id := Val(id))
    ensures patch.status == Val("completed") && prev.status == Val("active") ==>
      Updated(prev, patch, id, now).completedAt == Val(now)
    ensures patch.status == Val("active") && prev.status == Val("completed") ==>
      Updated(prev, patch, id, now).completedAt == Null
    ensures !(patch.status == Val("completed") && prev.status == Val("active")) &&
            !(patch.status == Val("active") && prev.status == Val("completed")) ==>
      Updated(prev, patch, id, now).completedAt == Over(prev.completedAt, patch.completedAt)
    ensures Updated(prev, patch, id, now).createdAt == Over(prev.createdAt, patch.createdAt)
  {
  }

  /** `completedAt` is set exactly when the task is completed (for the two statuses the app uses). */
  predicate CompletionConsistent(t: Task)
  {
    (t.status == Val("active") || t.status == Val("completed")) &&
    (t.completedAt.Val? <==> t.status == Val("completed"))
  }

  /**
   * An update that changes at most the status (to one of the two the app uses), and
   * does not touch `completedAt`, keeps `completedAt` consistent with the status.
   */
  lemma UpdatedKeepsCompletion(prev: Task, patch: Task, id: int, now: int)
    requires CompletionConsistent(prev)
    requires patch.status.Absent? || patch.status == Val("active") || patch.status == Val("completed")
    requires patch.completedAt.Absent?
    ensures CompletionConsistent(Updated(prev, patch, id, now))
  {
  }

  /** The record `create(patch)` appends: the patch with the allocated fields forced. */
  function Created(patch: Task, id: int, now: int): Task
  {
    Merge(patch, Empty.(Id := Val(id), status := Val("active"), createdAt := Val(now), completedAt := Null))
  }

  /** The allocated fields override whatever the patch supplied; everything else is the patch's. */
  lemma CreatedSpec(patch: Task, id: int, now: int)
    ensures Created(patch, id, now) == patch.(Id := Val(id), status := Val("active"), createdAt := Val(now), completedAt := Null)
    ensures CompletionConsistent(Created(patch, id, now))
  {
  }

  // ---------------------------------------------------------------------------
  // The store

  class TaskStore {
    var tasks: seq<Task>

    ghost predicate Valid()
      reads this
    {
      ValidTasks(tasks)
    }

    /** The store over the seeded records. */
    constructor (seed: seq<Task>)
      requires ValidTasks(seed)
      ensures Valid() && tasks == seed
    {
      tasks := seed;
    }

    /** `getAll()`: the records in store order. */
    function GetAll(): (r: seq<Task>)
      reads this
      ensures r == tasks
    {
      tasks
    }

    /** `getById(id)`: the first task whose `Id` is `parseInt(id)`, or `null`. */
    function GetById(id: Field<Scalar>): (r: Option<Task>)
      reads this
      ensures r.Some? <==> exists i :: 0 <= i < |tasks| && IdIs(ParseIntOf(id))(tasks[i])
      ensures r.Some? ==> r.value in tasks && ParseIntOf(id).Some? && r.value.Id == Val(ParseIntOf(id).value)
      ensures r.Some? ==> exists k :: (0 <= k < |tasks| && tasks[k] == r.value &&
        forall j :: 0 <= j < k ==> !IdIs(ParseIntOf(id))(tasks[j]))
    {
      Find(tasks, IdIs(ParseIntOf(id)))
    }

    /** `getByCategory(c)`: the tasks whose `categoryId` is strictly equal to c, in order. */
    function GetByCategory(c: Field<Scalar>): (r: seq<Task>)
      reads this
      ensures Selects(r, tasks, InCategory(c))
    {
      FilterSelects(tasks, InCategory(c));
      Filter(tasks, InCategory(c))
    }

    /** `getByStatus(s)`: the tasks whose status is s, in order. */
    function GetByStatus(s: string): (r: seq<Task>)
      reads this
      ensures Selects(r, tasks, HasStatus(s))
    {
      FilterSelects(tasks, HasStatus(s));
      Filter(tasks, HasStatus(s))
    }

    /** `getToday()`, with today's `YYYY-MM-DD` date as a parameter. */
    function GetToday(today: string): (r: seq<Task>)
      reads this
      ensures Selects(r, tasks, DueToday(today))
    {
      FilterSelects(tasks, DueToday(today));
      Filter(tasks, DueToday(today))
    }

    /** `getUpcoming()`: active tasks due after today. */
    function GetUpcoming(today: string): (r: seq<Task>)
      reads this
      ensures Selects(r, tasks, DueAfter(today))
    {
      FilterSelects(tasks, DueAfter(today));
      Filter(tasks, DueAfter(today))
    }

    /** `getOverdue()`: active tasks due before today. */
    function GetOverdue(today: string): (r: seq<Task>)
      reads this
      ensures Selects(r, tasks, DueBefore(today))
    {
      FilterSelects(tasks, DueBefore(today));
      Filter(tasks, DueBefore(today))
    }

    /** `search(query)`: `None` when the filter throws on a task without a string title or description. */
    function Search(query: string): (r: Option<seq<Task>>)
      reads this
      ensures r.Some? <==> Searchable(tasks, query)
      ensures r.Some? ==> Selects(r.value, tasks, MatchesQuery(query))
    {
      SearchAllIsFilter(tasks, query);
      FilterSelects(tasks, MatchesQuery(query));
      SearchAll(tasks, ToLower(query))
    }

    /** `create(patch)`: appends the patch with the next free `Id`, active and not completed. */
    method Create(patch: Task, now: int) returns (r: Task)
      requires Valid()
      modifies this
      ensures Valid()
      ensures tasks == old(tasks) + [r]
      ensures r == Created(patch, MaxId(old(tasks)) + 1, now)
      ensures forall i :: 0 <= i < |old(tasks)| ==> old(tasks)[i].Id.v < r.Id.v
    {
      var maxId := MaxId(tasks);
      r := Created(patch, maxId + 1, now);
      tasks := tasks + [r];
    }

    /**
     * `update(id, patch)`: replaces the first task with `Id === parseInt(id)` by its
     * update and keeps it at its index; "Task not found" leaves the store as it was.
     */
    method Update(id: Field<Scalar>, patch: Task, now: int) returns (r: Result<Task>)
      requires Valid()
      modifies this
      ensures Valid()
      ensures r.Err? <==> forall i :: 0 <= i < |old(tasks)| ==> !IdIs(ParseIntOf(id))(old(tasks)[i])
      ensures r.Err? ==> r.message == "Task not found" && tasks == old(tasks)
      ensures r.Ok? ==> exists k :: (0 <= k < |old(tasks)| && IdIs(ParseIntOf(id))(old(tasks)[k]) &&
        (forall j :: 0 <= j < k ==> !IdIs(ParseIntOf(id))(old(tasks)[j])) &&
        r.value == Updated(old(tasks)[k], patch, ParseIntOf(id).value, now) &&
        tasks == old(tasks)[k := r.value])
    {
      var n := ParseIntOf(id);
      var index := FirstIndex(tasks, IdIs(n));
      if index.None? {
        return Err("Task not found");
      }
      var k := index.value;
      UpdateAt(tasks, n, k, patch, now);
      var updated := Updated(tasks[k], patch, n.value, now);
      tasks := tasks[k := updated];
      r := Ok(updated);
    }

    /** `delete(id)`: drops every task with `Id === parseInt(id)`, keeps the rest in order, returns true. */
    method Delete(id: Field<Scalar>) returns (r: bool)
      requires Valid()
      modifies this
      ensures Valid()
      ensures r
      ensures Selects(tasks, old(tasks), IdIsNot(ParseIntOf(id)))
      ensures tasks == Filter(old(tasks), IdIsNot(ParseIntOf(id)))
    {
      var remaining := Filter(tasks, IdIsNot(ParseIntOf(id)));
      FilterSelects(tasks, IdIsNot(ParseIntOf(id)));
      FilterKeepsValid(tasks, IdIsNot(ParseIntOf(id)));
      tasks := remaining;
      r := true;
    }
  }

  /** Updating the record `update` finds keeps every Id numeric and distinct. */
  lemma UpdateAt(ts: seq<Task>, n: Option<int>, k: nat, patch: Task, now: int)
    requires ValidTasks(ts) && k < |ts| && IdIs(n)(ts[k])
    ensures n.Some?
    ensures ValidTasks(ts[k := Updated(ts[k], patch, n.value, now)])
  {
    var t := Updated(ts[k], patch, n.value, now);
    assert t.Id == ts[k].Id;
    var r := ts[k := t];
    assert forall i :: 0 <= i < |r| ==> r[i].Id == ts[i].Id;
  }

  /** Dropping records keeps every Id numeric and distinct. */
  lemma {:induction false} FilterKeepsValid(ts: seq<Task>, p: Task -> bool)
    requires ValidTasks(ts)
    ensures ValidTasks(Filter(ts, p))
    decreases |ts|
  {
    if ts != [] {
      FilterKeepsValid(ts[1..], p);
      FilterMembers(ts[1..], p);
      var rest := Filter(ts[1..], p);
      var r := Filter(ts, p);
      assert r == (if p(ts[0]) then [ts[0]] else []) + rest;
      if p(ts[0]) {
        forall j | 0 < j < |r| ensures r[0].Id != r[j].Id {
          assert r[j] == rest[j - 1];
          assert rest[j - 1] in ts[1..];
        }
      }
    }
  }

  /** After delete(id), getById(id) finds nothing. */
  lemma DeletedNotFound(ts: seq<Task>, id: Field<Scalar>)
    ensures forall i :: 0 <= i < |Filter(ts, IdIsNot(ParseIntOf(id)))| ==>
      !IdIs(ParseIntOf(id))(Filter(ts, IdIsNot(ParseIntOf(id)))[i])
  {
    FilterMembers(ts, IdIsNot(ParseIntOf(id)));
  }

  /**
   * Ids are reused: with tasks 1 and 2 stored, deleting 2 and creating a task gives
   * the new task Id 2 again, since allocation is one more than the largest Id left.
   */
  lemma IdReusedAfterDelete(a: Task, b: Task)
    requires a.Id == Val(1) && b.Id == Val(2)
    ensures Filter([a, b], IdIsNot(Some(2))) == [a]
    ensures MaxId([a]) + 1 == 2
  {
    var p := IdIsNot(Some(2));
    assert [a, b] == [a] + [b] && [b] == [b] + [];
    FilterCons(a, [b], p);
    FilterCons(b, [], p);
    assert Ids([a]) == [1];
    assert MaxFrom([1], 0) == MaxFrom([], 1);
  }
}
