/**
 * The task list's logic (src/components/organisms/TaskList.jsx): the category lookup
 * table, the sort of the displayed tasks by the chosen key and direction, and the sort
 * controls' state.
 */
module TaskList {
  import opened Js
  import opened Seqs
  import opened ArraySort
  import opened TaskService
  import opened CategoryService

  // ---------------------------------------------------------------------------
  // categoryLookup

  /** The property name `lookup[category.Id]` writes: `String(category.Id)`. */
  function LookupKey(c: Category): string
  {
    ToJsString(AsScalar(c.Id))
  }

  /** Whether no category after position i and before position n has the same lookup key as the one at i. */
  predicate LastBefore(cs: seq<Category>, i: int, n: int)
    requires 0 <= i < |cs| && n <= |cs|
  {
    forall j :: i < j < n ==> LookupKey(cs[j]) != LookupKey(cs[i])
  }

  /** Whether no category after position i has the same lookup key as the one at i. */
  predicate LastWithKey(cs: seq<Category>, i: int)
    requires 0 <= i < |cs|
  {
    LastBefore(cs, i, |cs|)
  }

  /**
   * `categoryLookup`: a table from every category's `Id` to that category, where a
   * later category with the same `Id` overwrites an earlier one.
   */
  method CategoryLookup(categories: seq<Category>) returns (lookup: map<string, Category>)
    ensures forall k :: k in lookup <==> exists i :: 0 <= i < |categories| && LookupKey(categories[i]) == k
    ensures forall i :: 0 <= i < |categories| && LastWithKey(categories, i) ==>
      lookup[LookupKey(categories[i])] == categories[i]
  {
    lookup := map[];
    var n := 0;
    while n < |categories|
      invariant 0 <= n <= |categories|
      invariant forall k :: k in lookup <==> exists i :: 0 <= i < n && LookupKey(categories[i]) == k
      invariant forall i :: 0 <= i < n && LastBefore(categories, i, n) ==>
        lookup[LookupKey(categories[i])] == categories[i]
    {
      var category := categories[n];
      var next := lookup[LookupKey(category) := category];
      forall i | 0 <= i < n + 1 && LastBefore(categories, i, n + 1)
        ensures next[LookupKey(categories[i])] == categories[i]
      {
        if i < n {
          assert LastBefore(categories, i, n);
          assert LookupKey(categories[n]) != LookupKey(categories[i]);
        }
      }
      forall k ensures k in next <==> exists i :: 0 <= i < n + 1 && LookupKey(categories[i]) == k {
        if k == LookupKey(category) {
          assert LookupKey(categories[n]) == k;
        }
      }
      lookup := next;
      n := n + 1;
    }
  }

  /** `categoryLookup[x]`: property access converts x to a string first. */
  function Lookup(lookup: map<string, Category>, x: Field<Scalar>): Option<Category>
  {
    if ToJsString(x) in lookup then Some(lookup[ToJsString(x)]) else None
  }

  /** A numeric category id and its string form find the same entry. */
  lemma LookupEitherForm(lookup: map<string, Category>, n: int)
    ensures Lookup(lookup, Val(Num(n))) == Lookup(lookup, Val(Str(IntToString(n))))
  {
  }

  /** The entry for a category with a numeric `Id` is found by that `Id`. */
  lemma LookupFindsCategory(lookup: map<string, Category>, c: Category)
    requires c.Id.Val? && LookupKey(c) in lookup
    ensures Lookup(lookup, Val(Num(c.Id.v))) == Some(lookup[LookupKey(c)])
  {
  }

  // ---------------------------------------------------------------------------
  // sortedTasks

  /** `priorityOrder[p] || 1` with `{ high: 3, medium: 2, low: 1 }`. */
  function PriorityRank(p: Field<string>): (r: int)
    ensures 1 <= r <= 3
  {
    match p
    case Val("high") => 3
    case Val("medium") => 2
    case _ => 1
  }

  /** High outranks medium outranks low; any other value, present or not, ranks as low. */
  lemma PriorityRanks(p: Field<string>)
    ensures PriorityRank(Val("high")) > PriorityRank(Val("medium")) > PriorityRank(Val("low"))
    ensures p != Val("high") && p != Val("medium") ==> PriorityRank(p) == PriorityRank(Val("low"))
  {
  }

  /**
   * A task's sort key. `timeOf` is `new Date(dueDate).getTime()`; a falsy due date is
   * `Infinity`. Unrecognised `sortBy` values sort by creation time.
   */
  function TaskKey(t: Task, sortBy: string, timeOf: string -> int): Key
  {
    if sortBy == "priority" then Finite(PriorityRank(t.priority))
    else if sortBy == "dueDate" then (if TruthyStr(t.dueDate) then Finite(timeOf(t.dueDate.v)) else Infinity)
    else if sortBy == "title" then Text(if t.title.Val? then ToLower(t.title.v) else "")
    else Finite(if t.createdAt.Val? then t.createdAt.v else 0)
  }

  function KeyBy(sortBy: string, timeOf: string -> int): Task -> Key
  {
    (t: Task) => TaskKey(t, sortBy, timeOf)
  }

  /** Sorting by title needs every title, and by creation every `createdAt` (otherwise the code throws or compares NaN). */
  predicate SortableBy(tasks: seq<Task>, sortBy: string)
  {
    && (sortBy == "title" ==> forall i :: 0 <= i < |tasks| ==> tasks[i].title.Val?)
    && (sortBy != "priority" && sortBy != "dueDate" && sortBy != "title" ==>
          forall i :: 0 <= i < |tasks| ==> tasks[i].createdAt.Val?)
  }

  /** `sortedTasks`: an empty list stays empty; otherwise a sorted copy. */
  function SortedTasks(tasks: seq<Task>, sortBy: string, sortOrder: string, timeOf: string -> int): seq<Task>
    requires SortableBy(tasks, sortBy)
  {
    if |tasks| == 0 then [] else Sort(tasks, KeyBy(sortBy, timeOf), sortOrder == "asc")
  }

  /**
   * The sorted list is a permutation of the tasks in comparator order, and tasks with
   * equal keys keep their relative order.
   */
  lemma SortedTasksCorrect(tasks: seq<Task>, sortBy: string, sortOrder: string, timeOf: string -> int)
    requires SortableBy(tasks, sortBy)
    ensures tasks == [] ==> SortedTasks(tasks, sortBy, sortOrder, timeOf) == []
    ensures multiset(SortedTasks(tasks, sortBy, sortOrder, timeOf)) == multiset(tasks)
    ensures Sorted(SortedTasks(tasks, sortBy, sortOrder, timeOf), KeyBy(sortBy, timeOf), sortOrder == "asc")
    ensures forall k :: Filter(SortedTasks(tasks, sortBy, sortOrder, timeOf), HasKey(KeyBy(sortBy, timeOf), k))
                     == Filter(tasks, HasKey(KeyBy(sortBy, timeOf), k))
  {
    SortCorrect(tasks, KeyBy(sortBy, timeOf), sortOrder == "asc");
  }

  /** The key the sort compares is the one the source computes for each `sortBy`. */
  lemma TaskKeySpec(t: Task, sortBy: string, timeOf: string -> int)
    ensures sortBy == "priority" ==> TaskKey(t, sortBy, timeOf) == Finite(PriorityRank(t.priority))
    ensures sortBy == "dueDate" && !TruthyStr(t.dueDate) ==> TaskKey(t, sortBy, timeOf) == Infinity
    ensures sortBy == "dueDate" && TruthyStr(t.dueDate) ==> TaskKey(t, sortBy, timeOf) == Finite(timeOf(t.dueDate.v))
    ensures sortBy == "title" && t.title.Val? ==> TaskKey(t, sortBy, timeOf) == Text(ToLower(t.title.v))
    ensures sortBy != "priority" && sortBy != "dueDate" && sortBy != "title" && t.createdAt.Val? ==>
      TaskKey(t, sortBy, timeOf) == Finite(t.createdAt.v)
  {
  }

  /** By due date ascending, every undated task comes after every dated one. */
  lemma UndatedLastAscending(tasks: seq<Task>, timeOf: string -> int)
    ensures var r := SortedTasks(tasks, "dueDate", "asc", timeOf);
      forall i, j :: 0 <= i < j < |r| && !TruthyStr(r[i].dueDate) ==> !TruthyStr(r[j].dueDate)
  {
    SortedTasksCorrect(tasks, "dueDate", "asc", timeOf);
    var r := SortedTasks(tasks, "dueDate", "asc", timeOf);
    var key := KeyBy("dueDate", timeOf);
    forall i, j | 0 <= i < j < |r| && !TruthyStr(r[i].dueDate) ensures !TruthyStr(r[j].dueDate) {
      assert Compare(key(r[i]), key(r[j]), true) <= 0;
    }
  }

  /** By due date descending, every undated task comes before every dated one. */
  lemma UndatedFirstDescending(tasks: seq<Task>, sortOrder: string, timeOf: string -> int)
    requires sortOrder != "asc"
    ensures var r := SortedTasks(tasks, "dueDate", sortOrder, timeOf);
      forall i, j :: 0 <= i < j < |r| && !TruthyStr(r[j].dueDate) ==> !TruthyStr(r[i].dueDate)
  {
    SortedTasksCorrect(tasks, "dueDate", sortOrder, timeOf);
    var r := SortedTasks(tasks, "dueDate", sortOrder, timeOf);
    var key := KeyBy("dueDate", timeOf);
    forall i, j | 0 <= i < j < |r| && !TruthyStr(r[j].dueDate) ensures !TruthyStr(r[i].dueDate) {
      assert Compare(key(r[i]), key(r[j]), false) <= 0;
    }
  }

  /** The comparator: descending is ascending negated, and equal keys compare equal. */
  lemma ComparatorMirrors(a: Task, b: Task, sortBy: string, timeOf: string -> int)
    ensures Compare(TaskKey(a, sortBy, timeOf), TaskKey(b, sortBy, timeOf), false)
         == -Compare(TaskKey(a, sortBy, timeOf), TaskKey(b, sortBy, timeOf), true)
    ensures Compare(TaskKey(a, sortBy, timeOf), TaskKey(b, sortBy, timeOf), true) == 0
        <==> TaskKey(a, sortBy, timeOf) == TaskKey(b, sortBy, timeOf)
  {
    DescendingMirrorsAscending(TaskKey(a, sortBy, timeOf), TaskKey(b, sortBy, timeOf));
    CompareZeroIffEqual(TaskKey(a, sortBy, timeOf), TaskKey(b, sortBy, timeOf), true);
  }

  // ---------------------------------------------------------------------------
  // Sort controls

  /** The order the toggle button sets: `sortOrder === "asc" ? "desc" : "asc"`. */
  function Toggled(sortOrder: string): (r: string)
    ensures r == "asc" || r == "desc"
    ensures r != sortOrder || (sortOrder != "asc" && sortOrder != "desc")
  {
    if sortOrder == "asc" then "desc" else "asc"
  }

  /** Two toggles restore either setting. */
  lemma ToggleTwice(sortOrder: string)
    requires sortOrder == "asc" || sortOrder == "desc"
    ensures Toggled(Toggled(sortOrder)) == sortOrder
  {
  }

  /** The list's `sortBy`/`sortOrder` state. */
  class SortControls {
    var sortBy: string
    var sortOrder: string

    ghost predicate Valid()
      reads this
    {
      sortOrder == "asc" || sortOrder == "desc"
    }

    constructor ()
      ensures Valid()
      ensures sortBy == "created" && sortOrder == "desc"
    {
      sortBy := "created";
      sortOrder := "desc";
    }

    /** The toggle button (line 115): flips the direction and nothing else. */
    method ToggleOrder()
      requires Valid()
      modifies this
      ensures Valid()
      ensures sortOrder == Toggled(old(sortOrder)) && sortOrder != old(sortOrder)
      ensures sortBy == old(sortBy)
    {
      sortOrder := if sortOrder == "asc" then "desc" else "asc";
    }

    /** The `sortBy` select. */
    method SetSortBy(value: string)
      modifies this
      ensures sortBy == value && sortOrder == old(sortOrder)
    {
      sortBy := value;
    }
  }
}
