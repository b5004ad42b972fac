/**
 * The category store (src/services/api/categoryService.js): categories read back
 * sorted by `order`, with id and order allocation, update and delete. Every write
 * persists the order-sorted list that the operation read.
 */
module CategoryService {
  import opened Js
  import opened Seqs
  import opened ArraySort

  /** A category record, or a patch of one. */
  datatype Category = Category(
    Id: Field<int>,
    order: Field<int>,
    Name: Field<string>,
    name: Field<string>,
    icon: Field<string>,
    icon_c: Field<string>,
    color: Field<string>,
    color_c: Field<string>)

  const Empty: Category := Category(Absent, Absent, Absent, Absent, Absent, Absent, Absent, Absent)

  /** `{...base, ...top}`. */
  function Merge(base: Category, top: Category): Category
  {
    Category(Over(base.Id, top.Id), Over(base.order, top.order), Over(base.Name, top.Name),
             Over(base.name, top.name), Over(base.icon, top.icon), Over(base.icon_c, top.icon_c),
             Over(base.color, top.color), Over(base.color_c, top.color_c))
  }

  /**
   * Every stored category has a numeric `Id` and an `order` that subtracts as a number
   * (a number or `null`).
   */
  predicate ValidCategories(cs: seq<Category>)
  {
    forall i :: 0 <= i < |cs| ==> cs[i].Id.Val? && !cs[i].order.Absent?
  }

  /** The order as `a.order - b.order` sees it (`null` counts as 0). */
  function OrderOf(c: Category): int
  {
    if c.order.Val? then c.order.v else 0
  }

  function OrderKey(c: Category): Key
  {
    Finite(OrderOf(c))
  }

  /** `(a, b) => a.order - b.order` orders pairs exactly as the ascending comparator does. */
  lemma OrderComparatorAgrees(a: Category, b: Category)
    ensures OrderOf(a) - OrderOf(b) > 0 <==> Compare(OrderKey(a), OrderKey(b), true) > 0
    ensures OrderOf(a) - OrderOf(b) < 0 <==> Compare(OrderKey(a), OrderKey(b), true) < 0
    ensures OrderOf(a) - OrderOf(b) == 0 <==> Compare(OrderKey(a), OrderKey(b), true) == 0
  {
  }

  function Ids(cs: seq<Category>): seq<int>
    requires forall i :: 0 <= i < |cs| ==> cs[i].Id.Val?
  {
    Values(cs, (c: Category) => c.Id)
  }

  function Orders(cs: seq<Category>): (r: seq<int>)
    ensures |r| == |cs| && forall i :: 0 <= i < |cs| ==> r[i] == OrderOf(cs[i])
  {
    seq(|cs|, i requires 0 <= i < |cs| => OrderOf(cs[i]))
  }

  /** `category.Id === parseInt(id)`. */
  function IdIs(id: Option<int>): Category -> bool
  {
    (c: Category) => id.Some? && c.Id == Val(id.value)
  }

  function IdIsNot(id: Option<int>): Category -> bool
  {
    (c: Category) => !(id.Some? && c.Id == Val(id.value))
  }

  /** The categories in ascending `order`: the stable sort `getAll` performs. */
  function SortedByOrder(cs: seq<Category>): seq<Category>
  {
    Sort(cs, OrderKey, true)
  }

  /** The sorted list is a permutation of the stored one, ascending by order, ties in stored order. */
  lemma SortedByOrderCorrect(cs: seq<Category>)
    ensures multiset(SortedByOrder(cs)) == multiset(cs)
    ensures forall i, j :: 0 <= i < j < |SortedByOrder(cs)| ==>
      OrderOf(SortedByOrder(cs)[i]) <= OrderOf(SortedByOrder(cs)[j])
    ensures forall k :: Filter(SortedByOrder(cs), HasKey(OrderKey, k)) == Filter(cs, HasKey(OrderKey, k))
  {
    SortCorrect(cs, OrderKey, true);
    var r := SortedByOrder(cs);
    forall i, j | 0 <= i < j < |r| ensures OrderOf(r[i]) <= OrderOf(r[j]) {
      assert Compare(OrderKey(r[i]), OrderKey(r[j]), true) <= 0;
    }
  }

  /** Sorting keeps the invariant: the same records, in another order. */
  lemma SortedKeepsValid(cs: seq<Category>)
    requires ValidCategories(cs)
    ensures ValidCategories(SortedByOrder(cs))
  {
    SortCorrect(cs, OrderKey, true);
    var r := SortedByOrder(cs);
    forall i | 0 <= i < |r| ensures r[i].Id.Val? && !r[i].order.Absent? {
      assert r[i] in multiset(cs);
    }
  }

  /**
   * The category `update` finds in the sorted list is a stored one, and replacing it by
   * its update keeps every category's `Id` and `order` present.
   */
  lemma UpdateAt(cs: seq<Category>, sorted: seq<Category>, n: Option<int>, k: nat, patch: Category)
    requires ValidCategories(sorted) && multiset(sorted) == multiset(cs)
    requires k < |sorted| && IdIs(n)(sorted[k])
    ensures n.Some?
    ensures exists i :: 0 <= i < |cs| && IdIs(n)(cs[i])
    ensures ValidCategories(sorted[k := Merge(sorted[k], patch).(Id := Val(n.value))])
  {
    assert sorted[k] in multiset(cs);
    var i :| 0 <= i < |cs| && cs[i] == sorted[k];
    assert IdIs(n)(cs[i]);
    var u := Merge(sorted[k], patch).(Id := Val(n.value));
    assert u.Id.Val? && !u.order.Absent?;
  }

  class CategoryStore {
    /** The list as persisted: each write stores the sorted list it read, as changed. */
    var categories: seq<Category>

    ghost predicate Valid()
      reads this
    {
      ValidCategories(categories)
    }

    constructor (seed: seq<Category>)
      requires ValidCategories(seed)
      ensures Valid() && categories == seed
    {
      categories := seed;
    }

    /** `getAll()`: every stored category, ascending by `order`. */
    function GetAll(): (r: seq<Category>)
      reads this
      ensures multiset(r) == multiset(categories)
      ensures forall i, j :: 0 <= i < j < |r| ==> OrderOf(r[i]) <= OrderOf(r[j])
    {
      SortedByOrderCorrect(categories);
      SortedByOrder(categories)
    }

    /** `getById(id)`: the first category, in sorted order, with `Id === parseInt(id)`, or `null`. */
    function GetById(id: Field<Scalar>): (r: Option<Category>)
      reads this
      ensures r.Some? <==> exists i :: 0 <= i < |categories| && IdIs(ParseIntOf(id))(categories[i])
      ensures r.Some? ==> r.value in multiset(categories) && IdIs(ParseIntOf(id))(r.value)
      ensures r.Some? ==> exists k :: (0 <= k < |GetAll()| && GetAll()[k] == r.value &&
        forall j :: 0 <= j < k ==> !IdIs(ParseIntOf(id))(GetAll()[j]))
    {
      var sorted := GetAll();
      var found := FirstIndex(sorted, IdIs(ParseIntOf(id)));
      if found.None? then
        PermutationNoneMatch(sorted, categories, IdIs(ParseIntOf(id)));
        None
      else
        PermutationSomeMatch(sorted, categories, IdIs(ParseIntOf(id)), found.value);
        assert sorted[found.value] in multiset(categories);
        Some(sorted[found.value])
    }

    /**
     * `create(patch)`: appends, after the sorted list, the patch with `Id` and `order`
     * one above the largest of each (both counted from 0), whatever the patch supplied.
     */
    method Create(patch: Category) returns (r: Category)
      requires Valid()
      modifies this
      ensures Valid()
      ensures categories == SortedByOrder(old(categories)) + [r]
      ensures r == patch.(Id := Val(MaxFrom(Ids(old(categories)), 0) + 1),
                          order := Val(MaxFrom(Orders(old(categories)), 0) + 1))
      ensures forall i :: 0 <= i < |old(categories)| ==>
        old(categories)[i].Id.v < r.Id.v && OrderOf(old(categories)[i]) < r.order.v
    {
      var sorted := GetAll();
      SortedKeepsValid(categories);
      PermutedMax(categories, sorted);
      var maxId := MaxFrom(Ids(sorted), 0);
      var maxOrder := MaxFrom(Orders(sorted), 0);
      r := Merge(patch, Empty.(Id := Val(maxId + 1), order := Val(maxOrder + 1)));
      categories := sorted + [r];
    }

    /**
     * `update(id, patch)`: merges the patch into the first category with that id in
     * the sorted list, keeps its `Id`, and persists the sorted list with that one entry
     * replaced; "Category not found" writes nothing.
     */
    method Update(id: Field<Scalar>, patch: Category) returns (r: Result<Category>)
      requires Valid()
      modifies this
      ensures Valid()
      ensures r.Err? <==> forall i :: 0 <= i < |old(categories)| ==> !IdIs(ParseIntOf(id))(old(categories)[i])
      ensures r.Err? ==> r.message == "Category not found" && categories == old(categories)
      ensures r.Ok? ==> exists k :: (0 <= k < |SortedByOrder(old(categories))| &&
        IdIs(ParseIntOf(id))(SortedByOrder(old(categories))[k]) &&
        (forall j :: 0 <= j < k ==> !IdIs(ParseIntOf(id))(SortedByOrder(old(categories))[j])) &&
        r.value == Merge(SortedByOrder(old(categories))[k], patch).(Id := Val(ParseIntOf(id).value)) &&
        categories == SortedByOrder(old(categories))[k := r.value])
    {
      var sorted := GetAll();
      SortedKeepsValid(categories);
      var n := ParseIntOf(id);
      var index := FirstIndex(sorted, IdIs(n));
      if index.None? {
        PermutationNoneMatch(sorted, categories, IdIs(n));
        return Err("Category not found");
      }
      var k := index.value;
      UpdateAt(categories, sorted, n, k, patch);
      var updated := Merge(sorted[k], patch).(Id := Val(n.value));
      categories := sorted[k := updated];
      r := Ok(updated);
    }

    /** `delete(id)`: persists the sorted list without the categories with that id; returns true. */
    method Delete(id: Field<Scalar>) returns (r: bool)
      requires Valid()
      modifies this
      ensures Valid()
      ensures r
      ensures categories == Filter(SortedByOrder(old(categories)), IdIsNot(ParseIntOf(id)))
      ensures forall i, j :: 0 <= i < j < |categories| ==> OrderOf(categories[i]) <= OrderOf(categories[j])
      ensures forall i :: 0 <= i < |categories| ==> IdIsNot(ParseIntOf(id))(categories[i])
    {
      var sorted := GetAll();
      SortedKeepsValid(categories);
      FilterKeepsValid(sorted, IdIsNot(ParseIntOf(id)));
      FilterKeepsOrder(sorted, IdIsNot(ParseIntOf(id)));
      FilterMembers(sorted, IdIsNot(ParseIntOf(id)));
      categories := Filter(sorted, IdIsNot(ParseIntOf(id)));
      r := true;
    }
  }

  /** The maxima over a permutation are the maxima over the original list. */
  lemma PermutedMax(cs: seq<Category>, ps: seq<Category>)
    requires multiset(cs) == multiset(ps)
    requires forall i :: 0 <= i < |cs| ==> cs[i].Id.Val?
    requires forall i :: 0 <= i < |ps| ==> ps[i].Id.Val?
    ensures MaxFrom(Ids(ps), 0) == MaxFrom(Ids(cs), 0)
    ensures MaxFrom(Orders(ps), 0) == MaxFrom(Orders(cs), 0)
  {
    SameMembers(cs, ps);
    MaxOfSameMembers(Ids(cs), Ids(ps));
    MaxOfSameMembers(Orders(cs), Orders(ps));
  }

  lemma SameMembers(cs: seq<Category>, ps: seq<Category>)
    requires multiset(cs) == multiset(ps)
    requires forall i :: 0 <= i < |cs| ==> cs[i].Id.Val?
    requires forall i :: 0 <= i < |ps| ==> ps[i].Id.Val?
    ensures forall x :: x in Ids(cs) <==> x in Ids(ps)
    ensures forall x :: x in Orders(cs) <==> x in Orders(ps)
  {
    forall x | x in Ids(cs) ensures x in Ids(ps) {
      var i :| 0 <= i < |cs| && Ids(cs)[i] == x;
      assert cs[i] in multiset(ps);
      var j :| 0 <= j < |ps| && ps[j] == cs[i];
      assert Ids(ps)[j] == x;
    }
    forall x | x in Ids(ps) ensures x in Ids(cs) {
      var i :| 0 <= i < |ps| && Ids(ps)[i] == x;
      assert ps[i] in multiset(cs);
      var j :| 0 <= j < |cs| && cs[j] == ps[i];
      assert Ids(cs)[j] == x;
    }
    forall x | x in Orders(cs) ensures x in Orders(ps) {
      var i :| 0 <= i < |cs| && Orders(cs)[i] == x;
      assert cs[i] in multiset(ps);
      var j :| 0 <= j < |ps| && ps[j] == cs[i];
      assert Orders(ps)[j] == x;
    }
    forall x | x in Orders(ps) ensures x in Orders(cs) {
      var i :| 0 <= i < |ps| && Orders(ps)[i] == x;
      assert ps[i] in multiset(cs);
      var j :| 0 <= j < |cs| && cs[j] == ps[i];
      assert Orders(cs)[j] == x;
    }
  }

  /** The maximum of a list depends only on which values it holds. */
  lemma MaxOfSameMembers(xs: seq<int>, ys: seq<int>)
    requires forall x :: x in xs <==> x in ys
    ensures MaxFrom(xs, 0) == MaxFrom(ys, 0)
  {
    var a := MaxFrom(xs, 0);
    var b := MaxFrom(ys, 0);
    if a != 0 {
      var i :| 0 <= i < |xs| && a == xs[i];
      assert xs[i] in ys;
    }
    if b != 0 {
      var i :| 0 <= i < |ys| && b == ys[i];
      assert ys[i] in xs;
    }
  }

  /** Dropping categories keeps the invariant. */
  lemma FilterKeepsValid(cs: seq<Category>, p: Category -> bool)
    requires ValidCategories(cs)
    ensures ValidCategories(Filter(cs, p))
  {
    FilterMembers(cs, p);
  }

  /** Dropping categories from an order-sorted list leaves it order-sorted. */
  lemma {:induction false} FilterKeepsOrder(cs: seq<Category>, p: Category -> bool)
    requires forall i, j :: 0 <= i < j < |cs| ==> OrderOf(cs[i]) <= OrderOf(cs[j])
    ensures forall i, j :: 0 <= i < j < |Filter(cs, p)| ==> OrderOf(Filter(cs, p)[i]) <= OrderOf(Filter(cs, p)[j])
    decreases |cs|
  {
    if cs != [] {
      FilterKeepsOrder(cs[1..], p);
      FilterMembers(cs[1..], p);
      var rest := Filter(cs[1..], p);
      var r := Filter(cs, p);
      assert r == (if p(cs[0]) then [cs[0]] else []) + rest;
      if p(cs[0]) {
        forall j | 0 < j < |r| ensures OrderOf(r[0]) <= OrderOf(r[j]) {
          assert r[j] == rest[j - 1];
          assert rest[j - 1] in cs[1..];
        }
      }
    }
  }

  /** After a create the persisted list is still sorted by order, the new category last. */
  lemma CreatedListSorted(cs: seq<Category>, r: Category)
    requires forall i :: 0 <= i < |cs| ==> OrderOf(cs[i]) < OrderOf(r)
    ensures forall i, j :: 0 <= i < j < |SortedByOrder(cs) + [r]| ==>
      OrderOf((SortedByOrder(cs) + [r])[i]) <= OrderOf((SortedByOrder(cs) + [r])[j])
  {
    SortedByOrderCorrect(cs);
    var s := SortedByOrder(cs);
    forall i | 0 <= i < |s| ensures OrderOf(s[i]) < OrderOf(r) {
      assert s[i] in multiset(cs);
    }
  }
}
