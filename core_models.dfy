/**
 * The abstract model helpers shared by the apps: the `active_only` manager filter and the
 * automatic `sort_order` of orderable models.
 */
module CoreModels {

  /** `objects.active_only()`: the rows whose `is_active` is true, in their stored order. */
  function ActiveOnly<T(!new)>(rows: seq<T>, isActive: T -> bool): (r: seq<T>)
    ensures |r| <= |rows|
    ensures forall x :: x in r <==> x in rows && isActive(x)
    ensures forall i :: 0 <= i < |r| ==> isActive(r[i])
    decreases |rows|
  {
    if rows == [] then []
    else
      var rest := ActiveOnly(rows[1..], isActive);
      assert forall x :: x in rows <==> x == rows[0] || x in rows[1..];
      if isActive(rows[0]) then [rows[0]] + rest else rest
  }

  /** Filtering an already filtered sequence changes nothing. */
  lemma {:induction false} ActiveOnlyIdempotent<T(!new)>(rows: seq<T>, isActive: T -> bool)
    ensures ActiveOnly(ActiveOnly(rows, isActive), isActive) == ActiveOnly(rows, isActive)
    decreases |rows|
  {
    if rows != [] {
      ActiveOnlyIdempotent(rows[1..], isActive);
      var rest := ActiveOnly(rows[1..], isActive);
      if isActive(rows[0]) {
        assert ([rows[0]] + rest)[1..] == rest;
      }
    }
  }

  /** Rows whose keys are pairwise distinct keep pairwise distinct keys once filtered. */
  lemma {:induction false} ActiveOnlyKeepsDistinct<T(!new), K>(rows: seq<T>, isActive: T -> bool, key: T -> K)
    requires forall a, b :: 0 <= a < b < |rows| ==> key(rows[a]) != key(rows[b])
    ensures forall a, b :: 0 <= a < b < |ActiveOnly(rows, isActive)| ==>
              key(ActiveOnly(rows, isActive)[a]) != key(ActiveOnly(rows, isActive)[b])
    decreases |rows|
  {
    if rows != [] {
      var tail := rows[1..];
      forall a, b | 0 <= a < b < |tail|
        ensures key(tail[a]) != key(tail[b])
      {
        assert tail[a] == rows[a + 1] && tail[b] == rows[b + 1];
      }
      ActiveOnlyKeepsDistinct(tail, isActive, key);
      var rest := ActiveOnly(tail, isActive);
      if isActive(rows[0]) {
        var r := [rows[0]] + rest;
        forall b | 0 < b < |r|
          ensures key(r[0]) != key(r[b])
        {
          assert r[b] in tail;
          var j :| 0 <= j < |tail| && tail[j] == r[b];
          assert tail[j] == rows[j + 1];
        }
        forall a, b | 0 <= a < b < |r|
          ensures key(r[a]) != key(r[b])
        {
          if a > 0 {
            assert r[a] == rest[a - 1] && r[b] == rest[b - 1];
          }
        }
      }
    }
  }

  /** When every row is active nothing is dropped. */
  lemma {:induction false} ActiveOnlyAllActive<T(!new)>(rows: seq<T>, isActive: T -> bool)
    requires forall i :: 0 <= i < |rows| ==> isActive(rows[i])
    ensures ActiveOnly(rows, isActive) == rows
    decreases |rows|
  {
    if rows != [] {
      assert forall i :: 0 <= i < |rows| - 1 ==> rows[1..][i] == rows[i + 1];
      ActiveOnlyAllActive(rows[1..], isActive);
      assert [rows[0]] + rows[1..] == rows;
    }
  }

  /** The largest of some sort orders. */
  function MaxOf(orders: seq<nat>): (m: nat)
    requires orders != []
    ensures m in orders
    ensures forall i :: 0 <= i < |orders| ==> orders[i] <= m
    decreases |orders|
  {
    if |orders| == 1 then orders[0]
    else
      var rest := MaxOf(orders[1..]);
      assert forall i :: 1 <= i < |orders| ==> orders[i] == orders[1..][i - 1];
      if orders[0] >= rest then orders[0] else rest
  }

  /** The sort order `save` assigns: a set order is kept, 0 becomes one past the largest stored order. */
  function NextSortOrder(current: nat, stored: seq<nat>): (n: nat)
    ensures current != 0 ==> n == current
    ensures current == 0 && stored == [] ==> n == 1
    ensures current == 0 && stored != [] ==> n == MaxOf(stored) + 1
    ensures current == 0 ==> forall i :: 0 <= i < |stored| ==> stored[i] < n
  {
    if current != 0 then current
    else if stored == [] then 1
    else MaxOf(stored) + 1
  }

  /** An item of an orderable model. */
  class OrderableItem {
    var sortOrder: nat

    constructor(sortOrder: nat)
      ensures this.sortOrder == sortOrder
    {
      this.sortOrder := sortOrder;
    }

    /**
     * `AbstractOrderableModel.save`: an item still at order 0 is placed after every stored item
     * (`stored` holds their orders), or first in an empty table.
     */
    method Save(stored: seq<nat>)
      modifies this
      ensures sortOrder == NextSortOrder(old(sortOrder), stored)
      ensures old(sortOrder) == 0 ==> forall i :: 0 <= i < |stored| ==> stored[i] < sortOrder
    {
      if sortOrder == 0 {
        if stored == [] {
          sortOrder := 1;
        } else {
          var last := MaxOf(stored);
          sortOrder := last + 1;
        }
      }
    }
  }
}
