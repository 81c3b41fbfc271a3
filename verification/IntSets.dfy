/** Least and greatest elements of finite sets of integers, and sorting them. */
module IntSets {
  import Orders

  ghost predicate Ascending(s: seq<int>) {
    forall i, j :: 0 <= i < j < |s| ==> s[i] < s[j]
  }

  predicate Below(a: int, b: int) { a < b }

  predicate Above(a: int, b: int) { a > b }

  lemma BothAreOrders()
    ensures Orders.StrictTotal(Below) && Orders.StrictTotal(Above)
  {
  }

  function Min(s: set<int>): (m: int)
    requires s != {}
    ensures m in s && forall x :: x in s ==> m <= x
  {
    BothAreOrders();
    Orders.TheLeast(s, Below)
  }

  function Max(s: set<int>): (m: int)
    requires s != {}
    ensures m in s && forall x :: x in s ==> x <= m
  {
    BothAreOrders();
    Orders.TheLeast(s, Above)
  }

  function Sorted(s: set<int>): (r: seq<int>)
    ensures Ascending(r) && forall x :: x in r <==> x in s
  {
    BothAreOrders();
    Orders.Sorted(s, Below)
  }
}
