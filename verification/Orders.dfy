/** Sorting finite sets by a strict total order. */
module Orders {
  ghost predicate StrictTotal<T(!new)>(less: (T, T) -> bool) {
    && (forall a, b :: if a == b then !less(a, b) else less(a, b) != less(b, a))
    && forall a, b, c :: less(a, b) && less(b, c) ==> less(a, c)
  }

  ghost predicate InOrder<T>(s: seq<T>, less: (T, T) -> bool) {
    forall i, j :: 0 <= i < j < |s| ==> less(s[i], s[j])
  }

  predicate Least<T(==)>(s: set<T>, less: (T, T) -> bool, m: T) {
    m in s && forall k :: k in s && k != m ==> less(m, k)
  }

  lemma SomeMember<T>(s: set<T>)
    requires s != {}
    ensures exists k :: k in s
  {
    assert (forall k :: k !in s) ==> s == {};
  }

  lemma {:induction false} LeastExists<T(!new)>(s: set<T>, less: (T, T) -> bool)
    requires s != {} && StrictTotal(less)
    ensures exists m :: Least(s, less, m)
  {
    SomeMember(s);
    var x :| x in s;
    var rest := s - {x};
    assert forall k :: k in s ==> k == x || k in rest;
    if rest == {} {
      assert Least(s, less, x);
    } else {
      LeastExists(rest, less);
      var m :| Least(rest, less, m);
      assert Least(s, less, if less(x, m) then x else m);
    }
  }

  function TheLeast<T(==, !new)>(s: set<T>, less: (T, T) -> bool): (m: T)
    requires s != {} && StrictTotal(less)
    ensures Least(s, less, m)
  {
    LeastExists(s, less);
    assert forall m, n :: Least(s, less, m) && Least(s, less, n) ==> m == n;
    var m :| Least(s, less, m);
    m
  }

  function Sorted<T(==, !new)>(s: set<T>, less: (T, T) -> bool): (r: seq<T>)
    requires StrictTotal(less)
    ensures InOrder(r, less) && forall k :: k in r <==> k in s
  {
    if s == {} then []
    else [TheLeast(s, less)] + Sorted(s - {TheLeast(s, less)}, less)
  }

  lemma NoDuplicates<T(!new)>(s: seq<T>, less: (T, T) -> bool)
    requires InOrder(s, less) && StrictTotal(less)
    ensures forall i, j :: 0 <= i < j < |s| ==> s[i] != s[j]
  {
  }

  lemma HasFirst<T>(s: seq<T>)
    ensures s != [] ==> s[0] in s
  {
  }

  /** Sequences in order with the same elements are equal. */
  lemma {:induction false} SameOrder<T(!new)>(f: seq<T>, g: seq<T>, less: (T, T) -> bool)
    requires InOrder(f, less) && InOrder(g, less) && StrictTotal(less) && forall k :: k in f <==> k in g
    ensures f == g
  {
    HasFirst(f);
    HasFirst(g);
    if f != [] && g != [] {
      SameFirst(f, g, less);
      NoDuplicates(f, less);
      NoDuplicates(g, less);
      forall k ensures k in f[1..] <==> k in g[1..] {
        assert k in f <==> k == f[0] || k in f[1..];
        assert k in g <==> k == g[0] || k in g[1..];
      }
      SameOrder(f[1..], g[1..], less);
      assert f == [f[0]] + f[1..] && g == [g[0]] + g[1..];
    }
  }

  lemma SameFirst<T(!new)>(f: seq<T>, g: seq<T>, less: (T, T) -> bool)
    requires InOrder(f, less) && InOrder(g, less) && StrictTotal(less) && forall k :: k in f <==> k in g
    requires f != [] && g != []
    ensures f[0] == g[0]
  {
    assert f[0] in f && g[0] in g;
    var i :| 0 <= i < |g| && g[i] == f[0];
    var j :| 0 <= j < |f| && f[j] == g[0];
  }
}
