/** Group stages of an aggregation: the documents with one key value are folded into one document by
    an operation that does not care about their order. */
module Aggregation {

  /** An operation a group accumulates with: associative, commutative, with a unit. */
  ghost predicate Monoid<V(!new)>(unit: V, join: (V, V) -> V) {
    && (forall x :: join(x, unit) == x)
    && (forall x, y :: join(x, y) == join(y, x))
    && (forall x, y, z :: join(join(x, y), z) == join(x, join(y, z)))
  }

  lemma Laws<V(!new)>(unit: V, join: (V, V) -> V, x: V, y: V, z: V)
    requires Monoid(unit, join)
    ensures join(x, unit) == x
    ensures join(x, y) == join(y, x)
    ensures join(join(x, y), z) == join(x, join(y, z))
  {
  }

  ghost function Fold<K, V>(m: map<K, V>, unit: V, join: (V, V) -> V): V
    decreases |m|
  {
    if |m| == 0 then unit
    else
      var k := SomeKey(m);
      join(m[k], Fold(m - {k}, unit, join))
  }

  ghost function SomeElement<K>(s: set<K>): (k: K)
    requires |s| > 0
    ensures k in s
  {
    var k :| k in s;
    k
  }

  ghost function SomeKey<K, V>(m: map<K, V>): (k: K)
    requires |m| > 0
    ensures k in m
  {
    SomeElement(m.Keys)
  }

  /** The part of a map whose keys have a given image. */
  ghost function Fiber<K, G, V>(m: map<K, V>, g: K -> G, b: G): map<K, V> {
    map k | k in m && g(k) == b :: m[k]
  }

  ghost function Image<K, G, V>(m: map<K, V>, g: K -> G): set<G> {
    set k | k in m :: g(k)
  }

  /** One group stage. */
  ghost function GroupBy<K, G, V>(m: map<K, V>, g: K -> G, unit: V, join: (V, V) -> V): map<G, V> {
    map b | b in Image(m, g) :: Fold(Fiber(m, g, b), unit, join)
  }

  lemma {:induction false} FoldTakes<K, V(!new)>(m: map<K, V>, k: K, unit: V, join: (V, V) -> V)
    requires Monoid(unit, join) && k in m
    ensures Fold(m, unit, join) == join(m[k], Fold(m - {k}, unit, join))
    decreases |m|
  {
    hide Monoid;
    assert |m| > 0;
    var c := SomeKey(m);
    if c != k {
      var rest := m - {c} - {k};
      assert |m - {c}| < |m| && |m - {k}| < |m|;
      FoldTakes(m - {c}, k, unit, join);
      FoldTakes(m - {k}, c, unit, join);
      assert m - {k} - {c} == rest;
      var f := Fold(rest, unit, join);
      Laws(unit, join, m[c], m[k], f);
      Laws(unit, join, m[k], m[c], f);
    }
  }

  lemma FoldNone<K, V>(m: map<K, V>, unit: V, join: (V, V) -> V)
    requires m == map[]
    ensures Fold(m, unit, join) == unit
  {
  }

  /** Taking a key out of a map takes it out of its own group, and leaves the other groups alone. */
  lemma GroupTakes<K, G, V(!new)>(m: map<K, V>, k: K, g: K -> G, unit: V, join: (V, V) -> V)
    requires Monoid(unit, join) && k in m
    ensures var (all, rest, b) := (GroupBy(m, g, unit, join), GroupBy(m - {k}, g, unit, join), g(k));
            && b in all
            && all - {b} == rest - {b}
            && all[b] == join(m[k], if b in rest then rest[b] else unit)
  {
    hide Monoid, Fold;
    var m', b := m - {k}, g(k);
    var all, rest := GroupBy(m, g, unit, join), GroupBy(m', g, unit, join);
    forall c | c in Image(m, g) && c != b
      ensures c in rest && Fiber(m, g, c) == Fiber(m', g, c)
    {
      var j :| j in m && g(j) == c;
      assert j in m';
      assert Fiber(m, g, c) == Fiber(m', g, c);
    }
    forall c | c in rest && c != b
      ensures c in all
    {
      var j :| j in m' && g(j) == c;
      assert j in m;
    }
    assert (all - {b}).Keys == (rest - {b}).Keys;
    FoldTakes(Fiber(m, g, b), k, unit, join);
    assert Fiber(m, g, b) - {k} == Fiber(m', g, b);
    if b !in rest {
      assert Fiber(m', g, b) == map[];
      FoldNone(Fiber(m', g, b), unit, join);
    }
  }

  /** Nothing is lost and nothing is counted twice: the groups together are the whole. */
  lemma {:induction false} GroupsMakeWhole<K, G, V(!new)>(m: map<K, V>, g: K -> G, unit: V, join: (V, V) -> V)
    requires Monoid(unit, join)
    ensures Fold(GroupBy(m, g, unit, join), unit, join) == Fold(m, unit, join)
    decreases |m|
  {
    hide Monoid, Fold, Fiber;
    var all := GroupBy(m, g, unit, join);
    if |m| == 0 {
      assert m == map[];
      assert all == map[];
      FoldNone(m, unit, join);
      FoldNone(all, unit, join);
    } else {
      var k := SomeKey(m);
      var b := g(k);
      var rest := GroupBy(m - {k}, g, unit, join);
      GroupTakes(m, k, g, unit, join);
      GroupsMakeWhole(m - {k}, g, unit, join);
      FoldTakes(m, k, unit, join);
      FoldTakes(all, b, unit, join);
      var others := Fold(all - {b}, unit, join);
      if b in rest {
        FoldTakes(rest, b, unit, join);
        Laws(unit, join, m[k], rest[b], others);
      } else {
        Laws(unit, join, m[k], unit, unit);
        assert rest - {b} == rest;
      }
    }
  }

  /** Grouping the groups again is the same as grouping once by the coarser key. */
  lemma GroupTwice<K, G, H, V(!new)>(m: map<K, V>, g: K -> G, h: G -> H, hg: K -> H, unit: V, join: (V, V) -> V)
    requires Monoid(unit, join)
    requires forall k | k in m :: hg(k) == h(g(k))
    ensures GroupBy(GroupBy(m, g, unit, join), h, unit, join) == GroupBy(m, hg, unit, join)
  {
    var fine, coarse := GroupBy(m, g, unit, join), GroupBy(m, hg, unit, join);
    var twice := GroupBy(fine, h, unit, join);
    forall c | c in coarse
      ensures c in twice
    {
      var k :| k in m && hg(k) == c;
      assert g(k) in fine;
    }
    forall c | c in twice
      ensures c in coarse && twice[c] == coarse[c]
    {
      var b :| b in fine && h(b) == c;
      var k :| k in m && g(k) == b;
      assert hg(k) == c;
      FibersNest(m, g, h, hg, c, unit, join);
      GroupsMakeWhole(Fiber(m, hg, c), g, unit, join);
    }
    assert twice.Keys == coarse.Keys;
  }

  lemma FibersNest<K, G, H, V>(m: map<K, V>, g: K -> G, h: G -> H, hg: K -> H, c: H, unit: V, join: (V, V) -> V)
    requires forall k | k in m :: hg(k) == h(g(k))
    ensures Fiber(GroupBy(m, g, unit, join), h, c) == GroupBy(Fiber(m, hg, c), g, unit, join)
  {
    var left, right := Fiber(GroupBy(m, g, unit, join), h, c), GroupBy(Fiber(m, hg, c), g, unit, join);
    forall b | b in left
      ensures b in right && left[b] == right[b]
    {
      var k :| k in m && g(k) == b;
      assert k in Fiber(m, hg, c);
      assert Fiber(m, g, b) == Fiber(Fiber(m, hg, c), g, b);
    }
    forall b | b in right
      ensures b in left
    {
      var k :| k in Fiber(m, hg, c) && g(k) == b;
      assert k in m;
    }
    assert left.Keys == right.Keys;
  }

  // ---- Sums of numbers ----

  function Plus(a: nat, b: nat): nat {
    a + b
  }

  lemma PlusAdds()
    ensures Monoid(0, Plus)
  {
  }

  ghost function SumOf<K>(m: map<K, nat>): nat {
    Fold(m, 0, Plus)
  }

  lemma SumTakes<K>(m: map<K, nat>, k: K)
    requires k in m
    ensures SumOf(m) == m[k] + SumOf(m - {k})
  {
    PlusAdds();
    FoldTakes(m, k, 0, Plus);
  }

  /** A sum over fewer keys of smaller numbers is no greater. */
  lemma {:induction false} SumGrows<K>(m: map<K, nat>, m': map<K, nat>)
    requires m.Keys <= m'.Keys && forall k | k in m :: m[k] <= m'[k]
    ensures SumOf(m) <= SumOf(m')
    decreases |m'|
  {
    if |m'| == 0 {
      assert m' == map[];
      assert m == map[];
    } else {
      var k := SomeKey(m');
      SumTakes(m', k);
      if k in m {
        SumTakes(m, k);
      } else {
        assert m - {k} == m;
      }
      SumGrows(m - {k}, m' - {k});
    }
  }

  /** A set of integers within n consecutive ones has at most n elements. */
  lemma {:induction false} IntervalSize(s: set<int>, low: int, n: nat)
    requires forall x | x in s :: low <= x < low + n
    ensures |s| <= n
  {
    if n > 0 {
      var top := low + n - 1;
      IntervalSize(s - {top}, low, n - 1);
      assert s <= (s - {top}) + {top};
    } else if |s| > 0 {
      var x := SomeElement(s);
      assert false;
    }
  }
}
