/** Sums over finite maps: the global quantities that the ledger invariants talk about. */
module Sums {

  ghost function Stops<K>(order: seq<K>): set<K> { set k | k in order }

  /** A way of walking a map: every key once, in some order. */
  ghost predicate Enumerates<K(!new), V>(order: seq<K>, m: map<K, V>) {
    && Stops(order) == m.Keys
    && forall i, j | 0 <= i < j < |order| :: order[i] != order[j]
  }

  /** The total collected along a walk. */
  ghost function Along<K(!new), V>(order: seq<K>, m: map<K, V>, f: (K, V) -> int): int
    requires forall k | k in order :: k in m
  {
    if order == [] then 0
    else
      var k := order[|order| - 1];
      Along(order[..|order| - 1], m, f) + f(k, m[k])
  }

  ghost predicate IsTotal<K(!new), V>(m: map<K, V>, f: (K, V) -> int, s: int) {
    forall order | Enumerates(order, m) :: Along(order, m, f) == s
  }

  /** The sum of `f(k, m[k])` over a map: what every walk of the map collects. */
  ghost function Sum<K(!new), V>(m: map<K, V>, f: (K, V) -> int): int {
    SomeTotal(m, f);
    var s :| IsTotal(m, f, s);
    s
  }

  lemma SomeTotal<K(!new), V>(m: map<K, V>, f: (K, V) -> int)
    ensures exists s :: IsTotal(m, f, s)
  {
    var first := SomeOrder(m);
    forall order | Enumerates(order, m) ensures Along(order, m, f) == Along(first, m, f) {
      OrdersAgree(order, first, m, f);
    }
    assert IsTotal(m, f, Along(first, m, f));
  }

  lemma {:induction false} SomeOrder<K(!new), V>(m: map<K, V>) returns (order: seq<K>)
    ensures Enumerates(order, m)
    decreases m.Keys
  {
    if m.Keys == {} {
      order := [];
    } else {
      var k :| k in m.Keys;
      var rest := SomeOrder(m - {k});
      order := rest + [k];
      ExtendOrder(rest, m, k);
    }
  }

  lemma ExtendOrder<K(!new), V>(rest: seq<K>, m: map<K, V>, k: K)
    requires k in m && Enumerates(rest, m - {k})
    ensures Enumerates(rest + [k], m)
  {
    assert Stops(rest + [k]) == Stops(rest) + {k};
    forall i | 0 <= i < |rest| ensures rest[i] != k {
      assert rest[i] in Stops(rest);
    }
  }

  lemma {:induction false} AlongCongruent<K(!new), V>(order: seq<K>, m: map<K, V>, n: map<K, V>, f: (K, V) -> int)
    requires forall k | k in order :: k in m && k in n && m[k] == n[k]
    ensures Along(order, m, f) == Along(order, n, f)
  {
    if order != [] { AlongCongruent(order[..|order| - 1], m, n, f); }
  }

  /** Leaving one stop out of a walk leaves out its term. */
  lemma {:induction false} AlongWithout<K(!new), V>(order: seq<K>, p: nat, m: map<K, V>, f: (K, V) -> int)
    requires p < |order| && forall k | k in order :: k in m
    ensures forall k | k in order[..p] + order[p + 1..] :: k in m
    ensures Along(order, m, f) == Along(order[..p] + order[p + 1..], m, f) + f(order[p], m[order[p]])
  {
    var last := |order| - 1;
    if p == last {
      assert order[..p] + order[p + 1..] == order[..last];
    } else {
      var shorter := order[..last];
      AlongWithout(shorter, p, m, f);
      assert shorter[..p] + shorter[p + 1..] == (order[..p] + order[p + 1..])[..last - 1];
    }
  }

  lemma {:induction false} OrdersAgree<K(!new), V>(a: seq<K>, b: seq<K>, m: map<K, V>, f: (K, V) -> int)
    requires Enumerates(a, m) && Enumerates(b, m)
    ensures Along(a, m, f) == Along(b, m, f)
    decreases |a|
  {
    assert b != [] ==> b[0] in Stops(b);
    assert Stops(a) == Stops(b);
    if a != [] {
      var k := a[|a| - 1];
      assert k in Stops(a);
      assert k in Stops(b);
      var p :| 0 <= p < |b| && b[p] == k;
      var a', b' := a[..|a| - 1], b[..p] + b[p + 1..];
      AlongWithout(b, p, m, f);
      assert a == a' + [k];
      DropStop(a, |a| - 1, m);
      assert a[..|a| - 1] + a[|a|..] == a';
      DropStop(b, p, m);
      OrdersAgree(a', b', m - {k}, f);
      AlongCongruent(a', m - {k}, m, f);
      AlongCongruent(b', m - {k}, m, f);
    }
  }

  lemma DropStop<K(!new), V>(order: seq<K>, p: nat, m: map<K, V>)
    requires Enumerates(order, m) && p < |order|
    ensures Enumerates(order[..p] + order[p + 1..], m - {order[p]})
  {
    var rest := order[..p] + order[p + 1..];
    forall k ensures k in rest <==> k in order && k != order[p] {
      if k in order && k != order[p] {
        var i :| 0 <= i < |order| && order[i] == k;
        assert k == if i < p then rest[i] else rest[i - 1];
      }
    }
  }

  lemma SumEmpty<K(!new), V>(m: map<K, V>, f: (K, V) -> int)
    requires m.Keys == {}
    ensures Sum(m, f) == 0
  {
    assert Enumerates([], m);
    assert Along([], m, f) == 0;
  }

  /** Any key can be taken out of a sum first. */
  lemma SumPick<K(!new), V>(m: map<K, V>, f: (K, V) -> int, k: K)
    requires k in m
    ensures Sum(m, f) == f(k, m[k]) + Sum(m - {k}, f)
  {
    var rest := SomeOrder(m - {k});
    ExtendOrder(rest, m, k);
    var order := rest + [k];
    assert order[..|order| - 1] == rest;
    assert forall x | x in rest :: x in Stops(rest);
    AlongCongruent(rest, m - {k}, m, f);
    assert Along(order, m, f) == Along(rest, m - {k}, f) + f(k, m[k]);
  }

  /** Storing one entry moves the sum by exactly that entry. */
  lemma SumPut<K(!new), V>(m: map<K, V>, f: (K, V) -> int, k: K, v: V)
    ensures Sum(m[k := v], f) == Sum(m, f) - (if k in m then f(k, m[k]) else 0) + f(k, v)
  {
    SumPick(m[k := v], f, k);
    if k in m {
      SumPick(m, f, k);
      assert m[k := v] - {k} == m - {k};
    } else {
      assert m[k := v] - {k} == m;
    }
  }

  lemma {:induction false} SumCongruent<K(!new), V, W>(m: map<K, V>, f: (K, V) -> int, n: map<K, W>, g: (K, W) -> int)
    requires m.Keys == n.Keys
    requires forall k | k in m :: f(k, m[k]) == g(k, n[k])
    ensures Sum(m, f) == Sum(n, g)
    decreases m.Keys
  {
    if m.Keys == {} {
      SumEmpty(m, f);
      SumEmpty(n, g);
    } else {
      var k :| k in m.Keys;
      SumPick(m, f, k);
      SumPick(n, g, k);
      SumCongruent(m - {k}, f, n - {k}, g);
    }
  }

  /** Pointwise `h == a * f + b * g` lifts to sums. */
  lemma {:induction false} SumLinear<K(!new), V>(m: map<K, V>, a: int, f: (K, V) -> int, b: int, g: (K, V) -> int, h: (K, V) -> int)
    requires forall k | k in m :: h(k, m[k]) == a * f(k, m[k]) + b * g(k, m[k])
    ensures Sum(m, h) == a * Sum(m, f) + b * Sum(m, g)
    decreases m.Keys
  {
    if m.Keys == {} {
      SumEmpty(m, f);
      SumEmpty(m, g);
      SumEmpty(m, h);
      assert a * 0 + b * 0 == 0;
    } else {
      var k :| k in m.Keys;
      SumPick(m, f, k);
      SumPick(m, g, k);
      SumPick(m, h, k);
      var rest := m - {k};
      SumLinear(rest, a, f, b, g, h);
      Distribute(a, f(k, m[k]), Sum(rest, f));
      Distribute(b, g(k, m[k]), Sum(rest, g));
    }
  }

  lemma Distribute(a: int, x: int, y: int)
    ensures a * (x + y) == a * x + a * y
  {
  }

  lemma {:induction false} SumBelow<K(!new), V>(m: map<K, V>, f: (K, V) -> int, g: (K, V) -> int)
    requires forall k | k in m :: f(k, m[k]) <= g(k, m[k])
    ensures Sum(m, f) <= Sum(m, g)
    decreases m.Keys
  {
    if m.Keys == {} {
      SumEmpty(m, f);
      SumEmpty(m, g);
    } else {
      var k :| k in m.Keys;
      SumPick(m, f, k);
      SumPick(m, g, k);
      SumBelow(m - {k}, f, g);
    }
  }

  lemma {:induction false} SumNonNegative<K(!new), V>(m: map<K, V>, f: (K, V) -> int)
    requires forall k | k in m :: 0 <= f(k, m[k])
    ensures 0 <= Sum(m, f)
    decreases m.Keys
  {
    if m.Keys == {} {
      SumEmpty(m, f);
    } else {
      var k :| k in m.Keys;
      SumPick(m, f, k);
      SumNonNegative(m - {k}, f);
    }
  }

  /** One entry of a non-negative sum is at most the whole. */
  lemma SumCovers<K(!new), V>(m: map<K, V>, f: (K, V) -> int, k: K)
    requires forall j | j in m :: 0 <= f(j, m[j])
    requires k in m
    ensures 0 <= f(k, m[k]) <= Sum(m, f)
  {
    SumPick(m, f, k);
    SumNonNegative(m - {k}, f);
  }

  /** A sum whose every term is zero is zero. */
  lemma {:induction false} SumZero<K(!new), V>(m: map<K, V>, f: (K, V) -> int)
    requires forall k | k in m :: f(k, m[k]) == 0
    ensures Sum(m, f) == 0
    decreases m.Keys
  {
    if m.Keys == {} {
      SumEmpty(m, f);
    } else {
      var k :| k in m.Keys;
      SumPick(m, f, k);
      SumZero(m - {k}, f);
    }
  }

  /** The part of a map under some of its keys. */
  ghost function Restrict<K, V>(m: map<K, V>, s: set<K>): map<K, V> { map k | k in m && k in s :: m[k] }

  lemma RestrictGrows<K(!new), V>(m: map<K, V>, done: set<K>, k: K, f: (K, V) -> int)
    requires k in m && k !in done
    ensures Sum(Restrict(m, done + {k}), f) == Sum(Restrict(m, done), f) + f(k, m[k])
  {
    SumPick(Restrict(m, done + {k}), f, k);
    assert Restrict(m, done + {k}) - {k} == Restrict(m, done);
  }
}
