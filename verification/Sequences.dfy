/** Filtering and counting over the short lists a volume spec is made of. */
module Sequences {
  function Keep<T>(s: seq<T>, p: T -> bool): (r: seq<T>)
    ensures |r| <= |s|
    ensures forall x <- r :: x in s && p(x)
    ensures forall x <- s :: p(x) ==> x in r
  {
    if s == [] then []
    else Keep(s[..|s| - 1], p) + if p(s[|s| - 1]) then [s[|s| - 1]] else []
  }

  lemma KeepLast<T>(s: seq<T>, x: T, p: T -> bool)
    ensures Keep(s + [x], p) == Keep(s, p) + if p(x) then [x] else []
  {
    assert (s + [x])[..|s|] == s;
  }

  lemma {:induction false} KeepAppend<T>(s: seq<T>, t: seq<T>, p: T -> bool)
    ensures Keep(s + t, p) == Keep(s, p) + Keep(t, p)
    decreases |t|
  {
    if t == [] {
      assert s + t == s;
    } else {
      var u, x := t[..|t| - 1], t[|t| - 1];
      assert s + t == s + u + [x] && t == u + [x];
      KeepLast(s + u, x, p);
      KeepLast(u, x, p);
      KeepAppend(s, u, p);
      Associates(Keep(s, p), Keep(u, p), [x]);
    }
  }

  /** The loop that skips or deletes the entries a predicate refuses. */
  method Filter<T>(s: seq<T>, p: T -> bool) returns (out: seq<T>)
    ensures out == Keep(s, p)
  {
    out := [];
    for i := 0 to |s|
      invariant out == Keep(s[..i], p)
    {
      assert s[..i + 1] == s[..i] + [s[i]];
      KeepLast(s[..i], s[i], p);
      if p(s[i]) {
        out := out + [s[i]];
      }
    }
    assert s[..|s|] == s;
  }

  lemma {:induction false} KeepAll<T>(s: seq<T>, p: T -> bool)
    requires forall x <- s :: p(x)
    ensures Keep(s, p) == s
  {
    if s != [] {
      var u, x := s[..|s| - 1], s[|s| - 1];
      assert s == u + [x] && x in s;
      KeepAll(u, p);
    }
  }

  lemma {:induction false} KeepNone<T>(s: seq<T>, p: T -> bool)
    requires forall x <- s :: !p(x)
    ensures Keep(s, p) == []
  {
    if s != [] {
      KeepNone(s[..|s| - 1], p);
    }
  }

  /** Two lists that agree place by place. */
  ghost predicate Paired<T>(a: seq<T>, b: seq<T>, rel: (T, T) -> bool) {
    |a| == |b| && forall j | 0 <= j < |a| :: rel(a[j], b[j])
  }

  lemma PairedPush<T>(a: seq<T>, b: seq<T>, x: T, y: T, rel: (T, T) -> bool)
    requires Paired(a, b, rel) && rel(x, y)
    ensures Paired(a + [x], b + [y], rel)
  {
  }

  lemma PairedFront<T>(a: seq<T>, b: seq<T>, rel: (T, T) -> bool)
    requires Paired(a, b, rel) && a != []
    ensures b != [] && Paired(a[..|a| - 1], b[..|b| - 1], rel) && rel(a[|a| - 1], b[|b| - 1])
  {
  }

  /** A filter treats the two lists alike. */
  ghost predicate SameFilter<T>(a: seq<T>, b: seq<T>, p: T -> bool) {
    |a| == |b| && forall j | 0 <= j < |a| :: p(a[j]) == p(b[j])
  }

  lemma FilterFront<T>(a: seq<T>, b: seq<T>, p: T -> bool)
    requires SameFilter(a, b, p) && a != []
    ensures b != [] && SameFilter(a[..|a| - 1], b[..|b| - 1], p) && p(a[|a| - 1]) == p(b[|b| - 1])
  {
  }

  /** Filtering two such lists alike keeps them so. */
  lemma {:induction false} KeepPairs<T>(a: seq<T>, b: seq<T>, p: T -> bool, rel: (T, T) -> bool)
    requires Paired(a, b, rel) && SameFilter(a, b, p)
    ensures Paired(Keep(a, p), Keep(b, p), rel)
  {
    if a != [] {
      var u, w, x, y := a[..|a| - 1], b[..|b| - 1], a[|a| - 1], b[|b| - 1];
      PairedFront(a, b, rel);
      FilterFront(a, b, p);
      KeepPairs(u, w, p, rel);
      if p(x) {
        PairedPush(Keep(u, p), Keep(w, p), x, y, rel);
      }
    }
  }

  lemma {:induction false} KeepPartition<T>(s: seq<T>, p: T -> bool, q: T -> bool)
    requires forall x <- s :: p(x) <==> !q(x)
    ensures |Keep(s, p)| + |Keep(s, q)| == |s|
  {
    if s != [] {
      KeepPartition(s[..|s| - 1], p, q);
      assert s[|s| - 1] in s;
    }
  }

  lemma {:induction false} KeepBoth<T>(s: seq<T>, p: T -> bool, q: T -> bool, both: T -> bool)
    requires forall x <- s :: both(x) <==> p(x) && q(x)
    ensures Keep(Keep(s, p), q) == Keep(s, both)
  {
    if s != [] {
      var u, x := s[..|s| - 1], s[|s| - 1];
      KeepBoth(u, p, q, both);
      assert x in s;
      if p(x) {
        KeepLast(Keep(u, p), x, q);
      } else {
        assert Keep(s, p) == Keep(u, p);
      }
    }
  }

  /** Distinct keys survive a filter. */
  ghost predicate DistinctBy<T, K>(s: seq<T>, key: T -> K) {
    forall i, j | 0 <= i < j < |s| :: key(s[i]) != key(s[j])
  }

  lemma {:induction false} KeepDistinct<T, K>(s: seq<T>, p: T -> bool, key: T -> K)
    requires DistinctBy(s, key)
    ensures DistinctBy(Keep(s, p), key)
  {
    if s != [] {
      var u, x := s[..|s| - 1], s[|s| - 1];
      KeepDistinct(u, p, key);
      forall i | 0 <= i < |Keep(u, p)| ensures key(Keep(u, p)[i]) != key(x) {
        assert Keep(u, p)[i] in u;
      }
    }
  }

  lemma DistinctAppend<T, K>(s: seq<T>, x: T, key: T -> K)
    requires DistinctBy(s, key) && forall y <- s :: key(y) != key(x)
    ensures DistinctBy(s + [x], key)
  {
  }

  lemma DistinctConcat<T, K>(a: seq<T>, b: seq<T>, key: T -> K)
    requires DistinctBy(a, key) && DistinctBy(b, key)
    requires forall x <- a, y <- b :: key(x) != key(y)
    ensures DistinctBy(a + b, key)
  {
  }

  lemma SameKeySame<T, K>(s: seq<T>, key: T -> K, x: T, y: T)
    requires DistinctBy(s, key) && x in s && y in s && key(x) == key(y)
    ensures x == y
  {
    var i :| 0 <= i < |s| && s[i] == x;
    var j :| 0 <= j < |s| && s[j] == y;
    assert i == j;
  }

  /** A list covers no more values than it has places. */
  function Elements<T>(s: seq<T>): set<T> {
    set x | x in s
  }

  lemma {:induction false} ElementsBound<T>(s: seq<T>)
    ensures |Elements(s)| <= |s|
  {
    if s == [] {
      assert Elements(s) == {};
    } else {
      var u, x := s[..|s| - 1], s[|s| - 1];
      ElementsBound(u);
      assert s == u + [x];
      assert Elements(s) == Elements(u) + {x};
    }
  }

  function Below(n: nat): (r: set<int>)
    ensures |r| == n && forall i <- r :: 0 <= i < n
  {
    if n == 0 then {} else Below(n - 1) + {n - 1}
  }

  /** If a list of numbers contains all of 0..n-1, it has at least n places. */
  lemma Pigeonhole(s: seq<int>, n: nat)
    requires forall i: int | 0 <= i < n :: i in s
    ensures n <= |s|
  {
    ElementsBound(s);
    SubsetSize(Below(n), Elements(s));
  }

  lemma {:induction false} SubsetSize<T>(a: set<T>, b: set<T>)
    requires a <= b
    ensures |a| <= |b|
  {
    if a != {} {
      var x :| x in a;
      SubsetSize(a - {x}, b - {x});
    }
  }

  // ----- collecting over a list -----

  function FlatMap<T, U>(s: seq<T>, f: T -> seq<U>): seq<U> {
    if s == [] then [] else FlatMap(s[..|s| - 1], f) + f(s[|s| - 1])
  }

  lemma FlatSnoc<T, U>(s: seq<T>, x: T, f: T -> seq<U>)
    ensures FlatMap(s + [x], f) == FlatMap(s, f) + f(x)
  {
    assert (s + [x])[..|s|] == s;
  }

  lemma Associates<T>(a: seq<T>, b: seq<T>, d: seq<T>)
    ensures (a + b) + d == a + (b + d)
  {
  }

  lemma {:induction false} FlatConcat<T, U>(a: seq<T>, b: seq<T>, f: T -> seq<U>)
    ensures FlatMap(a + b, f) == FlatMap(a, f) + FlatMap(b, f)
    decreases |b|
  {
    if b == [] {
      assert a + b == a;
    } else {
      var u, x := b[..|b| - 1], b[|b| - 1];
      assert a + b == (a + u) + [x] && b == u + [x];
      FlatSnoc(a + u, x, f);
      FlatSnoc(u, x, f);
      FlatConcat(a, u, f);
      Associates(FlatMap(a, f), FlatMap(u, f), f(x));
    }
  }

  lemma {:induction false} FlatNone<T, U>(s: seq<T>, f: T -> seq<U>)
    requires forall x <- s :: f(x) == []
    ensures FlatMap(s, f) == []
  {
    if s != [] {
      FlatNone(s[..|s| - 1], f);
    }
  }

  lemma {:induction false} FlatSame<T, W, U>(s: seq<T>, t: seq<W>, f: T -> seq<U>, g: W -> seq<U>)
    requires |s| == |t| && forall i | 0 <= i < |s| :: f(s[i]) == g(t[i])
    ensures FlatMap(s, f) == FlatMap(t, g)
  {
    if s != [] {
      FlatSame(s[..|s| - 1], t[..|t| - 1], f, g);
    }
  }

  /** The loop that appends what each element yields. */
  method Collect<T, U>(s: seq<T>, f: T -> seq<U>) returns (r: seq<U>)
    ensures r == FlatMap(s, f)
  {
    r := [];
    for i := 0 to |s|
      invariant r == FlatMap(s[..i], f)
    {
      FlatSnoc(s[..i], s[i], f);
      assert s[..i + 1] == s[..i] + [s[i]];
      r := r + f(s[i]);
    }
    assert s[..|s|] == s;
  }

  /** Later elements win. */
  function MergeAll<T, K, V>(s: seq<T>, f: T -> map<K, V>): map<K, V> {
    if s == [] then map[] else MergeAll(s[..|s| - 1], f) + f(s[|s| - 1])
  }

  lemma MergeSnoc<T, K, V>(s: seq<T>, x: T, f: T -> map<K, V>)
    ensures MergeAll(s + [x], f) == MergeAll(s, f) + f(x)
  {
    assert (s + [x])[..|s|] == s;
  }

  lemma MapsAssociate<K, V>(a: map<K, V>, b: map<K, V>, d: map<K, V>)
    ensures (a + b) + d == a + (b + d)
  {
  }

  lemma {:induction false} MergeCons<T, K, V>(x: T, s: seq<T>, f: T -> map<K, V>)
    ensures MergeAll([x] + s, f) == f(x) + MergeAll(s, f)
    decreases |s|
  {
    if s == [] {
      MergeSnoc([], x, f);
      assert [x] + s == [] + [x];
    } else {
      var u, y := s[..|s| - 1], s[|s| - 1];
      assert [x] + s == ([x] + u) + [y] && s == u + [y];
      MergeSnoc([x] + u, y, f);
      MergeSnoc(u, y, f);
      MergeCons(x, u, f);
      MapsAssociate(f(x), MergeAll(u, f), f(y));
    }
  }

  lemma {:induction false} MergeKey<T, K, V>(s: seq<T>, f: T -> map<K, V>, k: K) returns (x: T)
    requires k in MergeAll(s, f)
    ensures x in s && k in f(x)
  {
    if k in f(s[|s| - 1]) {
      x := s[|s| - 1];
    } else {
      x := MergeKey(s[..|s| - 1], f, k);
    }
  }

  /** The loop that records what each element yields. */
  method Merge<T, K, V>(s: seq<T>, f: T -> map<K, V>) returns (m: map<K, V>)
    ensures m == MergeAll(s, f)
  {
    m := map[];
    for i := 0 to |s|
      invariant m == MergeAll(s[..i], f)
    {
      MergeSnoc(s[..i], s[i], f);
      assert s[..i + 1] == s[..i] + [s[i]];
      m := m + f(s[i]);
    }
    assert s[..|s|] == s;
  }

  ghost function Least(s: set<nat>): (m: nat)
    requires s != {}
    ensures m in s && forall x <- s :: m <= x
  {
    LeastExists(s);
    var m :| m in s && forall x <- s :: m <= x;
    m
  }

  lemma {:induction false} LeastExists(s: set<nat>)
    requires s != {}
    ensures exists m :: m in s && forall x <- s :: m <= x
  {
    var x :| x in s;
    var rest := s - {x};
    if rest == {} {
      assert s == {x};
    } else {
      LeastExists(rest);
      var m :| m in rest && forall y <- rest :: m <= y;
      var k := if m <= x then m else x;
      assert forall y <- s :: y == x || y in rest;
      assert k in s && forall y <- s :: k <= y;
    }
  }
}
