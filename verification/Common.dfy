/** Optional values: the source's nil pointers and missing map entries. */
module Wrappers {
  datatype Option<+T> = None | Some(value: T)
}

/** The contract of the two library sorts the controllers use: some permutation of the input,
    ordered by a key, with ties in no particular order. */
module Sorting {

  ghost predicate SortedBy<T(!new)>(xs: seq<T>, key: T -> int) {
    forall i, j | 0 <= i < j < |xs| :: key(xs[i]) <= key(xs[j])
  }

  lemma InsertKeepsOrder<T(!new)>(ys: seq<T>, x: T, at: nat, key: T -> int)
    requires SortedBy(ys, key) && at <= |ys|
    requires forall i | 0 <= i < at :: key(ys[i]) <= key(x)
    requires at < |ys| ==> key(x) < key(ys[at])
    ensures SortedBy(ys[..at] + [x] + ys[at..], key)
  {
  }

  method InsertBy<T(!new)>(ys: seq<T>, x: T, key: T -> int) returns (zs: seq<T>)
    requires SortedBy(ys, key)
    ensures multiset(zs) == multiset(ys) + multiset{x}
    ensures SortedBy(zs, key)
  {
    var at := 0;
    while at < |ys| && key(ys[at]) <= key(x)
      invariant 0 <= at <= |ys|
      invariant forall i | 0 <= i < at :: key(ys[i]) <= key(x)
    {
      at := at + 1;
    }
    InsertKeepsOrder(ys, x, at, key);
    assert ys == ys[..at] + ys[at..];
    zs := ys[..at] + [x] + ys[at..];
  }

  method SortBy<T(!new)>(xs: seq<T>, key: T -> int) returns (ys: seq<T>)
    ensures multiset(ys) == multiset(xs)
    ensures SortedBy(ys, key)
  {
    ys := [];
    for n := 0 to |xs|
      invariant multiset(ys) == multiset(xs[..n])
      invariant SortedBy(ys, key)
    {
      ys := InsertBy(ys, xs[n], key);
      assert xs[..n + 1] == xs[..n] + [xs[n]];
    }
    assert xs[..|xs|] == xs;
  }
}

/** Cardinalities and least elements of finite sets, and names outside them. */
module Finite {

  lemma {:induction false} SubsetSize<T>(a: set<T>, b: set<T>)
    requires a <= b
    ensures |a| <= |b|
    ensures |a| == |b| ==> a == b
  {
    assert b == a + (b - a);
    assert |b| == |a| + |b - a|;
  }

  lemma SameKeys<K, V>(a: map<K, V>, b: map<K, V>)
    requires a.Keys == b.Keys
    ensures |a| == |b|
  {
    assert |a.Keys| == |a| && |b.Keys| == |b|;
  }

  lemma AddedSize<K, V>(m: map<K, V>, k: K, v: V)
    requires k !in m
    ensures m[k := v].Keys == m.Keys + {k} && |m[k := v]| == |m| + 1
  {
    assert |m[k := v].Keys| == |m[k := v]| && |m.Keys| == |m|;
  }

  lemma RemovedSize<K, V>(m: map<K, V>, k: K)
    requires k in m
    ensures (m - {k}).Keys == m.Keys - {k} && |m - {k}| == |m| - 1
  {
    assert |(m - {k}).Keys| == |m - {k}| && |m.Keys| == |m|;
  }

  /** An injection keeps cardinality. */
  lemma {:induction false} ImageSize<A, B>(dom: set<A>, img: set<B>, f: map<A, B>)
    requires dom == f.Keys && img == f.Values
    requires forall a, b | a in f && b in f && a != b :: f[a] != f[b]
    ensures |img| == |dom|
    decreases |dom|
  {
    if a :| a in dom {
      var g := f - {a};
      assert img == g.Values + {f[a]} by {
        forall y | y in img ensures y in g.Values + {f[a]} {
          var x :| x in f && f[x] == y;
          if x != a { assert x in g && g[x] == y; }
        }
        assert a in f;
        forall y | y in g.Values ensures y in img {
          var x :| x in g && g[x] == y;
          assert x in f;
        }
      }
      assert forall x | x in g :: x in f && x != a && g[x] == f[x];
      assert f[a] !in g.Values;
      assert |img| == |g.Values| + 1;
      ImageSize(dom - {a}, g.Values, g);
    } else {
      assert dom == {};
      assert img == {};
    }
  }

  /** A non-empty finite set has an element of least rank. */
  lemma {:induction false} LeastExists<T>(s: set<T>, rank: T -> int) returns (m: T)
    requires s != {}
    ensures m in s && forall x | x in s :: rank(m) <= rank(x)
    decreases |s|
  {
    m :| m in s;
    if s != {m} {
      var k := LeastExists(s - {m}, rank);
      if rank(k) < rank(m) { m := k; }
    }
  }

  /** There is always a name not in use. */
  lemma {:induction false} FreshName(names: set<string>) returns (n: string)
    ensures n !in names
  {
    if names == {} {
      n := "";
    } else {
      var longest := LeastExists(names, (s: string) => 0 - |s|);
      n := longest + "x";
      assert forall s | s in names :: |s| < |n|;
    }
  }

  /** A sequence with the elements of a set, each once, repeats nothing. */
  lemma {:induction false} NoRepeats<T>(xs: seq<T>, s: set<T>)
    requires multiset(xs) == multiset(s)
    ensures |xs| == |s|
    ensures forall x :: x in xs <==> x in s
    ensures forall i, j | 0 <= i < j < |xs| :: xs[i] != xs[j]
  {
    assert |multiset(xs)| == |xs| && |multiset(s)| == |s|;
    assert forall x :: x in xs <==> x in multiset(xs);
    assert forall x :: x in s <==> x in multiset(s);
    forall i, j | 0 <= i < j < |xs| ensures xs[i] != xs[j] {
      assert xs == xs[..j] + xs[j..];
      assert xs[i] in xs[..j] && xs[j] in xs[j..];
      assert multiset(xs) == multiset(xs[..j]) + multiset(xs[j..]);
      assert multiset(xs[..j])[xs[i]] >= 1 && multiset(xs[j..])[xs[j]] >= 1;
      assert multiset(s)[xs[i]] <= 1;
    }
  }
}

/** Finite runs of a protocol with states S and steps A.  The state after each step is the last state of a prefix. */
module Runs {

  datatype Trace<S, A> = Start(first: S) | After(before: Trace<S, A>, step: A, now: S)

  function First<S, A>(r: Trace<S, A>): S {
    if r.Start? then r.first else First(r.before)
  }

  function Last<S, A>(r: Trace<S, A>): S {
    if r.Start? then r.first else r.now
  }

  ghost predicate Extends<S, A>(r: Trace<S, A>, q: Trace<S, A>) {
    r == q || (r.After? && Extends(r.before, q))
  }

  lemma {:induction false} ExtendsTransitive<S, A>(p: Trace<S, A>, q: Trace<S, A>, r: Trace<S, A>)
    requires Extends(p, q) && Extends(q, r)
    ensures Extends(p, r)
    decreases p
  {
    if p != q {
      ExtendsTransitive(p.before, q, r);
    }
  }

  lemma {:induction false} ExtendsFirst<S, A>(q: Trace<S, A>, r: Trace<S, A>)
    requires Extends(q, r)
    ensures First(q) == First(r)
    decreases q
  {
    if q != r {
      ExtendsFirst(q.before, r);
    }
  }
}
