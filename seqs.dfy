/** Row-wise table operations: a boolean mask (`df[mask]`) and a column-wise rewrite (`df[c] = df[c].apply(f)`). */
module Seqs {

  /** The rows of `s` that satisfy `p`, in their original order (pandas' boolean indexing). */
  function Filter<T>(p: T -> bool, s: seq<T>): (r: seq<T>)
    ensures |r| <= |s|
    ensures forall x | x in r :: x in s && p(x)
    ensures forall x | x in s && p(x) :: x in r
  {
    if s == [] then []
    else (if p(s[0]) then [s[0]] else []) + Filter(p, s[1..])
  }

  /** Applies `f` to every row. */
  function Map<T, U>(f: T -> U, s: seq<T>): seq<U> {
    seq(|s|, i requires 0 <= i < |s| => f(s[i]))
  }

  /** `xs` is `ys` with some elements deleted: an order-preserving subsequence. */
  predicate IsSubsequence<T(==)>(xs: seq<T>, ys: seq<T>) {
    if xs == [] then true
    else if ys == [] then false
    else if xs[0] == ys[0] then IsSubsequence(xs[1..], ys[1..])
    else IsSubsequence(xs, ys[1..])
  }

  lemma {:induction false} FilterIsSubsequence<T>(p: T -> bool, s: seq<T>)
    ensures IsSubsequence(Filter(p, s), s)
  {
    if s != [] {
      FilterIsSubsequence(p, s[1..]);
      var r := Filter(p, s);
      if p(s[0]) {
        assert r == [s[0]] + Filter(p, s[1..]);
        assert r[1..] == Filter(p, s[1..]);
      } else {
        assert r == Filter(p, s[1..]);
        if r != [] {
          assert r[0] in r;
        }
      }
    }
  }

  lemma {:induction false} FilterKeepsAll<T>(p: T -> bool, s: seq<T>)
    requires forall x | x in s :: p(x)
    ensures Filter(p, s) == s
  {
    if s != [] {
      FilterKeepsAll(p, s[1..]);
    }
  }

  lemma {:induction false} FilterPointwise<T>(p: T -> bool, q: T -> bool, s: seq<T>)
    requires forall x | x in s :: p(x) == q(x)
    ensures Filter(p, s) == Filter(q, s)
  {
    if s != [] {
      FilterPointwise(p, q, s[1..]);
    }
  }

  /** Two masks applied one after the other equal one mask by their conjunction. */
  lemma {:induction false} FilterFuse<T>(p: T -> bool, q: T -> bool, pq: T -> bool, s: seq<T>)
    requires forall x | x in s :: pq(x) == (p(x) && q(x))
    ensures Filter(q, Filter(p, s)) == Filter(pq, s)
  {
    if s != [] {
      FilterFuse(p, q, pq, s[1..]);
      var rest := Filter(p, s[1..]);
      if p(s[0]) {
        var t := [s[0]] + rest;
        assert Filter(p, s) == t;
        assert t[0] == s[0] && t[1..] == rest;
        assert Filter(q, t) == (if q(s[0]) then [s[0]] else []) + Filter(q, rest);
      } else {
        assert Filter(p, s) == rest;
      }
      assert Filter(pq, s) == (if pq(s[0]) then [s[0]] else []) + Filter(pq, s[1..]);
    }
  }

  /** Masks commute: the order in which two per-row filters run does not matter. */
  lemma FilterCommute<T>(p: T -> bool, q: T -> bool, s: seq<T>)
    ensures Filter(q, Filter(p, s)) == Filter(p, Filter(q, s))
  {
    FilterFuse(p, q, x => p(x) && q(x), s);
    FilterFuse(q, p, x => p(x) && q(x), s);
  }

  lemma MapCons<T, U>(f: T -> U, s: seq<T>)
    requires s != []
    ensures Map(f, s) == [f(s[0])] + Map(f, s[1..])
  {
  }

  /** Filtering rewritten rows equals rewriting the rows that pass the pulled-back mask. */
  lemma {:induction false} FilterMap<T, U>(f: T -> U, p: U -> bool, q: T -> bool, s: seq<T>)
    requires forall x | x in s :: q(x) == p(f(x))
    ensures Filter(p, Map(f, s)) == Map(f, Filter(q, s))
  {
    if s != [] {
      var tail := Map(f, s[1..]);
      FilterMap(f, p, q, s[1..]);
      MapCons(f, s);
      assert ([f(s[0])] + tail)[1..] == tail;
      assert Filter(p, Map(f, s)) == (if p(f(s[0])) then [f(s[0])] else []) + Filter(p, tail);
      if q(s[0]) {
        var kept := [s[0]] + Filter(q, s[1..]);
        assert Filter(q, s) == kept;
        MapCons(f, kept);
        assert kept[1..] == Filter(q, s[1..]);
      }
    }
  }

  lemma MapSnoc<T, U>(f: T -> U, s: seq<T>, k: nat)
    requires k < |s|
    ensures Map(f, s[..k + 1]) == Map(f, s[..k]) + [f(s[k])]
  {
  }

  lemma MapMap<T, U, V>(f: T -> U, g: U -> V, h: T -> V, s: seq<T>)
    requires forall x | x in s :: h(x) == g(f(x))
    ensures Map(g, Map(f, s)) == Map(h, s)
  {
  }
}
