/** Sequence helpers: JavaScript's `filter` and `slice(0, n)` / Python's `[:n]`. */
module Seqs {

  /** `a` is obtained from `b` by deleting elements, keeping the order of the rest. */
  predicate IsSubsequence<T(==)>(a: seq<T>, b: seq<T>)
    decreases |b|
  {
    || |a| == 0
    || (|b| > 0 && ((a[0] == b[0] && IsSubsequence(a[1..], b[1..])) || IsSubsequence(a, b[1..])))
  }

  /** `s.filter(p)`: the elements satisfying `p`, in their original order. */
  function Filter<T>(s: seq<T>, p: T -> bool): (r: seq<T>)
    ensures |r| <= |s|
    ensures forall i :: 0 <= i < |r| ==> p(r[i])
    decreases |s|
  {
    if |s| == 0 then []
    else if p(s[0]) then [s[0]] + Filter(s[1..], p) else Filter(s[1..], p)
  }

  /** What `Filter` keeps, independently of how it walks the input: an
      order-preserving selection of `s` that holds every occurrence of each
      value satisfying `p` and nothing else. */
  lemma {:induction false} FilterSpec<T(!new)>(s: seq<T>, p: T -> bool)
    ensures IsSubsequence(Filter(s, p), s)
    ensures forall x :: multiset(Filter(s, p))[x] == if p(x) then multiset(s)[x] else 0
    decreases |s|
  {
    if |s| > 0 {
      FilterSpec(s[1..], p);
      assert s == [s[0]] + s[1..];
    }
  }

  /** The first `n` elements (all of them when there are fewer). */
  function Take<T>(s: seq<T>, n: nat): (r: seq<T>)
    ensures |r| == if n < |s| then n else |s|
    ensures forall i :: 0 <= i < |r| ==> r[i] == s[i]
  {
    if n < |s| then s[..n] else s
  }

  /** Filtering a sequence that starts with `x`. */
  lemma FilterCons<T(!new)>(x: T, t: seq<T>, p: T -> bool)
    ensures Filter([x] + t, p) == if p(x) then [x] + Filter(t, p) else Filter(t, p)
  {
    assert ([x] + t)[1..] == t;
  }

  /** Keeping the first `n` matches of a filter is the same as filtering a
      prefix of the input: the one that ends where the n-th match is found,
      or the whole input when there are fewer than `n` matches. */
  lemma {:induction false} TakeFilterIsFilterOfPrefix<T(!new)>(s: seq<T>, p: T -> bool, n: nat)
    returns (m: nat)
    ensures m <= |s|
    ensures Take(Filter(s, p), n) == Filter(s[..m], p)
    ensures |Take(Filter(s, p), n)| == n || m == |s|
    decreases |s|
  {
    if |s| == 0 || n == 0 {
      m := 0;
    } else {
      var k := if p(s[0]) then n - 1 else n;
      var m' := TakeFilterIsFilterOfPrefix(s[1..], p, k);
      m := m' + 1;
      assert s == [s[0]] + s[1..];
      FilterCons(s[0], s[1..], p);
      assert s[..m] == [s[0]] + s[1..][..m'];
      FilterCons(s[0], s[1..][..m'], p);
    }
  }

  /** The first `n` matches of a filter are the first matches: they are the
      matches of a prefix that is the whole input or yields `n`, every one of
      them lies in that prefix, and within it nothing that matches is left out. */
  lemma FirstMatches<T(!new)>(s: seq<T>, p: T -> bool, n: nat) returns (m: nat)
    ensures m <= |s|
    ensures |Take(Filter(s, p), n)| == n || m == |s|
    ensures Take(Filter(s, p), n) == Filter(s[..m], p)
    ensures forall x :: x in Take(Filter(s, p), n) ==> x in s[..m]
    ensures forall i :: 0 <= i < m ==> (s[i] in Take(Filter(s, p), n) <==> p(s[i]))
  {
    m := TakeFilterIsFilterOfPrefix(s, p, n);
    var prefix := s[..m];
    var r := Filter(prefix, p);
    FilterSpec(prefix, p);
    assert forall x :: x in r ==> x in multiset(prefix);
    assert forall i :: 0 <= i < m ==> s[i] == prefix[i] && s[i] in multiset(prefix);
  }

  /** The first `n` matches of a filter form a subsequence of the input. */
  lemma TakeFilterIsSubsequence<T(!new)>(s: seq<T>, p: T -> bool, n: nat)
    ensures IsSubsequence(Take(Filter(s, p), n), s)
  {
    var all := Filter(s, p);
    FilterSpec(s, p);
    var r := Take(all, n);
    assert r == all[..|r|];
    PrefixOfSubsequence(r, all, s);
  }

  /** A prefix of a subsequence is a subsequence. */
  lemma {:induction false} PrefixOfSubsequence<T(!new)>(a: seq<T>, b: seq<T>, c: seq<T>)
    requires |a| <= |b| && a == b[..|a|] && IsSubsequence(b, c)
    ensures IsSubsequence(a, c)
    decreases |c|
  {
    if |a| > 0 {
      if b[0] == c[0] && IsSubsequence(b[1..], c[1..]) {
        PrefixOfSubsequence(a[1..], b[1..], c[1..]);
      } else {
        PrefixOfSubsequence(a, b, c[1..]);
      }
    }
  }
}
