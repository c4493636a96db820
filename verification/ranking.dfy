/** `matches.sort(key=lambda x: x["similarity"], reverse=True)`: Python's sort is
    stable, and with `reverse=True` records with equal keys keep their original
    order. The model is an insertion sort with that tie rule, together with an
    independent description of its result (descending, a permutation, equal
    scores in input order) and a proof that the description fixes the result. */
module Ranking {
  import opened Records

  /** Scores never increase along `s`. */
  predicate Descending(s: seq<JobMatch>) {
    forall i, j :: 0 <= i < j < |s| ==> s[i].similarity >= s[j].similarity
  }

  /** The entries of `s` whose score is `x`, in the order of `s`. */
  function WithScore(s: seq<JobMatch>, x: real): seq<JobMatch>
    decreases |s|
  {
    if |s| == 0 then []
    else (if s[0].similarity == x then [s[0]] else []) + WithScore(s[1..], x)
  }

  /** Places `m` after every entry of `t` that scores strictly higher and before
      the rest, so that among equal scores `m` stays first. */
  function Insert(m: JobMatch, t: seq<JobMatch>): (r: seq<JobMatch>)
    ensures |r| == |t| + 1
    ensures multiset(r) == multiset(t) + multiset{m}
    decreases |t|
  {
    if |t| > 0 && t[0].similarity > m.similarity then
      assert t == [t[0]] + t[1..];
      [t[0]] + Insert(m, t[1..])
    else [m] + t
  }

  /** The stable descending sort. */
  function SortBySimilarity(s: seq<JobMatch>): (r: seq<JobMatch>)
    ensures |r| == |s|
    ensures multiset(r) == multiset(s)
    ensures Descending(r)
    decreases |s|
  {
    if |s| == 0 then []
    else
      assert s == [s[0]] + s[1..];
      var t := SortBySimilarity(s[1..]);
      InsertDescending(s[0], t);
      Insert(s[0], t)
  }

  lemma {:induction false} InsertDescending(m: JobMatch, t: seq<JobMatch>)
    requires Descending(t)
    ensures Descending(Insert(m, t))
    decreases |t|
  {
    if |t| > 0 && t[0].similarity > m.similarity {
      var r := Insert(m, t[1..]);
      InsertDescending(m, t[1..]);
      forall k | 0 <= k < |r| ensures t[0].similarity >= r[k].similarity {
        assert r[k] in multiset(r);
        if r[k] != m {
          assert r[k] in multiset(t[1..]);
          var j :| 0 <= j < |t[1..]| && t[1..][j] == r[k];
          assert t[1..][j] == t[j + 1];
        }
      }
      var out := [t[0]] + r;
      assert Insert(m, t) == out;
      forall i, j | 0 <= i < j < |out| ensures out[i].similarity >= out[j].similarity {
        assert out[j] == r[j - 1];
        if i > 0 {
          assert out[i] == r[i - 1];
        }
      }
    }
  }

  lemma {:induction false} WithScoreAppend(a: seq<JobMatch>, b: seq<JobMatch>, x: real)
    ensures WithScore(a + b, x) == WithScore(a, x) + WithScore(b, x)
    decreases |a|
  {
    if |a| > 0 {
      assert (a + b)[1..] == a[1..] + b;
      WithScoreAppend(a[1..], b, x);
    } else {
      assert a + b == b;
    }
  }

  /** Inserting `m` leaves the entries of every other score in place and puts
      `m` in front of the entries that share its score. */
  lemma {:induction false} WithScoreInsert(m: JobMatch, t: seq<JobMatch>, x: real)
    ensures WithScore(Insert(m, t), x) == WithScore([m], x) + WithScore(t, x)
    decreases |t|
  {
    if |t| > 0 && t[0].similarity > m.similarity {
      WithScoreInsert(m, t[1..], x);
      WithScoreAppend([t[0]], Insert(m, t[1..]), x);
      WithScoreAppend([t[0]], t[1..], x);
      assert t == [t[0]] + t[1..];
    } else {
      WithScoreAppend([m], t, x);
    }
  }

  /** Stability: for every score, the entries with that score appear in the
      sorted list in the same order as in the input. */
  lemma {:induction false} SortIsStable(s: seq<JobMatch>, x: real)
    ensures WithScore(SortBySimilarity(s), x) == WithScore(s, x)
    decreases |s|
  {
    if |s| > 0 {
      SortIsStable(s[1..], x);
      WithScoreInsert(s[0], SortBySimilarity(s[1..]), x);
      WithScoreAppend([s[0]], s[1..], x);
      assert s == [s[0]] + s[1..];
    }
  }

  /** The independent description of a stable descending sort of `s`. */
  ghost predicate StableDescendingOf(r: seq<JobMatch>, s: seq<JobMatch>) {
    Descending(r) && forall x: real :: WithScore(r, x) == WithScore(s, x)
  }

  lemma SortMeetsDescription(s: seq<JobMatch>)
    ensures StableDescendingOf(SortBySimilarity(s), s)
  {
    forall x: real ensures WithScore(SortBySimilarity(s), x) == WithScore(s, x) {
      SortIsStable(s, x);
    }
  }

  lemma {:induction false} WithScoreMember(s: seq<JobMatch>, x: real, k: nat)
    requires k < |s| && s[k].similarity == x
    ensures |WithScore(s, x)| > 0
    decreases |s|
  {
    if k > 0 && s[0].similarity != x {
      WithScoreMember(s[1..], x, k - 1);
    }
  }

  lemma {:induction false} WithScoreWitness(s: seq<JobMatch>, x: real) returns (k: nat)
    requires |WithScore(s, x)| > 0
    ensures k < |s| && s[k].similarity == x
    decreases |s|
  {
    if s[0].similarity == x {
      k := 0;
    } else {
      var k' := WithScoreWitness(s[1..], x);
      k := k' + 1;
    }
  }

  lemma NoScoresMeansEmpty(s: seq<JobMatch>)
    requires forall x: real :: WithScore(s, x) == []
    ensures |s| == 0
  {
    if |s| > 0 {
      WithScoreMember(s, s[0].similarity, 0);
    }
  }

  lemma WithScoreCons(s: seq<JobMatch>, x: real)
    requires |s| > 0
    ensures WithScore(s, x) == (if s[0].similarity == x then [s[0]] else []) + WithScore(s[1..], x)
  {
  }

  /** Two lists that are both descending and agree on the entries of every score
      are equal: the description above admits exactly one result. */
  lemma {:induction false} StableDescendingUnique(a: seq<JobMatch>, b: seq<JobMatch>)
    requires Descending(a) && Descending(b)
    requires forall x: real :: WithScore(a, x) == WithScore(b, x)
    ensures a == b
    decreases |a| + |b|
  {
    if |a| == 0 {
      NoScoresMeansEmpty(b);
    } else if |b| == 0 {
      NoScoresMeansEmpty(a);
    } else {
      var x := a[0].similarity;
      var y := b[0].similarity;
      if x > y {
        WithScoreMember(a, x, 0);
        assert WithScore(b, x) == WithScore(a, x);
        var k := WithScoreWitness(b, x);
        assert false;
      } else if y > x {
        WithScoreMember(b, y, 0);
        assert WithScore(a, y) == WithScore(b, y);
        var k := WithScoreWitness(a, y);
        assert false;
      }
      WithScoreCons(a, x);
      WithScoreCons(b, x);
      assert WithScore(a, x) == WithScore(b, x);
      assert a[0] == WithScore(a, x)[0] == WithScore(b, x)[0] == b[0];
      forall z: real ensures WithScore(a[1..], z) == WithScore(b[1..], z) {
        WithScoreCons(a, z);
        WithScoreCons(b, z);
        assert WithScore(a, z) == WithScore(b, z);
        var h := if a[0].similarity == z then [a[0]] else [];
        assert WithScore(a[1..], z) == WithScore(a, z)[|h|..];
        assert WithScore(b[1..], z) == WithScore(b, z)[|h|..];
      }
      StableDescendingUnique(a[1..], b[1..]);
      assert a == [a[0]] + a[1..] && b == [b[0]] + b[1..];
    }
  }

  /** Any stable descending arrangement of `s` is the one the sort produces. */
  lemma SortIsTheStableDescendingOrder(s: seq<JobMatch>, r: seq<JobMatch>)
    requires StableDescendingOf(r, s)
    ensures r == SortBySimilarity(s)
  {
    SortMeetsDescription(s);
    StableDescendingUnique(r, SortBySimilarity(s));
  }
}
