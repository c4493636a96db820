/** Worked examples of the matching pipeline on small concrete inputs. */
module MatchingExamples {
  import opened Wrappers
  import opened Records
  import opened Vectors
  import Codec
  import opened Matching
  import opened Ranking
  import opened Seqs

  /** The square root of one is one. */
  lemma SqrtOfOne(sqrt: real -> real)
    requires IsSqrt(sqrt)
    ensures sqrt(1.0) == 1.0
  {
    var s := sqrt(1.0);
    assert Square(s) == 1.0 && s >= 0.0;
    if s > 1.0 {
      ProductPositive(s - 1.0, s + 1.0, s * s - 1.0);
    } else if s < 1.0 {
      ProductPositive(1.0 - s, 1.0 + s, 1.0 - s * s);
    }
  }

  /** Duplicated phrases are not merged: repeating a phrase shifts the mean towards it. */
  lemma DuplicatePhraseWeighs()
    ensures Mean([[1.0, 0.0], [1.0, 0.0], [0.0, 1.0]]) == [2.0 / 3.0, 1.0 / 3.0]
    ensures Mean([[1.0, 0.0], [0.0, 1.0]]) == [0.5, 0.5]
  {
    var vs := [[1.0, 0.0], [1.0, 0.0], [0.0, 1.0]];
    assert vs[..2] == [[1.0, 0.0], [1.0, 0.0]];
    assert vs[..2][..1] == [[1.0, 0.0]];
    assert ColumnSum(vs[..2][..1], 0) == 1.0 && ColumnSum(vs[..2][..1], 1) == 0.0;
    assert ColumnSum(vs[..2], 0) == 2.0 && ColumnSum(vs[..2], 1) == 0.0;
    var m := Mean(vs);
    assert m[0] * 3.0 == 2.0 && m[1] * 3.0 == 1.0;
    var ws := [[1.0, 0.0], [0.0, 1.0]];
    assert ws[..1] == [[1.0, 0.0]];
    var n := Mean(ws);
    assert n[0] * 2.0 == 1.0 && n[1] * 2.0 == 1.0;
  }

  /** Squares of unit basis vectors of length three sum to one. */
  lemma UnitSumSquares(v: Vector)
    requires v == [1.0, 0.0, 0.0] || v == [0.0, 1.0, 0.0] || v == [0.0, 0.0, 1.0]
    ensures SumSquares(v) == 1.0
  {
    assert SumSquares(v[1..][1..]) == Square(v[2]) by { assert v[1..][1..][1..] == []; }
  }

  /** Distinct unit basis vectors of length three are orthogonal. */
  lemma UnitDot(a: Vector, b: Vector)
    requires a == [1.0, 0.0, 0.0] || a == [0.0, 1.0, 0.0] || a == [0.0, 0.0, 1.0]
    requires b == [1.0, 0.0, 0.0] || b == [0.0, 1.0, 0.0] || b == [0.0, 0.0, 1.0]
    ensures Dot(a, b) == if a == b then 1.0 else 0.0
  {
    assert Dot(a[1..][1..], b[1..][1..]) == a[2] * b[2] by { assert a[1..][1..][1..] == []; }
  }

  lemma UnitSimilarity(a: Vector, b: Vector, sqrt: real -> real)
    requires IsSqrt(sqrt)
    requires a == [1.0, 0.0, 0.0] || a == [0.0, 1.0, 0.0] || a == [0.0, 0.0, 1.0]
    requires b == [1.0, 0.0, 0.0] || b == [0.0, 1.0, 0.0] || b == [0.0, 0.0, 1.0]
    ensures Similarity(a, b, sqrt) == Some(if a == b then 1.0 else 0.0)
  {
    UnitSumSquares(a);
    UnitSumSquares(b);
    UnitDot(a, b);
    SqrtOfOne(sqrt);
  }

  /** The bit pattern of the float32 value 1.0. */
  const One: bv32 := 0x3F80_0000

  /** A row whose blob stores `words`. */
  function StoredRow(id: int, title: string, description: string, words: seq<bv32>): JobRow {
    JobRow(id, title, description, Some(Codec.Encode(words)))
  }

  lemma StoredRowScore(q: Vector, id: int, title: string, description: string, words: seq<bv32>,
                       sqrt: real -> real, f32: bv32 -> real, v: Vector)
    requires IsSqrt(sqrt)
    requires f32(One) == 1.0 && f32(0) == 0.0
    requires |words| == 3 && forall i :: 0 <= i < 3 ==> words[i] == One || words[i] == 0
    requires v == [1.0, 0.0, 0.0] || v == [0.0, 1.0, 0.0] || v == [0.0, 0.0, 1.0]
    requires forall i :: 0 <= i < 3 ==> (v[i] == 1.0 <==> words[i] == One)
    requires q == [1.0, 0.0, 0.0] || q == [0.0, 1.0, 0.0] || q == [0.0, 0.0, 1.0]
    ensures RowSimilarity(q, StoredRow(id, title, description, words), sqrt, f32) == Ok(if q == v then 1.0 else 0.0)
  {
    Codec.DecodeEncode(words);
    var j := JobVector(words, f32);
    assert j == v;
    UnitSimilarity(q, v, sqrt);
  }

  /** A two-job corpus: an eco engineer stored as [1,0,0] and a chef stored
      as [0,1,0]. */
  function Corpus(): seq<JobRow> {
    [ StoredRow(1, "Eco Engineer", "renewable energy python", [One, 0, 0]),
      StoredRow(2, "Chef", "cooking", [0, One, 0]) ]
  }

  /** Scores the corpus against a unit query. */
  lemma CorpusScores(q: Vector, sqrt: real -> real, f32: bv32 -> real, a: real, b: real)
    requires IsSqrt(sqrt)
    requires f32(One) == 1.0 && f32(0) == 0.0
    requires q == [1.0, 0.0, 0.0] || q == [0.0, 1.0, 0.0] || q == [0.0, 0.0, 1.0]
    requires a == (if q == [1.0, 0.0, 0.0] then 1.0 else 0.0)
    requires b == (if q == [0.0, 1.0, 0.0] then 1.0 else 0.0)
    ensures ScoreRows(q, Corpus(), sqrt, f32)
              == Ok([JobMatch(1, "Eco Engineer", "renewable energy python", a),
                     JobMatch(2, "Chef", "cooking", b)])
  {
    var rows := Corpus();
    StoredRowScore(q, 1, "Eco Engineer", "renewable energy python", [One, 0, 0], sqrt, f32, [1.0, 0.0, 0.0]);
    StoredRowScore(q, 2, "Chef", "cooking", [0, One, 0], sqrt, f32, [0.0, 1.0, 0.0]);
    assert rows[0] == StoredRow(1, "Eco Engineer", "renewable energy python", [One, 0, 0]);
    assert rows[1] == StoredRow(2, "Chef", "cooking", [0, One, 0]);
    assert RowSimilarity(q, rows[0], sqrt, f32) == Ok(a);
    assert RowSimilarity(q, rows[1], sqrt, f32) == Ok(b);
    var r := ScoreRows(q, rows, sqrt, f32);
    assert r.Ok?;
    assert r.value == [r.value[0], r.value[1]];
  }

  /** Two entries whose first score is at least the second's stay in place. */
  lemma SortTwo(m1: JobMatch, m2: JobMatch)
    requires m1.similarity >= m2.similarity
    ensures SortBySimilarity([m1, m2]) == [m1, m2]
  {
    assert [m1, m2][1..] == [m2];
    assert [m2][1..] == [];
  }

  /** A query aligned with the first job ranks it first with score 1.0 and the
      other at 0.0; since 1.0 reaches the threshold no suggestions are sent. */
  lemma AlignedQuery(sqrt: real -> real, f32: bv32 -> real)
    requires IsSqrt(sqrt)
    requires f32(One) == 1.0 && f32(0) == 0.0
    ensures MatchJobs([[1.0, 0.0, 0.0]], Corpus(), sqrt, f32)
              == Ok(MatchResponse([JobMatch(1, "Eco Engineer", "renewable energy python", 1.0),
                                   JobMatch(2, "Chef", "cooking", 0.0)], []))
  {
    var q: Vector := [1.0, 0.0, 0.0];
    MeanOfCopies(q, 1);
    assert Copies(q, 1) == [[1.0, 0.0, 0.0]];
    var m1 := JobMatch(1, "Eco Engineer", "renewable energy python", 1.0);
    var m2 := JobMatch(2, "Chef", "cooking", 0.0);
    CorpusScores(q, sqrt, f32, 1.0, 0.0);
    SortTwo(m1, m2);
    assert !AllBelow([m1, m2], Threshold) by { assert [m1, m2][0] == m1; }
    assert Take([m1, m2], TopK) == [m1, m2];
  }

  /** A query orthogonal to both jobs scores them 0.0, keeps store order
      between the tie, and sends the weak-match suggestions. */
  lemma OrthogonalQuery(sqrt: real -> real, f32: bv32 -> real)
    requires IsSqrt(sqrt)
    requires f32(One) == 1.0 && f32(0) == 0.0
    ensures MatchJobs([[0.0, 0.0, 1.0]], Corpus(), sqrt, f32)
              == Ok(MatchResponse([JobMatch(1, "Eco Engineer", "renewable energy python", 0.0),
                                   JobMatch(2, "Chef", "cooking", 0.0)], WeakMatchSuggestions))
  {
    var q: Vector := [0.0, 0.0, 1.0];
    MeanOfCopies(q, 1);
    assert Copies(q, 1) == [[0.0, 0.0, 1.0]];
    var m1 := JobMatch(1, "Eco Engineer", "renewable energy python", 0.0);
    var m2 := JobMatch(2, "Chef", "cooking", 0.0);
    CorpusScores(q, sqrt, f32, 0.0, 0.0);
    SortTwo(m1, m2);
    assert AllBelow([m1, m2], Threshold);
    assert Take([m1, m2], TopK) == [m1, m2];
  }

  /** A row whose embedding is NULL makes the request fail; the row is not
      skipped, even when it is the only one. */
  lemma NullEmbeddingFails(phrases: seq<Vector>, sqrt: real -> real, f32: bv32 -> real)
    requires |phrases| > 0 && Uniform(phrases, |phrases[0]|)
    ensures MatchJobs(phrases, [JobRow(7, "Analyst", "data", None)], sqrt, f32) == Err(NullEmbedding(7))
  {
  }
}
