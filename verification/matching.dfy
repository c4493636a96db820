/** `match_jobs` with the database and the models taken out: the query vector
    is the mean of the phrase vectors, every fetched row is scored by cosine
    similarity with a zero-norm guard, the scored rows are sorted stably by
    descending similarity, the first five are returned, and the suggestion list
    is chosen from the scores. */
module Matching {
  import opened Wrappers
  import opened Records
  import opened Vectors
  import Codec
  import opened Ranking
  import opened Seqs
  import Ingestion
  import opened Translation

  /** Number of matches returned. */
  const TopK: nat := 5

  /** Every score below this counts as a weak match. */
  const Threshold: real := 0.8

  /** Returned with an empty job table. */
  const NoJobsSuggestions: seq<Suggestion> := [
    Suggestion("Python", "https://www.coursera.org/learn/python"),
    Suggestion("Renewable Energy Basics", "https://www.coursera.org/specializations/renewable-energy"),
    Suggestion("Waste Management", "https://www.linkedin.com/learning/sustainable-waste-management")
  ]

  /** Returned when every score is below the threshold. */
  const WeakMatchSuggestions: seq<Suggestion> := [
    Suggestion("API design", "https://www.coursera.org/learn/api-design-apigee-gcp"),
    Suggestion("Renewable Energy Basics", "https://www.coursera.org/specializations/renewable-energy"),
    Suggestion("Waste Management", "https://www.linkedin.com/learning/sustainable-waste-management")
  ]

  /** What numpy raises while a row is scored: `np.frombuffer(None)` for a NULL
      blob, `np.frombuffer` on a size that is not a multiple of 4, and `np.dot`
      on vectors of different lengths. None of them is caught by the handler,
      which only catches database errors. */
  datatype MatchError =
    | NullEmbedding(id: int)
    | BadBlobSize(id: int, size: nat)
    | ShapeMismatch(id: int, queryDim: nat, jobDim: nat)

  /** The guarded cosine similarity. `None` is the shape error of `np.dot`,
      which is only reached when both norms are non-zero. */
  function Similarity(q: Vector, j: Vector, sqrt: real -> real): (r: Option<real>)
    ensures Norm(q, sqrt) == 0.0 || Norm(j, sqrt) == 0.0 ==> r == Some(0.0)
    ensures Norm(q, sqrt) != 0.0 && Norm(j, sqrt) != 0.0 ==>
              (r.Some? <==> |q| == |j|)
              && (r.Some? ==> r.value * (Norm(q, sqrt) * Norm(j, sqrt)) == Dot(q, j))
  {
    var qn := Norm(q, sqrt);
    var jn := Norm(j, sqrt);
    if qn == 0.0 || jn == 0.0 then Some(0.0)
    else if |q| != |j| then None
    else
      var d := qn * jn;
      assert d != 0.0;
      Some(Dot(q, j) / d)
  }

  /** The zero-norm guard fires exactly when one of the two vectors has a zero
      sum of squares, that is, when one of them is the zero vector. */
  lemma GuardIsZeroVector(q: Vector, j: Vector, sqrt: real -> real)
    requires IsSqrt(sqrt)
    ensures (Norm(q, sqrt) == 0.0 || Norm(j, sqrt) == 0.0) <==> (SumSquares(q) == 0.0 || SumSquares(j) == 0.0)
    ensures (Norm(q, sqrt) == 0.0 || Norm(j, sqrt) == 0.0) <==> (IsZero(q) || IsZero(j))
  {
    NormZeroIff(q, sqrt);
    NormZeroIff(j, sqrt);
    SumSquaresZeroIff(q);
    SumSquaresZeroIff(j);
  }

  /** A zero query or a zero job vector scores exactly 0.0, whatever the
      other vector's length, and never raises. */
  lemma ZeroVectorScoresZero(q: Vector, j: Vector, sqrt: real -> real)
    requires IsSqrt(sqrt)
    requires IsZero(q) || IsZero(j)
    ensures Similarity(q, j, sqrt) == Some(0.0)
  {
    GuardIsZeroVector(q, j, sqrt);
  }

  /** The float values of a decoded blob. */
  function JobVector(words: seq<bv32>, f32: bv32 -> real): (v: Vector)
    ensures |v| == |words|
    ensures forall i :: 0 <= i < |v| ==> v[i] == f32(words[i])
  {
    seq(|words|, i requires 0 <= i < |words| => f32(words[i]))
  }

  /** Scoring of one fetched row against the query vector. */
  function RowSimilarity(q: Vector, row: JobRow, sqrt: real -> real, f32: bv32 -> real): (r: Result<real, MatchError>)
    ensures row.embedding.None? ==> r == Err(NullEmbedding(row.id))
    ensures row.embedding.Some? && |row.embedding.value| % Codec.WordSize != 0 ==>
              r == Err(BadBlobSize(row.id, |row.embedding.value|))
    ensures row.embedding.Some? && |row.embedding.value| % Codec.WordSize == 0 ==>
              var j := JobVector(Codec.Decode(row.embedding.value).value, f32);
              && (r.Ok? <==> Similarity(q, j, sqrt).Some?)
              && (r.Ok? ==> r.value == Similarity(q, j, sqrt).value)
              && (r.Err? ==> r.error == ShapeMismatch(row.id, |q|, |j|))
  {
    match row.embedding
    case None => Err(NullEmbedding(row.id))
    case Some(blob) =>
      match Codec.Decode(blob)
      case Err(_) => Err(BadBlobSize(row.id, |blob|))
      case Ok(words) =>
        var j := JobVector(words, f32);
        match Similarity(q, j, sqrt)
        case None => Err(ShapeMismatch(row.id, |q|, |j|))
        case Some(s) => Ok(s)
  }

  /** The loop over the fetched rows: one match per row, in fetch order, or the
      error of the first row that cannot be scored. */
  function ScoreRows(q: Vector, rows: seq<JobRow>, sqrt: real -> real, f32: bv32 -> real)
    : (r: Result<seq<JobMatch>, MatchError>)
    ensures r.Ok? <==> forall i :: 0 <= i < |rows| ==> RowSimilarity(q, rows[i], sqrt, f32).Ok?
    ensures r.Ok? ==> |r.value| == |rows|
    ensures r.Ok? ==> forall i :: 0 <= i < |rows| ==>
              r.value[i] == JobMatch(rows[i].id, rows[i].title, rows[i].description,
                                     RowSimilarity(q, rows[i], sqrt, f32).value)
    ensures r.Err? ==> exists i :: 0 <= i < |rows|
                                   && RowSimilarity(q, rows[i], sqrt, f32) == Err(r.error)
                                   && forall k :: 0 <= k < i ==> RowSimilarity(q, rows[k], sqrt, f32).Ok?
    decreases |rows|
  {
    if |rows| == 0 then Ok([])
    else
      var s :- RowSimilarity(q, rows[0], sqrt, f32);
      var rest :- ScoreRows(q, rows[1..], sqrt, f32);
      Ok([JobMatch(rows[0].id, rows[0].title, rows[0].description, s)] + rest)
  }

  /** `all(m["similarity"] < 0.8 for m in matches)`. */
  predicate AllBelow(ms: seq<JobMatch>, t: real) {
    forall i :: 0 <= i < |ms| ==> ms[i].similarity < t
  }

  /** The `matches` list is the first `TopK` entries of the stable descending
      arrangement of the scored rows. */
  ghost predicate TopOfRanking(top: seq<JobMatch>, scored: seq<JobMatch>) {
    exists ranked :: StableDescendingOf(ranked, scored) && top == Take(ranked, TopK)
  }

  /** `match_jobs`. The query vector is the mean of the phrase vectors; the
      source needs at least one phrase (numpy's mean of no rows is NaN) and the
      embedding model gives every phrase the same dimension. */
  function MatchJobs(phrases: seq<Vector>, rows: seq<JobRow>, sqrt: real -> real, f32: bv32 -> real)
    : (r: Result<MatchResponse, MatchError>)
    requires |phrases| > 0 && Uniform(phrases, |phrases[0]|)
    ensures |rows| == 0 ==> r == Ok(MatchResponse([], NoJobsSuggestions))
    ensures |rows| > 0 ==> (r.Ok? <==> ScoreRows(Mean(phrases), rows, sqrt, f32).Ok?)
    ensures |rows| > 0 && r.Err? ==> r.error == ScoreRows(Mean(phrases), rows, sqrt, f32).error
    ensures |rows| > 0 && r.Ok? ==>
              var scored := ScoreRows(Mean(phrases), rows, sqrt, f32).value;
              && TopOfRanking(r.value.matches, scored)
              && |r.value.matches| == (if |rows| < TopK then |rows| else TopK)
              && Descending(r.value.matches)
              && (r.value.suggestions == WeakMatchSuggestions <==> AllBelow(scored, Threshold))
              && (!AllBelow(scored, Threshold) ==> r.value.suggestions == [])
  {
    var q := Mean(phrases);
    if |rows| == 0 then Ok(MatchResponse([], NoJobsSuggestions))
    else
      var scored :- ScoreRows(q, rows, sqrt, f32);
      var ranked := SortBySimilarity(scored);
      SortMeetsDescription(scored);
      var suggestions := if AllBelow(scored, Threshold) then WeakMatchSuggestions else [];
      Ok(MatchResponse(Take(ranked, TopK), suggestions))
  }

  /** With a non-empty table the weak-match list is returned exactly when the
      best returned match is below the threshold: the source tests every score,
      but since the list is sorted the first one decides. */
  lemma SuggestionsFollowTopScore(phrases: seq<Vector>, rows: seq<JobRow>, sqrt: real -> real, f32: bv32 -> real)
    requires |phrases| > 0 && Uniform(phrases, |phrases[0]|)
    requires |rows| > 0 && MatchJobs(phrases, rows, sqrt, f32).Ok?
    ensures var resp := MatchJobs(phrases, rows, sqrt, f32).value;
            && |resp.matches| > 0
            && (resp.suggestions == WeakMatchSuggestions <==> resp.matches[0].similarity < Threshold)
            && (resp.suggestions == [] <==> resp.matches[0].similarity >= Threshold)
  {
    var scored := ScoreRows(Mean(phrases), rows, sqrt, f32).value;
    var ranked := SortBySimilarity(scored);
    if AllBelow(scored, Threshold) {
      assert ranked[0] in multiset(scored);
    } else {
      var i :| 0 <= i < |scored| && scored[i].similarity >= Threshold;
      assert scored[i] in multiset(ranked);
    }
  }

  /** Truncation happens after ranking: a row that scores higher than the
      weakest returned match is always among the returned matches, and when
      fewer than `TopK` rows exist every row is returned. */
  lemma NoStrongerRowDropped(phrases: seq<Vector>, rows: seq<JobRow>, sqrt: real -> real, f32: bv32 -> real, i: nat)
    requires |phrases| > 0 && Uniform(phrases, |phrases[0]|)
    requires |rows| > 0 && MatchJobs(phrases, rows, sqrt, f32).Ok?
    requires i < |rows|
    ensures var resp := MatchJobs(phrases, rows, sqrt, f32).value;
            var m := ScoreRows(Mean(phrases), rows, sqrt, f32).value[i];
            (m.similarity > resp.matches[|resp.matches| - 1].similarity || |rows| <= TopK) ==> m in resp.matches
  {
    var scored := ScoreRows(Mean(phrases), rows, sqrt, f32).value;
    var ranked := SortBySimilarity(scored);
    var top := Take(ranked, TopK);
    var m := scored[i];
    assert m in multiset(ranked);
    var p :| 0 <= p < |ranked| && ranked[p] == m;
    if p >= |top| {
      assert ranked[|top| - 1] == top[|top| - 1];
    } else {
      assert top[p] == m;
    }
  }

  /** Every returned match is the scored form of one of the fetched rows. */
  lemma MatchesComeFromRows(phrases: seq<Vector>, rows: seq<JobRow>, sqrt: real -> real, f32: bv32 -> real, k: nat)
    requires |phrases| > 0 && Uniform(phrases, |phrases[0]|)
    requires MatchJobs(phrases, rows, sqrt, f32).Ok?
    requires k < |MatchJobs(phrases, rows, sqrt, f32).value.matches|
    ensures exists i :: 0 <= i < |rows| &&
              MatchJobs(phrases, rows, sqrt, f32).value.matches[k]
                == JobMatch(rows[i].id, rows[i].title, rows[i].description,
                            RowSimilarity(Mean(phrases), rows[i], sqrt, f32).value)
  {
    var scored := ScoreRows(Mean(phrases), rows, sqrt, f32).value;
    var ranked := SortBySimilarity(scored);
    assert ranked[k] in multiset(scored);
    var i :| 0 <= i < |scored| && scored[i] == ranked[k];
  }

  /** After the maintenance pass every blob is present and well sized, so
      `match_jobs` can only fail on a dimension mismatch; when the model gives
      the jobs the query's dimension it succeeds. */
  lemma MatchAfterRegenerateSucceeds(phrases: seq<Vector>, rows: seq<JobRow>, embed: string -> seq<bv32>,
                                     sqrt: real -> real, f32: bv32 -> real)
    requires |phrases| > 0 && Uniform(phrases, |phrases[0]|)
    requires forall i :: 0 <= i < |rows| ==> |embed(Ingestion.ReembedText(rows[i].title, rows[i].description))| == |phrases[0]|
    ensures MatchJobs(phrases, Ingestion.RegenerateEmbeddings(rows, embed), sqrt, f32).Ok?
  {
    var updated := Ingestion.RegenerateEmbeddings(rows, embed);
    var q := Mean(phrases);
    forall i | 0 <= i < |updated| ensures RowSimilarity(q, updated[i], sqrt, f32).Ok? {
      var blob := updated[i].embedding.value;
      var words := embed(Ingestion.ReembedText(rows[i].title, rows[i].description));
      assert Codec.Decode(blob) == Ok(words);
      assert |JobVector(words, f32)| == |q|;
    }
  }

  /** The request as a whole: the skills are translated into English (the
      caller's `lang` is the source), each translation is embedded, and the
      vectors go through `MatchJobs`. */
  datatype RequestError = TranslationFailed(translation: TranslateError) | ScoringFailed(scoring: MatchError)

  /** The list comprehension over `query.skill_text`: every skill translated in
      order; the first failure ends the request. */
  function TranslateSkills(skills: seq<string>, lang: string, translator: Translator)
    : (r: Result<seq<string>, TranslateError>)
    ensures r.Ok? <==> forall i :: 0 <= i < |skills| ==> TranslateText(skills[i], "en", lang, translator).Ok?
    ensures r.Ok? ==> |r.value| == |skills|
    ensures r.Ok? ==> forall i :: 0 <= i < |skills| ==> r.value[i] == TranslateText(skills[i], "en", lang, translator).value
    ensures r.Err? ==> exists i :: 0 <= i < |skills|
                                   && TranslateText(skills[i], "en", lang, translator) == Err(r.error)
                                   && forall k :: 0 <= k < i ==> TranslateText(skills[k], "en", lang, translator).Ok?
    decreases |skills|
  {
    if |skills| == 0 then Ok([])
    else
      var t :- TranslateText(skills[0], "en", lang, translator);
      var rest :- TranslateSkills(skills[1..], lang, translator);
      Ok([t] + rest)
  }

  /** The phrase vectors the model gives for the translated skills. */
  function PhraseVectors(texts: seq<string>, embed: Ingestion.Embedder, f32: bv32 -> real): (vs: seq<Vector>)
    ensures |vs| == |texts|
    ensures forall i :: 0 <= i < |texts| ==> vs[i] == JobVector(embed(texts[i]), f32)
  {
    seq(|texts|, i requires 0 <= i < |texts| => JobVector(embed(texts[i]), f32))
  }

  /** `match_jobs` from the request body on. The model's vectors all have the
      dimension `dim`, and the body holds at least one skill. */
  function MatchRequest(skills: seq<string>, lang: string, translator: Translator, embed: Ingestion.Embedder,
                        dim: nat, rows: seq<JobRow>, sqrt: real -> real, f32: bv32 -> real)
    : (r: Result<MatchResponse, RequestError>)
    requires |skills| > 0
    requires forall t :: |embed(t)| == dim
    ensures TranslateSkills(skills, lang, translator).Err? ==>
              r == Err(TranslationFailed(TranslateSkills(skills, lang, translator).error))
    ensures TranslateSkills(skills, lang, translator).Ok? ==>
              var phrases := PhraseVectors(TranslateSkills(skills, lang, translator).value, embed, f32);
              && |phrases| > 0 && Uniform(phrases, dim)
              && (r.Ok? <==> MatchJobs(phrases, rows, sqrt, f32).Ok?)
              && (r.Ok? ==> r.value == MatchJobs(phrases, rows, sqrt, f32).value)
              && (r.Err? ==> r.error == ScoringFailed(MatchJobs(phrases, rows, sqrt, f32).error))
  {
    match TranslateSkills(skills, lang, translator)
    case Err(e) => Err(TranslationFailed(e))
    case Ok(texts) =>
      var phrases := PhraseVectors(texts, embed, f32);
      match MatchJobs(phrases, rows, sqrt, f32)
      case Ok(resp) => Ok(resp)
      case Err(e) => Err(ScoringFailed(e))
  }

  /** The language guard never stops a match request: the skills are
      translated into English, which is supported, so a translation failure
      is always the translator's own. */
  lemma RequestTranslationFailsOnlyInTranslator(skills: seq<string>, lang: string, translator: Translator,
                                                embed: Ingestion.Embedder, dim: nat, rows: seq<JobRow>,
                                                sqrt: real -> real, f32: bv32 -> real)
    requires |skills| > 0
    requires forall t :: |embed(t)| == dim
    requires MatchRequest(skills, lang, translator, embed, dim, rows, sqrt, f32).Err?
    ensures var e := MatchRequest(skills, lang, translator, embed, dim, rows, sqrt, f32).error;
            e.TranslationFailed? ==> e.translation == TranslatorFailed
  {
    var tr := TranslateSkills(skills, lang, translator);
    if tr.Err? {
      var i :| 0 <= i < |skills| && TranslateText(skills[i], "en", lang, translator) == Err(tr.error);
      EnglishTargetPassesGuard(skills[i], lang, translator);
    }
  }
}
