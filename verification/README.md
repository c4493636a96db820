# Green Matchers: job matching and the job-search page, in Dafny

Green Matchers pairs people with sustainability jobs. A FastAPI backend
(`Backend/app.py`) stores job descriptions with a sentence embedding per job.
`match_jobs` does the following:

- Translates the user's skill phrases to English.
- Averages their embeddings into one query vector.
- Scores every stored job by cosine similarity.
- Returns the five best jobs and a list of course suggestions.

A React page (`Frontend/src/pages/JobSearch.jsx`) handles the user's side:

- It collects the skills and sends them, dropping blank entries.
- It turns the answer into cards, reading a score and a skill list out of the text.
- When the request fails, it filters a built-in list of six featured jobs by location and salary bucket.

This project models that core as pure functions over immutable data and
proves what the code promises about it. The machine learning models, the
translator and the square root are parameters:

- **Sentence embedding.** `Embedder`: text to float32 bit patterns.
- **Float32 reading.** `f32`: a bit pattern to its real value.
- **Translator.** `Translator`: returns `None` where it raises.
- **Square root.** `sqrt`: any function with the properties of a square root (`Vectors.IsSqrt`).

## Modules

| file | module | models |
|---|---|---|
| wrappers.dfy | `Wrappers` | `Option` and `Result` for the error paths |
| text.dfy | `Text` | digits and `parseInt`, ASCII `toLowerCase`, `includes`, JavaScript `trim` |
| seqs.dfy | `Seqs` | `filter` and `slice(0, n)` / `[:n]`, and what they keep |
| vectors.dfy | `Vectors` | dot product, norm, and the mean of the phrase vectors |
| codec.dfy | `Codec` | `tobytes` / `np.frombuffer` for float32 vectors, little-endian |
| translation.dfy | `Translation` | `SUPPORTED_LANGUAGES` and the guard of `translate_text` |
| records.dfy | `Records` | table rows, scored matches, suggestions, the response |
| ranking.dfy | `Ranking` | `matches.sort(key=similarity, reverse=True)`, which is stable |
| ingestion.dfy | `Ingestion` | `add_job` and `regenerate_embeddings` |
| matching.dfy | `Matching` | `match_jobs` |
| jobsearch.dfy | `JobSearch` | the page's helpers, the skill list and the fallback filter |
| scenarios.dfy | `MatchingExamples` | worked examples of the pipeline on small inputs |

## Behaviour of the code worth knowing

- **A NULL blob aborts the request; the row is not skipped.** `np.frombuffer(None)` raises, and the handler only catches database errors. The same holds for a blob whose size is not a multiple of four, and for a vector whose length differs from the query's. The shape error is raised only when both norms are non-zero, because the zero-norm guard runs first. `Matching.RowSimilarity` returns these three errors; `MatchingExamples.NullEmbeddingFails` shows one of them.
- **The language guard never fires on `match_jobs` or `add_job`.** Both translate into English, and the caller's `lang` is passed as the source language. So the guard cannot reject those calls, and an unknown `lang` goes straight to the translator (`Translation.EnglishTargetPassesGuard`). Only `generate_narrative` passes a caller's code as the target.
- **The two embedding texts differ.** Jobs embedded by `add_job` use the text `"{title}: {desc}"`, translated. Jobs embedded by `regenerate_embeddings` use `"{title} {desc}"`, untranslated (`Ingestion.EmbeddingTextsDiffer`).
- **The page reads fields the backend does not send.** The page reads `sdg_impact`, `company`, `location` and `salary_range` from each match, but `match_jobs` returns only `id`, `job_title`, `description` and `similarity`. As a result:
  - `extractSDGScore(undefined)` throws for any non-empty answer.
  - The page then shows the filtered featured list, not the matches.
  - The model states each helper on its own. It does not model this cross-component path.

## Model

| member | source | states |
|---|---|---|
| `Translation.TranslateText` | Backend/app.py:150-156 | an unsupported target code is refused with that code; any result is the translator's answer for the language name the table gives; a supported code with a working translator always succeeds |
| `Translation.SupportedKeys` | Backend/app.py:87-99 | the language table's keys are exactly the eleven listed codes |
| `Translation.UnsupportedIgnoresTranslator` | Backend/app.py:152-153 | for an unsupported target the outcome is an error, whatever the translator would have answered |
| `Translation.EnglishTargetPassesGuard` | Backend/app.py:196 | translating into English is never refused by the guard, and yields the translator's answer whenever it gives one |
| `Codec.Decode` | Backend/app.py:213 | reading a blob fails exactly when its size is not a multiple of four, and reports that size; otherwise it gives one word per four bytes |
| `Codec.Encode` | Backend/app.py:180 | writing a vector gives exactly four bytes per word |
| `Codec.EncodeLayout` | Backend/app.py:180 | word i of the vector occupies bytes 4i to 4i+3 of the blob, least significant byte first |
| `Codec.DecodeEncode` | Backend/app.py:180 | reading back a written float32 vector gives the same vector |
| `Codec.EncodeDecode` | Backend/app.py:213 | writing back a readable blob gives the same bytes |
| `Vectors.Mean` | Backend/app.py:197 | the query vector has the phrases' dimension, and each component times the number of phrases is that column's sum |
| `Vectors.MeanOfCopies` | Backend/app.py:197 | the mean of k copies of one vector is that vector, so a single phrase repeated k times gives that phrase's vector |
| `Vectors.NormZeroIff` | Backend/app.py:216-218 | a norm is zero exactly when every component is zero |
| `Matching.Similarity` | Backend/app.py:216-221 | a zero-norm side gives 0.0; otherwise the result exists exactly when the lengths agree, and the result times the product of the norms equals the dot product |
| `Matching.GuardIsZeroVector` | Backend/app.py:218-219 | the zero-norm guard fires exactly when one side is the zero vector |
| `Matching.ZeroVectorScoresZero` | Backend/app.py:218-219 | a zero query or job vector scores 0.0 against anything, even one of another length |
| `Matching.RowSimilarity` | Backend/app.py:212-221 | a row fails for a NULL blob, then for a bad blob size, then for a length mismatch behind non-zero norms; otherwise it scores the stored vector |
| `Matching.ScoreRows` | Backend/app.py:211-228 | scoring succeeds exactly when every row scores; each entry carries its row's id, title, description and score, in table order; a failure is the first failing row's error |
| `Ranking.SortBySimilarity` | Backend/app.py:229 | the ranking is a permutation of the scored rows in descending order of similarity |
| `Ranking.SortIsStable` | Backend/app.py:229 | rows with equal similarity keep their table order |
| `Ranking.SortIsTheStableDescendingOrder` | Backend/app.py:229 | any arrangement that is descending, a permutation and stable is the ranking itself |
| `Matching.MatchJobs` | Backend/app.py:200-241 | an empty table gives no matches and the starter suggestions; otherwise the call fails exactly when scoring fails; on success the matches are the first min(n, 5) entries of the stable descending ranking, and the weak-match suggestions are sent exactly when every score is below 0.8 |
| `Matching.SuggestionsFollowTopScore` | Backend/app.py:234-241 | with jobs present, the weak-match list is sent exactly when the best returned score is below 0.8, and nothing otherwise |
| `Matching.NoStrongerRowDropped` | Backend/app.py:229-241 | a row scoring above the weakest returned match is returned, and with at most five rows every row is |
| `Matching.MatchesComeFromRows` | Backend/app.py:223-228 | every returned match is the scored form of a fetched row |
| `Matching.TranslateSkills` | Backend/app.py:196 | the skills are translated into English in order; the list exists exactly when every translation succeeds, and a failure is the first failing skill's |
| `Matching.MatchRequest` | Backend/app.py:195-197 | a translation failure ends the request; otherwise the model's vectors of the translations have one dimension and the outcome is that of matching them |
| `Matching.RequestTranslationFailsOnlyInTranslator` | Backend/app.py:196 | a failed match request never fails on the language guard |
| `Matching.MatchAfterRegenerateSucceeds` | Backend/app.py:49-66 | after the maintenance pass, matching succeeds whenever the model gives the jobs the query's dimension |
| `Ingestion.IngestText` | Backend/app.py:179 | the `add_job` embedding text is the title, ": " and the description, each readable back at its place |
| `Ingestion.ReembedText` | Backend/app.py:61 | the `regenerate_embeddings` embedding text is the title, one space and the description, each readable back at its place |
| `Ingestion.EmbeddingTextsDiffer` | Backend/app.py:179 | the `add_job` text is one character longer than the maintenance-pass text and differs from it right after the title |
| `Ingestion.AddJob` | Backend/app.py:175-187 | the job is stored exactly when both translations succeed; it keeps the caller's title and description; its blob reads back as the embedding of the translated "title: description" |
| `Ingestion.RegenerateEmbeddings` | Backend/app.py:49-66 | every row keeps its id and text and gets a blob that reads back as the embedding of "title description" |
| `Ingestion.RegenerateIdempotent` | Backend/app.py:49-66 | running the maintenance pass twice gives the same table as running it once |
| `Ingestion.RegenerateChangesEmbeddedText` | Backend/app.py:61-62 | after the pass, a job added with an English translation holds the embedding of its space-joined text |
| `MatchingExamples.AlignedQuery` | Backend/app.py:194-241 | on two unit-vector jobs, a query aligned with the first ranks it first with 1.0 and sends no suggestions |
| `MatchingExamples.OrthogonalQuery` | Backend/app.py:229-240 | a query orthogonal to both jobs keeps their table order in the tie and sends the weak-match suggestions |
| `MatchingExamples.NullEmbeddingFails` | Backend/app.py:213 | a table whose only row has no blob makes the request fail, not return an empty list |
| `MatchingExamples.DuplicatePhraseWeighs` | Backend/app.py:197 | a phrase given twice pulls the query vector towards itself |
| `JobSearch.LongestAt` | Frontend/src/pages/JobSearch.jsx:183 | the pattern matches at a position exactly when the result exists, and the result is the longest match there |
| `JobSearch.FindScore` | Frontend/src/pages/JobSearch.jsx:183 | the search finds the leftmost position where digits-slash-digits occurs and the longest match there, or reports that none occurs |
| `JobSearch.ExtractSDGScore` | Frontend/src/pages/JobSearch.jsx:182-185 | the score is the leftmost, longest digits/digits text, or "8/10" when there is none; either way it has that shape |
| `JobSearch.ExtractSkills` | Frontend/src/pages/JobSearch.jsx:188-193 | at most three skills, in list order, each one mentioned in the description regardless of ASCII case |
| `JobSearch.SkillsAreFirstMentions` | Frontend/src/pages/JobSearch.jsx:190-192 | the result is the first mentions: it equals, in list order, the mentioned skills of a prefix of the list that is either the whole list or yields three, every skill shown lies in that prefix, and within it none mentioned is skipped |
| `JobSearch.FirstNumber` | Frontend/src/pages/JobSearch.jsx:195 | there is no number exactly when there is no digit; otherwise it is the value of the leftmost run of digits |
| `JobSearch.CheckSalaryMatch` | Frontend/src/pages/JobSearch.jsx:194-201 | the check throws exactly when the salary has no digit; otherwise it holds exactly when the first number lies in the bucket's inclusive bounds, and any other range accepts |
| `JobSearch.BucketsCoverAllSalaries` | Frontend/src/pages/JobSearch.jsx:196-199 | every salary lies in some offered bucket |
| `JobSearch.BucketsOverlapAtBoundaries` | Frontend/src/pages/JobSearch.jsx:196-199 | a salary lies in two offered buckets exactly when it is 10, 15 or 20 |
| `JobSearch.AddSkill` | Frontend/src/pages/JobSearch.jsx:221-223 | the list grows by one empty entry at the end and is otherwise unchanged |
| `JobSearch.UpdateSkill` | Frontend/src/pages/JobSearch.jsx:225-229 | only the entry at the index changes, to the new value |
| `JobSearch.WithoutIndex` | Frontend/src/pages/JobSearch.jsx:233 | filtering out one position removes exactly that entry when it exists, and nothing otherwise |
| `JobSearch.RemoveSkill` | Frontend/src/pages/JobSearch.jsx:231-235 | the only remaining entry is never removed; otherwise the entry at the index goes and later entries shift down |
| `JobSearch.RemoveUndoesAdd` | Frontend/src/pages/JobSearch.jsx:221-235 | removing the entry just added gives the previous list |
| `JobSearch.UpdateRestores` | Frontend/src/pages/JobSearch.jsx:225-229 | writing back the old value undoes an update |
| `JobSearch.EditsKeepAnEntry` | Frontend/src/pages/JobSearch.jsx:221-235 | no edit empties a non-empty skill list |
| `JobSearch.ReplayKeepsAnEntry` | Frontend/src/pages/JobSearch.jsx:221-235 | any run of add, update and remove edits on a non-empty list leaves at least one entry |
| `JobSearch.SessionKeepsAnEntry` | Frontend/src/pages/JobSearch.jsx:6 | starting from the page's initial list `['Python']`, no run of edits empties the skill list |
| `JobSearch.RequestSkills` | Frontend/src/pages/JobSearch.jsx:127 | the request holds, in order, exactly the entries with a character that is not white space, each as often as in the list |
| `JobSearch.KeepJob` | Frontend/src/pages/JobSearch.jsx:168-173 | the callback throws exactly when a range is set and the salary has no digit; otherwise it keeps a card exactly when the location and salary tests pass |
| `JobSearch.FallbackJobs` | Frontend/src/pages/JobSearch.jsx:168-173 | the fallback throws exactly when a range is set and some card's salary has no digit |
| `JobSearch.FallbackSelects` | Frontend/src/pages/JobSearch.jsx:168-173 | the fallback shows, in order, every card passing the location and salary tests and no other, each as many times as it occurs among the cards |
| `JobSearch.ExperienceIgnored` | Frontend/src/pages/JobSearch.jsx:171 | the experience filter never changes the fallback |
| `JobSearch.FeaturedFallbackSucceeds` | Frontend/src/pages/JobSearch.jsx:22-101 | the fallback over the featured cards never throws |
| `JobSearch.FeaturedSalaryFloors` | Frontend/src/pages/JobSearch.jsx:22-101 | the featured salaries start at 12, 10, 14, 15, 11 and 12 lakh |
| `JobSearch.TopBucketShowsNothing` | Frontend/src/pages/JobSearch.jsx:199 | with the "20+" bucket the fallback shows no featured card |
| `JobSearch.LowestBucketKeepsBoundary` | Frontend/src/pages/JobSearch.jsx:196 | with the "0-10" bucket the fallback shows only the card starting at exactly 10 lakh |
| `Text.ParseShowNat` | Frontend/src/pages/JobSearch.jsx:195 | reading the decimal digits of a number gives the number back |
| `Text.Includes` | Frontend/src/pages/JobSearch.jsx:191 | `includes` holds exactly when the needle occurs at some position |
| `Text.TrimEmptyIffBlank` | Frontend/src/pages/JobSearch.jsx:127 | trimming gives the empty string exactly when every character is white space |
| `Seqs.FilterSpec` | Frontend/src/pages/JobSearch.jsx:190 | a filter keeps, in order, every occurrence of the values that pass and nothing else |
| `Seqs.TakeFilterIsFilterOfPrefix` | Frontend/src/pages/JobSearch.jsx:190-192 | the first n matches of a filter are the matches within a prefix of the input that is either the whole input or yields n |
| `Seqs.FirstMatches` | Frontend/src/pages/JobSearch.jsx:190-192 | the first n matches are the matches of a prefix that is the whole input or yields n; each lies in that prefix, and every matching element of the prefix is among them |

## Left out

- **The database.** Left out: connections, SQL, `init_db`, commits, row ids, and the HTTP 500 raised for MariaDB errors. The table is a sequence of rows passed in, and `add_job` is modelled up to the inserted values.
- **The sentence-embedding and GPT-2 models, the Google translator, and `np.sqrt`.** These are parameters.
- **The WebSocket endpoint, `ConnectionManager` and the broadcast in `match_jobs`.** Left out, including the broadcast's failure path: the `await manager.broadcast(...)` runs inside the `try` whose `except` catches only database errors, so a send to a dropped connection turns a successful match into an error response that the model does not produce.
- **`generate_narrative` and `add_skill`.** They are outside the matching path; `skills_vectors` is never read by it.
- **Float32 arithmetic.** Vectors are exact reals read from float32 words. Two consequences:
  - The cosine bound of [-1, 1] is not stated, because it needs the Cauchy–Schwarz inequality over an abstract square root.
  - With an empty skill list, numpy's mean is NaN; `Matching.MatchJobs` requires at least one phrase instead.
- **`Vectors.Mean`.** It is the exact mean. numpy's float32 accumulation and the final `astype(np.float32)` rounding are not modelled.
- **`Matching.Similarity`.** It is characterised by `score * (|q| * |j|) == q · j` over reals, not by float32 division.
- **`Matching.MatchRequest`.** It requires every embedding to have one dimension `dim`, as the model always gives.
- **Error reporting.** Both translation failures become one HTTP 500 in the source; the model keeps them apart.
- **`Translation.SupportedKeys`.** The eleven codes are stated by listing them; their count is not stated separately.
- **Case-insensitive matching on the page.** `toLowerCase` is modelled for ASCII letters only (`Text.LowerChar`); Unicode case mapping is left out.
- **`JobSearch.UpdateSkill`.** It requires an index inside the list, which is all the page ever passes. JavaScript would grow a sparse array for any other index.
- **The network side of `handleSearch`.** Left out: `fetch`, the token check, the 401 redirect, and the `Math.round` percentage. The cross-component observation above is stated in prose only.
- **Other page behaviour.** Left out: the state hooks, `handleAutoDetectLocation`, `clearFilters`, and the rendering. `clearFilters` restoring `InitialSkills` is not modelled.
- **`JobSearch.ExtractSDGScore`.** It takes a string; the `undefined` the page actually passes, which throws, is not modelled.
- **The other React pages and the Streamlit front ends** (`frontend.py`). They are not part of this model.
