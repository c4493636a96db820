/** The rows and response entries of the matching service. */
module Records {
  import opened Wrappers

  /** A row of `jobs_vectors`: `id`, `job_title`, `job_description` and the
      `embedding` blob, which the schema allows to be NULL. */
  datatype JobRow = JobRow(id: int, title: string, description: string, embedding: Option<seq<bv8>>)

  /** One entry of `matches`: the row's id, title and description with its similarity. */
  datatype JobMatch = JobMatch(id: int, title: string, description: string, similarity: real)

  /** One entry of `suggestions`. */
  datatype Suggestion = Suggestion(skill: string, link: string)

  /** The body `match_jobs` returns. */
  datatype MatchResponse = MatchResponse(matches: seq<JobMatch>, suggestions: seq<Suggestion>)
}
