/** How job embeddings get into `jobs_vectors`: `add_job` embeds the translated
    text `"{title}: {desc}"`, while the start-up maintenance pass
    `regenerate_embeddings` re-embeds the stored (untranslated) text as
    `"{title} {desc}"`. The embedding model is a parameter from text to
    float32 words. */
module Ingestion {
  import opened Wrappers
  import opened Records
  import Codec
  import opened Translation

  /** The embedding model: text to the bit patterns of its float32 components. */
  type Embedder = string -> seq<bv32>

  /** The text `add_job` hands to the model: the title, a colon and a space,
      then the description, each part readable back at its place. */
  function IngestText(title: string, description: string): (r: string)
    ensures |r| == |title| + 2 + |description|
    ensures r[..|title|] == title && r[|title|] == ':' && r[|title| + 1] == ' '
    ensures r[|title| + 2..] == description
  {
    title + ": " + description
  }

  /** The text `regenerate_embeddings` hands to the model: the title, one
      space, then the description, each part readable back at its place. */
  function ReembedText(title: string, description: string): (r: string)
    ensures |r| == |title| + 1 + |description|
    ensures r[..|title|] == title && r[|title|] == ' '
    ensures r[|title| + 1..] == description
  {
    title + " " + description
  }

  /** The two texts are never the same string: the ingestion text is one
      character longer, and they first differ right after the title, where one
      has ':' and the other ' '. A job's vector therefore depends on whether it
      was last written by `add_job` or by `regenerate_embeddings`. */
  lemma EmbeddingTextsDiffer(title: string, description: string)
    ensures |IngestText(title, description)| == |ReembedText(title, description)| + 1
    ensures IngestText(title, description)[|title|] == ':'
    ensures ReembedText(title, description)[|title|] == ' '
    ensures IngestText(title, description) != ReembedText(title, description)
  {
  }

  /** The request body of `/add_job`. */
  datatype JobInput = JobInput(title: string, description: string, lang: string)

  /** What `add_job` inserts: the caller's own title and description, and the
      blob of the embedding of the translated text. */
  datatype NewJob = NewJob(title: string, description: string, embedding: seq<bv8>)

  /** `add_job`, up to the INSERT: the row id comes from the database. */
  function AddJob(job: JobInput, translator: Translator, embed: Embedder): (r: Result<NewJob, TranslateError>)
    ensures r.Ok? <==> TranslateText(job.title, "en", job.lang, translator).Ok?
                       && TranslateText(job.description, "en", job.lang, translator).Ok?
    ensures r.Ok? ==> r.value.title == job.title && r.value.description == job.description
    ensures r.Ok? ==>
              var t := TranslateText(job.title, "en", job.lang, translator).value;
              var d := TranslateText(job.description, "en", job.lang, translator).value;
              Codec.Decode(r.value.embedding) == Ok(embed(IngestText(t, d)))
  {
    var t :- TranslateText(job.title, "en", job.lang, translator);
    var d :- TranslateText(job.description, "en", job.lang, translator);
    var blob := Codec.Encode(embed(IngestText(t, d)));
    Codec.DecodeEncode(embed(IngestText(t, d)));
    Ok(NewJob(job.title, job.description, blob))
  }

  /** `regenerate_embeddings`: every row keeps its id, title and description and
      gets the blob of the embedding of its stored text. */
  function RegenerateEmbeddings(rows: seq<JobRow>, embed: Embedder): (r: seq<JobRow>)
    ensures |r| == |rows|
    ensures forall i :: 0 <= i < |rows| ==>
              && r[i].id == rows[i].id
              && r[i].title == rows[i].title
              && r[i].description == rows[i].description
              && r[i].embedding.Some?
              && Codec.Decode(r[i].embedding.value) == Ok(embed(ReembedText(rows[i].title, rows[i].description)))
  {
    seq(|rows|, i requires 0 <= i < |rows| => RegenerateRow(rows[i], embed))
  }

  /** The UPDATE of one row by the maintenance pass. */
  function RegenerateRow(row: JobRow, embed: Embedder): (r: JobRow)
    ensures r.id == row.id && r.title == row.title && r.description == row.description
    ensures r.embedding.Some?
    ensures Codec.Decode(r.embedding.value) == Ok(embed(ReembedText(row.title, row.description)))
  {
    var words := embed(ReembedText(row.title, row.description));
    Codec.DecodeEncode(words);
    row.(embedding := Some(Codec.Encode(words)))
  }

  /** Running the maintenance pass twice is the same as running it once. */
  lemma RegenerateIdempotent(rows: seq<JobRow>, embed: Embedder)
    ensures RegenerateEmbeddings(RegenerateEmbeddings(rows, embed), embed) == RegenerateEmbeddings(rows, embed)
  {
  }

  /** A job added in English with an identity translation is stored with the
      embedding of `"{title}: {desc}"`; after the maintenance pass the same row
      holds the embedding of `"{title} {desc}"` instead. */
  lemma RegenerateChangesEmbeddedText(job: JobInput, id: int, embed: Embedder, translator: Translator)
    requires forall text, source, target :: translator(text, source, target) == Some(text)
    ensures AddJob(job, translator, embed).Ok?
    ensures var added := AddJob(job, translator, embed).value;
            var row := JobRow(id, added.title, added.description, Some(added.embedding));
            var after := RegenerateEmbeddings([row], embed)[0];
            && Codec.Decode(added.embedding) == Ok(embed(IngestText(job.title, job.description)))
            && Codec.Decode(after.embedding.value) == Ok(embed(ReembedText(job.title, job.description)))
            && IngestText(job.title, job.description) != ReembedText(job.title, job.description)
  {
    EmbeddingTextsDiffer(job.title, job.description);
  }
}
