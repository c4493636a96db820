/** The language guard of `translate_text`: a target code must be one of the
    keys of `SUPPORTED_LANGUAGES` before the external translator is asked. The
    translator itself is a parameter that may fail. */
module Translation {
  import opened Wrappers

  /** `SUPPORTED_LANGUAGES`: language code -> name handed to the translator. */
  const SupportedLanguages: map<string, string> := map[
    "en" := "english",
    "hi" := "hindi",
    "bn" := "bengali",
    "mr" := "marathi",
    "te" := "telugu",
    "ta" := "tamil",
    "gu" := "gujarati",
    "ur" := "urdu",
    "kn" := "kannada",
    "or" := "odia",
    "ml" := "malayalam"
  ]

  /** The eleven codes, as a set. */
  const SupportedCodes: set<string> := {"en", "hi", "bn", "mr", "te", "ta", "gu", "ur", "kn", "or", "ml"}

  /** Both failures become an HTTP 500 "Translation error" in the source; the
      model keeps them apart so the guard can be stated. */
  datatype TranslateError = UnsupportedLanguage(code: string) | TranslatorFailed

  /** The external translator: (text, source code, target language name) to
      the translated text, or `None` when it raises. */
  type Translator = (string, string, string) -> Option<string>

  /** `translate_text(text, target_lang, source_lang)`. */
  function TranslateText(text: string, target: string, source: string, translator: Translator)
    : (r: Result<string, TranslateError>)
    ensures target !in SupportedCodes ==> r == Err(UnsupportedLanguage(target))
    ensures r.Ok? ==> target in SupportedCodes && Some(r.value) == translator(text, source, SupportedLanguages[target])
    ensures target in SupportedCodes && translator(text, source, SupportedLanguages[target]).Some? ==> r.Ok?
  {
    SupportedKeys();
    if target !in SupportedLanguages then Err(UnsupportedLanguage(target))
    else match translator(text, source, SupportedLanguages[target])
      case Some(t) => Ok(t)
      case None => Err(TranslatorFailed)
  }

  /** `SUPPORTED_LANGUAGES` has exactly the eleven codes. */
  lemma SupportedKeys()
    ensures SupportedLanguages.Keys == SupportedCodes
  {
  }

  /** An unsupported target is refused whatever the translator would do:
      the translator is never consulted. */
  lemma UnsupportedIgnoresTranslator(text: string, target: string, source: string, t1: Translator, t2: Translator)
    requires target !in SupportedCodes
    ensures TranslateText(text, target, source, t1) == TranslateText(text, target, source, t2)
    ensures TranslateText(text, target, source, t1).Err?
  {
  }

  /** The ingestion and matching endpoints translate INTO English and pass the
      caller's `lang` as the source code, so the guard never rejects them: an
      unknown `lang` reaches the translator unchecked. */
  lemma EnglishTargetPassesGuard(text: string, source: string, translator: Translator)
    ensures TranslateText(text, "en", source, translator) != Err(UnsupportedLanguage("en"))
    ensures translator(text, source, "english").Some? ==>
              TranslateText(text, "en", source, translator) == Ok(translator(text, source, "english").value)
  {
  }
}
