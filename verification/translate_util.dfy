/**
 The translation helper the add endpoint uses: a fresh translator with the default
 model mapping, asked to translate from the configured claim language into the base
 language, with every falsy result or raised error turned into `None`.
 */
module TranslationHandler {
  import opened Base
  import opened Translator

  /** The two configured languages. */
  datatype LanguageSettings = LanguageSettings(claimLanguage: string, baseLanguage: string)

  /**
   The normalisation of what `translate` gave: `None`, `""` and a raised error all give
   `None`; any other text, including the claim itself, is returned unchanged.
   */
  function NormaliseTranslation(result: Attempt<Option<string>>): (r: Option<string>)
    ensures r.Some? <==> result.Returned? && IsTruthy(result.value)
    ensures r.Some? ==> r == result.value && r.value != ""
  {
    match result
    case Raised => None
    case Returned(t) => if IsTruthy(t) then t else None
  }

  /**
   `handle_translation`: translate `claim` from the claim language to the base language
   with a translator built on the default mapping, `broken` being the models that fail
   to load and `run` what invoking a pipeline gives.
   */
  function HandleTranslation(claim: string, settings: LanguageSettings, broken: set<string>,
                             run: (Pipeline, string) -> Attempt<PyValue>): (r: Option<string>)
    ensures claim == "" ==> r == None
    ensures claim != "" && settings.claimLanguage == settings.baseLanguage ==> r == Some(claim)
    ensures (settings.claimLanguage != settings.baseLanguage &&
             (PairKey(settings.claimLanguage, settings.baseLanguage) !in DefaultModelMapping ||
              DefaultModelMapping[PairKey(settings.claimLanguage, settings.baseLanguage)] in broken)) ==> r == None
    ensures r.Some? ==> r.value != ""
    ensures r.Some? && settings.claimLanguage != settings.baseLanguage ==>
              r == Translate(LoadedPipelines(DefaultModelMapping, broken), claim,
                             settings.claimLanguage, settings.baseLanguage, run)
    ensures (settings.claimLanguage != settings.baseLanguage &&
             IsTruthy(Translate(LoadedPipelines(DefaultModelMapping, broken), claim,
                                settings.claimLanguage, settings.baseLanguage, run))) ==>
              r == Translate(LoadedPipelines(DefaultModelMapping, broken), claim,
                             settings.claimLanguage, settings.baseLanguage, run)
  {
    var pipelines := LoadedPipelines(EffectiveMapping(None), broken);
    NormaliseTranslation(Returned(Translate(pipelines, claim, settings.claimLanguage, settings.baseLanguage, run)))
  }

  /** With the shipped settings (ru to en), a failed model load leaves the claim untranslated. */
  lemma BrokenDefaultModelMeansNoTranslation(claim: string, run: (Pipeline, string) -> Attempt<PyValue>)
    ensures HandleTranslation(claim, LanguageSettings("ru", "en"), {"Helsinki-NLP/opus-mt-ru-en"}, run) == None
  {
    assert PairKey("ru", "en") == "ru-en";
  }
}
