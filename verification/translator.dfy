/**
 The translator: one translation pipeline per configured language pair, loaded eagerly
 with per-pair failure isolation, and `translate`, which checks the pipeline's output
 shape and turns every failure into `None`.

 A pipeline is identified by the model it was built from; invoking it on a text is a
 parameter (`run`) that yields the pipeline's raw output or raises.
 */
module Translator {
  import opened Base

  datatype Pipeline = Pipeline(modelName: string)

  /** Language-pair key ("ru-en") to model identifier. */
  type ModelMapping = map<string, string>

  const DefaultModelMapping: ModelMapping := map["ru-en" := "Helsinki-NLP/opus-mt-ru-en"]

  /** The constructor's mapping argument: `None` and an empty mapping both fall back to the default. */
  function EffectiveMapping(mapping: Option<ModelMapping>): (r: ModelMapping)
    ensures mapping.None? || mapping.value == map[] ==> r == DefaultModelMapping
    ensures mapping.Some? && mapping.value != map[] ==> r == mapping.value
    ensures "ru-en" in DefaultModelMapping && r != map[]
  {
    if mapping.Some? && mapping.value != map[] then mapping.value else DefaultModelMapping
  }

  /** The pipeline a pair ends up with: `None` when its model (a member of `broken`) fails to load. */
  function PipelineFor(model: string, broken: set<string>): Option<Pipeline> {
    if model in broken then None else Some(Pipeline(model))
  }

  /** Reference definition of the loaded pipelines: every pair on its own. */
  function LoadedPipelines(mapping: ModelMapping, broken: set<string>): map<string, Option<Pipeline>> {
    map pair | pair in mapping :: PipelineFor(mapping[pair], broken)
  }

  /**
   `_load_models`: every pair of the mapping gets an entry; a pair whose model fails to
   load is recorded as `None` and loading carries on with the remaining pairs.
   */
  method LoadModels(mapping: ModelMapping, broken: set<string>) returns (pipelines: map<string, Option<Pipeline>>)
    ensures pipelines.Keys == mapping.Keys
    ensures forall pair :: pair in mapping && mapping[pair] !in broken ==>
              pipelines[pair] == Some(Pipeline(mapping[pair]))
    ensures forall pair :: pair in mapping && mapping[pair] in broken ==> pipelines[pair] == None
    ensures pipelines == LoadedPipelines(mapping, broken)
  {
    pipelines := map[];
    var pending := mapping.Keys;
    while pending != {}
      invariant pending <= mapping.Keys
      invariant pipelines.Keys == mapping.Keys - pending
      invariant forall pair :: pair in pipelines ==> pipelines[pair] == PipelineFor(mapping[pair], broken)
      decreases pending
    {
      var pair :| pair in pending;
      var model := mapping[pair];
      if model in broken {
        pipelines := pipelines[pair := None];
      } else {
        pipelines := pipelines[pair := Some(Pipeline(model))];
      }
      pending := pending - {pair};
    }
  }

  /**
   The shape check of a pipeline's output: a non-empty list whose first item is a dict
   whose `translation_text` is a string. Anything else gives `None`.
   */
  function ExtractTranslation(output: PyValue): (r: Option<string>)
    ensures r.Some? <==>
              && output.PyList?
              && |output.items| > 0
              && output.items[0].PyDict?
              && DictGet(output.items[0].fields, "translation_text").PyStr?
    ensures r.Some? ==> output.items[0].fields["translation_text"] == PyStr(r.value)
  {
    if output.PyList? && |output.items| > 0 && output.items[0].PyDict? then
      match DictGet(output.items[0].fields, "translation_text")
      case PyStr(text) => Some(text)
      case _ => None
    else None
  }

  /** A pipeline's usual answer, whatever follows the first item, yields its text. */
  lemma ExtractTranslationRoundTrip(text: string, extra: map<string, PyValue>, rest: seq<PyValue>)
    ensures ExtractTranslation(PyList([PyDict(extra["translation_text" := PyStr(text)])] + rest)) == Some(text)
  {
  }

  /** Whether `key` maps to a loaded pipeline (a missing key and a failed load are alike). */
  predicate Loaded(pipelines: map<string, Option<Pipeline>>, key: string) {
    key in pipelines && pipelines[key].Some?
  }

  function PairKey(source: string, target: string): string {
    source + "-" + target
  }

  /**
   `translate`: empty input and same-language input come back unchanged; otherwise the
   pair's pipeline is looked up, and a missing or unloaded pipeline, an ill-shaped output
   or a raised error all give `None`.
   */
  function Translate(pipelines: map<string, Option<Pipeline>>, query: string, source: string, target: string,
                     run: (Pipeline, string) -> Attempt<PyValue>): (r: Option<string>)
    ensures query == "" ==> r == Some("")
    ensures query != "" && source == target ==> r == Some(query)
    ensures query != "" && source != target && !Loaded(pipelines, PairKey(source, target)) ==> r == None
    ensures (query != "" && source != target && Loaded(pipelines, PairKey(source, target)) &&
             run(pipelines[PairKey(source, target)].value, query).Raised?) ==> r == None
    ensures query != "" && source != target && r.Some? ==>
              var pipeline := pipelines[PairKey(source, target)].value;
              && run(pipeline, query).Returned?
              && ExtractTranslation(run(pipeline, query).value) == r
    ensures (query != "" && source != target && Loaded(pipelines, PairKey(source, target)) &&
             run(pipelines[PairKey(source, target)].value, query).Returned?) ==>
              r == ExtractTranslation(run(pipelines[PairKey(source, target)].value, query).value)
  {
    if query == "" then Some(query)
    else if source == target then Some(query)
    else
      var key := PairKey(source, target);
      if !Loaded(pipelines, key) then None
      else
        match run(pipelines[key].value, query)
        case Raised => None
        case Returned(output) => ExtractTranslation(output)
  }

  /** Same-language translation never looks at the pipelines nor invokes one. */
  lemma SameLanguageIgnoresPipelines(query: string, lang: string,
                                     p1: map<string, Option<Pipeline>>, run1: (Pipeline, string) -> Attempt<PyValue>,
                                     p2: map<string, Option<Pipeline>>, run2: (Pipeline, string) -> Attempt<PyValue>)
    ensures Translate(p1, query, lang, lang, run1) == Translate(p2, query, lang, lang, run2) == Some(query)
  {
  }
}
