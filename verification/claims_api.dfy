/**
 The claim endpoints: `rank_claim`, which runs the enrichment pipeline (translation
 check, sentiment, two-stage categorisation, persistence, response), and the listing of
 the open claims of the last hour grouped by category.

 Each request is a sequential function of its inputs: the external services are the
 fields of `Environment`, each a function from the text sent to the outcome received.
 */
module ClaimsApi {
  import opened Base
  import opened Schemas
  import Categorizer
  import Text
  import Translator
  import SentimentClient
  import TranslationHandler
  import opened ClaimStore

  predicate IsCyrillic(c: char) {
    0x400 <= c as int <= 0x4FF
  }

  /** `re.search("[\u0400-\u04ff]", claim)`: some character lies in the Cyrillic block. */
  predicate ContainsCyrillic(s: string)
    decreases |s|
  {
    s != [] && (IsCyrillic(s[0]) || ContainsCyrillic(s[1..]))
  }

  /**
   The text the later stages work on: the translation when it is non-empty and differs
   from the claim, the claim otherwise.
   */
  function WorkingText(claim: string, translated: Option<string>): (r: string)
    ensures r != claim ==> translated == Some(r) && r != ""
    ensures IsTruthy(translated) && translated.value != claim ==> r == translated.value
    ensures !IsTruthy(translated) ==> r == claim
  {
    if IsTruthy(translated) && translated.value != claim then translated.value else claim
  }

  /** The keyword sets of the default keyword map. */
  datatype Keywords = Keywords(payment: set<string>, service: set<string>, account: set<string>)

  /** The module-level categorizer: default keyword map and default AI categories. */
  function DefaultCategorizer(k: Keywords): Categorizer.CategorizerConfig {
    Categorizer.CategorizerConfig(
      Categorizer.DefaultKeywordMap(k.payment, k.service, k.account),
      Categorizer.DefaultAiCategories)
  }

  /** Configuration and the outcomes of everything outside the process, for one request. */
  datatype Environment = Environment(
    settings: TranslationHandler.LanguageSettings,
    keywords: Keywords,
    brokenModels: set<string>,
    runPipeline: (Translator.Pipeline, string) -> Attempt<PyValue>,
    sentimentService: string -> Attempt<PyValue>,
    ollama: string -> Categorizer.AiReply,
    write: WriteOutcome,
    now: int)

  /** What translation yields for a claim: nothing unless the claim contains Cyrillic. */
  function TranslationOf(claim: string, env: Environment): (r: Option<string>)
    ensures !ContainsCyrillic(claim) ==> r == None
    ensures ContainsCyrillic(claim) ==>
              r == TranslationHandler.HandleTranslation(claim, env.settings, env.brokenModels, env.runPipeline)
  {
    if ContainsCyrillic(claim) then
      TranslationHandler.HandleTranslation(claim, env.settings, env.brokenModels, env.runPipeline)
    else None
  }

  function WorkingTextOf(claim: string, env: Environment): string {
    WorkingText(claim, TranslationOf(claim, env))
  }

  function SentimentOf(claim: string, env: Environment): (string, Option<string>) {
    SentimentClient.AnalyzeSentiment(env.sentimentService(WorkingTextOf(claim, env)))
  }

  function CategoryOf(claim: string, env: Environment): Attempt<string> {
    Categorizer.Categorize(WorkingTextOf(claim, env), DefaultCategorizer(env.keywords), env.ollama)
  }

  /** The row `rank_claim` stores when the insert commits. */
  predicate StoredAsRanked(record: ClaimRecord, claim: string, env: Environment) {
    && record.text == claim
    && record.translation == StoredTranslation(TranslationOf(claim, env))
    && record.status == "open"
    && record.timestamp == env.now
    && record.sentiment == SentimentOf(claim, env).0
    && CategoryOf(claim, env) == Returned(record.category)
  }

  /**
   The part of `rank_claim` after the three services have answered: store the row, then
   build the response from it. A raised categorizer error or a failed insert is a 500
   with nothing stored; a response that fails validation is a 500 with the row kept.
   */
  function Persist(claim: string, translated: Option<string>, analysis: (string, Option<string>),
                   category: Attempt<string>, write: WriteOutcome, now: int, store: Store): (r: (Response<ClaimRank>, Store))
    ensures r.0.Ok? || r.0.status == InternalServerError
    ensures r.1 == store <==> category.Raised? || write.StorageError?
    ensures r.1 != store ==>
              && |r.1| == |store| + 1
              && r.1[..|store|] == store
              && (forall i :: 0 <= i < |store| ==> store[i].id != r.1[|store|].id)
              && r.1[|store|] == ClaimRecord(r.1[|store|].id, claim, StoredTranslation(translated), "open",
                                             now, analysis.0, category.value)
    ensures r.0.Ok? <==> r.1 != store && analysis.0 in SentimentValues && category.value in CategoryValues
    ensures r.0.Ok? ==>
              && r.0.value.id == r.1[|store|].id
              && r.0.value.status == Open
              && SentimentValue(r.0.value.sentiment) == analysis.0
              && CategoryValue(r.0.value.category) == category.value
              && r.0.value.warning == analysis.1
  {
    match category
    case Raised => (HttpError(InternalServerError), store)
    case Returned(c) =>
      var (stored, newId) := AddClaim(store, claim, translated, "open", analysis.0, c, now, write);
      if newId.None? then (HttpError(InternalServerError), stored)
      else
        assert stored != store by { assert |stored| != |store|; }
        match ValidateClaimRank(newId.value, analysis.0, Some("open"), c, analysis.1)
        case None => (HttpError(InternalServerError), stored)
        case Some(rank) =>
          assert RankStatusValue(rank.status) == "open";
          (Ok(rank), stored)
  }

  /**
   `rank_claim`: answers the response and the table afterwards. An empty claim is a 400
   with nothing stored; an error of the categorizer or the store is a 500. Otherwise one
   row is appended, and the response is built from it, which fails (a 500 with the row
   kept) when its sentiment or category is not an enumeration value.
   */
  function RankClaim(claim: string, env: Environment, store: Store): (r: (Response<ClaimRank>, Store))
    ensures claim == "" ==> r == (HttpError(BadRequest), store)
    ensures claim != "" ==> r.0.Ok? || r.0.status == InternalServerError
    ensures r.1 == store <==> claim == "" || CategoryOf(claim, env).Raised? || env.write.StorageError?
    ensures r.1 != store ==>
              && |r.1| == |store| + 1
              && r.1[..|store|] == store
              && (forall i :: 0 <= i < |store| ==> store[i].id != r.1[|store|].id)
              && StoredAsRanked(r.1[|store|], claim, env)
    ensures r.0.Ok? <==> r.1 != store && r.1[|store|].sentiment in SentimentValues && r.1[|store|].category in CategoryValues
    ensures r.0.Ok? ==>
              && r.0.value.id == r.1[|store|].id
              && r.0.value.status == Open
              && SentimentValue(r.0.value.sentiment) == r.1[|store|].sentiment
              && CategoryValue(r.0.value.category) == r.1[|store|].category
              && r.0.value.warning == SentimentOf(claim, env).1
  {
    if claim == "" then (HttpError(BadRequest), store)
    else Persist(claim, TranslationOf(claim, env), SentimentOf(claim, env), CategoryOf(claim, env), env.write, env.now, store)
  }

  /** `rank_claim` depends on the environment only through what the three services yield, the store outcome and the clock. */
  lemma SameServicesSameRank(claim: string, env: Environment, other: Environment, store: Store)
    requires TranslationOf(claim, env) == TranslationOf(claim, other)
    requires SentimentOf(claim, env) == SentimentOf(claim, other)
    requires CategoryOf(claim, env) == CategoryOf(claim, other)
    requires env.write == other.write && env.now == other.now
    ensures RankClaim(claim, env, store) == RankClaim(claim, other, store)
  {
    if claim != "" {
      calc {
        RankClaim(claim, env, store);
        Persist(claim, TranslationOf(claim, env), SentimentOf(claim, env), CategoryOf(claim, env),
                env.write, env.now, store);
        RankClaim(claim, other, store);
      }
    }
  }

  /** A claim without Cyrillic never reaches the translator: the models and pipelines do not matter. */
  lemma NoCyrillicSkipsTranslator(claim: string, env: Environment, store: Store,
                                  broken: set<string>, run: (Translator.Pipeline, string) -> Attempt<PyValue>)
    requires !ContainsCyrillic(claim)
    ensures RankClaim(claim, env, store) == RankClaim(claim, env.(brokenModels := broken, runPipeline := run), store)
  {
    var other := env.(brokenModels := broken, runPipeline := run);
    assert TranslationOf(claim, other) == None == TranslationOf(claim, env);
    assert WorkingTextOf(claim, other) == claim == WorkingTextOf(claim, env);
    SameServicesSameRank(claim, env, other, store);
  }

  /** A claim without Cyrillic is stored with the "Not translated" marker. */
  lemma NoCyrillicNotTranslated(claim: string, env: Environment, store: Store)
    requires !ContainsCyrillic(claim)
    ensures RankClaim(claim, env, store).1 != store ==> RankClaim(claim, env, store).1[|store|].translation == NotTranslated
  {
  }

  /**
   A Cyrillic claim that translates to a different text is analysed and categorised on
   the translation, and stored as written together with its translation.
   */
  lemma TranslatedClaimUsesTranslation(claim: string, env: Environment, store: Store)
    requires ContainsCyrillic(claim)
    requires var t := TranslationHandler.HandleTranslation(claim, env.settings, env.brokenModels, env.runPipeline);
             IsTruthy(t) && t.value != claim
    ensures var t := TranslationHandler.HandleTranslation(claim, env.settings, env.brokenModels, env.runPipeline);
            && WorkingTextOf(claim, env) == t.value
            && SentimentOf(claim, env) == SentimentClient.AnalyzeSentiment(env.sentimentService(t.value))
            && CategoryOf(claim, env) == Categorizer.Categorize(t.value, DefaultCategorizer(env.keywords), env.ollama)
            && (RankClaim(claim, env, store).1 != store ==>
                  && RankClaim(claim, env, store).1[|store|].text == claim
                  && RankClaim(claim, env, store).1[|store|].translation == t.value)
  {
  }

  /** The chat-completion service affects `rank_claim` only through the category it leads to. */
  lemma AiOnlyThroughCategory(claim: string, env: Environment, store: Store, ask: string -> Categorizer.AiReply)
    requires CategoryOf(claim, env.(ollama := ask)) == CategoryOf(claim, env)
    ensures RankClaim(claim, env, store) == RankClaim(claim, env.(ollama := ask), store)
  {
    var other := env.(ollama := ask);
    assert TranslationOf(claim, other) == TranslationOf(claim, env);
    assert SentimentOf(claim, other) == SentimentOf(claim, env);
    SameServicesSameRank(claim, env, other, store);
  }

  /**
   A claim whose working text carries a keyword is categorised without the chat-completion
   service: whatever it would reply, the category (and so, by `AiOnlyThroughCategory`,
   the whole request) is the same.
   */
  lemma KeywordClaimSkipsAi(claim: string, env: Environment, ask: string -> Categorizer.AiReply)
    requires !Categorizer.NoKeywordMatch(DefaultCategorizer(env.keywords).keywordMap,
                                         Categorizer.Preprocess(WorkingTextOf(claim, env)))
    ensures CategoryOf(claim, env.(ollama := ask)) == CategoryOf(claim, env)
    ensures CategoryOf(claim, env).Returned?
  {
    var other := env.(ollama := ask);
    assert WorkingTextOf(claim, other) == WorkingTextOf(claim, env);
    Categorizer.KeywordMatchSkipsAi(WorkingTextOf(claim, env), DefaultCategorizer(env.keywords), env.ollama, ask);
  }

  /** A claim without Cyrillic that carries a PAYMENT keyword is categorised PAYMENT by the keyword stage. */
  lemma PaymentKeywordWins(claim: string, env: Environment)
    requires !ContainsCyrillic(claim)
    requires !(env.keywords.payment !! Categorizer.Preprocess(claim))
    ensures WorkingTextOf(claim, env) == claim
    ensures CategoryOf(claim, env) == Returned("PAYMENT")
  {
    var k := env.keywords;
    assert WorkingTextOf(claim, env) == claim;
    Categorizer.DefaultOrderWins(k.payment, k.service, k.account, Categorizer.Preprocess(claim));
  }

  /**
   A claim without Cyrillic in which a PAYMENT keyword occurs as a word (in any casing,
   set off by spaces) is categorised PAYMENT by the keyword stage.
   */
  lemma PaymentWordWins(pre: string, w: string, post: string, env: Environment)
    requires |w| > 0 && forall i :: 0 <= i < |w| ==> Text.IsWordChar(w[i])
    requires Text.Lower(w) in env.keywords.payment
    requires !ContainsCyrillic(pre + " " + w + " " + post)
    ensures CategoryOf(pre + " " + w + " " + post, env) == Returned("PAYMENT")
  {
    Categorizer.WordIsToken(pre, w, post);
    PaymentKeywordWins(pre + " " + w + " " + post, env);
  }

  /**
   A claim without Cyrillic categorised PAYMENT is stored and answered as PAYMENT and
   open, provided the sentiment label is an enumeration value and the insert commits.
   */
  lemma PaymentClaimRanked(claim: string, env: Environment, store: Store)
    requires claim != "" && !ContainsCyrillic(claim)
    requires CategoryOf(claim, env) == Returned("PAYMENT")
    requires SentimentOf(claim, env).0 in SentimentValues
    requires env.write.Committed?
    ensures var (response, stored) := RankClaim(claim, env, store);
            && response.Ok?
            && response.value.category == PAYMENT
            && response.value.status == Open
            && stored[|store|].translation == NotTranslated
  {
    RankedAs(claim, env, store, "PAYMENT");
    CategoryRoundTrip(RankClaim(claim, env, store).0.value.category);
  }

  /**
   A claim without Cyrillic in which a PAYMENT keyword occurs as a word is stored and
   answered as PAYMENT and open, provided the sentiment label is an enumeration value
   and the insert commits.
   */
  lemma PaymentClaimEndToEnd(pre: string, w: string, post: string, env: Environment, store: Store)
    requires |w| > 0 && forall i :: 0 <= i < |w| ==> Text.IsWordChar(w[i])
    requires Text.Lower(w) in env.keywords.payment
    requires !ContainsCyrillic(pre + " " + w + " " + post)
    requires SentimentOf(pre + " " + w + " " + post, env).0 in SentimentValues
    requires env.write.Committed?
    ensures var (response, stored) := RankClaim(pre + " " + w + " " + post, env, store);
            && response.Ok?
            && response.value.category == PAYMENT
            && response.value.status == Open
            && stored[|store|].translation == NotTranslated
  {
    PaymentWordWins(pre, w, post, env);
    PaymentClaimRanked(pre + " " + w + " " + post, env, store);
  }

  /** A categorised claim with a valid sentiment whose insert commits is answered with its category. */
  lemma RankedAs(claim: string, env: Environment, store: Store, category: string)
    requires claim != "" && env.write.Committed?
    requires CategoryOf(claim, env) == Returned(category) && category in CategoryValues
    requires SentimentOf(claim, env).0 in SentimentValues
    ensures RankClaim(claim, env, store).0.Ok?
    ensures CategoryValue(RankClaim(claim, env, store).0.value.category) == category
    ensures RankClaim(claim, env, store).1[|store|].translation == StoredTranslation(TranslationOf(claim, env))
  {
  }

  /**
   A Cyrillic claim whose translation model failed to load is processed as written:
   sentiment and categorisation see the original text, and the translation is stored
   as the marker.
   */
  lemma UntranslatableClaimKeepsOriginal(claim: string, env: Environment, store: Store)
    requires claim != "" && ContainsCyrillic(claim)
    requires env.settings == TranslationHandler.LanguageSettings("ru", "en")
    requires "Helsinki-NLP/opus-mt-ru-en" in env.brokenModels
    ensures WorkingTextOf(claim, env) == claim
    ensures RankClaim(claim, env, store).1 != store ==>
              && RankClaim(claim, env, store).1[|store|].text == claim
              && RankClaim(claim, env, store).1[|store|].translation == NotTranslated
              && RankClaim(claim, env, store).1[|store|].sentiment ==
                 SentimentClient.AnalyzeSentiment(env.sentimentService(claim)).0
  {
    assert Translator.PairKey("ru", "en") == "ru-en";
    assert TranslationOf(claim, env) == None;
  }

  /**
   When the chat-completion reply fails validation the categorizer answers "AI_ERROR",
   which is not a category: the row is stored with it and the request still fails with
   a 500.
   */
  lemma AiErrorStoredButRejected(claim: string, env: Environment, store: Store)
    requires claim != "" && env.write.Committed?
    requires CategoryOf(claim, env) == Returned(Categorizer.AiError)
    ensures RankClaim(claim, env, store).0 == HttpError(InternalServerError)
    ensures |RankClaim(claim, env, store).1| == |store| + 1
    ensures RankClaim(claim, env, store).1[|store|].category == "AI_ERROR"
  {
    CategoryRoundTrip(OTHER);
  }

  // ---------------------------------------------------------------------------------------
  // The open claims of the last hour
  // ---------------------------------------------------------------------------------------

  /** The row the last-hour query returns for a record: id, timestamp, text, sentiment, category, status. */
  function RowOf(record: ClaimRecord): RawInput {
    SqlRow([
      ("id", PyNumber(record.id)),
      ("timestamp", PyNumber(record.timestamp)),
      ("text", PyStr(record.text)),
      ("sentiment", PyStr(record.sentiment)),
      ("category", PyStr(record.category)),
      ("status", PyStr(record.status))])
  }

  /** `fields` holds the record's five listed columns, each under its own name. */
  predicate HoldsFields(fields: map<string, PyValue>, record: ClaimRecord) {
    && DictGet(fields, "id") == PyNumber(record.id)
    && DictGet(fields, "timestamp") == PyNumber(record.timestamp)
    && DictGet(fields, "text") == PyStr(record.text)
    && DictGet(fields, "sentiment") == PyStr(record.sentiment)
    && DictGet(fields, "category") == PyStr(record.category)
  }

  /** The validated claim carries the record's id, timestamp, text, sentiment and category. */
  predicate Carries(c: Claim, record: ClaimRecord) {
    && c.id == record.id
    && c.timestamp == record.timestamp
    && c.text == record.text
    && SentimentValue(c.sentiment) == record.sentiment
    && CategoryValue(c.category) == record.category
  }

  /** The dict the before-validator makes of a record's row holds each selected column under its own name. */
  lemma RowFields(record: ClaimRecord)
    ensures ValidateFromRow(RowOf(record)) == PyDict(RecordFields(record))
  {
    var columns := RowOf(record).columns;
    assert columns[1..][1..][1..][1..][1..][1..] == [];
    assert RowDict(columns[1..][1..][1..][1..][1..]) == map["status" := PyStr(record.status)];
    assert RowDict(columns[1..][1..][1..][1..]) ==
           map["status" := PyStr(record.status), "category" := PyStr(record.category)];
    assert RowDict(columns[1..][1..][1..]) ==
           map["status" := PyStr(record.status), "category" := PyStr(record.category),
               "sentiment" := PyStr(record.sentiment)];
    assert RowDict(columns[1..][1..]) ==
           map["status" := PyStr(record.status), "category" := PyStr(record.category),
               "sentiment" := PyStr(record.sentiment), "text" := PyStr(record.text)];
    assert RowDict(columns[1..]) ==
           map["status" := PyStr(record.status), "category" := PyStr(record.category),
               "sentiment" := PyStr(record.sentiment), "text" := PyStr(record.text),
               "timestamp" := PyNumber(record.timestamp)];
  }

  /** Validating a record's row is field validation of the record's dict. */
  lemma RowValidation(record: ClaimRecord)
    ensures ValidateClaim(RowOf(record)) == ClaimFromFields(RecordFields(record))
  {
    RowFields(record);
  }

  /** The dict of a record's row, as `dict(row)` builds it. */
  function RecordFields(record: ClaimRecord): (r: map<string, PyValue>)
    ensures HoldsFields(r, record)
  {
    map["status" := PyStr(record.status), "category" := PyStr(record.category),
        "sentiment" := PyStr(record.sentiment), "text" := PyStr(record.text),
        "timestamp" := PyNumber(record.timestamp), "id" := PyNumber(record.id)]
  }

  /** Field validation of any dict that holds a record's fields. */
  lemma FieldsValidation(fields: map<string, PyValue>, record: ClaimRecord)
    requires HoldsFields(fields, record)
    ensures ClaimFromFields(fields).Some? <==> record.sentiment in SentimentValues && record.category in CategoryValues
    ensures ClaimFromFields(fields).Some? ==> Carries(ClaimFromFields(fields).value, record)
  {
  }

  /**
   `Claim.model_validate` of a record's row: it succeeds exactly when the stored sentiment
   and category are enumeration values, and then carries the record's fields.
   */
  function ClaimOfRecord(record: ClaimRecord): (r: Option<Claim>)
    ensures r.Some? <==> record.sentiment in SentimentValues && record.category in CategoryValues
    ensures r.Some? ==> Carries(r.value, record)
  {
    RowValidation(record);
    FieldsValidation(RecordFields(record), record);
    ValidateClaim(RowOf(record))
  }

  /**
   The `Claim.model_validate` calls of the listing loop, one per row in order; `None`
   when any row fails (the loop then raises and the request fails).
   */
  function ValidateEach<T>(rows: seq<T>, validate: T -> Option<Claim>): (r: Option<seq<Claim>>)
    ensures r.None? <==> exists i :: 0 <= i < |rows| && validate(rows[i]).None?
    ensures r.Some? ==> |r.value| == |rows|
    ensures r.Some? ==> forall i :: 0 <= i < |rows| ==> validate(rows[i]) == Some(r.value[i])
  {
    if rows == [] then Some([])
    else
      var head := validate(rows[0]);
      var tail := ValidateEach(rows[1..], validate);
      assert forall i :: 1 <= i < |rows| ==> rows[i] == rows[1..][i - 1];
      if head.None? || tail.None? then None
      else Some([head.value] + tail.value)
  }

  /** The validation of the last-hour rows. */
  function ValidateRows(rows: seq<ClaimRecord>): Option<seq<Claim>> {
    ValidateEach(rows, ClaimOfRecord)
  }

  function GroupKey(c: Claim): string {
    CategoryValue(c.category)
  }

  /** Reference definition of one group: the claims of that category, in their original order. */
  function ClaimsIn(claims: seq<Claim>, key: string): (r: seq<Claim>)
    ensures forall c :: c in r <==> c in claims && GroupKey(c) == key
  {
    if claims == [] then []
    else
      var last := claims[|claims| - 1];
      assert claims == claims[..|claims| - 1] + [last];
      ClaimsIn(claims[..|claims| - 1], key) + (if GroupKey(last) == key then [last] else [])
  }

  ghost predicate ClaimsNewestFirst(claims: seq<Claim>) {
    forall i, j :: 0 <= i < j < |claims| ==> claims[i].timestamp >= claims[j].timestamp
  }

  /** Taking one category's claims out of a newest-first list keeps them newest first. */
  lemma {:induction false} GroupKeepsOrder(claims: seq<Claim>, key: string)
    requires ClaimsNewestFirst(claims)
    ensures ClaimsNewestFirst(ClaimsIn(claims, key))
    decreases |claims|
  {
    if claims != [] {
      var prefix := claims[..|claims| - 1];
      var last := claims[|claims| - 1];
      GroupKeepsOrder(prefix, key);
      var g := ClaimsIn(prefix, key);
      forall k | 0 <= k < |g|
        ensures g[k].timestamp >= last.timestamp
      {
        assert g[k] in prefix;
        var m :| 0 <= m < |prefix| && prefix[m] == g[k];
        assert claims[m] == g[k];
      }
    }
  }

  /** The categories that occur among `claims`. */
  function Categories(claims: seq<Claim>): set<string> {
    set c | c in claims :: GroupKey(c)
  }

  lemma CategoriesSnoc(claims: seq<Claim>, c: Claim)
    ensures Categories(claims + [c]) == Categories(claims) + {GroupKey(c)}
  {
    assert forall d :: d in claims + [c] <==> d in claims || d == c;
  }

  lemma ClaimsInSnoc(claims: seq<Claim>, c: Claim, key: string)
    ensures ClaimsIn(claims + [c], key) == ClaimsIn(claims, key) + (if GroupKey(c) == key then [c] else [])
  {
    assert (claims + [c])[..|claims|] == claims;
  }

  lemma {:induction false} AbsentCategoryIsEmpty(claims: seq<Claim>, key: string)
    requires key !in Categories(claims)
    ensures ClaimsIn(claims, key) == []
    decreases |claims|
  {
    if claims != [] {
      var prefix := claims[..|claims| - 1];
      var last := claims[|claims| - 1];
      assert claims == prefix + [last];
      CategoriesSnoc(prefix, last);
      AbsentCategoryIsEmpty(prefix, key);
    }
  }

  /** Whether `grouped` is the grouping of `claims`: one group per category, in the claims' order. */
  ghost predicate GroupsOf(grouped: map<string, seq<Claim>>, claims: seq<Claim>) {
    && grouped.Keys == Categories(claims)
    && forall key :: key in grouped ==> grouped[key] == ClaimsIn(claims, key)
  }

  /** One step of the grouping loop: appending a claim to its category's group (opened if new). */
  lemma GroupStep(grouped: map<string, seq<Claim>>, claims: seq<Claim>, c: Claim)
    requires GroupsOf(grouped, claims)
    ensures var key := GroupKey(c);
            GroupsOf(grouped[key := (if key in grouped then grouped[key] else []) + [c]], claims + [c])
  {
    CategoriesSnoc(claims, c);
    GroupStepContents(grouped, claims, c);
  }

  lemma GroupStepContents(grouped: map<string, seq<Claim>>, claims: seq<Claim>, c: Claim)
    requires GroupsOf(grouped, claims)
    ensures var key := GroupKey(c);
            var next := grouped[key := (if key in grouped then grouped[key] else []) + [c]];
            forall k :: k in next ==> next[k] == ClaimsIn(claims + [c], k)
  {
    var key := GroupKey(c);
    var next := grouped[key := (if key in grouped then grouped[key] else []) + [c]];
    forall k | k in next
      ensures next[k] == ClaimsIn(claims + [c], k)
    {
      ClaimsInSnoc(claims, c, k);
      if k == key && key !in grouped {
        AbsentCategoryIsEmpty(claims, key);
      }
    }
  }

  /**
   The grouping loop of `get_open_claims_last_hour`: one group per category that
   occurs, each holding that category's claims in their original order.
   */
  method GroupByCategory(claims: seq<Claim>) returns (grouped: map<string, seq<Claim>>)
    ensures grouped.Keys == Categories(claims)
    ensures forall key :: key in grouped ==> grouped[key] == ClaimsIn(claims, key)
  {
    grouped := map[];
    var i := 0;
    while i < |claims|
      invariant 0 <= i <= |claims|
      invariant GroupsOf(grouped, claims[..i])
    {
      var c := claims[i];
      var key := GroupKey(c);
      GroupStep(grouped, claims[..i], c);
      assert claims[..i + 1] == claims[..i] + [c];
      var group := if key in grouped then grouped[key] else [];
      grouped := grouped[key := group + [c]];
      i := i + 1;
    }
    assert claims[..|claims|] == claims;
  }

  /** Validated rows keep the order of the rows they come from. */
  lemma ValidatedNewestFirst(rows: Store)
    requires NewestFirst(rows)
    ensures ValidateRows(rows).Some? ==> ClaimsNewestFirst(ValidateRows(rows).value)
  {
    if ValidateRows(rows).Some? {
      var claims := ValidateRows(rows).value;
      forall i, j | 0 <= i < j < |claims|
        ensures claims[i].timestamp >= claims[j].timestamp
      {
        assert ClaimOfRecord(rows[i]) == Some(claims[i]);
        assert ClaimOfRecord(rows[j]) == Some(claims[j]);
      }
    }
  }

  /** Every validated claim carries one of the categories the query selects, and comes from a row in the window. */
  lemma ValidatedCategories(store: Store, now: int)
    ensures var v := ValidateRows(LastHourClaims(store, now));
            v.Some? ==> forall c :: c in v.value ==>
              && GroupKey(c) in ListedCategories
              && exists x :: x in store && InLastHour(x, now) && ClaimOfRecord(x) == Some(c)
  {
    var rows := LastHourClaims(store, now);
    if ValidateRows(rows).Some? {
      var claims := ValidateRows(rows).value;
      forall c | c in claims
        ensures GroupKey(c) in ListedCategories
        ensures exists x :: x in store && InLastHour(x, now) && ClaimOfRecord(x) == Some(c)
      {
        var i :| 0 <= i < |claims| && claims[i] == c;
        assert rows[i] in rows;
        assert ClaimOfRecord(rows[i]) == Some(c);
      }
    }
  }

  /** Every selected row appears among the validated claims. */
  lemma ValidatedComplete(store: Store, now: int)
    ensures var v := ValidateRows(LastHourClaims(store, now));
            v.Some? ==> forall x :: x in store && InLastHour(x, now) ==>
              ClaimOfRecord(x).Some? && ClaimOfRecord(x).value in v.value
  {
    var rows := LastHourClaims(store, now);
    if ValidateRows(rows).Some? {
      var claims := ValidateRows(rows).value;
      forall x | x in store && InLastHour(x, now)
        ensures ClaimOfRecord(x).Some? && ClaimOfRecord(x).value in claims
      {
        var i :| 0 <= i < |rows| && rows[i] == x;
        assert claims[i] in claims;
      }
    }
  }

  /** Validation of the selected rows fails exactly when one of them has a sentiment outside the enumeration. */
  lemma ValidationFailure(store: Store, now: int)
    ensures ValidateRows(LastHourClaims(store, now)).None? <==>
              exists x :: x in store && InLastHour(x, now) && x.sentiment !in SentimentValues
  {
    var rows := LastHourClaims(store, now);
    if ValidateRows(rows).None? {
      var i :| 0 <= i < |rows| && ClaimOfRecord(rows[i]).None?;
      assert rows[i] in rows;
    } else {
      forall x | x in store && InLastHour(x, now)
        ensures x.sentiment in SentimentValues
      {
        var i :| 0 <= i < |rows| && rows[i] == x;
        assert ClaimOfRecord(rows[i]).Some?;
      }
    }
  }

  /**
   `get_open_claims_last_hour`: the claims of the last-hour query grouped by category.
   A row whose sentiment is not an enumeration value fails validation and the request
   fails with a 500.
   */
  method OpenClaimsLastHour(store: Store, now: int) returns (r: Response<map<string, seq<Claim>>>)
    ensures r.HttpError? <==> exists x :: x in store && InLastHour(x, now) && x.sentiment !in SentimentValues
    ensures r.HttpError? ==> r.status == InternalServerError
    ensures r.Ok? ==> forall key :: key in r.value ==> key in ListedCategories && ClaimsNewestFirst(r.value[key])
    ensures r.Ok? ==> forall x :: x in store && InLastHour(x, now) ==>
              x.category in r.value && ClaimOfRecord(x).Some? && ClaimOfRecord(x).value in r.value[x.category]
    ensures r.Ok? ==> forall key, c :: key in r.value && c in r.value[key] ==>
              GroupKey(c) == key && exists x :: x in store && InLastHour(x, now) && ClaimOfRecord(x) == Some(c)
    ensures r.Ok? ==> ValidateRows(LastHourClaims(store, now)).Some? &&
                      GroupsOf(r.value, ValidateRows(LastHourClaims(store, now)).value)
  {
    var rows := LastHourClaims(store, now);
    var validated := ValidateRows(rows);
    ValidationFailure(store, now);
    if validated.None? {
      r := HttpError(InternalServerError);
      return;
    }
    var claims := validated.value;
    ValidatedNewestFirst(rows);
    ValidatedCategories(store, now);
    ValidatedComplete(store, now);
    var grouped := GroupByCategory(claims);
    forall key | key in grouped
      ensures key in ListedCategories && ClaimsNewestFirst(grouped[key])
    {
      GroupKeepsOrder(claims, key);
    }
    forall x | x in store && InLastHour(x, now)
      ensures x.category in grouped && ClaimOfRecord(x).value in grouped[x.category]
    {
      assert GroupKey(ClaimOfRecord(x).value) == x.category;
    }
    r := Ok(grouped);
  }
}
