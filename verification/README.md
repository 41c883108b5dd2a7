# claimatic — a Dafny model of the claim-enrichment core

claimatic is a small web service that takes a customer claim and enriches it, then stores
and lists it:

- it translates Cyrillic claims into English with a sequence-to-sequence translation pipeline;
- it asks an external sentiment service for a label;
- it categorises the claim in two stages: a keyword match over the claim's normalised tokens,
  and only when that fails, a locally hosted chat-completion model;
- it stores the result in a SQLite `claims` table;
- it answers the open claims of the last hour grouped by category, and closes claims by id.

This project models that core as pure functions over immutable data. It proves what each
step guarantees and how the steps compose.

| module | file | models |
|---|---|---|
| `Base` | base.dfy | `Option`, `Attempt` (returned or raised), a JSON-like `PyValue`, HTTP `Response` |
| `Text` | text.dfy | Python `str` semantics used by the core: `isspace`, `\w`, `lower`, `capitalize`, `strip`, `split` |
| `Schemas` | schemas.dfy | `Sentiment`, `ClaimCategory`, `OllamaResponse`, `Claim`, `ClaimRank` and their validation |
| `Categorizer` | categorizer.dfy | `AsyncClaimCategorizer`: preprocessing, keyword stage, AI stage |
| `Translator` | translator.dfy | `LLMTranslator`: model loading with per-pair failure isolation, `translate` |
| `SentimentClient` | sentiment.dfy | `analyze_sentiment` |
| `TranslationHandler` | translate_util.dfy | `handle_translation` |
| `ClaimStore` | database.dfy | `add_claim_to_db`, `get_last_hour_claims`, `close_claim_by_id` over a table of rows |
| `ClaimsApi` | claims_api.dfy | `rank_claim`, `get_open_claims_last_hour`, `close_claim` |

Everything outside the process becomes a parameter of the model:

- the translation pipeline's output;
- the set of models that fail to load;
- the sentiment service's reply;
- the chat-completion service's reply;
- whether an insert commits;
- the clock.

Each such service is a function from the text sent to the outcome received. This is what
lets the model state which text reaches which service, and which services a request does
not consult.

Where the code's behaviour is surprising, the model follows the code:

- The categoriser can answer `"AI_ERROR"`, which is not a `ClaimCategory`. `rank_claim`
  stores the row with that category and then fails with a 500, because building the
  `ClaimRank` response raises.
- A sentiment label outside the enumeration (the service's reply capitalised) behaves the
  same way: the row is stored and the request fails with a 500.
- Closing a claim that is already closed succeeds. The UPDATE matches the row by id alone,
  so the reported row count is 1.
- `analyze_sentiment` emits no warning for an unrecognised label. Only a failed call
  produces the warning text.
- The last-hour filter compares SQLite `datetime()` values. These are whole seconds, so
  claims stamped up to a second more than an hour ago are still listed (`ClaimStore.LastHourWindow`).

## Model

| member | source | states |
|---|---|---|
| Text.Lower | src/llms/categorizer.py:45 | `str.lower()` keeps the length and lower-cases every character |
| Text.Split | src/llms/categorizer.py:46 | `str.split()` yields non-empty tokens without whitespace, made of the input's characters |
| Text.SplitWord | src/llms/categorizer.py:46 | a non-empty text without whitespace splits into exactly itself; with `Text.SplitJoin` this fixes `split()` on every whitespace-joined text |
| Text.SplitJoin | src/llms/categorizer.py:46 | splitting two texts joined by whitespace gives the tokens of each side, in order |
| Text.CapitalizeIgnoresCase | src/api/v1/utils/sentiment.py:26 | `capitalize` gives the same result for two labels that agree once lower-cased |
| Text.CapitalizePositive | src/api/v1/utils/sentiment.py:26 | "positive" and "POSITIVE" both capitalise to "Positive" |
| Text.StripPadded | src/llms/categorizer.py:81 | `strip()` removes exactly the whitespace padding around a core that is not itself padded |
| Categorizer.RemoveSymbols | src/llms/categorizer.py:45 | `re.sub(r"[^\w\s]", "", s)` keeps exactly the word and whitespace characters of `s` |
| Categorizer.RemoveSymbolsConcat | src/llms/categorizer.py:45 | symbol removal distributes over concatenation |
| Categorizer.RemoveSymbolsChar | src/llms/categorizer.py:45 | on one character, removal keeps it iff it is a word or whitespace character; with `RemoveSymbolsConcat` this fixes the result, order and count included |
| Categorizer.RemoveSymbolsKeeps | src/llms/categorizer.py:45 | a text of word and whitespace characters only is left unchanged |
| Categorizer.Normalise | src/llms/categorizer.py:45 | the normalised text holds only whitespace and non-upper-case word characters |
| Categorizer.Preprocess | src/llms/categorizer.py:43-46 | every token is non-empty and made of lower-case word characters |
| Categorizer.PreprocessWord | src/llms/categorizer.py:43-46 | a single word of word characters has exactly one token, the word lower-cased |
| Categorizer.WordIsToken | src/llms/categorizer.py:43-46 | every space-separated word of word characters in a claim is among its tokens, lower-cased |
| Categorizer.PreprocessJoin | src/llms/categorizer.py:43-46 | the token set of two texts joined by whitespace is the union of their token sets |
| Categorizer.PreprocessOrderIndependent | src/llms/categorizer.py:43-46 | the token set does not depend on word order |
| Categorizer.PreprocessRepeatIndependent | src/llms/categorizer.py:43-46 | repeating a text does not change its token set |
| Categorizer.DefaultKeywordMap | src/llms/categorizer.py:13-17 | the default map lists PAYMENT, SERVICE, ACCOUNT in that order |
| Categorizer.MatchFrom | src/llms/categorizer.py:110-115 | the category returned is that of the first entry at or after `from` whose keywords meet the tokens; `None` iff no entry there does |
| Categorizer.MatchKeywords | src/llms/categorizer.py:109-115 | keyword stage: no match iff every keyword set is disjoint from the tokens, else the first matching entry's category |
| Categorizer.DefaultOrderWins | src/llms/categorizer.py:13-17 | with the default map a PAYMENT keyword beats SERVICE and ACCOUNT, and SERVICE beats ACCOUNT |
| Categorizer.FirstMatchUnique | src/llms/categorizer.py:110-115 | the first matching entry is unique |
| Categorizer.CategorizeWithAi | src/llms/categorizer.py:70-100 | connection failure gives AI_UNAVAILABLE, an invalid body AI_ERROR, no message OTHER, an allowed stripped answer itself and anything else OTHER; other errors propagate; the result is always an allowed category or a sentinel |
| Categorizer.PaddedAnswerAccepted | src/llms/categorizer.py:81-83 | an allowed category padded with whitespace in the model's answer is accepted |
| Categorizer.Categorize | src/llms/categorizer.py:102-122 | the first keyword match decides; only when none matches is the AI stage consulted on the same text |
| Categorizer.KeywordMatchSkipsAi | src/llms/categorizer.py:108-115 | when a keyword matches, the AI service's replies do not affect the result |
| Schemas.ParseSentiment | src/schemas/schemas.py:13-19 | enum validation accepts exactly the four member values and returns the member with that value |
| Schemas.SentimentRoundTrip | src/schemas/schemas.py:13-19 | every member validates from its own value; the four values are distinct |
| Schemas.Priority | src/schemas/schemas.py:21-29 | Unknown has no priority; the others have priorities at most 2 |
| Schemas.PriorityOrder | src/schemas/schemas.py:21-29 | priorities order Negative < Neutral < Positive strictly |
| Schemas.ParseCategory | src/schemas/schemas.py:32-39 | enum validation accepts exactly the five member values |
| Schemas.CategoryRoundTrip | src/schemas/schemas.py:32-39 | every member validates from its own value; "AI_ERROR" is rejected |
| Schemas.ValidateOllamaResponse | src/schemas/schemas.py:46-54 | a reply validates iff it is an object with a string `model` and a `message` that is absent, null, or an object with string `role` and `content`; the result carries those values |
| Schemas.ExtraKeysIgnored | src/schemas/schemas.py:52-54 | keys other than `model` and `message` do not affect validation |
| Schemas.OllamaResponseRoundTrip | src/schemas/schemas.py:46-54 | validation recovers every reply from its canonical dump, with or without a message |
| Schemas.RowDict | src/schemas/schemas.py:75-76 | every key of `dict(row)` is the name of one of the row's columns |
| Schemas.RowDictLookup | src/schemas/schemas.py:75-76 | each column name maps to the value of its first column |
| Schemas.ValidateFromRow | src/schemas/schemas.py:71-77 | a row becomes a dict of its columns; any other input passes unchanged |
| Schemas.ClaimFromFields | src/schemas/schemas.py:57-69 | a `Claim` validates iff the fields have the right types and sentiment and category are enum values; the claim carries those fields |
| Schemas.ParseRankStatus | src/schemas/schemas.py:83 | the status literal accepts exactly "open", "closed" and "pending" |
| Schemas.ValidateClaimRank | src/schemas/schemas.py:80-85 | a `ClaimRank` validates iff sentiment, category and status are allowed; status defaults to open; fields are carried over |
| Translator.EffectiveMapping | src/llms/translator.py:38-40 | a missing or empty mapping falls back to the default ru-en mapping |
| Translator.LoadModels | src/llms/translator.py:61-113 | every pair gets an entry; a pair whose model fails to load is `None`, the others hold their pipeline |
| Translator.ExtractTranslation | src/llms/translator.py:153-178 | a translation is returned iff the output is a non-empty list whose first item is a dict with a string `translation_text`, and it is that string |
| Translator.ExtractTranslationRoundTrip | src/llms/translator.py:168-172 | the pipeline's usual answer yields its text whatever else it holds |
| Translator.Translate | src/llms/translator.py:132-184 | empty and same-language input come back unchanged; a missing or unloaded pipeline or a raised error gives `None`; otherwise the extracted translation |
| Translator.SameLanguageIgnoresPipelines | src/llms/translator.py:136-141 | same-language translation does not depend on the pipelines |
| SentimentClient.AnalyzeSentiment | src/api/v1/utils/sentiment.py:11-35 | a warning is given iff the call fails, and then the label is Unknown; otherwise the reported label capitalised |
| SentimentClient.AnalysisIgnoresLabelCase | src/api/v1/utils/sentiment.py:26 | labels differing only in case give the same result |
| SentimentClient.PositiveInAnyCase | src/api/v1/utils/sentiment.py:26 | "positive" and "POSITIVE" give the enum value Positive with no warning |
| SentimentClient.MissingLabelIsNeutral | src/api/v1/utils/sentiment.py:26 | a reply without a label gives Neutral with no warning |
| TranslationHandler.NormaliseTranslation | src/api/v1/utils/translate.py:16-37 | `None`, an empty text and a raised error give `None`; any other text is kept |
| TranslationHandler.HandleTranslation | src/api/v1/utils/translate.py:11-37 | empty claim gives `None`; same languages give the claim; a pair without a loaded default model gives `None`; a non-empty translator answer is returned unchanged (even when it equals the claim), and a falsy one gives `None` |
| TranslationHandler.BrokenDefaultModelMeansNoTranslation | src/api/v1/utils/translate.py:11-28 | with the shipped ru-en settings, a failed model load means no translation |
| ClaimStore.StoredTranslation | src/db/database.py:44 | a missing or empty translation is stored as "Not translated", any other is stored as given |
| ClaimStore.MaxId | src/db/database.py:46-56 | the largest id of a non-empty table is one of its ids |
| ClaimStore.NextRowId | src/db/database.py:46-56 | the new rowid exceeds every id in use, and is 1 in an empty table |
| ClaimStore.AddClaim | src/db/database.py:31-67 | a committed insert appends exactly the given row under a fresh id and returns it; a storage error returns `None` and changes nothing |
| ClaimStore.AddKeepsIdsUnique | src/db/database.py:46-56 | inserting keeps the table's ids distinct |
| ClaimStore.LastHourWindow | src/db/database.py:83-105 | the whole-second comparison keeps every claim of the last hour and nothing a second or more older |
| ClaimStore.Select | src/db/database.py:100-105 | the WHERE clause keeps each matching row as often as it occurs and no other row |
| ClaimStore.InsertByTime | src/db/database.py:106 | inserting into a newest-first list keeps it newest first and adds exactly one row |
| ClaimStore.SortNewestFirst | src/db/database.py:106 | `ORDER BY timestamp DESC` is a permutation with the newest rows first |
| ClaimStore.LastHourClaims | src/db/database.py:70-112 | exactly the open SERVICE/PAYMENT/OTHER rows of the window, each with its multiplicity, newest first |
| ClaimStore.CloseClaim | src/db/database.py:115-124 | 404 iff no row has the id; otherwise those rows become closed and nothing else changes |
| ClaimStore.CloseIdempotent | src/db/database.py:115-124 | closing twice equals closing once, and the second close succeeds |
| ClaimStore.CloseAfterAdd | src/db/database.py:115-124 | a just-added claim can be closed, leaving every earlier row untouched |
| ClaimsApi.WorkingText | src/api/v1/claims_api.py:55-56 | later stages see the translation when it is non-empty and differs from the claim, else the claim |
| ClaimsApi.TranslationOf | src/api/v1/claims_api.py:53-54 | a claim without Cyrillic is never translated; a Cyrillic claim gets `handle_translation`'s answer |
| ClaimsApi.TranslatedClaimUsesTranslation | src/api/v1/claims_api.py:52-76 | a Cyrillic claim with a truthy, different translation is analysed and categorised on the translation, and stored as written with that translation |
| ClaimsApi.Persist | src/api/v1/claims_api.py:68-90 | a categoriser error or failed insert is a 500 with nothing stored; else one row is appended; success iff sentiment and category are enum values; the response carries the stored id and values |
| ClaimsApi.RankClaim | src/api/v1/claims_api.py:33-90 | empty claim is a 400 with nothing stored; the table changes iff the categoriser and the insert succeed; the appended row holds the claim, its translation, the working text's sentiment and category, status open and the clock; the response mirrors it |
| ClaimsApi.SameServicesSameRank | src/api/v1/claims_api.py:59-90 | a request depends on the environment only through the three services' outcomes, the insert and the clock |
| ClaimsApi.NoCyrillicSkipsTranslator | src/api/v1/claims_api.py:53-57 | for a claim without Cyrillic the translation models and pipelines do not matter |
| ClaimsApi.NoCyrillicNotTranslated | src/api/v1/claims_api.py:48-57 | a claim without Cyrillic is stored as "Not translated" |
| ClaimsApi.AiOnlyThroughCategory | src/api/v1/claims_api.py:65-66 | the chat-completion service affects a request only through the category |
| ClaimsApi.KeywordClaimSkipsAi | src/api/v1/claims_api.py:65-66 | a claim whose working text carries a keyword is categorised the same whatever the chat-completion service replies |
| ClaimsApi.PaymentKeywordWins | src/api/v1/claims_api.py:52-66 | a non-Cyrillic claim with a PAYMENT keyword among its tokens is categorised PAYMENT on its own text |
| ClaimsApi.PaymentWordWins | src/api/v1/claims_api.py:52-66 | a non-Cyrillic claim in which a PAYMENT keyword occurs as a word, in any casing, is categorised PAYMENT |
| ClaimsApi.PaymentClaimRanked | src/api/v1/claims_api.py:68-90 | a non-Cyrillic claim categorised PAYMENT, with a valid sentiment and a committed insert, is answered open and PAYMENT and stored as not translated |
| ClaimsApi.RankedAs | src/api/v1/claims_api.py:84-90 | a categorised claim with a valid sentiment whose insert commits is answered with its category |
| ClaimsApi.PaymentClaimEndToEnd | src/api/v1/claims_api.py:41-90 | a non-Cyrillic claim in which a PAYMENT keyword occurs as a word, with a valid sentiment and a committed insert, is answered open and PAYMENT and stored as not translated |
| ClaimsApi.UntranslatableClaimKeepsOriginal | src/api/v1/claims_api.py:52-57 | with the ru-en model broken a Cyrillic claim is analysed as written and stored as not translated |
| ClaimsApi.AiErrorStoredButRejected | src/api/v1/claims_api.py:68-90 | an AI_ERROR category is stored, yet the request fails with a 500 |
| ClaimsApi.RowFields | src/schemas/schemas.py:71-77 | the dict of a listed row holds each selected column under its name |
| ClaimsApi.RowValidation | src/schemas/schemas.py:71-77 | validating a listed row is field validation of the record's dict |
| ClaimsApi.RecordFields | src/db/database.py:100-102 | the six selected columns of a stored record |
| ClaimsApi.FieldsValidation | src/schemas/schemas.py:64-69 | such a dict validates iff sentiment and category are enum values, and the claim carries the record's fields |
| ClaimsApi.ClaimOfRecord | src/api/v1/claims_api.py:101 | `Claim.model_validate(row)` succeeds iff the stored sentiment and category are enum values, and carries the row's fields |
| ClaimsApi.ValidateEach | src/api/v1/claims_api.py:100-101 | validation fails iff some row fails; otherwise one claim per row, in order |
| ClaimsApi.ClaimsIn | src/api/v1/claims_api.py:99-102 | a group holds exactly the claims of its category |
| ClaimsApi.GroupKeepsOrder | src/api/v1/claims_api.py:99-102 | a group of a newest-first list is newest first |
| ClaimsApi.GroupByCategory | src/api/v1/claims_api.py:99-104 | one group per category that occurs, each holding that category's claims in order |
| ClaimsApi.ValidatedNewestFirst | src/api/v1/claims_api.py:97-101 | validated rows keep the newest-first order |
| ClaimsApi.ValidatedCategories | src/api/v1/claims_api.py:97-102 | each listed claim has a selected category and comes from a row in the window |
| ClaimsApi.ValidatedComplete | src/api/v1/claims_api.py:97-101 | each row in the window appears among the validated claims |
| ClaimsApi.ValidationFailure | src/api/v1/claims_api.py:97-101 | validation of the listed rows fails iff one has a sentiment outside the enumeration |
| ClaimsApi.OpenClaimsLastHour | src/api/v1/claims_api.py:93-104 | a 500 iff a row in the window has an invalid sentiment; otherwise exactly the grouping of the validated rows (a key per category that occurs, no empty group, each group that category's claims once per row in query order), keyed by listed categories, newest first |

## Left out

- HTTP routing, form parsing, dependency injection and the aiohttp and aiosqlite sessions: these are I/O. Requests are modelled as functions of their inputs.
- The `close_claim` endpoint adds nothing over `close_claim_by_id`, which `ClaimStore.CloseClaim` models.
- Loading transformers models, tokenizer construction and device selection are not modelled. A model either loads or is in the `broken` set.
- Invoking a pipeline is a parameter, and so are the sentiment and chat-completion HTTP calls, including their payloads, headers and prompt text.
- The wall clock is not modelled. `now` is a parameter in integer microseconds, and ISO-8601 timestamp text is not modelled.
- The sentiment API key, the service URLs and the configuration module are not modelled.
- Logging, the `log_execution` decorator, `init_db`'s table creation, the health check and application start-up are not modelled.
- The count query in `get_last_hour_claims` only feeds a log line, so it is not modelled.
- The contents of the keyword sets live in a module outside the core. They are parameters (`ClaimsApi.Keywords`).
- Unicode classes are approximated. Word characters and case pairs are ASCII plus the basic Cyrillic letters U+0400–U+045F. Whitespace is Python's `isspace` set.
- Async concurrency is not modelled. Each request runs alone against the table.
- SQLite rowid exhaustion is not modelled, nor `lastrowid` being `None` after a committed insert. New ids are one more than the largest id.
- `sqlite3.Row` lookup is case-insensitive, which is not modelled. Column names are looked up exactly.
- Pydantic's lax coercions are not modelled (strings to ints, ISO strings to datetimes, bools to ints). A claim's id and timestamp must be numbers.
- The grouped response's dict key order is not modelled. `ORDER BY` leaves the order among equal timestamps open, so the model only promises newest first.
- ClaimsApi.OpenClaimsLastHour validates all rows before grouping. The source validates each row just before grouping it. Any failure ends the request with a 500 either way, so the outcomes agree.
- ClaimsApi.PaymentClaimEndToEnd and ClaimsApi.PaymentWordWins cover a keyword set off by spaces. A keyword next to punctuation (`"refund!"`) is also a token, but no lemma states that case.
