/**
 The two-stage claim categorizer: a keyword stage over the claim's normalised token set,
 and, only when no keyword matches, a chat-completion stage whose reply is mapped to a
 category string or to a sentinel.
 */
module Categorizer {
  import opened Base
  import opened Text
  import opened Schemas

  // ---------------------------------------------------------------------------------------
  // Stage 1: keywords
  // ---------------------------------------------------------------------------------------

  /** `re.sub(r"[^\w\s]", "", s)`: drops every character that is neither a word character nor whitespace. */
  function RemoveSymbols(s: string): (r: string)
    ensures forall c :: c in r ==> c in s && (IsWordChar(c) || IsSpace(c))
    ensures forall c :: c in s && (IsWordChar(c) || IsSpace(c)) ==> c in r
    decreases |s|
  {
    if s == [] then []
    else
      assert s == [s[0]] + s[1..];
      (if IsWordChar(s[0]) || IsSpace(s[0]) then [s[0]] else []) + RemoveSymbols(s[1..])
  }

  lemma {:induction false} RemoveSymbolsConcat(a: string, b: string)
    ensures RemoveSymbols(a + b) == RemoveSymbols(a) + RemoveSymbols(b)
    decreases |a|
  {
    if a == [] {
      assert a + b == b;
    } else {
      assert (a + b)[0] == a[0];
      assert (a + b)[1..] == a[1..] + b;
      RemoveSymbolsConcat(a[1..], b);
    }
  }

  /** On one character: the character when it is a word or whitespace character, nothing otherwise. */
  lemma RemoveSymbolsChar(c: char)
    ensures RemoveSymbols([c]) == if IsWordChar(c) || IsSpace(c) then [c] else []
  {
    assert [c][1..] == [];
  }

  /** A text made only of word and whitespace characters has nothing to remove. */
  lemma {:induction false} RemoveSymbolsKeeps(s: string)
    requires forall i :: 0 <= i < |s| ==> IsWordChar(s[i]) || IsSpace(s[i])
    ensures RemoveSymbols(s) == s
    decreases |s|
  {
    if s != [] {
      assert s == [s[0]] + s[1..];
      RemoveSymbolsKeeps(s[1..]);
    }
  }

  /** The text the keyword stage splits: lower-cased, with punctuation and symbols removed. */
  function Normalise(text: string): (r: string)
    ensures forall c :: c in r ==> IsSpace(c) || (IsWordChar(c) && !IsUpper(c))
  {
    RemoveSymbols(Lower(text))
  }

  /** `_preprocess_text`: the set of whitespace-separated tokens of the normalised text. */
  function Preprocess(text: string): (r: set<string>)
    ensures forall w :: w in r ==> |w| > 0
    ensures forall w, c :: w in r && c in w ==> IsWordChar(c) && !IsUpper(c)
  {
    set w | w in Split(Normalise(text))
  }

  /** The token set of two texts joined by whitespace is the union of their token sets. */
  lemma PreprocessJoin(a: string, sep: char, b: string)
    requires IsSpace(sep)
    ensures Preprocess(a + [sep] + b) == Preprocess(a) + Preprocess(b)
  {
    LowerConcat(a + [sep], b);
    LowerConcat(a, [sep]);
    assert Lower([sep]) == [sep];
    RemoveSymbolsConcat(Lower(a) + [sep], Lower(b));
    RemoveSymbolsConcat(Lower(a), [sep]);
    assert RemoveSymbols([sep]) == [sep];
    assert Normalise(a + [sep] + b) == Normalise(a) + [sep] + Normalise(b);
    SplitJoin(Normalise(a), sep, Normalise(b));
  }

  /** A single word of word characters is one token: the word lower-cased. */
  lemma PreprocessWord(w: string)
    requires |w| > 0 && forall i :: 0 <= i < |w| ==> IsWordChar(w[i])
    ensures Preprocess(w) == {Lower(w)}
  {
    var l := Lower(w);
    assert forall i :: 0 <= i < |l| ==> IsWordChar(l[i]) && !IsSpace(l[i]);
    RemoveSymbolsKeeps(l);
    assert Normalise(w) == l;
    SplitWord(l);
  }

  /** Every word of a claim, set off by spaces, is among its tokens, lower-cased. */
  lemma WordIsToken(pre: string, w: string, post: string)
    requires |w| > 0 && forall i :: 0 <= i < |w| ==> IsWordChar(w[i])
    ensures Lower(w) in Preprocess(pre + " " + w + " " + post)
  {
    assert pre + " " + w + " " + post == pre + [' '] + (w + [' '] + post);
    PreprocessJoin(pre, ' ', w + [' '] + post);
    PreprocessJoin(w, ' ', post);
    PreprocessWord(w);
  }

  /** The token set does not depend on the order of the words... */
  lemma PreprocessOrderIndependent(a: string, b: string)
    ensures Preprocess(a + " " + b) == Preprocess(b + " " + a)
  {
    PreprocessJoin(a, ' ', b);
    PreprocessJoin(b, ' ', a);
  }

  /** ...nor on how often a word is repeated. */
  lemma PreprocessRepeatIndependent(a: string)
    ensures Preprocess(a + " " + a) == Preprocess(a)
  {
    PreprocessJoin(a, ' ', a);
  }

  /** An ordered keyword map: category name and keyword set, in dict iteration order. */
  type KeywordMap = seq<(string, set<string>)>

  /** `DEFAULT_KEYWORD_MAP`, with the keyword sets themselves as parameters. */
  function DefaultKeywordMap(payment: set<string>, service: set<string>, account: set<string>): (r: KeywordMap)
    ensures |r| == 3 && r[0].0 == "PAYMENT" && r[1].0 == "SERVICE" && r[2].0 == "ACCOUNT"
  {
    [("PAYMENT", payment), ("SERVICE", service), ("ACCOUNT", account)]
  }

  const DefaultAiCategories: seq<string> := ["PAYMENT", "SERVICE", "OTHER"]

  /** Entry `i` of the map is the first whose keyword set meets `words`. */
  ghost predicate IsFirstMatch(m: KeywordMap, words: set<string>, i: int) {
    && 0 <= i < |m|
    && !(m[i].1 !! words)
    && forall j :: 0 <= j < i ==> m[j].1 !! words
  }

  ghost predicate NoKeywordMatch(m: KeywordMap, words: set<string>) {
    forall j :: 0 <= j < |m| ==> m[j].1 !! words
  }

  /** The category of the first entry at or after `from` whose keyword set meets `words`. */
  function MatchFrom(m: KeywordMap, words: set<string>, from: nat): (r: Option<string>)
    requires from <= |m|
    ensures r.None? <==> forall j :: from <= j < |m| ==> m[j].1 !! words
    ensures r.Some? ==> exists i :: from <= i < |m| && m[i].0 == r.value && !(m[i].1 !! words) &&
                                    forall j :: from <= j < i ==> m[j].1 !! words
    decreases |m| - from
  {
    if from == |m| then None
    else if !(m[from].1 !! words) then Some(m[from].0)
    else MatchFrom(m, words, from + 1)
  }

  /** The keyword stage: the category of the first entry whose keyword set meets `words`. */
  function MatchKeywords(m: KeywordMap, words: set<string>): (r: Option<string>)
    ensures r.None? <==> NoKeywordMatch(m, words)
    ensures r.Some? ==> exists i :: IsFirstMatch(m, words, i) && m[i].0 == r.value
  {
    MatchFrom(m, words, 0)
  }

  /** With the default map, a PAYMENT keyword wins over SERVICE and ACCOUNT, and SERVICE over ACCOUNT. */
  lemma DefaultOrderWins(payment: set<string>, service: set<string>, account: set<string>, words: set<string>)
    ensures !(payment !! words) ==> MatchKeywords(DefaultKeywordMap(payment, service, account), words) == Some("PAYMENT")
    ensures payment !! words && !(service !! words) ==>
              MatchKeywords(DefaultKeywordMap(payment, service, account), words) == Some("SERVICE")
    ensures payment !! words && service !! words && !(account !! words) ==>
              MatchKeywords(DefaultKeywordMap(payment, service, account), words) == Some("ACCOUNT")
  {
    var m := DefaultKeywordMap(payment, service, account);
    if !(payment !! words) {
      assert MatchFrom(m, words, 0) == Some("PAYMENT");
    } else if !(service !! words) {
      assert MatchFrom(m, words, 1) == Some("SERVICE");
    } else if !(account !! words) {
      assert MatchFrom(m, words, 2) == Some("ACCOUNT");
    }
  }

  // ---------------------------------------------------------------------------------------
  // Stage 2: the chat-completion service
  // ---------------------------------------------------------------------------------------

  /**
   What the POST to the chat endpoint gives: a connection failure, any other raised
   error (a non-2xx status, an undecodable body, a timeout), or a decoded JSON body.
   */
  datatype AiReply = ConnectFailed | RequestFailed | Replied(body: PyValue)

  const AiError: string := "AI_ERROR"
  const AiUnavailable: string := "AI_UNAVAILABLE"
  const Other: string := "OTHER"

  /**
   `_categorize_with_ai`: a connection failure gives AI_UNAVAILABLE, a body that fails
   validation gives AI_ERROR, a reply without a message gives OTHER, and a message
   whose stripped content is an allowed category gives that category (OTHER otherwise).
   Any other failure is not caught and propagates.
   */
  function CategorizeWithAi(reply: AiReply, aiCategories: seq<string>): (r: Attempt<string>)
    ensures r.Raised? <==> reply.RequestFailed?
    ensures reply.ConnectFailed? ==> r == Returned(AiUnavailable)
    ensures reply.Replied? && ValidateOllamaResponse(reply.body).None? ==> r == Returned(AiError)
    ensures reply.Replied? && ValidateOllamaResponse(reply.body).Some? ==>
              var msg := ValidateOllamaResponse(reply.body).value.message;
              && (msg.None? ==> r == Returned(Other))
              && (msg.Some? && Strip(msg.value.content) in aiCategories ==> r == Returned(Strip(msg.value.content)))
              && (msg.Some? && Strip(msg.value.content) !in aiCategories ==> r == Returned(Other))
    ensures r.Returned? ==> r.value in aiCategories || r.value in {Other, AiError, AiUnavailable}
  {
    match reply
    case ConnectFailed => Returned(AiUnavailable)
    case RequestFailed => Raised
    case Replied(body) =>
      match ValidateOllamaResponse(body)
      case None => Returned(AiError)
      case Some(response) =>
        match response.message
        case None => Returned(Other)
        case Some(message) =>
          var category := Strip(message.content);
          if category in aiCategories then Returned(category) else Returned(Other)
  }

  /** A reply whose content is an allowed category padded with whitespace yields that category. */
  lemma PaddedAnswerAccepted(model: string, pre: string, category: string, post: string, aiCategories: seq<string>)
    requires AllSpace(pre) && AllSpace(post)
    requires category in aiCategories
    requires |category| > 0 ==> !IsSpace(category[0]) && !IsSpace(category[|category| - 1])
    ensures CategorizeWithAi(
              Replied(DumpOllamaResponse(OllamaResponse(model, Some(OllamaMessage("assistant", pre + category + post))))),
              aiCategories) == Returned(category)
  {
    OllamaResponseRoundTrip(OllamaResponse(model, Some(OllamaMessage("assistant", pre + category + post))));
    StripPadded(pre, category, post);
  }

  // ---------------------------------------------------------------------------------------
  // The two stages together
  // ---------------------------------------------------------------------------------------

  datatype CategorizerConfig = CategorizerConfig(keywordMap: KeywordMap, aiCategories: seq<string>)

  /**
   `categorize`: the first keyword match on the claim's token set, and only if there is
   none, the chat-completion stage on the claim text. `ask` is the service: what it
   replies for a given claim text.
   */
  function Categorize(text: string, config: CategorizerConfig, ask: string -> AiReply): (r: Attempt<string>)
    ensures forall i :: IsFirstMatch(config.keywordMap, Preprocess(text), i) ==>
              r == Returned(config.keywordMap[i].0)
    ensures NoKeywordMatch(config.keywordMap, Preprocess(text)) ==>
              r == CategorizeWithAi(ask(text), config.aiCategories)
  {
    match MatchKeywords(config.keywordMap, Preprocess(text))
    case Some(category) =>
      FirstMatchUnique(config.keywordMap, Preprocess(text));
      Returned(category)
    case None => CategorizeWithAi(ask(text), config.aiCategories)
  }

  lemma FirstMatchUnique(m: KeywordMap, words: set<string>)
    ensures forall i, j :: IsFirstMatch(m, words, i) && IsFirstMatch(m, words, j) ==> i == j
  {
  }

  /** When a keyword matches, the chat-completion service is never consulted: its replies do not matter. */
  lemma KeywordMatchSkipsAi(text: string, config: CategorizerConfig, ask1: string -> AiReply, ask2: string -> AiReply)
    requires !NoKeywordMatch(config.keywordMap, Preprocess(text))
    ensures Categorize(text, config, ask1) == Categorize(text, config, ask2)
    ensures Categorize(text, config, ask1).Returned?
  {
  }
}
