/**
 The schema types of the claim service: the closed `Sentiment` and `ClaimCategory`
 enumerations, the reply shape of the chat-completion service, and the two claim
 representations (`Claim`, read back from storage, and `ClaimRank`, the response of the
 add endpoint), each with the validation that turns loose values into them.
 */
module Schemas {
  import opened Base

  // ---------------------------------------------------------------------------------------
  // Sentiment
  // ---------------------------------------------------------------------------------------

  datatype Sentiment = Negative | Neutral | Positive | Unknown

  /** The string value of each member. */
  function SentimentValue(s: Sentiment): string {
    match s
    case Negative => "Negative"
    case Neutral => "Neutral"
    case Positive => "Positive"
    case Unknown => "Unknown"
  }

  const SentimentValues: set<string> := {"Negative", "Neutral", "Positive", "Unknown"}

  /**
   Enum validation of a string: only the exact value of a member is accepted, so a
   label in any other casing, or any other label, is rejected.
   */
  function ParseSentiment(v: string): (r: Option<Sentiment>)
    ensures r.Some? <==> v in SentimentValues
    ensures r.Some? ==> SentimentValue(r.value) == v
  {
    if v == "Negative" then Some(Negative)
    else if v == "Neutral" then Some(Neutral)
    else if v == "Positive" then Some(Positive)
    else if v == "Unknown" then Some(Unknown)
    else None
  }

  /** Every member validates from its own value, and the four values are distinct. */
  lemma SentimentRoundTrip(s: Sentiment)
    ensures ParseSentiment(SentimentValue(s)) == Some(s)
    ensures |SentimentValues| == 4
  {
  }

  /** The ranking priority: Negative, Neutral and Positive in that order; Unknown has none. */
  function Priority(s: Sentiment): (r: Option<nat>)
    ensures r.None? <==> s == Unknown
    ensures r.Some? ==> r.value <= 2
  {
    match s
    case Negative => Some(0)
    case Neutral => Some(1)
    case Positive => Some(2)
    case Unknown => None
  }

  /** The priorities order the three ranked sentiments strictly: Negative < Neutral < Positive. */
  lemma PriorityOrder(a: Sentiment, b: Sentiment)
    requires Priority(a).Some? && Priority(b).Some?
    ensures Priority(a).value < Priority(b).value <==>
              (a == Negative && b != Negative) || (a == Neutral && b == Positive)
    ensures Priority(a) == Priority(b) <==> a == b
  {
  }

  // ---------------------------------------------------------------------------------------
  // ClaimCategory
  // ---------------------------------------------------------------------------------------

  datatype ClaimCategory = SERVICE | PAYMENT | ACCOUNT | OTHER | AI_UNAVAILABLE

  function CategoryValue(c: ClaimCategory): string {
    match c
    case SERVICE => "SERVICE"
    case PAYMENT => "PAYMENT"
    case ACCOUNT => "ACCOUNT"
    case OTHER => "OTHER"
    case AI_UNAVAILABLE => "AI_UNAVAILABLE"
  }

  const CategoryValues: set<string> := {"SERVICE", "PAYMENT", "ACCOUNT", "OTHER", "AI_UNAVAILABLE"}

  /** Enum validation of a category string: exactly the five member values are accepted. */
  function ParseCategory(v: string): (r: Option<ClaimCategory>)
    ensures r.Some? <==> v in CategoryValues
    ensures r.Some? ==> CategoryValue(r.value) == v
  {
    if v == "SERVICE" then Some(SERVICE)
    else if v == "PAYMENT" then Some(PAYMENT)
    else if v == "ACCOUNT" then Some(ACCOUNT)
    else if v == "OTHER" then Some(OTHER)
    else if v == "AI_UNAVAILABLE" then Some(AI_UNAVAILABLE)
    else None
  }

  /** Every member validates from its own value; the sentinel "AI_ERROR" is not a member. */
  lemma CategoryRoundTrip(c: ClaimCategory)
    ensures ParseCategory(CategoryValue(c)) == Some(c)
    ensures |CategoryValues| == 5
    ensures ParseCategory("AI_ERROR") == None
  {
  }

  // ---------------------------------------------------------------------------------------
  // The chat-completion reply
  // ---------------------------------------------------------------------------------------

  datatype OllamaMessage = OllamaMessage(role: string, content: string)

  /** `message` is optional; when the reply omits it (or sends null) it is `None`. */
  datatype OllamaResponse = OllamaResponse(model: string, message: Option<OllamaMessage>)

  /** A value `message` may hold: null, or an object whose `role` and `content` are strings. */
  predicate WellFormedMessage(m: PyValue) {
    m == PyNull || (m.PyDict? && DictGet(m.fields, "role").PyStr? && DictGet(m.fields, "content").PyStr?)
  }

  /** The `message` field: absent or null gives `None`; otherwise it must be a message object. */
  function ValidateMessageField(fields: map<string, PyValue>): Option<Option<OllamaMessage>> {
    var m := DictGet(fields, "message");
    if m == PyNull then Some(None)
    else if m.PyDict? && DictGet(m.fields, "role").PyStr? && DictGet(m.fields, "content").PyStr? then
      Some(Some(OllamaMessage(m.fields["role"].s, m.fields["content"].s)))
    else None
  }

  /**
   Model validation of a decoded reply body: an object with a string `model` and an
   optional `message` object whose `role` and `content` are strings. Extra keys are
   ignored. `None` stands for a raised validation error.
   */
  function ValidateOllamaResponse(body: PyValue): (r: Option<OllamaResponse>)
    ensures r.Some? <==>
              && body.PyDict?
              && DictGet(body.fields, "model").PyStr?
              && WellFormedMessage(DictGet(body.fields, "message"))
    ensures r.Some? ==> DictGet(body.fields, "model") == PyStr(r.value.model)
    ensures r.Some? ==> (r.value.message.None? <==> DictGet(body.fields, "message") == PyNull)
    ensures r.Some? && r.value.message.Some? ==>
              var m := DictGet(body.fields, "message");
              && DictGet(m.fields, "role") == PyStr(r.value.message.value.role)
              && DictGet(m.fields, "content") == PyStr(r.value.message.value.content)
  {
    if body.PyDict? && DictGet(body.fields, "model").PyStr? then
      match ValidateMessageField(body.fields)
      case Some(message) => Some(OllamaResponse(body.fields["model"].s, message))
      case None => None
    else None
  }

  /** The JSON object the service sends for a reply. */
  function DumpOllamaResponse(r: OllamaResponse): PyValue {
    var head := map["model" := PyStr(r.model)];
    match r.message
    case None => PyDict(head)
    case Some(m) =>
      PyDict(head["message" := PyDict(map["role" := PyStr(m.role), "content" := PyStr(m.content)])])
  }

  /** Keys other than `model` and `message` do not affect validation. */
  lemma ExtraKeysIgnored(fields: map<string, PyValue>, key: string, v: PyValue)
    requires key != "model" && key != "message"
    ensures ValidateOllamaResponse(PyDict(fields[key := v])) == ValidateOllamaResponse(PyDict(fields))
  {
    assert DictGet(fields[key := v], "model") == DictGet(fields, "model");
    assert DictGet(fields[key := v], "message") == DictGet(fields, "message");
  }

  /** Validation accepts the canonical dump of every reply and recovers it, with or without a message. */
  lemma OllamaResponseRoundTrip(r: OllamaResponse)
    ensures ValidateOllamaResponse(DumpOllamaResponse(r)) == Some(r)
  {
  }

  // ---------------------------------------------------------------------------------------
  // Claim (read back from storage)
  // ---------------------------------------------------------------------------------------

  /** A stored claim as the open-claims listing returns it; timestamps are microseconds. */
  datatype Claim = Claim(id: int, sentiment: Sentiment, timestamp: int, text: string, category: ClaimCategory)

  /** What `Claim.model_validate` may be handed: a database row, or any other value. */
  datatype RawInput = SqlRow(columns: seq<(string, PyValue)>) | Value(v: PyValue)

  /**
   `dict(row)`: every column name mapped to the value of the first column so named
   (looking a name up in a row finds its first column).
   */
  function RowDict(columns: seq<(string, PyValue)>): (r: map<string, PyValue>)
    ensures forall name :: name in r ==> exists i :: 0 <= i < |columns| && columns[i].0 == name
  {
    if columns == [] then map[]
    else
      var rest := RowDict(columns[1..]);
      assert forall i :: 1 <= i < |columns| ==> columns[i] == columns[1..][i - 1];
      rest[columns[0].0 := columns[0].1]
  }

  /** Every column's name is a key of the dict, bound to the first column of that name. */
  lemma {:induction false} RowDictLookup(columns: seq<(string, PyValue)>, i: int)
    requires 0 <= i < |columns|
    requires forall j :: 0 <= j < i ==> columns[j].0 != columns[i].0
    ensures columns[i].0 in RowDict(columns)
    ensures RowDict(columns)[columns[i].0] == columns[i].1
  {
    if i > 0 {
      assert columns[i] == columns[1..][i - 1];
      RowDictLookup(columns[1..], i - 1);
    }
  }

  /**
   The before-validator: a row is converted to a dict of its columns, anything else
   is passed on unchanged.
   */
  function ValidateFromRow(data: RawInput): (r: PyValue)
    ensures data.Value? ==> r == data.v
    ensures data.SqlRow? ==> r.PyDict?
    ensures data.SqlRow? ==> forall name :: name in r.fields ==>
              exists i :: 0 <= i < |data.columns| && data.columns[i].0 == name
  {
    match data
    case Value(v) => v
    case SqlRow(columns) => PyDict(RowDict(columns))
  }

  /** Field validation of a `Claim`: `None` stands for a raised validation error. */
  function ClaimFromFields(fields: map<string, PyValue>): (r: Option<Claim>)
    ensures r.Some? <==>
              && DictGet(fields, "id").PyNumber?
              && DictGet(fields, "timestamp").PyNumber?
              && DictGet(fields, "text").PyStr?
              && DictGet(fields, "sentiment").PyStr?
              && DictGet(fields, "category").PyStr?
              && fields["sentiment"].s in SentimentValues
              && fields["category"].s in CategoryValues
    ensures r.Some? ==>
              && fields["id"] == PyNumber(r.value.id)
              && fields["timestamp"] == PyNumber(r.value.timestamp)
              && fields["text"] == PyStr(r.value.text)
              && fields["sentiment"] == PyStr(SentimentValue(r.value.sentiment))
              && fields["category"] == PyStr(CategoryValue(r.value.category))
  {
    if && DictGet(fields, "id").PyNumber?
       && DictGet(fields, "timestamp").PyNumber?
       && DictGet(fields, "text").PyStr?
       && DictGet(fields, "sentiment").PyStr?
       && DictGet(fields, "category").PyStr?
    then
      var sentiment := ParseSentiment(fields["sentiment"].s);
      var category := ParseCategory(fields["category"].s);
      if sentiment.None? || category.None? then None
      else Some(Claim(fields["id"].n, sentiment.value, fields["timestamp"].n, fields["text"].s, category.value))
    else None
  }

  /** `Claim.model_validate`: the before-validator, then field validation of the resulting dict. */
  function ValidateClaim(data: RawInput): Option<Claim> {
    match ValidateFromRow(data)
    case PyDict(fields) => ClaimFromFields(fields)
    case _ => None
  }

  // ---------------------------------------------------------------------------------------
  // ClaimRank (the add endpoint's response)
  // ---------------------------------------------------------------------------------------

  datatype RankStatus = Open | Closed | Pending

  function RankStatusValue(s: RankStatus): string {
    match s
    case Open => "open"
    case Closed => "closed"
    case Pending => "pending"
  }

  function ParseRankStatus(v: string): (r: Option<RankStatus>)
    ensures r.Some? <==> v in {"open", "closed", "pending"}
    ensures r.Some? ==> RankStatusValue(r.value) == v
  {
    if v == "open" then Some(Open)
    else if v == "closed" then Some(Closed)
    else if v == "pending" then Some(Pending)
    else None
  }

  datatype ClaimRank = ClaimRank(
    id: int,
    sentiment: Sentiment,
    status: RankStatus,
    category: ClaimCategory,
    warning: Option<string>)

  /**
   Constructing a `ClaimRank` from loose values: `status` (`None` when not passed)
   defaults to open, `warning` defaults to `None`, and `sentiment` and `category`
   must be exact enum values. `None` stands for a raised validation error.
   */
  function ValidateClaimRank(id: int, sentiment: string, status: Option<string>, category: string,
                             warning: Option<string>): (r: Option<ClaimRank>)
    ensures r.Some? <==>
              && sentiment in SentimentValues
              && category in CategoryValues
              && (status.None? || status.value in {"open", "closed", "pending"})
    ensures r.Some? ==>
              && r.value.id == id
              && SentimentValue(r.value.sentiment) == sentiment
              && CategoryValue(r.value.category) == category
              && r.value.warning == warning
    ensures r.Some? && status.None? ==> r.value.status == Open
    ensures r.Some? && status.Some? ==> RankStatusValue(r.value.status) == status.value
  {
    var st := if status.None? then Some(Open) else ParseRankStatus(status.value);
    match (ParseSentiment(sentiment), ParseCategory(category), st)
    case (Some(s), Some(c), Some(t)) => Some(ClaimRank(id, s, t, c, warning))
    case _ => None
  }
}
