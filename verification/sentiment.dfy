/**
 The sentiment client: the outcome of the call to the sentiment service mapped to a
 sentiment label and an optional warning. The call itself is a parameter: what the
 service gives back for the claim, or a raised error (a network failure, a non-2xx
 status, an undecodable body).
 */
module SentimentClient {
  import opened Base
  import opened Text
  import Schemas

  const FailureWarning: string := "Sentiment analysis failed; value defaulted to 'Unknown'."
  const UnknownLabel: string := "Unknown"
  const DefaultLabel: string := "Neutral"

  /**
   Whether the exception path is taken: the call raised, the body is not an object
   (`.get` raises), or the label is not a string (`.capitalize` raises).
   */
  predicate AnalysisFails(reply: Attempt<PyValue>) {
    match reply
    case Raised => true
    case Returned(body) =>
      !body.PyDict? || (("sentiment" in body.fields) && !body.fields["sentiment"].PyStr?)
  }

  /** The label the service reported, `"Neutral"` when the key is missing. */
  function ReportedLabel(body: PyValue): string
    requires body.PyDict?
    requires "sentiment" in body.fields ==> body.fields["sentiment"].PyStr?
  {
    if "sentiment" in body.fields then body.fields["sentiment"].s else DefaultLabel
  }

  /**
   `analyze_sentiment`: on success the reported label capitalised and no warning; on any
   failure the label "Unknown" and the fixed warning. The label is kept as a string, so
   labels outside the `Sentiment` enumeration pass through.
   */
  function AnalyzeSentiment(reply: Attempt<PyValue>): (r: (string, Option<string>))
    ensures r.1.Some? <==> AnalysisFails(reply)
    ensures AnalysisFails(reply) ==> r == (UnknownLabel, Some(FailureWarning))
    ensures !AnalysisFails(reply) ==> r.0 == Capitalize(ReportedLabel(reply.value))
  {
    match reply
    case Raised => (UnknownLabel, Some(FailureWarning))
    case Returned(body) =>
      if !body.PyDict? then (UnknownLabel, Some(FailureWarning))
      else
        var reported := if "sentiment" in body.fields then body.fields["sentiment"] else PyStr(DefaultLabel);
        match reported
        case PyStr(s) => (Capitalize(s), None)
        case _ => (UnknownLabel, Some(FailureWarning))
  }

  /** A reply object with the given label. */
  function LabelReply(text: string, extra: map<string, PyValue>): Attempt<PyValue> {
    Returned(PyDict(extra["sentiment" := PyStr(text)]))
  }

  /** The service's casing does not matter: labels equal up to case give the same result. */
  lemma AnalysisIgnoresLabelCase(a: string, b: string, extra: map<string, PyValue>)
    requires Lower(a) == Lower(b)
    ensures AnalyzeSentiment(LabelReply(a, extra)) == AnalyzeSentiment(LabelReply(b, extra))
  {
    CapitalizeIgnoresCase(a, b);
  }

  /** "positive" and "POSITIVE" both give the enum value Positive, with no warning. */
  lemma PositiveInAnyCase(extra: map<string, PyValue>)
    ensures AnalyzeSentiment(LabelReply("positive", extra)) == ("Positive", None)
    ensures AnalyzeSentiment(LabelReply("POSITIVE", extra)) == ("Positive", None)
    ensures Schemas.ParseSentiment(AnalyzeSentiment(LabelReply("positive", extra)).0) == Some(Schemas.Positive)
  {
    CapitalizePositive();
  }

  /** A reply object without the key reports Neutral, with no warning. */
  lemma MissingLabelIsNeutral(fields: map<string, PyValue>)
    requires "sentiment" !in fields
    ensures AnalyzeSentiment(Returned(PyDict(fields))) == ("Neutral", None)
  {
    assert Capitalize("Neutral") == "Neutral";
  }
}
