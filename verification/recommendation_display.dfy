/** The consultative report panel: which of its faces a stored payload
    selects once the fences are stripped and the text is handed to
    `JSON.parse` (the parameter `parse`; `None` means it threw). */
module RecommendationDisplay {
  import opened Options
  import opened JsValues
  import opened Text
  import opened ReportCleaning

  /** One loading step per hundred characters of cleaned text. */
  const CharsPerStep: nat := 100
  const DefaultInvalidMessage := "This does not appear to be a valid case document."

  datatype View =
    | Loading(progressIndex: nat)
    | InvalidDocument(message: Value)
    | Report(report: Value)
      /** Destructuring a parsed `null` throws before any card is chosen.
          Throws from inside the report's own markup are not modelled:
          `Report` is the face chosen, not a promise that it renders. */
    | NullPayloadThrows

  predicate IsInvalidDocumentSentinel(v: Value) {
    HasStringField(v, "error", "invalid_document")
  }

  /** The face chosen for a payload that parsed. */
  function ViewOfParsed(v: Value): (r: View)
    ensures !r.Loading?
    ensures r.InvalidDocument? <==> IsInvalidDocumentSentinel(v)
    ensures r.InvalidDocument? ==> Truthy(r.message)
    ensures r.NullPayloadThrows? <==> v.Null? || v.Undefined?
    ensures r.Report? ==> r.report == v
  {
    if IsInvalidDocumentSentinel(v) then InvalidDocument(MessageOr(v.fields, DefaultInvalidMessage))
    else if v.Null? || v.Undefined? then NullPayloadThrows
    else Report(v)
  }

  /** The face shown for the stored or streamed text `data`: the loading
      list while the cleaned text does not parse, the parsed face once it
      does. */
  function RecommendationView(data: string, parse: string -> Option<Value>): (r: View)
    ensures r.Loading? <==> parse(CleanFences(data)).None?
    ensures r.Loading? ==> r.progressIndex == ProgressIndex(|CleanFences(data)|, CharsPerStep)
    ensures r.Loading? ==> r.progressIndex < LoadingStepCount
    ensures parse(CleanFences(data)).Some? ==> r == ViewOfParsed(parse(CleanFences(data)).value)
  {
    var cleaned := CleanFences(data);
    match parse(cleaned)
    case None => Loading(ProgressIndex(|cleaned|, CharsPerStep))
    case Some(v) => ViewOfParsed(v)
  }

  /** Wrapping an object text in a "```json" fence does not change what
      the panel shows. */
  lemma FencedPayloadSameView(w0: string, tag: string, w1: string, b: string, w2: string, w3: string,
                              parse: string -> Option<Value>)
    requires AllSpace(w0) && AllSpace(w1) && AllSpace(w2) && AllSpace(w3)
    requires IsJsonTag(tag) && IsObjectText(b)
    ensures RecommendationView(w0 + Fence + tag + w1 + b + w2 + Fence + w3, parse) == RecommendationView(b, parse)
  {
    CleanJsonFenced(w0, tag, w1, b, w2, w3);
    CleanObjectText(b);
  }

  /** An invalid-document sentinel is shown with its own message, or the
      fixed text when that message is empty; no other field matters. */
  lemma InvalidDocumentShown(data: string, parse: string -> Option<Value>, fields: map<string, Value>, message: string)
    requires parse(CleanFences(data)) == Some(Obj(fields))
    requires "error" in fields && fields["error"] == Str("invalid_document")
    requires "message" in fields && fields["message"] == Str(message)
    ensures message != "" ==> RecommendationView(data, parse) == InvalidDocument(Str(message))
    ensures message == "" ==> RecommendationView(data, parse) == InvalidDocument(Str(DefaultInvalidMessage))
  {
  }

  /** While the text does not parse, the highlighted step only moves
      forward as the stream grows. */
  lemma LoadingAdvancesWithText(short: string, long: string, parse: string -> Option<Value>)
    requires parse(CleanFences(short)).None? && parse(CleanFences(long)).None?
    requires |CleanFences(short)| <= |CleanFences(long)|
    ensures RecommendationView(short, parse).progressIndex <= RecommendationView(long, parse).progressIndex
  {
    ProgressIndexMonotone(|CleanFences(short)|, |CleanFences(long)|, CharsPerStep);
  }
}
