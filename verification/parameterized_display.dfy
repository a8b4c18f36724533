/** The compliance-audit panel: the precedence among its sentinel faces,
    the loading list, and the mappings from audit strings to colours,
    icons and the visibility of a remedy line. */
module ParameterizedDisplay {
  import opened Options
  import opened JsValues
  import opened Text
  import opened ReportCleaning

  /** One loading step per hundred and fifty characters of cleaned text. */
  const CharsPerStep: nat := 150
  const DefaultInvalidMessage := "This does not appear to be a valid case document."
  const DefaultNonIcsidMessage := "This document appears to be from a non-ICSID proceeding."

  datatype View =
    | Loading(progressIndex: nat)
    | InvalidDocument(message: Value)
    | NonIcsidDocument(message: Value)
      /** The "formatting issue" card that prints `raw_response`. */
    | RawResponse(raw: Value)
    | Audit(report: Value)
      /** Reading `raw_response` of a parsed `null` throws before any card
          is chosen. Throws from inside the audit's own markup are not
          modelled: `Audit` is the face chosen, not a promise that it
          renders. */
    | NullPayloadThrows

  predicate IsInvalidDocumentSentinel(v: Value) {
    HasStringField(v, "error", "invalid_document")
  }

  predicate IsNonIcsidSentinel(v: Value) {
    HasStringField(v, "warning", "non_icsid_document")
  }

  /** `parsed.raw_response` is truthy. */
  predicate HasRawResponse(v: Value) {
    v.Obj? && Truthy(Field(v.fields, "raw_response"))
  }

  /** The face chosen for a payload that parsed: invalid document first,
      then the non-ICSID warning, then a raw response, then the audit. */
  function ViewOfParsed(v: Value): (r: View)
    ensures !r.Loading?
    ensures r.InvalidDocument? <==> IsInvalidDocumentSentinel(v)
    ensures r.NonIcsidDocument? <==> !IsInvalidDocumentSentinel(v) && IsNonIcsidSentinel(v)
    ensures r.RawResponse? <==> !IsInvalidDocumentSentinel(v) && !IsNonIcsidSentinel(v) && HasRawResponse(v)
    ensures r.NullPayloadThrows? <==> v.Null? || v.Undefined?
    ensures r.InvalidDocument? || r.NonIcsidDocument? ==> Truthy(r.message)
    ensures r.RawResponse? ==> Truthy(r.raw)
    ensures r.Audit? ==> r.report == v
  {
    if IsInvalidDocumentSentinel(v) then InvalidDocument(MessageOr(v.fields, DefaultInvalidMessage))
    else if IsNonIcsidSentinel(v) then NonIcsidDocument(MessageOr(v.fields, DefaultNonIcsidMessage))
    else
      match Get(v, "raw_response")
      case None => NullPayloadThrows
      case Some(raw) => if Truthy(raw) then RawResponse(raw) else Audit(v)
  }

  /** The face shown for the stored or streamed text `data`: the loading
      list while the cleaned text does not parse, the parsed face once it
      does. */
  function ParameterizedView(data: string, parse: string -> Option<Value>): (r: View)
    ensures r.Loading? <==> parse(CleanFences(data)).None?
    ensures r.Loading? ==> r.progressIndex == ProgressIndex(|CleanFences(data)|, CharsPerStep)
    ensures r.Loading? ==> r.progressIndex < LoadingStepCount
    ensures parse(CleanFences(data)).Some? ==> r == ViewOfParsed(parse(CleanFences(data)).value)
  {
    var cleaned := CleanFences(data);
    match parse(cleaned)
    case None => Loading(ProgressIndex(|cleaned|, CharsPerStep))
    case Some(v) => ViewOfParsed(v)
  }

  /** An object carrying every sentinel at once is shown as an invalid
      document; without that one, as a non-ICSID document. */
  lemma SentinelPrecedence(fields: map<string, Value>, message: Value, raw: Value)
    requires Truthy(raw)
    ensures ViewOfParsed(Obj(fields["error" := Str("invalid_document")]["warning" := Str("non_icsid_document")]["raw_response" := raw])).InvalidDocument?
    ensures "error" !in fields ==> ViewOfParsed(Obj(fields["warning" := Str("non_icsid_document")]["raw_response" := raw])).NonIcsidDocument?
    ensures "error" !in fields && "warning" !in fields ==> ViewOfParsed(Obj(fields["raw_response" := raw])) == RawResponse(raw)
  {
  }

  /** Wrapping an object text in a bare "```" fence does not change what
      the panel shows. */
  lemma FencedPayloadSameView(w0: string, w1: string, b: string, w2: string, w3: string,
                              parse: string -> Option<Value>)
    requires AllSpace(w0) && AllSpace(w1) && AllSpace(w2) && AllSpace(w3)
    requires IsObjectText(b)
    ensures ParameterizedView(w0 + Fence + w1 + b + w2 + Fence + w3, parse) == ParameterizedView(b, parse)
  {
    CleanPlainFenced(w0, w1, b, w2, w3);
    CleanObjectText(b);
  }

  /** While the text does not parse, the highlighted step only moves
      forward as the stream grows. */
  lemma LoadingAdvancesWithText(short: string, long: string, parse: string -> Option<Value>)
    requires parse(CleanFences(short)).None? && parse(CleanFences(long)).None?
    requires |CleanFences(short)| <= |CleanFences(long)|
    ensures ParameterizedView(short, parse).progressIndex <= ParameterizedView(long, parse).progressIndex
  {
    ProgressIndexMonotone(|CleanFences(short)|, |CleanFences(long)|, CharsPerStep);
  }

  datatype ComplianceColor = Green | Yellow | Red | Muted

  const ComplianceLevels: set<string> := {"fully_compliant", "partially_compliant", "non_compliant"}

  /** The level a colour stands for; the inverse of `ComplianceColorOf`. */
  function LevelOfColor(c: ComplianceColor): Option<string> {
    match c
    case Green => Some("fully_compliant")
    case Yellow => Some("partially_compliant")
    case Red => Some("non_compliant")
    case Muted => None
  }

  /** `getComplianceColor`: total; each known level has its own colour,
      every other string the muted one. */
  function ComplianceColorOf(overall: string): (r: ComplianceColor)
    ensures r == Muted <==> overall !in ComplianceLevels
    ensures r != Muted ==> LevelOfColor(r) == Some(overall)
  {
    match overall
    case "fully_compliant" => Green
    case "partially_compliant" => Yellow
    case "non_compliant" => Red
    case _ => Muted
  }

  datatype StatusIcon = CheckIcon | CrossIcon | InfoIcon

  /** `getStatusIcon`: total over provision statuses. */
  function StatusIconOf(status: string): (r: StatusIcon)
    ensures r == CheckIcon <==> status == "compliant"
    ensures r == CrossIcon <==> status == "non_compliant"
  {
    match status
    case "compliant" => CheckIcon
    case "non_compliant" => CrossIcon
    case _ => InfoIcon
  }

  /** One entry of `mandatory_compliance`, as far as the panel reads it. */
  datatype ComplianceItem = ComplianceItem(status: string, actionRequired: Option<string>)

  /** The remedy line is rendered only for a present, non-empty
      `action_required` on a non-compliant provision. */
  predicate ActionRequiredVisible(item: ComplianceItem) {
    item.actionRequired.Some? && item.actionRequired.value != "" && item.status == "non_compliant"
  }

  /** A remedy line always sits next to the red cross, never next to the
      check mark or the neutral icon. */
  lemma ActionRequiredOnlyWithCross(item: ComplianceItem)
    ensures ActionRequiredVisible(item) ==> StatusIconOf(item.status) == CrossIcon
    ensures StatusIconOf(item.status) != CrossIcon ==> !ActionRequiredVisible(item)
    ensures item.actionRequired.Some? && item.actionRequired.value != "" ==>
              (ActionRequiredVisible(item) <==> StatusIconOf(item.status) == CrossIcon)
  {
  }
}
