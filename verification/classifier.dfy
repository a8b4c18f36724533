/** `classifyDocument`: determines the governing rules either from a
    caller-supplied jurisdiction (no model call) or from one model call
    over the head of the document, falling back to ICSID when the reply
    does not parse. The model and `JSON.parse` are parameters. */
module Classifier {
  import opened Options
  import opened JsValues
  import opened Text

  /** Only the first ten thousand characters reach the classifier. */
  const ClassifierWindow: nat := 10000

  const MessageHead := "DOCUMENT START:\n"
  const MessageTail := "\nDOCUMENT END"

  /** What the parse step reads when the reply's first block is not text. */
  const NoText := "{}"

  /** The first content block of a model reply. */
  datatype ModelReply = TextBlock(text: string) | OtherBlock | EmptyContent

  /** The user message of the classification request. */
  function ClassifierMessage(text: string): string {
    MessageHead + Prefix(text, ClassifierWindow) + MessageTail
  }

  /** The document part of a classification request. */
  function DocumentPart(message: string): string
    requires |message| >= |MessageHead| + |MessageTail|
  {
    message[|MessageHead|..|message| - |MessageTail|]
  }

  /** The classifier sees the head of the document and nothing else: at
      most ten thousand characters, all of them when the text is short. */
  lemma ClassifierSeesHeadOnly(text: string)
    ensures var d := DocumentPart(ClassifierMessage(text));
            d == text[..|d|] && |d| <= ClassifierWindow
            && (|text| <= ClassifierWindow ==> d == text)
  {
    var p := Prefix(text, ClassifierWindow);
    var m := ClassifierMessage(text);
    assert m[|MessageHead|..|m| - |MessageTail|] == p;
  }

  /** `content.replace(/```json/g, '').replace(/```/g, '').trim()`. */
  function StripAllFences(content: string): (r: string)
    ensures Trimmed(r)
    ensures |r| <= |content|
  {
    Trim(RemoveAll(RemoveAll(content, "```json"), "```"))
  }

  function DefaultClassification(): Value {
    Obj(map["is_icsid" := Bool(true), "jurisdiction" := Str("ICSID"),
            "rationale" := Str("Default to ICSID on error")])
  }

  function ProvidedClassification(jurisdiction: string): Value {
    Obj(map["is_icsid" := Bool(jurisdiction == "ICSID"), "jurisdiction" := Str(jurisdiction),
            "rationale" := Str("User-provided jurisdiction")])
  }

  datatype Classification =
      /** `result` is whatever the reply parsed to (it is not validated);
          `query` the message sent to the model, if one was sent. */
    | Classified(result: Value, query: Option<string>)
      /** The model call failed, or its reply had no content block. */
    | Threw(query: Option<string>)

  /** `classifyDocument(text, { providedJurisdiction })`: `reply` is the
      model's reply to the request (`None` when the request fails). */
  function ClassifyDocument(text: string, provided: Option<string>, reply: Option<ModelReply>,
                            parse: string -> Option<Value>): (r: Classification)
    ensures provided.Some? && provided.value != "" ==>
              r == Classified(ProvidedClassification(provided.value), None)
    ensures !(provided.Some? && provided.value != "") ==> r.query == Some(ClassifierMessage(text))
    ensures r.Threw? <==> !(provided.Some? && provided.value != "") && (reply.None? || reply == Some(EmptyContent))
    ensures !(provided.Some? && provided.value != "") && reply.Some? && reply.value.TextBlock? ==>
              r == Classified(ParseReply(reply.value.text, parse), Some(ClassifierMessage(text)))
    ensures !(provided.Some? && provided.value != "") && reply == Some(OtherBlock) ==>
              r == Classified(ParseReply(NoText, parse), Some(ClassifierMessage(text)))
  {
    if provided.Some? && provided.value != "" then Classified(ProvidedClassification(provided.value), None)
    else
      var query := Some(ClassifierMessage(text));
      match reply
      case None => Threw(query)
      case Some(EmptyContent) => Threw(query)
      case Some(TextBlock(content)) => Classified(ParseReply(content, parse), query)
      case Some(OtherBlock) => Classified(ParseReply(NoText, parse), query)
  }

  /** The parse step of the classifier, which never throws. */
  function ParseReply(content: string, parse: string -> Option<Value>): (r: Value)
    ensures parse(StripAllFences(content)).None? ==> r == DefaultClassification()
    ensures parse(StripAllFences(content)).Some? ==> r == parse(StripAllFences(content)).value
    ensures parse(StripAllFences(content)).None? ==> EffectiveJurisdiction(r) == Some(Str("ICSID"))
  {
    match parse(StripAllFences(content))
    case Some(v) => v
    case None => DefaultClassification()
  }

  /** A reply that does not parse is not an error: the document is taken
      to be ICSID. */
  lemma UnparseableReplyDefaultsToIcsid(text: string, content: string, parse: string -> Option<Value>)
    requires parse(StripAllFences(content)).None?
    ensures ClassifyDocument(text, None, Some(TextBlock(content)), parse) ==
              Classified(DefaultClassification(), Some(ClassifierMessage(text)))
    ensures EffectiveJurisdiction(DefaultClassification()) == Some(Str("ICSID"))
  {
    var d := DefaultClassification();
    assert Field(d.fields, "jurisdiction") == Str("ICSID");
  }

  /** `c.jurisdiction || (c.is_icsid ? "ICSID" : "General Commercial")`;
      `None` when `c` is `null`, whose field read throws. */
  function EffectiveJurisdiction(c: Value): (r: Option<Value>)
    ensures r.None? <==> c.Null? || c.Undefined?
    ensures r.Some? ==> Truthy(r.value)
    ensures c.Obj? && Truthy(Field(c.fields, "jurisdiction")) ==> r == Some(c.fields["jurisdiction"])
    ensures r.Some? && r.value.Str? && r.value.s !in {"ICSID", "General Commercial"} ==>
              c.Obj? && Field(c.fields, "jurisdiction") == r.value
  {
    match Get(c, "jurisdiction")
    case None => None
    case Some(j) =>
      if Truthy(j) then Some(j)
      else
        var flag := Get(c, "is_icsid").GetOr(Undefined);
        Some(Str(if Truthy(flag) then "ICSID" else "General Commercial"))
  }

  /** A supplied jurisdiction passes through unchanged, and the ICSID flag
      holds exactly for "ICSID". */
  lemma ProvidedJurisdictionPassesThrough(text: string, j: string, reply: Option<ModelReply>,
                                          parse: string -> Option<Value>)
    requires j != ""
    ensures var c := ClassifyDocument(text, Some(j), reply, parse);
            && c.Classified? && c.query.None?
            && EffectiveJurisdiction(c.result) == Some(Str(j))
            && Get(c.result, "is_icsid") == Some(Bool(j == "ICSID"))
  {
  }
}
