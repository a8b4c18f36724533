/** The two prompt builders. The system prompt's prose is fixed text
    around a few computed parts, and those parts are what is modelled:
    the jurisdiction, whether the ICSID framing is used, the capped rule
    excerpt, and the truncated document in the user message. */
module Prompts {
  import opened Options
  import opened JsValues
  import opened Text
  import opened InstitutionRules

  /** The document is cut to its first fifty thousand characters. */
  const DocumentWindow: nat := 50000
  const RecommendationRuleCap: nat := 10
  const ParameterizedRuleCap: nat := 15
  const UserMessageHead := "CASE DOCUMENT:\n\n"

  /** A rule as embedded in a prompt. */
  datatype RuleSummary = RuleSummary(id: string, title: Option<string>, category: string, hierarchyLevel: int)

  /** `{ id, title, category: r.category || 'General', hierarchyLevel }`.
      Stored rules have no `category` column, so the fallback applies to
      every rule. */
  function Summarize(r: StoredRule): RuleSummary {
    RuleSummary(r.id, r.row.title, "General", r.row.hierarchyLevel)
  }

  datatype PromptKind = RecommendationPrompt | ParameterizedPrompt

  datatype Prompt = Prompt(
    kind: PromptKind,
    jurisdiction: Value,
    isIcsid: bool,
    embeddedRules: seq<RuleSummary>,
    userMessage: string)

  /** `rules.slice(0, cap).map(...)`. */
  function EmbeddedRules(rules: seq<StoredRule>, cap: nat): (r: seq<RuleSummary>)
    ensures |r| == if |rules| <= cap then |rules| else cap
    ensures forall i :: 0 <= i < |r| ==>
              r[i].id == rules[i].id && r[i].title == rules[i].row.title
              && r[i].hierarchyLevel == rules[i].row.hierarchyLevel && r[i].category == "General"
  {
    var n := if |rules| <= cap then |rules| else cap;
    seq(n, i requires 0 <= i < n => Summarize(rules[i]))
  }

  /** `CASE DOCUMENT:\n\n${caseText.slice(0, 50000)}`. */
  function UserMessage(caseText: string): string {
    UserMessageHead + Prefix(caseText, DocumentWindow)
  }

  /** The document part of a user message. */
  function DocumentOf(message: string): string
    requires |message| >= |UserMessageHead|
  {
    message[|UserMessageHead|..]
  }

  /** The user message carries the head of the document: all of it up to
      fifty thousand characters, the rest silently dropped. */
  lemma UserMessageCarriesDocumentHead(caseText: string)
    ensures var d := DocumentOf(UserMessage(caseText));
            d == caseText[..|d|]
            && |d| == (if |caseText| <= DocumentWindow then |caseText| else DocumentWindow)
            && (|caseText| <= DocumentWindow <==> d == caseText)
  {
    var m := UserMessage(caseText);
    assert m[|UserMessageHead|..] == Prefix(caseText, DocumentWindow);
  }

  /** The `jurisdiction = "ICSID"` default applies to an `undefined`
      argument only. */
  function WithDefault(jurisdiction: Value): (r: Value)
    ensures !r.Undefined?
    ensures !jurisdiction.Undefined? ==> r == jurisdiction
    ensures jurisdiction.Undefined? ==> r == Str("ICSID")
  {
    if jurisdiction.Undefined? then Str("ICSID") else jurisdiction
  }

  function Build(kind: PromptKind, cap: nat, caseText: string, rules: seq<StoredRule>, jurisdiction: Value): Prompt {
    var j := WithDefault(jurisdiction);
    Prompt(kind, j, j == Str("ICSID"), EmbeddedRules(rules, cap), UserMessage(caseText))
  }

  /** `buildRecommendationPrompt`. */
  function BuildRecommendationPrompt(caseText: string, rules: seq<StoredRule>, jurisdiction: Value): (p: Prompt)
    ensures p.kind == RecommendationPrompt
    ensures p.jurisdiction == WithDefault(jurisdiction)
    ensures p.userMessage == UserMessage(caseText)
    ensures p.embeddedRules == EmbeddedRules(rules, RecommendationRuleCap)
    ensures p.isIcsid <==> jurisdiction == Str("ICSID") || jurisdiction.Undefined?
    ensures |p.embeddedRules| <= RecommendationRuleCap
    ensures |rules| <= RecommendationRuleCap ==> |p.embeddedRules| == |rules|
  {
    Build(RecommendationPrompt, RecommendationRuleCap, caseText, rules, jurisdiction)
  }

  /** `buildParameterizedPrompt`. */
  function BuildParameterizedPrompt(caseText: string, rules: seq<StoredRule>, jurisdiction: Value): (p: Prompt)
    ensures p.kind == ParameterizedPrompt
    ensures p.jurisdiction == WithDefault(jurisdiction)
    ensures p.userMessage == UserMessage(caseText)
    ensures p.embeddedRules == EmbeddedRules(rules, ParameterizedRuleCap)
    ensures p.isIcsid <==> jurisdiction == Str("ICSID") || jurisdiction.Undefined?
    ensures |p.embeddedRules| <= ParameterizedRuleCap
    ensures |rules| <= ParameterizedRuleCap ==> |p.embeddedRules| == |rules|
  {
    Build(ParameterizedPrompt, ParameterizedRuleCap, caseText, rules, jurisdiction)
  }

  /** The two builders differ only in kind and cap: same jurisdiction and
      framing, same user message, and the consultative excerpt is the
      first part of the audit excerpt. */
  lemma BuildersAgree(caseText: string, rules: seq<StoredRule>, jurisdiction: Value)
    ensures var a := BuildRecommendationPrompt(caseText, rules, jurisdiction);
            var b := BuildParameterizedPrompt(caseText, rules, jurisdiction);
            && a.jurisdiction == b.jurisdiction && a.isIcsid == b.isIcsid
            && a.userMessage == b.userMessage
            && a.embeddedRules == b.embeddedRules[..|a.embeddedRules|]
            && (|rules| <= RecommendationRuleCap ==> a.embeddedRules == b.embeddedRules)
  {
  }
}
