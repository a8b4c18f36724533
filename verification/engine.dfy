/** `generateRecommendations`: classify the document (or take the
    jurisdiction the caller supplies), fetch the organisation's rules
    through the cache, and build the prompt for the requested mode. The
    streamed model call itself is outside the model; the result here is
    the request that would be streamed. */
module Engine {
  import opened Options
  import opened JsValues
  import opened InstitutionRules
  import opened RuleCache
  import opened Classifier
  import opened Prompts

  const WithParametersMode := "with_parameters"

  datatype CaseContext = CaseContext(
    text: string,
    orgId: string,
    /** `None` is an absent `analysisMode`, which defaults to "default". */
    analysisMode: Option<string>,
    /** The pre-provided jurisdiction; `Undefined` when absent. */
    jurisdiction: Value)

  datatype Generation = Generation(
    /** The message sent to the classifier, if it was consulted. */
    classifierQuery: Option<string>,
    /** The prompt to be streamed; `None` when generation throws. */
    request: Option<Prompt>,
    /** The rules cache after the call. */
    cache: Cache)

  /** The classification stand-in built when a jurisdiction is supplied. */
  function PreProvidedClassification(j: Value): (r: Value)
    ensures r.Obj? && Field(r.fields, "jurisdiction") == j
    ensures Field(r.fields, "is_icsid") == Bool(j == Str("ICSID"))
  {
    Obj(map["is_icsid" := Bool(j == Str("ICSID")), "jurisdiction" := j,
            "rationale" := Str("Pre-provided jurisdiction")])
  }

  /** How many rules the prompt of a mode embeds. */
  function RuleCap(mode: Option<string>): nat {
    if mode == Some(WithParametersMode) then ParameterizedRuleCap else RecommendationRuleCap
  }

  /** The builder chosen by `analysisMode`: only "with_parameters" selects
      the compliance audit. */
  function BuildPrompt(mode: Option<string>, text: string, rules: seq<StoredRule>, j: Value): (p: Prompt)
    ensures p.kind == ParameterizedPrompt <==> mode == Some(WithParametersMode)
    ensures p.userMessage == UserMessage(text)
    ensures p.jurisdiction == WithDefault(j)
    ensures p.embeddedRules == EmbeddedRules(rules, RuleCap(mode))
  {
    if mode == Some(WithParametersMode) then BuildParameterizedPrompt(text, rules, j)
    else BuildRecommendationPrompt(text, rules, j)
  }

  /** The first half of the `Promise.all`: a supplied truthy jurisdiction
      short-circuits the classifier. */
  function ClassificationOf(ctx: CaseContext, reply: Option<ModelReply>, parse: string -> Option<Value>): (c: Classification)
    ensures Truthy(ctx.jurisdiction) ==>
              c.Classified? && c.query.None? && EffectiveJurisdiction(c.result) == Some(ctx.jurisdiction)
    ensures !Truthy(ctx.jurisdiction) ==> c == ClassifyDocument(ctx.text, None, reply, parse)
  {
    if Truthy(ctx.jurisdiction) then Classified(PreProvidedClassification(ctx.jurisdiction), None)
    else ClassifyDocument(ctx.text, None, reply, parse)
  }

  /** The prompt built once both halves have settled; `None` when the
      classification threw or its jurisdiction could not be read. */
  function RequestOf(ctx: CaseContext, c: Classification, rules: seq<StoredRule>): (r: Option<Prompt>)
    ensures r.None? <==> c.Threw? || EffectiveJurisdiction(c.result).None?
    ensures r.Some? ==>
              && (r.value.kind == ParameterizedPrompt <==> ctx.analysisMode == Some(WithParametersMode))
              && r.value.userMessage == UserMessage(ctx.text)
              && r.value.jurisdiction == EffectiveJurisdiction(c.result).value
              && Truthy(r.value.jurisdiction)
              && r.value.embeddedRules == EmbeddedRules(rules, RuleCap(ctx.analysisMode))
  {
    if c.Threw? then None
    else match EffectiveJurisdiction(c.result)
      case None => None
      case Some(j) => Some(BuildPrompt(ctx.analysisMode, ctx.text, rules, j))
  }

  /** The rules query is issued (the cache entry is not fresh) and fails,
      which makes the `Promise.all` reject. */
  predicate RulesQueryFails(cache: Cache, orgId: string, now: int, queryFault: bool) {
    queryFault && !Fresh(cache, orgId, now)
  }

  /** `generateRecommendations(caseContext)`. `now` is the clock reading
      of the freshness check and `storedAt` the one taken once the rules
      query has returned; `queryFault` says whether that query fails.
      `reply` and `parse` are the classifier's reply and `JSON.parse`, as
      for `ClassifyDocument`. Rule fetching runs alongside classification
      and completes even when classification throws, so the cache is
      updated on every path where the query succeeds. */
  function GenerateRecommendations(ctx: CaseContext, cache: Cache, t: Table, now: int, storedAt: int, queryFault: bool,
                                   reply: Option<ModelReply>, parse: string -> Option<Value>): (g: Generation)
    ensures RulesQueryFails(cache, ctx.orgId, now, queryFault) ==> g.cache == cache && g.request.None?
    ensures !RulesQueryFails(cache, ctx.orgId, now, queryFault) ==>
              g.cache == MatchRules(cache, t, ctx.orgId, true, now, storedAt).cache
    ensures Truthy(ctx.jurisdiction) ==> g.classifierQuery.None?
    ensures !Truthy(ctx.jurisdiction) ==> g.classifierQuery == Some(ClassifierMessage(ctx.text))
    ensures g.request.Some? ==>
              g.request.value.embeddedRules ==
                EmbeddedRules(MatchRules(cache, t, ctx.orgId, true, now, storedAt).rules, RuleCap(ctx.analysisMode))
    ensures Truthy(ctx.jurisdiction) ==>
              (g.request.Some? <==> !RulesQueryFails(cache, ctx.orgId, now, queryFault))
              && (g.request.Some? ==> g.request.value.jurisdiction == ctx.jurisdiction)
    ensures g.request.Some? ==>
              && (g.request.value.kind == ParameterizedPrompt <==> ctx.analysisMode == Some(WithParametersMode))
              && g.request.value.userMessage == UserMessage(ctx.text)
              && Truthy(g.request.value.jurisdiction)
  {
    var classification := ClassificationOf(ctx, reply, parse);
    if RulesQueryFails(cache, ctx.orgId, now, queryFault) then Generation(classification.query, None, cache)
    else
      var lookup := MatchRules(cache, t, ctx.orgId, true, now, storedAt);
      Generation(classification.query, RequestOf(ctx, classification, lookup.rules), lookup.cache)
  }

  /** The reply parses to `null` (or `undefined`), whose `jurisdiction`
      read then throws: the text of a text block, or "{}" for any other
      first block. */
  predicate NullishReply(reply: Option<ModelReply>, parse: string -> Option<Value>) {
    match reply
    case Some(TextBlock(content)) => ParsesToNullish(content, parse)
    case Some(OtherBlock) => ParsesToNullish(NoText, parse)
    case _ => false
  }

  predicate ParsesToNullish(content: string, parse: string -> Option<Value>) {
    parse(StripAllFences(content)) == Some(Null) || parse(StripAllFences(content)) == Some(Undefined)
  }

  /** When the classifier is consulted, generation fails exactly when the
      rules query fails, the model call fails or returns no content, or
      the reply parses to `null`; every other reply yields a prompt,
      unparseable ones under the ICSID default. */
  lemma ConsultedGenerationFailure(ctx: CaseContext, cache: Cache, t: Table, now: int, storedAt: int,
                                   queryFault: bool, reply: Option<ModelReply>, parse: string -> Option<Value>)
    requires !Truthy(ctx.jurisdiction)
    ensures (GenerateRecommendations(ctx, cache, t, now, storedAt, queryFault, reply, parse).request.None?)
              == (|| RulesQueryFails(cache, ctx.orgId, now, queryFault)
                  || reply.None? || reply == Some(EmptyContent)
                  || NullishReply(reply, parse))
  {
    ConsultedClassifierOutcome(ctx, reply, parse);
  }

  /** What the classifier step yields when it is consulted. */
  lemma ConsultedClassifierOutcome(ctx: CaseContext, reply: Option<ModelReply>, parse: string -> Option<Value>)
    requires !Truthy(ctx.jurisdiction)
    ensures var c := ClassificationOf(ctx, reply, parse);
            && (c.Threw? <==> reply.None? || reply == Some(EmptyContent))
            && (c.Classified? ==> (EffectiveJurisdiction(c.result).None? <==> NullishReply(reply, parse)))
  {
    var c := ClassifyDocument(ctx.text, None, reply, parse);
    assert ClassificationOf(ctx, reply, parse) == c;
    match reply
    case None =>
    case Some(EmptyContent) =>
    case Some(TextBlock(content)) =>
      assert c.result == ParseReply(content, parse);
      ParsedReplyNullish(content, parse);
    case Some(OtherBlock) =>
      assert c.result == ParseReply(NoText, parse);
      ParsedReplyNullish(NoText, parse);
  }

  lemma ParsedReplyNullish(content: string, parse: string -> Option<Value>)
    ensures EffectiveJurisdiction(ParseReply(content, parse)).None? <==> ParsesToNullish(content, parse)
  {
  }

  /** A fresh cached snapshot is what the prompt embeds: rules stored
      since are not seen until the entry expires. */
  lemma FreshSnapshotEmbedded(ctx: CaseContext, cache: Cache, t: Table, now: int, storedAt: int, queryFault: bool,
                              reply: Option<ModelReply>, parse: string -> Option<Value>)
    requires Fresh(cache, ctx.orgId, now)
    ensures var g := GenerateRecommendations(ctx, cache, t, now, storedAt, queryFault, reply, parse);
            && g.cache == cache
            && (g.request.Some? ==> g.request.value.embeddedRules == EmbeddedRules(cache[ctx.orgId].data, RuleCap(ctx.analysisMode)))
  {
  }

  /** On a cache miss the prompt embeds the organisation's rules of
      highest authority: no rule of the organisation left out of the
      excerpt has a lower hierarchy level than one embedded. */
  lemma EmbeddedRulesHaveHighestAuthority(ctx: CaseContext, cache: Cache, t: Table, now: int, storedAt: int,
                                          queryFault: bool, reply: Option<ModelReply>, parse: string -> Option<Value>)
    requires !Fresh(cache, ctx.orgId, now)
    ensures var g := GenerateRecommendations(ctx, cache, t, now, storedAt, queryFault, reply, parse);
            var rules := QueryRules(t, ctx.orgId);
            g.request.Some? ==>
              forall i, x :: 0 <= i < |g.request.value.embeddedRules| && x in rules[|g.request.value.embeddedRules|..] ==>
                g.request.value.embeddedRules[i].hierarchyLevel <= x.row.hierarchyLevel
  {
    var g := GenerateRecommendations(ctx, cache, t, now, storedAt, queryFault, reply, parse);
    ExcerptHasHighestAuthority(QueryRules(t, ctx.orgId), RuleCap(ctx.analysisMode));
  }

  /** The excerpt of a list sorted by hierarchy level holds its rules of
      highest authority. */
  lemma ExcerptHasHighestAuthority(rules: seq<StoredRule>, cap: nat)
    requires SortedByLevel(rules)
    ensures var e := EmbeddedRules(rules, cap);
            forall i, x :: 0 <= i < |e| && x in rules[|e|..] ==> e[i].hierarchyLevel <= x.row.hierarchyLevel
  {
    var e := EmbeddedRules(rules, cap);
    forall i, x | 0 <= i < |e| && x in rules[|e|..]
      ensures e[i].hierarchyLevel <= x.row.hierarchyLevel
    {
      var k :| |e| <= k < |rules| && rules[k] == x;
    }
  }
}
