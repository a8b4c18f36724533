/** Seeding an organisation's ICSID rule set: the fixed derivation of
    hierarchy level and legal-control flags from a rule's document type,
    mandatory flag and parameter tag, the rows built from the convention
    and arbitration-rule data, and the once-per-organisation insert. */
module SeedRules {
  import opened Options
  import opened InstitutionRules

  const Institution := "ICSID"
  const Version := "2022"

  /** `hierarchyLevelMap`; any other document type maps to `undefined`. */
  function HierarchyLevelOf(documentType: string): Option<nat> {
    match documentType
    case "convention" => Some(1)
    case "arbitration_rules" => Some(2)
    case "expedited_arbitration" => Some(3)
    case _ => None
  }

  const NonDerogableTags: seq<string> := ["rule_hierarchy", "tribunal_decision_method", "procedural_discretion"]

  const AnnulmentLinkedTags: seq<string> :=
    ["tribunal_decision_method", "award_timeline", "procedural_discretion", "fundamental_procedure_breach"]

  datatype Flags = Flags(hierarchyLevel: Option<nat>, nonDerogable: bool, annulmentLinked: bool)

  /** The tag is present and non-empty (JavaScript truthiness). */
  predicate TagPresent(tag: Option<string>) {
    tag.Some? && tag.value != ""
  }

  /** `deriveFlags`. */
  function DeriveFlags(documentType: string, mandatory: bool, parameterTag: Option<string>): (f: Flags)
    ensures f.hierarchyLevel.Some? <==> documentType in {"convention", "arbitration_rules", "expedited_arbitration"}
    ensures documentType == "convention" ==> f.nonDerogable
    ensures documentType != "convention" ==>
              (f.nonDerogable <==> mandatory && parameterTag.Some? && parameterTag.value in NonDerogableTags)
    ensures f.annulmentLinked <==> parameterTag.Some? && parameterTag.value in AnnulmentLinkedTags
  {
    var nonDerogable :=
      documentType == "convention" || (mandatory && TagPresent(parameterTag) && parameterTag.value in NonDerogableTags);
    var annulmentLinked := if TagPresent(parameterTag) then parameterTag.value in AnnulmentLinkedTags else false;
    Flags(HierarchyLevelOf(documentType), nonDerogable, annulmentLinked)
  }

  /** Lower level means higher authority: convention, then arbitration
      rules, then expedited arbitration. */
  lemma HierarchyOrder()
    ensures DeriveFlags("convention", false, None).hierarchyLevel == Some(1)
    ensures DeriveFlags("arbitration_rules", false, None).hierarchyLevel == Some(2)
    ensures DeriveFlags("expedited_arbitration", false, None).hierarchyLevel == Some(3)
  {
  }

  /** Annulment linkage depends on the tag alone. */
  lemma AnnulmentLinkIgnoresTypeAndMandatory(d1: string, m1: bool, d2: string, m2: bool, tag: Option<string>)
    ensures DeriveFlags(d1, m1, tag).annulmentLinked == DeriveFlags(d2, m2, tag).annulmentLinked
    ensures !TagPresent(tag) ==> !DeriveFlags(d1, m1, tag).annulmentLinked
  {
  }

  /** Making a rule mandatory can only add non-derogability; the document
      type and tag never depend on it. */
  lemma NonDerogableMonotoneInMandatory(documentType: string, tag: Option<string>)
    ensures DeriveFlags(documentType, false, tag).nonDerogable ==> DeriveFlags(documentType, true, tag).nonDerogable
    ensures documentType != "convention" ==> !DeriveFlags(documentType, false, tag).nonDerogable
  {
  }

  /** How the two tag sets overlap for a mandatory arbitration rule:
      `rule_hierarchy` is non-derogable without annulment linkage, two
      tags carry both flags, and the other two annulment tags only one. */
  lemma TagSetOverlap(tag: string)
    ensures var f := DeriveFlags("arbitration_rules", true, Some(tag));
            (f.nonDerogable && !f.annulmentLinked <==> tag == "rule_hierarchy")
            && (f.nonDerogable && f.annulmentLinked <==> tag == "tribunal_decision_method" || tag == "procedural_discretion")
            && (!f.nonDerogable && f.annulmentLinked <==> tag == "award_timeline" || tag == "fundamental_procedure_breach")
  {
  }

  /** One entry of the convention data file. */
  datatype ConventionEntry = ConventionEntry(
    ref: string, title: Option<string>, summary: Option<string>, mandatory: bool,
    parameterTag: Option<string>, rawScope: Option<string>)

  /** One entry of the arbitration-rules data file. */
  datatype ArbitrationEntry = ArbitrationEntry(
    ref: string, summary: Option<string>, mandatory: bool, parameterTag: Option<string>, aiUsage: Option<string>)

  function ConventionRow(orgId: string, e: ConventionEntry): RuleRow {
    var f := DeriveFlags("convention", e.mandatory, e.parameterTag);
    RuleRow(orgId, Institution, Version, "convention", e.ref, e.title, e.summary, e.mandatory,
            f.nonDerogable, f.annulmentLinked, f.hierarchyLevel.GetOr(0), e.parameterTag,
            "classification_only", ExtraData(e.rawScope, "ICSID Convention"))
  }

  function ArbitrationRow(orgId: string, e: ArbitrationEntry): RuleRow {
    var f := DeriveFlags("arbitration_rules", e.mandatory, e.parameterTag);
    RuleRow(orgId, Institution, Version, "arbitration_rules", e.ref, None, e.summary, e.mandatory,
            f.nonDerogable, f.annulmentLinked, f.hierarchyLevel.GetOr(0), e.parameterTag,
            e.aiUsage.GetOr("flagging"), ExtraData(None, "ICSID Arbitration Rules"))
  }

  /** `[...conventionRows, ...arbitrationRows]`. */
  function SeedRows(orgId: string, conv: seq<ConventionEntry>, arb: seq<ArbitrationEntry>): (rows: seq<RuleRow>)
    ensures |rows| == |conv| + |arb|
    ensures forall i :: 0 <= i < |rows| ==>
              rows[i].orgId == orgId && rows[i].institution == Institution && rows[i].version == Version
    ensures forall i :: 0 <= i < |conv| ==>
              && rows[i].documentType == "convention" && rows[i].ref == conv[i].ref
              && rows[i].hierarchyLevel == 1 && rows[i].nonDerogable
              && rows[i].aiUsage == "classification_only" && rows[i].title == conv[i].title
    ensures forall i :: 0 <= i < |arb| ==>
              && rows[|conv| + i].documentType == "arbitration_rules" && rows[|conv| + i].ref == arb[i].ref
              && rows[|conv| + i].hierarchyLevel == 2 && rows[|conv| + i].title == None
              && rows[|conv| + i].aiUsage == arb[i].aiUsage.GetOr("flagging")
  {
    seq(|conv|, i requires 0 <= i < |conv| => ConventionRow(orgId, conv[i]))
      + seq(|arb|, i requires 0 <= i < |arb| => ArbitrationRow(orgId, arb[i]))
  }

  /** `checkRulesStatus`: some ICSID rule exists for the organisation. */
  predicate RulesExist(t: Table, orgId: string) {
    exists i :: 0 <= i < |t| && t[i].row.orgId == orgId && t[i].row.institution == Institution
  }

  datatype SeedOutcome = AlreadyInitialized | Initialized(count: nat) | SeedFailed

  datatype SeedResult = SeedResult(outcome: SeedOutcome, table: Table)

  /** `seedRules`: `newId` is the table's id generator and `fault` whether
      the storage layer rejects the insert for reasons of its own. */
  function Seed(t: Table, orgId: string, conv: seq<ConventionEntry>, arb: seq<ArbitrationEntry>,
                newId: nat -> string, fault: bool): (r: SeedResult)
    ensures r.outcome.AlreadyInitialized? <==> RulesExist(t, orgId)
    ensures !r.outcome.Initialized? ==> r.table == t
    ensures r.outcome.Initialized? ==>
              r.outcome.count == |conv| + |arb| && Rows(r.table) == Rows(t) + SeedRows(orgId, conv, arb)
    ensures r.outcome.SeedFailed? ==> |conv| + |arb| > 0
    ensures UniqueKeys(t) ==> UniqueKeys(r.table)
  {
    if RulesExist(t, orgId) then SeedResult(AlreadyInitialized, t)
    else
      var rows := SeedRows(orgId, conv, arb);
      if |rows| == 0 then SeedResult(Initialized(0), t)
      else
        match InsertAll(t, rows, newId, fault)
        case None => SeedResult(SeedFailed, t)
        case Some(t') =>
          assert Rows(t') == Rows(t'[..|t|]) + Rows(t'[|t|..]);
          SeedResult(Initialized(|rows|), t')
  }

  /** Seeding twice inserts once: after a seed that stored rows, the next
      call reports `already_initialized` and leaves the table alone. */
  lemma SeedIdempotent(t: Table, orgId: string, conv: seq<ConventionEntry>, arb: seq<ArbitrationEntry>,
                       newId: nat -> string, fault: bool, newId2: nat -> string, fault2: bool)
    requires Seed(t, orgId, conv, arb, newId, fault).outcome == Initialized(|conv| + |arb|)
    requires |conv| + |arb| > 0
    ensures var t1 := Seed(t, orgId, conv, arb, newId, fault).table;
            Seed(t1, orgId, conv, arb, newId2, fault2) == SeedResult(AlreadyInitialized, t1)
  {
    var t1 := Seed(t, orgId, conv, arb, newId, fault).table;
    var rows := SeedRows(orgId, conv, arb);
    assert Rows(t1) == Rows(t) + rows;
    assert Rows(t1)[|t|] == rows[0];
    assert t1[|t|].row.orgId == orgId && t1[|t|].row.institution == Institution;
    assert RulesExist(t1, orgId);
  }

  /** The references of the seeded rows, in insertion order. */
  function SeedRefs(conv: seq<ConventionEntry>, arb: seq<ArbitrationEntry>): (refs: seq<string>)
    ensures |refs| == |conv| + |arb|
  {
    seq(|conv|, i requires 0 <= i < |conv| => conv[i].ref) + seq(|arb|, i requires 0 <= i < |arb| => arb[i].ref)
  }

  predicate RepeatsAny(refs: seq<string>) {
    exists i, j :: 0 <= i < j < |refs| && refs[i] == refs[j]
  }

  lemma SeedRowKeys(orgId: string, conv: seq<ConventionEntry>, arb: seq<ArbitrationEntry>)
    ensures DistinctKeys(SeedRows(orgId, conv, arb)) <==> !RepeatsAny(SeedRefs(conv, arb))
  {
    var rows := SeedRows(orgId, conv, arb);
    var refs := SeedRefs(conv, arb);
    assert forall i :: 0 <= i < |rows| ==> KeyOf(rows[i]) == RuleKey(orgId, Institution, Version, refs[i]);
  }

  lemma AppendKeepsDistinct(t: Table, orgId: string, rows: seq<RuleRow>)
    requires UniqueKeys(t) && DistinctKeys(rows) && !RulesExist(t, orgId)
    requires forall i :: 0 <= i < |rows| ==> rows[i].orgId == orgId && rows[i].institution == Institution
    ensures DistinctKeys(Rows(t) + rows)
  {
    var all := Rows(t) + rows;
    forall i, j | 0 <= i < j < |all| ensures KeyOf(all[i]) != KeyOf(all[j]) {
      if j < |t| {
        assert all[i] == Rows(t)[i] && all[j] == Rows(t)[j];
      } else if i < |t| {
        assert all[i] == t[i].row;
        assert all[j] == rows[j - |t|];
      } else {
        assert all[i] == rows[i - |t|] && all[j] == rows[j - |t|];
      }
    }
  }

  lemma AppendKeepsRepeat(t: Table, rows: seq<RuleRow>)
    requires !DistinctKeys(rows)
    ensures !DistinctKeys(Rows(t) + rows)
  {
    var i, j :| 0 <= i < j < |rows| && KeyOf(rows[i]) == KeyOf(rows[j]);
    var all := Rows(t) + rows;
    assert all[|t| + i] == rows[i] && all[|t| + j] == rows[j];
  }

  /** With the constraint holding beforehand and no ICSID rows for the
      organisation, a non-empty seed fails exactly on a storage fault or
      on a reference repeated anywhere in the data (the key leaves out
      the document type, so a convention article and an arbitration rule
      may not share a reference either). */
  lemma SeedFailsOnlyOnFaultOrRepeatedRef(t: Table, orgId: string, conv: seq<ConventionEntry>,
                                          arb: seq<ArbitrationEntry>, newId: nat -> string, fault: bool)
    requires UniqueKeys(t) && !RulesExist(t, orgId) && |conv| + |arb| > 0
    ensures Seed(t, orgId, conv, arb, newId, fault).outcome.SeedFailed? <==>
              fault || RepeatsAny(SeedRefs(conv, arb))
  {
    var rows := SeedRows(orgId, conv, arb);
    SeedRowKeys(orgId, conv, arb);
    if DistinctKeys(rows) {
      AppendKeepsDistinct(t, orgId, rows);
    } else {
      AppendKeepsRepeat(t, rows);
    }
  }
}
