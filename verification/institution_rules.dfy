/** The `institution_rules` table as the core sees it: the row shape the
    seeding code inserts, the stored row with its generated key, the
    unique constraint on (org, institution, version, ref), and an atomic
    multi-row insert. */
module InstitutionRules {
  import opened Options

  /** The `extraData` JSON column: the convention's raw scope (absent for
      arbitration rules) and the source label. */
  datatype ExtraData = ExtraData(rawScope: Option<string>, source: string)

  datatype RuleRow = RuleRow(
    orgId: string,
    institution: string,
    version: string,
    documentType: string,
    ref: string,
    title: Option<string>,
    summary: Option<string>,
    mandatory: bool,
    nonDerogable: bool,
    annulmentLinked: bool,
    hierarchyLevel: int,
    parameterTag: Option<string>,
    aiUsage: string,
    extraData: ExtraData)

  /** A stored row: the inserted values plus the generated `id`. */
  datatype StoredRule = StoredRule(id: string, row: RuleRow)

  type Table = seq<StoredRule>

  datatype RuleKey = RuleKey(orgId: string, institution: string, version: string, ref: string)

  function KeyOf(r: RuleRow): RuleKey {
    RuleKey(r.orgId, r.institution, r.version, r.ref)
  }

  predicate DistinctKeys(rows: seq<RuleRow>) {
    forall i, j :: 0 <= i < j < |rows| ==> KeyOf(rows[i]) != KeyOf(rows[j])
  }

  function Rows(t: Table): (r: seq<RuleRow>)
    ensures |r| == |t|
    ensures forall i :: 0 <= i < |t| ==> r[i] == t[i].row
  {
    seq(|t|, i requires 0 <= i < |t| => t[i].row)
  }

  /** The table's unique constraint holds. */
  predicate UniqueKeys(t: Table) {
    DistinctKeys(Rows(t))
  }

  /** The rows stored for `rows`, with ids drawn from the database's
      generator `newId` (indexed by position in the table). */
  function Stored(t: Table, rows: seq<RuleRow>, newId: nat -> string): (r: Table)
    ensures Rows(r) == rows
  {
    seq(|rows|, i requires 0 <= i < |rows| => StoredRule(newId(|t| + i), rows[i]))
  }

  /** One multi-row INSERT: every row or none. It fails on a storage fault
      (`fault`, a collaborator outcome) or when a key would repeat. */
  function InsertAll(t: Table, rows: seq<RuleRow>, newId: nat -> string, fault: bool): (r: Option<Table>)
    ensures r.Some? ==> UniqueKeys(r.value)
    ensures r.Some? ==> |r.value| == |t| + |rows| && r.value[..|t|] == t && Rows(r.value[|t|..]) == rows
    ensures r.None? ==> fault || !DistinctKeys(Rows(t) + rows)
  {
    var added := t + Stored(t, rows, newId);
    assert Rows(added) == Rows(t) + rows;
    assert added[|t|..] == Stored(t, rows, newId);
    if fault || !UniqueKeys(added) then None else Some(added)
  }
}
