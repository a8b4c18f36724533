/** The analyze-case route: request validation and the initial case
    record (`POST`), then the background pipeline that extracts the text,
    classifies it once, and runs the two analysis chains side by side.
    The chains' writes interleave freely; a run is modelled as any
    interleaving of the two chains' write sequences. */
module AnalyzeRoute {
  import opened Options
  import opened JsValues
  import opened Text
  import opened CaseRecords
  import opened Classifier
  import opened Prompts
  import opened Engine
  import opened RuleCache
  import InstitutionRules

  /** The signed-in session: `null` ids when signed out. */
  datatype Session = Session(userId: Option<string>, orgId: Option<string>)

  predicate Present(id: Option<string>) {
    id.Some? && id.value != ""
  }

  datatype PostResponse =
    | Unauthorized
    | NoFileUrl
    | Accepted(caseId: string)
      /** Something threw before the response was built. */
    | ServerError

  function HttpStatus(r: PostResponse): int {
    match r
    case Unauthorized => 401
    case NoFileUrl => 400
    case Accepted(_) => 200
    case ServerError => 500
  }

  const PdfExtension := ".pdf"
  const DefaultTitle := "Case Analysis"

  /** `fileName?.replace('.pdf', '') || "Case Analysis"`; `None` when it
      throws, which it does for any value that is neither nullish nor a
      string (a number or boolean has no `replace`). */
  function CaseTitle(fileName: Value): (r: Option<string>)
    ensures r.None? <==> !(fileName.Null? || fileName.Undefined? || fileName.Str?)
    ensures r.Some? ==> r.value != ""
    ensures fileName.Str? && fileName.s != "" && (forall j :: !OccursAt(fileName.s, PdfExtension, j)) ==>
              r == Some(fileName.s)
    ensures fileName.Null? || fileName.Undefined? ==> r == Some(DefaultTitle)
    ensures forall i :: fileName.Str? && OccursAt(fileName.s, PdfExtension, i)
                        && (forall j :: 0 <= j < i ==> !OccursAt(fileName.s, PdfExtension, j)) ==>
              var t := fileName.s[..i] + fileName.s[i + |PdfExtension|..];
              r == Some(if t == "" then DefaultTitle else t)
  {
    match fileName
    case Null => Some(DefaultTitle)
    case Undefined => Some(DefaultTitle)
    case Str(s) =>
      var t := RemoveFirst(s, PdfExtension);
      Some(if t == "" then DefaultTitle else t)
    case _ => None
  }

  /** `fileName || "document.pdf"`, for the names `CaseTitle` accepts. */
  function StoredFileName(fileName: Value): (r: string)
    ensures r != ""
    ensures fileName.Str? && fileName.s != "" ==> r == fileName.s
    ensures fileName.Null? || fileName.Undefined? || fileName == Str("") ==> r == "document.pdf"
  {
    if fileName.Str? && fileName.s != "" then fileName.s else "document.pdf"
  }

  /** `POST`: `body` is the parsed request body (`None` when `req.json()`
      throws) and `caseId` the id the database assigns to the new row.
      The created record, if any, is returned alongside the response. */
  function Post(session: Session, body: Option<Value>, caseId: string): (r: (PostResponse, Option<CaseRecord>))
    ensures r.0 == Unauthorized <==> !Present(session.userId) || !Present(session.orgId)
    ensures r.0 == NoFileUrl <==>
              Present(session.userId) && Present(session.orgId) && body.Some?
              && Get(body.value, "fileUrl").Some? && !Truthy(Get(body.value, "fileUrl").value)
    ensures r.1.Some? <==> r.0.Accepted?
    ensures r.0.Accepted? <==>
              && Present(session.userId) && Present(session.orgId) && body.Some?
              && Get(body.value, "fileUrl").Some? && Truthy(Get(body.value, "fileUrl").value)
              && CaseTitle(Get(body.value, "fileName").value).Some?
    ensures r.1.Some? ==>
              && body.Some? && Get(body.value, "fileName").Some?
              && CaseTitle(Get(body.value, "fileName").value).Some?
              && r.1.value.caseTitle == CaseTitle(Get(body.value, "fileName").value).value
              && r.1.value.fileName == StoredFileName(Get(body.value, "fileName").value)
              && r.1.value.fileSize == Or(Get(body.value, "fileSize").value, Num(0))
              && r.1.value.fileUrl == Get(body.value, "fileUrl").value
    ensures r.0.Accepted? ==> r.0.caseId == caseId
    ensures r.1.Some? ==>
              var c := r.1.value;
              && c.id == caseId && Some(c.orgId) == session.orgId && Some(c.userId) == session.userId
              && Truthy(c.fileUrl) && c.caseTitle != "" && c.fileName != ""
              && c.status == Processing && c.progress == 5 && c.step == "Starting analysis..."
              && c.errorMessage.None? && c.defaultSlot == EmptySlot && c.parameterizedSlot == EmptySlot
  {
    if !Present(session.userId) || !Present(session.orgId) then (Unauthorized, None)
    else if body.None? then (ServerError, None)
    else match Get(body.value, "fileUrl")
      case None => (ServerError, None)
      case Some(fileUrl) =>
        if !Truthy(fileUrl) then (NoFileUrl, None)
        else
          var fileName := Get(body.value, "fileName").value;
          var fileSize := Get(body.value, "fileSize").value;
          match CaseTitle(fileName)
          case None => (ServerError, None)
          case Some(title) =>
            var record := CaseRecord(
              caseId, session.orgId.value, session.userId.value, title,
              StoredFileName(fileName), Or(fileSize, Num(0)), fileUrl,
              Processing, 5, "Starting analysis...", None, EmptySlot, EmptySlot);
            (Accepted(caseId), Some(record))
  }

  /** How one analysis chain (`processAnalysis`) ends. A failure carries
      the thrown value's message, `None` when it is not an `Error`, and
      says how far the chain got before throwing. */
  datatype ChainRun =
    | Succeeded(payload: Payload, at: int)
      /** The first progress write rejected. */
    | FailedStarting(error: Option<string>)
      /** The engine call or the 80% progress write rejected. */
    | FailedGenerating(error: Option<string>)
      /** The result write rejected. */
    | FailedSaving(error: Option<string>)

  /** The status a chain's last write sets. */
  function Outcome(run: ChainRun): Status {
    if run.Succeeded? then Analyzed else Failed
  }

  /** `error instanceof Error ? error.message : "Analysis failed"`. */
  function ChainErrorText(error: Option<string>): (r: string)
    ensures error.None? ==> r == "Analysis failed"
    ensures error.Some? ==> r == error.value
  {
    error.GetOr("Analysis failed")
  }

  const StartingWrite := SetProgress(20, "Starting AI analysis...")
  const SavingWrite := SetProgress(80, "Saving results...")

  /** The write of a chain's `catch`. */
  function ChainFailure(error: Option<string>): (w: Write)
    ensures StatusOf(w) == Some(Failed) && ProgressOf(w) == 0
  {
    MarkError(ChainErrorText(error), "Error occurred")
  }

  /** The writes a chain makes, in order. */
  function ChainWrites(m: Mode, run: ChainRun): (ws: seq<Write>)
    ensures |ws| > 0 && StatusOf(ws[|ws| - 1]).Some?
    ensures forall i :: 0 <= i < |ws| - 1 ==> StatusOf(ws[i]).None?
    ensures forall i, m' :: 0 <= i < |ws| && Fills(ws[i], m') ==> m' == m && run.Succeeded? && ws[i] == SaveResult(m, run.payload, run.at)
    ensures run.Succeeded? <==> Fills(ws[|ws| - 1], m)
    ensures StatusOf(ws[|ws| - 1]) == Some(Outcome(run))
    ensures !run.Succeeded? ==> ws[|ws| - 1] == MarkError(ChainErrorText(run.error), "Error occurred")
    ensures ProgressOf(ws[0]) < 25
  {
    match run
    case Succeeded(payload, at) => [StartingWrite, SavingWrite, SaveResult(m, payload, at)]
    case FailedStarting(e) => [ChainFailure(e)]
    case FailedGenerating(e) => [StartingWrite, ChainFailure(e)]
    case FailedSaving(e) => [StartingWrite, SavingWrite, ChainFailure(e)]
  }

  /** The schedule after one step. */
  function Rest(schedule: seq<bool>): seq<bool> {
    if |schedule| == 0 then [] else schedule[1..]
  }

  /** The next write comes from the first side. */
  predicate Pick(schedule: seq<bool>) {
    |schedule| > 0 && schedule[0]
  }

  /** One interleaving of two concurrent write sequences: `schedule[k]`
      says whether the `k`-th write comes from `xs`; once either side is
      exhausted the other finishes. */
  function Merge(xs: seq<Write>, ys: seq<Write>, schedule: seq<bool>): (r: seq<Write>)
    ensures |r| == |xs| + |ys|
    ensures |xs| > 0 && |ys| > 0 ==> r[0] == xs[0] || r[0] == ys[0]
    decreases |xs| + |ys|
  {
    if |xs| == 0 then ys
    else if |ys| == 0 then xs
    else if Pick(schedule) then [xs[0]] + Merge(xs[1..], ys, Rest(schedule))
    else [ys[0]] + Merge(xs, ys[1..], Rest(schedule))
  }

  lemma HeadTail(s: seq<Write>)
    requires |s| > 0
    ensures multiset(s) == multiset{s[0]} + multiset(s[1..])
  {
    assert s == [s[0]] + s[1..];
  }

  lemma SameHeadTail(a: seq<Write>, b: seq<Write>)
    requires |a| > 0 && |b| > 0 && a[0] == b[0] && a[1..] == b[1..]
    ensures a == b
  {
    assert a == [a[0]] + a[1..];
    assert b == [b[0]] + b[1..];
  }

  /** An interleaving is a permutation of the two sides together. */
  lemma {:induction false} MergeIsPermutation(xs: seq<Write>, ys: seq<Write>, schedule: seq<bool>)
    ensures multiset(Merge(xs, ys, schedule)) == multiset(xs) + multiset(ys)
    decreases |xs| + |ys|
  {
    var r := Merge(xs, ys, schedule);
    if |xs| == 0 {
      assert xs == [];
    } else if |ys| == 0 {
      assert ys == [];
    } else if Pick(schedule) {
      MergeIsPermutation(xs[1..], ys, Rest(schedule));
      HeadTail(r);
      HeadTail(xs);
    } else {
      MergeIsPermutation(xs, ys[1..], Rest(schedule));
      HeadTail(r);
      HeadTail(ys);
    }
  }

  /** Both serial orders are interleavings. */
  lemma MergeSerial(xs: seq<Write>, ys: seq<Write>, schedule: seq<bool>)
    ensures |schedule| >= |xs| && (forall k :: 0 <= k < |schedule| ==> schedule[k]) ==> Merge(xs, ys, schedule) == xs + ys
    ensures (forall k :: 0 <= k < |schedule| ==> !schedule[k]) ==> Merge(xs, ys, schedule) == ys + xs
  {
    if |schedule| >= |xs| && (forall k :: 0 <= k < |schedule| ==> schedule[k]) {
      MergeFirstSerial(xs, ys, schedule);
    }
    if forall k :: 0 <= k < |schedule| ==> !schedule[k] {
      MergeSecondSerial(xs, ys, schedule);
    }
  }

  /** A schedule that always picks the first chain runs it to completion
      before the second. */
  lemma {:induction false} MergeFirstSerial(xs: seq<Write>, ys: seq<Write>, schedule: seq<bool>)
    requires |schedule| >= |xs| && forall k :: 0 <= k < |schedule| ==> schedule[k]
    ensures Merge(xs, ys, schedule) == xs + ys
    decreases |xs|
  {
    if |xs| == 0 {
      assert xs + ys == ys;
    } else if |ys| > 0 {
      assert Pick(schedule);
      MergeFirstSerial(xs[1..], ys, Rest(schedule));
      assert (xs + ys)[1..] == xs[1..] + ys;
      SameHeadTail(Merge(xs, ys, schedule), xs + ys);
    } else {
      assert xs + ys == xs;
    }
  }

  /** A schedule that never picks the first chain runs the second one
      first. */
  lemma {:induction false} MergeSecondSerial(xs: seq<Write>, ys: seq<Write>, schedule: seq<bool>)
    requires forall k :: 0 <= k < |schedule| ==> !schedule[k]
    ensures Merge(xs, ys, schedule) == ys + xs
    decreases |ys|
  {
    if |ys| == 0 {
      assert ys + xs == xs;
    } else if |xs| > 0 {
      assert !Pick(schedule);
      MergeSecondSerial(xs, ys[1..], Rest(schedule));
      assert (ys + xs)[1..] == ys[1..] + xs;
      SameHeadTail(Merge(xs, ys, schedule), ys + xs);
    } else {
      assert ys + xs == ys;
    }
  }

  /** `extractPDFText`'s outcome. */
  datatype Extraction = Extracted(text: string) | ExtractionFailed

  const ExtractingWrite := SetProgress(10, "Extracting text from PDF...")
  const ExtractionFailedWrite := MarkError("Failed to extract text from PDF.", "Error")
  const UnexpectedWrite := MarkError("Unexpected error during analysis.", "Error")
  const CompleteWrite := SetProgress(100, "Complete")

  /** The writes before the chains start: extraction under way, then the
      detected jurisdiction at 25%. */
  function Prelude(j: Value): (ws: seq<Write>)
    ensures |ws| == 2 && ws[0] == ExtractingWrite && ws[1].SetProgress? && ProgressOf(ws[1]) == 25
    ensures forall i :: 0 <= i < |ws| ==> ws[i].SetProgress?
  {
    [ExtractingWrite, SetProgress(25, "Detected jurisdiction: " + ToJsString(j))]
  }

  /** The jurisdiction the pipeline detects, `None` when classification
      throws or its result is `null`. */
  function DetectedJurisdiction(text: string, reply: Option<ModelReply>, parse: string -> Option<Value>): (r: Option<Value>)
    ensures r.Some? ==> Truthy(r.value)
    ensures reply.None? || reply == Some(EmptyContent) ==> r.None?
    ensures reply.Some? && reply.value.TextBlock? && parse(StripAllFences(reply.value.text)).None? ==>
              r == Some(Str("ICSID"))
  {
    var c := ClassifyDocument(text, None, reply, parse);
    if c.Threw? then None else EffectiveJurisdiction(c.result)
  }

  /** The writes of the background pipeline. `detected` is what
      `DetectedJurisdiction` gives for the extracted text; `a` and `b` are
      how the default and the parameterized chains end; `schedule` is how
      their writes interleave. */
  function PipelineWrites(extraction: Extraction, detected: Option<Value>,
                          a: ChainRun, b: ChainRun, schedule: seq<bool>): (ws: seq<Write>)
    ensures |ws| >= 2 && ws[0] == ExtractingWrite
    ensures ws[|ws| - 1] == CompleteWrite <==> extraction.Extracted? && detected.Some?
    ensures extraction.ExtractionFailed? ==> ws == [ExtractingWrite, ExtractionFailedWrite]
    ensures extraction.Extracted? && detected.None? ==> ws == [ExtractingWrite, UnexpectedWrite]
  {
    match extraction
    case ExtractionFailed => [ExtractingWrite, ExtractionFailedWrite]
    case Extracted(_) =>
      match detected
      case None => [ExtractingWrite, UnexpectedWrite]
      case Some(j) =>
        Prelude(j) + Merge(ChainWrites(DefaultMode, a), ChainWrites(ParametersMode, b), schedule) + [CompleteWrite]
  }

  /** A run of the pipeline on the record `POST` created, with the
      classifier's oracles `reply` and `parse`. */
  function RunWith(record: CaseRecord, extraction: Extraction, reply: Option<ModelReply>, parse: string -> Option<Value>,
                   a: ChainRun, b: ChainRun, schedule: seq<bool>): CaseRecord {
    var detected := if extraction.Extracted? then DetectedJurisdiction(extraction.text, reply, parse) else None;
    Run(record, extraction, detected, a, b, schedule)
  }

  /** A run once the jurisdiction is known. */
  function Run(record: CaseRecord, extraction: Extraction, detected: Option<Value>,
               a: ChainRun, b: ChainRun, schedule: seq<bool>): CaseRecord {
    ApplyAll(record, PipelineWrites(extraction, detected, a, b, schedule))
  }

  /** Whether the chains get to run. */
  predicate ChainsRun(extraction: Extraction, detected: Option<Value>) {
    extraction.Extracted? && detected.Some?
  }

  /** A failed extraction ends the run: status error with its message,
      progress 0, and neither slot touched. */
  lemma ExtractionFailureIsFatal(record: CaseRecord, detected: Option<Value>,
                                 a: ChainRun, b: ChainRun, schedule: seq<bool>)
    ensures var c := Run(record, ExtractionFailed, detected, a, b, schedule);
            && c.status == Failed && c.errorMessage == Some("Failed to extract text from PDF.")
            && c.progress == 0 && c.step == "Error"
            && c.defaultSlot == record.defaultSlot && c.parameterizedSlot == record.parameterizedSlot
  {
    var ws := PipelineWrites(ExtractionFailed, detected, a, b, schedule);
    TwoWrites(record, ExtractingWrite, ExtractionFailedWrite);
  }

  /** A classification that throws, or yields `null`, ends the run with
      the generic failure before either chain starts. */
  lemma ClassificationFailureIsUnexpected(record: CaseRecord, text: string, reply: Option<ModelReply>,
                                          parse: string -> Option<Value>, a: ChainRun, b: ChainRun, schedule: seq<bool>)
    requires DetectedJurisdiction(text, reply, parse).None?
    ensures var c := RunWith(record, Extracted(text), reply, parse, a, b, schedule);
            && c.status == Failed && c.errorMessage == Some("Unexpected error during analysis.")
            && c.progress == 0 && c.defaultSlot == record.defaultSlot && c.parameterizedSlot == record.parameterizedSlot
  {
    var ws := PipelineWrites(Extracted(text), None, a, b, schedule);
    assert ws == [ExtractingWrite, UnexpectedWrite];
    TwoWrites(record, ExtractingWrite, UnexpectedWrite);
  }

  lemma TwoWrites(record: CaseRecord, w1: Write, w2: Write)
    ensures ApplyAll(record, [w1, w2]) == Apply(Apply(record, w1), w2)
  {
    assert [w1, w2][..1] == [w1];
    assert [w1][..0] == [];
    assert ApplyAll(record, [w1]) == Apply(record, w1);
  }

  /** The writes of the two chains within a run where they run. */
  function ChainPart(a: ChainRun, b: ChainRun, schedule: seq<bool>): seq<Write> {
    Merge(ChainWrites(DefaultMode, a), ChainWrites(ParametersMode, b), schedule)
  }

  lemma PipelineShape(extraction: Extraction, detected: Option<Value>,
                      a: ChainRun, b: ChainRun, schedule: seq<bool>)
    requires ChainsRun(extraction, detected)
    ensures var ws := PipelineWrites(extraction, detected, a, b, schedule);
            var j := detected.value;
            ws == Prelude(j) + ChainPart(a, b, schedule) + [CompleteWrite]
  {
  }

  /** Once both chains have settled the run always ends at progress 100,
      "Complete"; that last write leaves the status as the chains left
      it. */
  lemma RunEndsComplete(record: CaseRecord, extraction: Extraction, detected: Option<Value>,
                        a: ChainRun, b: ChainRun, schedule: seq<bool>)
    requires ChainsRun(extraction, detected)
    ensures var c := Run(record, extraction, detected, a, b, schedule);
            && c.progress == 100 && c.step == "Complete"
            && c.status == LastStatus(ChainPart(a, b, schedule)).GetOr(record.status)
  {
    PipelineShape(extraction, detected, a, b, schedule);
    EndsComplete(record, Prelude(detected.value), ChainPart(a, b, schedule));
  }

  /** The status after progress writes, some writes, and the final
      "Complete" write. */
  lemma EndsComplete(record: CaseRecord, pre: seq<Write>, chains: seq<Write>)
    requires forall i :: 0 <= i < |pre| ==> pre[i].SetProgress?
    ensures var c := ApplyAll(record, pre + chains + [CompleteWrite]);
            && c.progress == 100 && c.step == "Complete"
            && c.status == LastStatus(chains).GetOr(record.status)
  {
    var ws := pre + chains + [CompleteWrite];
    assert ws[..|ws| - 1] == pre + chains;
    StatusIsLastStatus(record, pre + chains);
    LastStatusAfterPrefix(pre, chains);
    NoStatusInProgressWrites(pre);
  }

  lemma {:induction false} NoStatusInProgressWrites(ws: seq<Write>)
    requires forall i :: 0 <= i < |ws| ==> ws[i].SetProgress?
    ensures LastStatus(ws).None?
    decreases |ws|
  {
    if ws != [] {
      NoStatusInProgressWrites(ws[..|ws| - 1]);
    }
  }

  /** A write that sets no status does not change the last status. */
  lemma LastStatusOfAppend(ws: seq<Write>, w: Write)
    requires StatusOf(w).None?
    ensures LastStatus(ws + [w]) == LastStatus(ws)
  {
    assert (ws + [w])[..|ws|] == ws;
  }

  /** The last status of `p + q` is `q`'s, when `q` sets one. */
  lemma {:induction false} LastStatusAfterPrefix(p: seq<Write>, q: seq<Write>)
    ensures LastStatus(p + q) == if LastStatus(q).Some? then LastStatus(q) else LastStatus(p)
    decreases |q|
  {
    if q == [] {
      assert p + q == p;
    } else {
      var n := |q| - 1;
      assert (p + q)[..|p + q| - 1] == p + q[..n];
      LastStatusAfterPrefix(p, q[..n]);
    }
  }

  /** Every write of an interleaving comes from one side or the other. */
  lemma MergedOrigin(xs: seq<Write>, ys: seq<Write>, schedule: seq<bool>, k: int)
    requires 0 <= k < |Merge(xs, ys, schedule)|
    ensures Merge(xs, ys, schedule)[k] in xs || Merge(xs, ys, schedule)[k] in ys
  {
    var r := Merge(xs, ys, schedule);
    MergeIsPermutation(xs, ys, schedule);
    assert r[k] in multiset(r);
  }

  /** A write of either side occurs in the interleaving. */
  lemma MergedKeeps(xs: seq<Write>, ys: seq<Write>, schedule: seq<bool>, w: Write)
    requires w in xs || w in ys
    ensures w in Merge(xs, ys, schedule)
  {
    MergeIsPermutation(xs, ys, schedule);
    assert w in multiset(Merge(xs, ys, schedule));
  }

  /** `ws` sets a status only in its last write, and that status is `s`. */
  predicate EndsWithStatus(ws: seq<Write>, s: Status) {
    |ws| > 0 && StatusOf(ws[|ws| - 1]) == Some(s)
    && forall i :: 0 <= i < |ws| - 1 ==> StatusOf(ws[i]).None?
  }

  /** An interleaving of two sequences that each end with a status sets
      only those two statuses, and sets the first side's. */
  lemma MergedStatuses(xs: seq<Write>, ys: seq<Write>, schedule: seq<bool>, sx: Status, sy: Status)
    requires EndsWithStatus(xs, sx) && EndsWithStatus(ys, sy)
    ensures var r := Merge(xs, ys, schedule);
            && (forall i :: 0 <= i < |r| && StatusOf(r[i]).Some? ==> StatusOf(r[i]) == Some(sx) || StatusOf(r[i]) == Some(sy))
            && (exists i :: 0 <= i < |r| && StatusOf(r[i]) == Some(sx))
  {
    var r := Merge(xs, ys, schedule);
    forall i | 0 <= i < |r| && StatusOf(r[i]).Some?
      ensures StatusOf(r[i]) == Some(sx) || StatusOf(r[i]) == Some(sy)
    {
      MergedOrigin(xs, ys, schedule, i);
    }
    MergedKeeps(xs, ys, schedule, xs[|xs| - 1]);
    var k :| 0 <= k < |r| && r[k] == xs[|xs| - 1];
  }

  /** Every write of `ws` that fills the slot of `m` is `w`. */
  predicate FillsOnlyWith(ws: seq<Write>, m: Mode, w: Write) {
    forall i :: 0 <= i < |ws| && Fills(ws[i], m) ==> ws[i] == w
  }

  lemma MergedFills(xs: seq<Write>, ys: seq<Write>, schedule: seq<bool>, m: Mode, w: Write)
    requires FillsOnlyWith(xs, m, w) && FillsOnlyWith(ys, m, w)
    ensures FillsOnlyWith(Merge(xs, ys, schedule), m, w)
    ensures w in Merge(xs, ys, schedule) <==> w in xs || w in ys
  {
    var r := Merge(xs, ys, schedule);
    forall i | 0 <= i < |r| && Fills(r[i], m)
      ensures r[i] == w
    {
      MergedOrigin(xs, ys, schedule, i);
      if r[i] in xs {
        var j :| 0 <= j < |xs| && xs[j] == r[i];
      } else {
        var j :| 0 <= j < |ys| && ys[j] == r[i];
      }
    }
    if w in r {
      MergeIsPermutation(xs, ys, schedule);
      assert w in multiset(r);
    }
    if w in xs || w in ys {
      MergedKeeps(xs, ys, schedule, w);
    }
  }

  /** Each slot ends holding its own chain's result, or untouched when
      that chain failed, whatever the other chain did and however the
      two interleaved. */
  lemma SlotsIndependent(record: CaseRecord, extraction: Extraction, detected: Option<Value>,
                         a: ChainRun, b: ChainRun, schedule: seq<bool>, m: Mode)
    requires ChainsRun(extraction, detected)
    ensures var run := if m == DefaultMode then a else b;
            SlotOf(Run(record, extraction, detected, a, b, schedule), m)
              == if run.Succeeded? then Slot(Some(run.payload), Some(run.at)) else SlotOf(record, m)
  {
    PipelineShape(extraction, detected, a, b, schedule);
    var xs := ChainWrites(DefaultMode, a);
    var ys := ChainWrites(ParametersMode, b);
    var run := if m == DefaultMode then a else b;
    var w := if run.Succeeded? then SaveResult(m, run.payload, run.at) else SaveResult(m, Payload(0), 0);
    ChainFills(DefaultMode, a, m, w);
    ChainFills(ParametersMode, b, m, w);
    MergedFills(xs, ys, schedule, m, w);
    SlotAfterPipeline(record, Prelude(detected.value), Merge(xs, ys, schedule), m, w);
  }

  /** The slot of `m` after progress writes, writes that fill it only
      with `w`, and the final "Complete" write. */
  lemma SlotAfterPipeline(record: CaseRecord, pre: seq<Write>, chains: seq<Write>, m: Mode, w: Write)
    requires forall i :: 0 <= i < |pre| ==> pre[i].SetProgress?
    requires Fills(w, m) && FillsOnlyWith(chains, m, w)
    ensures SlotOf(ApplyAll(record, pre + chains + [CompleteWrite]), m)
              == if w in chains then Slot(Some(w.payload), Some(w.at)) else SlotOf(record, m)
  {
    var ws := pre + chains + [CompleteWrite];
    forall i | 0 <= i < |ws| && Fills(ws[i], m)
      ensures ws[i] == w
    {
      if |pre| <= i < |pre| + |chains| {
        assert ws[i] == chains[i - |pre|];
      }
    }
    UniformFill(ws, m, w);
    SlotIsLastFill(record, ws, m);
    assert w !in pre && w != CompleteWrite;
    assert w in ws <==> w in chains;
  }

  /** The status-setting writes of a run's chains part: each chain's last
      write, setting that chain's outcome. */
  lemma ChainStatuses(a: ChainRun, b: ChainRun, schedule: seq<bool>)
    ensures var chains := ChainPart(a, b, schedule);
            && (forall i :: 0 <= i < |chains| && StatusOf(chains[i]).Some? ==>
                  StatusOf(chains[i]) == Some(Outcome(a)) || StatusOf(chains[i]) == Some(Outcome(b)))
            && (exists i :: 0 <= i < |chains| && StatusOf(chains[i]) == Some(Outcome(a)))
  {
    var xs := ChainWrites(DefaultMode, a);
    var ys := ChainWrites(ParametersMode, b);
    ChainEndsWithOutcome(DefaultMode, a);
    ChainEndsWithOutcome(ParametersMode, b);
    MergedStatuses(xs, ys, schedule, Outcome(a), Outcome(b));
    var chains := Merge(xs, ys, schedule);
    assert ChainPart(a, b, schedule) == chains;
    var k :| 0 <= k < |chains| && StatusOf(chains[k]) == Some(Outcome(a));
  }

  lemma ChainEndsWithOutcome(m: Mode, run: ChainRun)
    ensures EndsWithStatus(ChainWrites(m, run), Outcome(run))
  {
  }

  /** A chain fills no slot but its own, and its own only with its
      result. */
  lemma ChainFills(m: Mode, run: ChainRun, slot: Mode, w: Write)
    requires Fills(w, slot)
    requires run.Succeeded? && slot == m ==> w == SaveResult(m, run.payload, run.at)
    ensures FillsOnlyWith(ChainWrites(m, run), slot, w)
    ensures w in ChainWrites(m, run) <==> run.Succeeded? && slot == m
  {
    var ws := ChainWrites(m, run);
    if run.Succeeded? && slot == m {
      assert ws[|ws| - 1] == w;
    }
  }

  /** When both chains succeed the case ends 'analyzed'; when both fail it
      ends 'error', under any interleaving. */
  lemma AgreeingChainsDecideStatus(record: CaseRecord, extraction: Extraction, detected: Option<Value>,
                                   a: ChainRun, b: ChainRun, schedule: seq<bool>)
    requires ChainsRun(extraction, detected)
    requires Outcome(a) == Outcome(b)
    ensures Run(record, extraction, detected, a, b, schedule).status == Outcome(a)
  {
    RunEndsComplete(record, extraction, detected, a, b, schedule);
    ChainStatuses(a, b, schedule);
    UniformStatus(ChainPart(a, b, schedule), Outcome(a));
  }

  /** When the chains disagree the status is the outcome of whichever
      finished last: with the default chain's writes all first, the
      parameterized chain decides, and the other way round. */
  lemma LaterChainDecidesStatus(record: CaseRecord, extraction: Extraction, detected: Option<Value>,
                                a: ChainRun, b: ChainRun, schedule: seq<bool>)
    requires ChainsRun(extraction, detected)
    ensures (forall k :: 0 <= k < |schedule| ==> schedule[k]) && |schedule| >= 3 ==>
              Run(record, extraction, detected, a, b, schedule).status == Outcome(b)
    ensures (forall k :: 0 <= k < |schedule| ==> !schedule[k]) ==>
              Run(record, extraction, detected, a, b, schedule).status == Outcome(a)
  {
    var xs := ChainWrites(DefaultMode, a);
    var ys := ChainWrites(ParametersMode, b);
    RunEndsComplete(record, extraction, detected, a, b, schedule);
    MergeSerial(xs, ys, schedule);
    LastStatusAfterPrefix(xs, ys);
    LastStatusAfterPrefix(ys, xs);
    LastStatusOfChain(DefaultMode, a);
    LastStatusOfChain(ParametersMode, b);
  }

  /** Whether the last write of an interleaving comes from the first
      side, following the same schedule as `Merge`. */
  predicate FirstEndsLast(xs: seq<Write>, ys: seq<Write>, schedule: seq<bool>)
    decreases |xs| + |ys|
  {
    if |xs| == 0 then false
    else if |ys| == 0 then true
    else if Pick(schedule) then FirstEndsLast(xs[1..], ys, Rest(schedule))
    else FirstEndsLast(xs, ys[1..], Rest(schedule))
  }

  /** The last write of an interleaving of two non-empty sides is the last
      write of the side that ends last. */
  lemma {:induction false} MergeLast(xs: seq<Write>, ys: seq<Write>, schedule: seq<bool>)
    requires |xs| > 0 && |ys| > 0
    ensures var r := Merge(xs, ys, schedule);
            r[|r| - 1] == if FirstEndsLast(xs, ys, schedule) then xs[|xs| - 1] else ys[|ys| - 1]
    decreases |xs| + |ys|, 1
  {
    if Pick(schedule) {
      MergeLastFirst(xs, ys, schedule);
    } else {
      MergeLastSecond(xs, ys, schedule);
    }
  }

  lemma {:induction false} MergeLastFirst(xs: seq<Write>, ys: seq<Write>, schedule: seq<bool>)
    requires |xs| > 0 && |ys| > 0 && Pick(schedule)
    ensures var r := Merge(xs, ys, schedule);
            r[|r| - 1] == if FirstEndsLast(xs, ys, schedule) then xs[|xs| - 1] else ys[|ys| - 1]
    decreases |xs| + |ys|, 0
  {
    var t := Merge(xs[1..], ys, Rest(schedule));
    assert Merge(xs, ys, schedule) == [xs[0]] + t;
    assert FirstEndsLast(xs, ys, schedule) == FirstEndsLast(xs[1..], ys, Rest(schedule));
    LastOfCons(xs[0], t);
    if |xs| > 1 {
      MergeLast(xs[1..], ys, Rest(schedule));
      assert xs[1..][|xs| - 2] == xs[|xs| - 1];
    } else {
      assert t == ys;
    }
  }

  lemma {:induction false} MergeLastSecond(xs: seq<Write>, ys: seq<Write>, schedule: seq<bool>)
    requires |xs| > 0 && |ys| > 0 && !Pick(schedule)
    ensures var r := Merge(xs, ys, schedule);
            r[|r| - 1] == if FirstEndsLast(xs, ys, schedule) then xs[|xs| - 1] else ys[|ys| - 1]
    decreases |xs| + |ys|, 0
  {
    var t := Merge(xs, ys[1..], Rest(schedule));
    assert Merge(xs, ys, schedule) == [ys[0]] + t;
    assert FirstEndsLast(xs, ys, schedule) == FirstEndsLast(xs, ys[1..], Rest(schedule));
    LastOfCons(ys[0], t);
    if |ys| > 1 {
      MergeLast(xs, ys[1..], Rest(schedule));
      assert ys[1..][|ys| - 2] == ys[|ys| - 1];
    } else {
      assert t == xs;
    }
  }

  lemma LastOfCons(h: Write, t: seq<Write>)
    requires |t| > 0
    ensures ([h] + t)[|t|] == t[|t| - 1]
  {
  }

  /** Under every interleaving the final status is the outcome of the
      chain whose last write comes last. */
  lemma LastChainToFinishDecidesStatus(record: CaseRecord, extraction: Extraction, detected: Option<Value>,
                                       a: ChainRun, b: ChainRun, schedule: seq<bool>)
    requires ChainsRun(extraction, detected)
    ensures Run(record, extraction, detected, a, b, schedule).status ==
              if FirstEndsLast(ChainWrites(DefaultMode, a), ChainWrites(ParametersMode, b), schedule)
              then Outcome(a) else Outcome(b)
  {
    var xs := ChainWrites(DefaultMode, a);
    var ys := ChainWrites(ParametersMode, b);
    RunEndsComplete(record, extraction, detected, a, b, schedule);
    MergeLast(xs, ys, schedule);
    var r := Merge(xs, ys, schedule);
    var last := if FirstEndsLast(xs, ys, schedule) then xs[|xs| - 1] else ys[|ys| - 1];
    assert r[|r| - 1] == last;
    assert StatusOf(last) == Some(if FirstEndsLast(xs, ys, schedule) then Outcome(a) else Outcome(b));
    assert LastStatus(r) == StatusOf(last);
  }

  lemma LastStatusOfChain(m: Mode, run: ChainRun)
    ensures LastStatus(ChainWrites(m, run)) == Some(Outcome(run))
  {
  }

  /** A filled result slot does not mean the case is 'analyzed': the
      default chain can succeed and the parameterized chain fail after
      it. */
  lemma FilledSlotUnderErrorStatus(record: CaseRecord, extraction: Extraction, detected: Option<Value>,
                                   p: Payload, at: int, e: Option<string>)
    requires ChainsRun(extraction, detected)
    ensures var c := Run(record, extraction, detected, Succeeded(p, at), FailedGenerating(e), [true, true, true]);
            c.status == Failed && c.defaultSlot.result == Some(p)
  {
    LaterChainDecidesStatus(record, extraction, detected, Succeeded(p, at), FailedGenerating(e), [true, true, true]);
    SlotsIndependent(record, extraction, detected, Succeeded(p, at), FailedGenerating(e), [true, true, true], DefaultMode);
  }

  /** The progress after the first `k` writes is the progress the `k`-th
      write set. */
  lemma ProgressAfterPrefix(record: CaseRecord, ws: seq<Write>, k: int)
    requires 0 < k <= |ws|
    ensures ApplyAll(record, ws[..k]).progress == ProgressOf(ws[k - 1])
  {
    assert ws[..k][..k - 1] == ws[..k - 1];
  }

  /** Progress is not monotone: in every run where the chains start, the
      25% of the detected jurisdiction is followed by a lower value, the
      chain's 20% (or 0 when its first write already fails). */
  lemma ProgressDropsAfterDetection(record: CaseRecord, extraction: Extraction, detected: Option<Value>,
                                    a: ChainRun, b: ChainRun, schedule: seq<bool>)
    requires ChainsRun(extraction, detected)
    ensures var ws := PipelineWrites(extraction, detected, a, b, schedule);
            |ws| > 3 && ApplyAll(record, ws[..2]).progress == 25 && ApplyAll(record, ws[..3]).progress < 25
  {
    PipelineShape(extraction, detected, a, b, schedule);
    var xs := ChainWrites(DefaultMode, a);
    var ys := ChainWrites(ParametersMode, b);
    var chains := Merge(xs, ys, schedule);
    assert ProgressOf(chains[0]) < 25;
    DropAfterPrelude(record, Prelude(detected.value), chains);
  }

  lemma DropAfterPrelude(record: CaseRecord, pre: seq<Write>, chains: seq<Write>)
    requires |pre| == 2 && ProgressOf(pre[1]) == 25
    requires |chains| > 0 && ProgressOf(chains[0]) < 25
    ensures var ws := pre + chains + [CompleteWrite];
            |ws| > 3 && ApplyAll(record, ws[..2]).progress == 25 && ApplyAll(record, ws[..3]).progress < 25
  {
    var ws := pre + chains + [CompleteWrite];
    assert ws[1] == pre[1] && ws[2] == chains[0];
    ProgressAfterPrefix(record, ws, 2);
    ProgressAfterPrefix(record, ws, 3);
  }

  /** A finished chain's 100% can be followed by the other chain's
      lower progress: here the default chain completes before the
      parameterized chain starts. */
  lemma ProgressFallsAfterOneChainCompletes(record: CaseRecord, extraction: Extraction, detected: Option<Value>,
                                            p: Payload, at: int, b: ChainRun)
    requires ChainsRun(extraction, detected)
    ensures var ws := PipelineWrites(extraction, detected, Succeeded(p, at), b, [true, true, true]);
            |ws| > 6 && ApplyAll(record, ws[..5]).progress == 100 && ApplyAll(record, ws[..6]).progress < 25
  {
    var a := Succeeded(p, at);
    var schedule := [true, true, true];
    PipelineShape(extraction, detected, a, b, schedule);
    var ws := PipelineWrites(extraction, detected, a, b, schedule);
    var xs := ChainWrites(DefaultMode, a);
    var ys := ChainWrites(ParametersMode, b);
    MergeSerial(xs, ys, schedule);
    assert ws == Prelude(detected.value) + (xs + ys) + [CompleteWrite];
    assert ws[4] == xs[2] && ws[5] == ys[0];
    ProgressAfterPrefix(record, ws, 5);
    ProgressAfterPrefix(record, ws, 6);
  }

  /** The name `processAnalysis` passes as `analysisMode`. */
  function ModeName(m: Mode): string {
    match m
    case DefaultMode => "default"
    case ParametersMode => "with_parameters"
  }

  /** The chains never classify again: the jurisdiction detected once is
      truthy (`DetectedJurisdiction` ensures it), so each chain's engine
      call takes the pre-provided branch, keeps that jurisdiction, and
      builds the prompt of its own mode unless its rules query fails. */
  lemma ChainsNeverReclassify(j: Value, orgId: string, m: Mode, cache: Cache, t: InstitutionRules.Table,
                              now: int, storedAt: int, queryFault: bool,
                              text: string, chainReply: Option<ModelReply>, chainParse: string -> Option<Value>)
    requires Truthy(j)
    ensures var g := GenerateRecommendations(CaseContext(text, orgId, Some(ModeName(m)), j), cache, t, now,
                                             storedAt, queryFault, chainReply, chainParse);
            && g.classifierQuery.None?
            && (g.request.Some? <==> !RulesQueryFails(cache, orgId, now, queryFault))
            && (g.request.Some? ==> g.request.value.jurisdiction == j
                                    && (g.request.value.kind == ParameterizedPrompt <==> m == ParametersMode))
  {
  }

  /** The title of `name.pdf` is `name`, for a non-empty name that does
      not itself contain ".pdf". */
  lemma TitleOfPdfName(name: string)
    requires name != "" && forall j :: !OccursAt(name, PdfExtension, j)
    ensures CaseTitle(Str(name + PdfExtension)) == Some(name)
  {
    var s := name + PdfExtension;
    var n := |name|;
    assert OccursAt(s, PdfExtension, n) by { assert s[n..n + 4] == PdfExtension; }
    forall j | 0 <= j < n
      ensures !OccursAt(s, PdfExtension, j)
    {
      if j + 4 <= n {
        assert s[j..j + 4] == name[j..j + 4];
        assert !OccursAt(name, PdfExtension, j);
      } else {
        assert s[j..j + 4][n - j] == s[n] == '.';
      }
    }
    assert IndexOfFrom(s, PdfExtension, 0) == Some(n);
    assert s[..n] + s[n + 4..] == name;
  }
}
