/** The case record the analysis pipeline writes to, and the writes it
    makes. Every write the route issues is one atomic update of a few
    fields; a run of the pipeline is the sequence of its writes. */
module CaseRecords {
  import opened Options
  import opened JsValues

  /** 'processing' | 'analyzed' | 'error'. */
  datatype Status = Processing | Analyzed | Failed

  /** The two analysis modes, each with its own result slot. */
  datatype Mode = DefaultMode | ParametersMode

  /** A stored analysis result. Its contents are whatever the engine
      returned and play no part in the pipeline's logic. */
  datatype Payload = Payload(serial: nat)

  /** A result slot and the time it was filled. */
  datatype Slot = Slot(result: Option<Payload>, analyzedAt: Option<int>)

  const EmptySlot := Slot(None, None)

  datatype CaseRecord = CaseRecord(
    id: string,
    orgId: string,
    userId: string,
    caseTitle: string,
    fileName: string,
    fileSize: Value,
    fileUrl: Value,
    status: Status,
    progress: int,
    step: string,
    errorMessage: Option<string>,
    defaultSlot: Slot,
    parameterizedSlot: Slot)

  function SlotOf(r: CaseRecord, m: Mode): Slot {
    match m
    case DefaultMode => r.defaultSlot
    case ParametersMode => r.parameterizedSlot
  }

  /** The fields no write of the pipeline touches. */
  predicate SameIdentity(a: CaseRecord, b: CaseRecord) {
    a.id == b.id && a.orgId == b.orgId && a.userId == b.userId && a.caseTitle == b.caseTitle
    && a.fileName == b.fileName && a.fileSize == b.fileSize && a.fileUrl == b.fileUrl
  }

  datatype Write =
      /** `updateProgress(caseId, progress, step)`. */
    | SetProgress(progress: int, step: string)
      /** A chain's success write: its slot and timestamp, status
          'analyzed', progress 100, step "Complete". */
    | SaveResult(mode: Mode, payload: Payload, at: int)
      /** Any of the failure writes: status 'error', the message,
          progress 0 and the given step. */
    | MarkError(message: string, step: string)

  /** The progress a write leaves behind. */
  function ProgressOf(w: Write): int {
    match w
    case SetProgress(p, _) => p
    case SaveResult(_, _, _) => 100
    case MarkError(_, _) => 0
  }

  /** The status a write sets, if it sets one. */
  function StatusOf(w: Write): Option<Status> {
    match w
    case SetProgress(_, _) => None
    case SaveResult(_, _, _) => Some(Analyzed)
    case MarkError(_, _) => Some(Failed)
  }

  /** The `currentStep` a write leaves behind: every write sets one. */
  function StepOf(w: Write): string {
    match w
    case SetProgress(_, step) => step
    case SaveResult(_, _, _) => "Complete"
    case MarkError(_, step) => step
  }

  /** Whether a write fills the slot of mode `m`. */
  predicate Fills(w: Write, m: Mode) {
    w.SaveResult? && w.mode == m
  }

  /** One write applied to the record. */
  function Apply(r: CaseRecord, w: Write): (r': CaseRecord)
    ensures SameIdentity(r, r')
    ensures r'.progress == ProgressOf(w)
    ensures r'.step == StepOf(w)
    ensures r'.status == StatusOf(w).GetOr(r.status)
    ensures !w.SaveResult? ==> r'.defaultSlot == r.defaultSlot && r'.parameterizedSlot == r.parameterizedSlot
    ensures forall m :: SlotOf(r', m) == if Fills(w, m) then Slot(Some(w.payload), Some(w.at)) else SlotOf(r, m)
    ensures r'.errorMessage == if w.MarkError? then Some(w.message) else r.errorMessage
  {
    match w
    case SetProgress(p, step) => r.(progress := p, step := step)
    case SaveResult(DefaultMode, payload, at) =>
      r.(status := Analyzed, defaultSlot := Slot(Some(payload), Some(at)), progress := 100, step := "Complete")
    case SaveResult(ParametersMode, payload, at) =>
      r.(status := Analyzed, parameterizedSlot := Slot(Some(payload), Some(at)), progress := 100, step := "Complete")
    case MarkError(message, step) =>
      r.(status := Failed, errorMessage := Some(message), progress := 0, step := step)
  }

  /** The writes applied in order. */
  function ApplyAll(r: CaseRecord, ws: seq<Write>): CaseRecord
    decreases |ws|
  {
    if ws == [] then r else Apply(ApplyAll(r, ws[..|ws| - 1]), ws[|ws| - 1])
  }

  /** The last write of `ws` that fills the slot of `m`, if any. */
  function LastFill(ws: seq<Write>, m: Mode): (r: Option<Write>)
    ensures r.Some? ==> Fills(r.value, m)
    decreases |ws|
  {
    if ws == [] then None
    else if Fills(ws[|ws| - 1], m) then Some(ws[|ws| - 1])
    else LastFill(ws[..|ws| - 1], m)
  }

  /** The last status a write of `ws` sets, if any. */
  function LastStatus(ws: seq<Write>): Option<Status>
    decreases |ws|
  {
    if ws == [] then None
    else if StatusOf(ws[|ws| - 1]).Some? then StatusOf(ws[|ws| - 1])
    else LastStatus(ws[..|ws| - 1])
  }

  /** No write changes who owns the case or which file it is about. */
  lemma {:induction false} ApplyAllKeepsIdentity(r: CaseRecord, ws: seq<Write>)
    ensures SameIdentity(r, ApplyAll(r, ws))
    decreases |ws|
  {
    if ws != [] {
      ApplyAllKeepsIdentity(r, ws[..|ws| - 1]);
    }
  }

  /** A slot holds the result of the last write that filled it, and is
      untouched when no write filled it. */
  lemma {:induction false} SlotIsLastFill(r: CaseRecord, ws: seq<Write>, m: Mode)
    ensures var s := SlotOf(ApplyAll(r, ws), m);
            match LastFill(ws, m)
            case None => s == SlotOf(r, m)
            case Some(w) => s == Slot(Some(w.payload), Some(w.at))
    decreases |ws|
  {
    if ws != [] {
      SlotIsLastFill(r, ws[..|ws| - 1], m);
    }
  }

  /** The status is the one set last, or the initial one when no write
      sets a status. */
  lemma {:induction false} StatusIsLastStatus(r: CaseRecord, ws: seq<Write>)
    ensures ApplyAll(r, ws).status == LastStatus(ws).GetOr(r.status)
    decreases |ws|
  {
    if ws != [] {
      StatusIsLastStatus(r, ws[..|ws| - 1]);
    }
  }

  /** When every status-setting write sets the same status `s`, and some
      write sets one, `s` is the status at the end, whatever the order. */
  lemma {:induction false} UniformStatus(ws: seq<Write>, s: Status)
    requires forall i :: 0 <= i < |ws| && StatusOf(ws[i]).Some? ==> StatusOf(ws[i]) == Some(s)
    requires exists i :: 0 <= i < |ws| && StatusOf(ws[i]).Some?
    ensures LastStatus(ws) == Some(s)
    decreases |ws|
  {
    var n := |ws| - 1;
    if StatusOf(ws[n]).None? {
      var i :| 0 <= i < |ws| && StatusOf(ws[i]).Some?;
      assert ws[..n][i] == ws[i];
      UniformStatus(ws[..n], s);
    }
  }

  /** When every write that fills the slot of `m` is the same write `w`,
      the slot ends holding `w`'s result if `w` occurs at all. */
  lemma {:induction false} UniformFill(ws: seq<Write>, m: Mode, w: Write)
    requires Fills(w, m)
    requires forall i :: 0 <= i < |ws| && Fills(ws[i], m) ==> ws[i] == w
    ensures LastFill(ws, m) == if w in ws then Some(w) else None
    decreases |ws|
  {
    if ws != [] {
      var n := |ws| - 1;
      UniformFill(ws[..n], m, w);
      assert ws == ws[..n] + [ws[n]];
      if !Fills(ws[n], m) {
        assert w in ws <==> w in ws[..n];
      }
    }
  }
}
