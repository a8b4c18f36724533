/** The client-side analyzer: file selection with its size gate, the
    submission that uploads the file and starts both analyses, and the
    two status pollers. Timers, the upload and the requests are replaced
    by their outcomes, given as parameters. */
module CaseAnalyzer {
  import opened Options
  import opened JsValues
  import opened Text

  /** Ten mebibytes; a file of exactly this size is accepted. */
  const MaxFileSize: int := 10 * 1024 * 1024
  const FileTooLarge := "File too large. Max 10MB."
  const ErrorPrefix := "Error: "

  datatype FileInfo = FileInfo(name: string, size: int)

  /** A status as polled from the server, or as set optimistically. The
      result slots are kept as JS values: only their truthiness matters
      here. */
  datatype AnalysisStatus = AnalysisStatus(
    id: Value,
    status: string,
    progress: Option<int>,
    step: Option<string>,
    defaultRecommendations: Value,
    parameterizedRecommendations: Value,
    errorMessage: Option<string>)

  datatype Mode = DefaultMode | ParametersMode

  datatype State = State(
    file: Option<FileInfo>,
    isStarting: bool,
    isUploading: bool,
    uploadSuccess: bool,
    /** The job ids: `Null` until a submission succeeds. */
    defaultJobId: Value,
    paramJobId: Value,
    defaultStatus: Option<AnalysisStatus>,
    paramStatus: Option<AnalysisStatus>,
    error: string)

  const Initial := State(None, false, false, false, Null, Null, None, None, "")

  function JobId(s: State, m: Mode): Value {
    match m
    case DefaultMode => s.defaultJobId
    case ParametersMode => s.paramJobId
  }

  function PolledStatus(s: State, m: Mode): Option<AnalysisStatus> {
    match m
    case DefaultMode => s.defaultStatus
    case ParametersMode => s.paramStatus
  }

  /** The slot a mode's poller watches. */
  function PolledSlot(st: AnalysisStatus, m: Mode): Value {
    match m
    case DefaultMode => st.defaultRecommendations
    case ParametersMode => st.parameterizedRecommendations
  }

  /** `defaultComplete` / `paramComplete`. */
  predicate Complete(s: State, m: Mode) {
    PolledStatus(s, m).Some? && Truthy(PolledSlot(PolledStatus(s, m).value, m))
  }

  predicate Errored(s: State, m: Mode) {
    PolledStatus(s, m).Some? && PolledStatus(s, m).value.status == "error"
  }

  /** The condition under which a mode's polling effect sets up its
      interval. */
  predicate ShouldPoll(s: State, m: Mode) {
    Truthy(JobId(s, m)) && !Complete(s, m) && !Errored(s, m)
  }

  /** `isProcessing`, as written on its own in the component. */
  predicate IsProcessing(s: State) {
    (Truthy(s.defaultJobId) && !(s.defaultStatus.Some? && Truthy(s.defaultStatus.value.defaultRecommendations))
       && !(s.defaultStatus.Some? && s.defaultStatus.value.status == "error"))
    || (Truthy(s.paramJobId) && !(s.paramStatus.Some? && Truthy(s.paramStatus.value.parameterizedRecommendations))
       && !(s.paramStatus.Some? && s.paramStatus.value.status == "error"))
  }

  /** The spinner shows exactly while some poller is active. */
  lemma ProcessingIffSomePoller(s: State)
    ensures IsProcessing(s) <==> ShouldPoll(s, DefaultMode) || ShouldPoll(s, ParametersMode)
  {
  }

  /** `handleFileChange` with the selected file, if any. The timer that
      clears `uploadSuccess` two seconds later is not modelled. */
  function SelectFile(s: State, selected: Option<FileInfo>): (s': State)
    ensures selected.None? ==> s' == s
    ensures selected.Some? && selected.value.size > MaxFileSize ==> s' == s.(error := FileTooLarge)
    ensures selected.Some? && selected.value.size <= MaxFileSize ==>
              && s'.file == selected && s'.error == "" && s'.uploadSuccess
              && !Truthy(s'.defaultJobId) && !Truthy(s'.paramJobId)
              && s'.defaultStatus.None? && s'.paramStatus.None?
              && s'.isStarting == s.isStarting && s'.isUploading == s.isUploading
  {
    match selected
    case None => s
    case Some(f) =>
      if f.size > MaxFileSize then s.(error := FileTooLarge)
      else s.(file := Some(f), error := "", defaultJobId := Null, paramJobId := Null,
              defaultStatus := None, paramStatus := None, uploadSuccess := true)
  }

  /** Choosing a new file stops all polling: no job is left to watch. */
  lemma AcceptedFileStopsProcessing(s: State, f: FileInfo)
    requires f.size <= MaxFileSize
    ensures !IsProcessing(SelectFile(s, Some(f)))
  {
  }

  /** A thrown value: an `Error` (with its `name` and `message`) or any
      other value. */
  datatype Thrown = ErrorValue(name: string, message: string) | OtherValue(v: Value)

  /** `new Error(m)`. */
  function NewError(message: string): Thrown {
    ErrorValue("Error", message)
  }

  /** `String(err)`: an error renders as `name: message`, leaving out
      whichever part is empty. */
  function ThrownToString(t: Thrown): (r: string)
    ensures t.ErrorValue? && t.name != "" && t.message != "" ==> r == t.name + ": " + t.message
    ensures t.ErrorValue? && t.message == "" ==> r == t.name
  {
    match t
    case ErrorValue(name, message) =>
      if message == "" then name else if name == "" then message else name + ": " + message
    case OtherValue(v) => ToJsString(v)
  }

  /** Drops one leading "Error: ", if present. */
  function StripErrorPrefix(m: string): (r: string)
    ensures StartsWith(m, ErrorPrefix) ==> m == ErrorPrefix + r
    ensures !StartsWith(m, ErrorPrefix) ==> r == m
  {
    if StartsWith(m, ErrorPrefix) then m[|ErrorPrefix|..] else m
  }

  /** The error shown for a thrown `new Error(m)` is `m`, with exactly one
      prefix removed even when `m` itself starts with "Error: ". */
  lemma ShownErrorOfNewError(m: string)
    requires m != ""
    ensures StripErrorPrefix(ThrownToString(NewError(m))) == m
  {
    var full := ThrownToString(NewError(m));
    assert full == ErrorPrefix + m;
    assert full[..|ErrorPrefix|] == ErrorPrefix;
  }

  /** How a submission goes after the optimistic update. */
  datatype Submission =
      /** The upload, the request, or reading a response threw `err`. */
    | Threw(err: Thrown)
      /** The route answered with a non-2xx status; `errorData` is its
          body, or `{}` when it is not JSON. */
    | Rejected(errorData: Value)
      /** The route answered 2xx with the body `result`. */
    | Started(result: Value)

  /** What a rejected response throws: `new Error(errorData.error ||
      "Analysis failed")`, or the `TypeError` of reading a field of
      `null`. */
  function RejectionError(errorData: Value): (r: Thrown)
    ensures errorData.Null? || errorData.Undefined? ==> r.ErrorValue? && r.name == "TypeError"
    ensures errorData.Obj? && Truthy(Field(errorData.fields, "error")) ==>
              r == NewError(ToJsString(Field(errorData.fields, "error")))
    ensures Get(errorData, "error").Some? && !Truthy(Get(errorData, "error").value) ==>
              r == NewError("Analysis failed")
  {
    match Get(errorData, "error")
    case None => ErrorValue("TypeError", "Cannot read properties of null (reading 'error')")
    case Some(e) => NewError(ToJsString(Or(e, Str("Analysis failed"))))
  }

  /** The optimistic status set for a mode once the case is created. */
  function Optimistic(caseId: Value, m: Mode): (st: AnalysisStatus)
    ensures st.status == "processing" && st.progress == Some(10)
    ensures !Truthy(st.defaultRecommendations) && !Truthy(st.parameterizedRecommendations)
  {
    var step := if m == DefaultMode then "Extracting text from PDF..." else "Queued for analysis...";
    AnalysisStatus(caseId, "processing", Some(10), Some(step), Null, Null, None)
  }

  /** The state after a throw inside the submission. */
  function AfterThrow(s: State, err: Thrown): State {
    s.(error := StripErrorPrefix(ThrownToString(err)), isUploading := false, isStarting := false)
  }

  /** `handleAnalyzeBoth` for the signed-in organisation `orgId`, run to
      completion with the given outcome. */
  function AnalyzeBoth(s: State, orgId: Option<string>, outcome: Submission): (s': State)
    ensures s.file.None? || orgId.None? || orgId.value == "" ==> s' == s
    ensures s.file.Some? && orgId.Some? && orgId.value != "" ==>
              && !s'.isStarting && !s'.isUploading && s'.file == s.file
              && (s'.defaultStatus.Some? <==> outcome.Started? && !outcome.result.Null? && !outcome.result.Undefined?)
    ensures s.file.Some? && orgId.Some? && orgId.value != "" && s'.defaultStatus.None? ==>
              && s'.paramStatus.None?
              && s'.defaultJobId == s.defaultJobId && s'.paramJobId == s.paramJobId
    ensures s.file.Some? && orgId.Some? && orgId.value != "" && outcome.Threw? ==>
              s'.error == StripErrorPrefix(ThrownToString(outcome.err))
    ensures s.file.Some? && orgId.Some? && orgId.value != "" && outcome.Rejected? ==>
              s'.error == StripErrorPrefix(ThrownToString(RejectionError(outcome.errorData)))
    ensures s.file.Some? && orgId.Some? && orgId.value != "" && outcome.Started?
            && !outcome.result.Null? && !outcome.result.Undefined? ==>
              && s'.error == ""
              && s'.defaultJobId == Get(outcome.result, "caseId").value
              && s'.paramJobId == Get(outcome.result, "caseId").value
    ensures s.file.Some? && orgId.Some? && orgId.value != "" && outcome.Started? && outcome.result.Obj? ==>
              var caseId := Field(outcome.result.fields, "caseId");
              && s'.defaultJobId == caseId && s'.paramJobId == caseId
              && s'.defaultStatus == Some(Optimistic(caseId, DefaultMode))
              && s'.paramStatus == Some(Optimistic(caseId, ParametersMode))
  {
    if s.file.None? || orgId.None? || orgId.value == "" then s
    else
      var pending := s.(isStarting := true, isUploading := true, error := "", defaultStatus := None, paramStatus := None);
      match outcome
      case Threw(err) => AfterThrow(pending, err)
      case Rejected(errorData) => AfterThrow(pending, RejectionError(errorData))
      case Started(result) =>
        match Get(result, "caseId")
        case None => AfterThrow(pending, ErrorValue("TypeError", "Cannot read properties of null (reading 'caseId')"))
        case Some(caseId) =>
          pending.(isUploading := false, isStarting := false,
                   defaultJobId := caseId, paramJobId := caseId,
                   defaultStatus := Some(Optimistic(caseId, DefaultMode)),
                   paramStatus := Some(Optimistic(caseId, ParametersMode)))
  }

  /** A started submission whose case id is truthy puts both modes into
      polling. */
  lemma StartedSubmissionPollsBoth(s: State, orgId: string, result: Value)
    requires s.file.Some? && orgId != ""
    requires result.Obj? && Truthy(Field(result.fields, "caseId"))
    ensures var s' := AnalyzeBoth(s, Some(orgId), Started(result));
            ShouldPoll(s', DefaultMode) && ShouldPoll(s', ParametersMode) && IsProcessing(s')
  {
  }

  /** A rejected request shows the route's `error` text when there is
      one, and "Analysis failed" otherwise. */
  lemma RejectionShowsServerError(s: State, orgId: string, errorData: Value)
    requires s.file.Some? && orgId != ""
    requires errorData.Obj?
    ensures var e := Field(errorData.fields, "error");
            var shown := AnalyzeBoth(s, Some(orgId), Rejected(errorData)).error;
            && (e.Str? && e.s != "" ==> shown == e.s)
            && (!Truthy(e) ==> shown == "Analysis failed")
  {
    var e := Field(errorData.fields, "error");
    assert Get(errorData, "error") == Some(e);
    if e.Str? && e.s != "" {
      ShownErrorOfNewError(e.s);
    } else if !Truthy(e) {
      ShownErrorOfNewError("Analysis failed");
    }
  }

  /** A failed resubmission clears the displayed statuses but keeps the
      previous job ids, so an earlier job that had not finished is polled
      again. */
  lemma FailedResubmissionResumesEarlierJob(s: State, orgId: string, err: Thrown)
    requires s.file.Some? && orgId != ""
    requires Truthy(s.defaultJobId)
    ensures var s' := AnalyzeBoth(s, Some(orgId), Threw(err));
            ShouldPoll(s', DefaultMode) && IsProcessing(s')
  {
  }

  /** One tick of a mode's poller. `polled` is what `pollStatus` returns:
      `None` for a non-2xx response or a failed request. The result says
      whether the interval keeps running. */
  function PollTick(s: State, m: Mode, polled: Option<AnalysisStatus>): (r: (State, bool))
    ensures polled.None? ==> r == (s, true)
    ensures polled.Some? ==> PolledStatus(r.0, m) == polled && JobId(r.0, m) == JobId(s, m)
    ensures polled.Some? ==> PolledStatus(r.0, if m == DefaultMode then ParametersMode else DefaultMode)
                              == PolledStatus(s, if m == DefaultMode then ParametersMode else DefaultMode)
    ensures polled.Some? && Truthy(JobId(s, m)) ==> (r.1 <==> ShouldPoll(r.0, m))
  {
    match polled
    case None => (s, true)
    case Some(st) =>
      var s' := if m == DefaultMode then s.(defaultStatus := Some(st)) else s.(paramStatus := Some(st));
      (s', !(Truthy(PolledSlot(st, m)) || st.status == "error"))
  }

  /** Once a mode's slot is filled or its status is "error", polling for
      it stops, and no tick of the other mode's poller restarts it. A new
      submission can (see `FailedResubmissionResumesEarlierJob`). */
  lemma TerminalStatusStopsPolling(s: State, m: Mode, st: AnalysisStatus, polled: Option<AnalysisStatus>)
    requires Truthy(PolledSlot(st, m)) || st.status == "error"
    ensures var t := PollTick(s, m, Some(st));
            && !t.1 && !ShouldPoll(t.0, m)
            && var other := if m == DefaultMode then ParametersMode else DefaultMode;
               !ShouldPoll(PollTick(t.0, other, polled).0, m)
  {
  }
}
