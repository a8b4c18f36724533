/** What both report displays do with the stored payload before rendering:
    strip Markdown code fences, pick the loading step while the text does
    not parse yet, and choose the text of a sentinel card. */
module ReportCleaning {
  import opened Text
  import opened JsValues

  const Fence := "```"

  /** Four characters matching `json` under the regex `i` flag (which,
      outside unicode mode, folds ASCII letters only). */
  predicate IsJsonTag(s: string) {
    && |s| == 4
    && (s[0] == 'j' || s[0] == 'J')
    && (s[1] == 's' || s[1] == 'S')
    && (s[2] == 'o' || s[2] == 'O')
    && (s[3] == 'n' || s[3] == 'N')
  }

  /** `t.replace(/^```json\s*\/i, '')`. */
  function StripOpeningJsonFence(t: string): (r: string)
    ensures |r| <= |t|
  {
    if |t| >= 7 && t[..3] == Fence && IsJsonTag(t[3..7]) then TrimStart(t[7..]) else t
  }

  /** `t.replace(/^```\s*\/i, '')`. */
  function StripOpeningFence(t: string): (r: string)
    ensures |r| <= |t|
  {
    if StartsWith(t, Fence) then TrimStart(t[3..]) else t
  }

  /** `t.replace(/\s*```$/i, '')`: the leftmost match starts where the
      whitespace run before the final fence begins. */
  function StripClosingFence(t: string): (r: string)
    ensures |r| <= |t|
  {
    if EndsWith(t, Fence) then TrimEnd(t[..|t| - 3]) else t
  }

  /** The cleaning both displays apply: trim, drop a leading "```json"
      fence, then a leading "```" fence (both replacements run, one after
      the other), then a trailing fence, then trim again. */
  function CleanFences(data: string): (r: string)
    ensures Trimmed(r)
    ensures |r| <= |data|
  {
    var trimmed := Trim(data);
    var afterJson := StripOpeningJsonFence(trimmed);
    var afterOpen := StripOpeningFence(afterJson);
    Trim(StripClosingFence(afterOpen))
  }

  /** A JSON object text as the model is asked to produce it. */
  predicate IsObjectText(b: string) {
    |b| >= 2 && b[0] == '{' && b[|b| - 1] == '}'
  }

  lemma ObjectTextIsTrimmed(b: string)
    requires IsObjectText(b)
    ensures Trimmed(b)
    ensures !StartsWith(b, Fence) && !EndsWith(b, Fence)
  {
    if |b| >= 3 {
      assert b[..3][0] == b[0];
      assert b[|b| - 3..][2] == b[|b| - 1];
    }
  }

  /** Text that, once trimmed, neither starts nor ends with a fence comes
      back merely trimmed. */
  lemma CleanUnfenced(data: string)
    requires !StartsWith(Trim(data), Fence) && !EndsWith(Trim(data), Fence)
    ensures CleanFences(data) == Trim(data)
  {
    var t := Trim(data);
    assert StripOpeningJsonFence(t) == t;
    assert StripOpeningFence(t) == t;
    assert StripClosingFence(t) == t;
    TrimIdempotent(data);
  }

  lemma StripJsonFenceStep(tag: string, w: string, x: string)
    requires IsJsonTag(tag) && AllSpace(w) && |x| > 0 && !IsSpace(x[0])
    ensures StripOpeningJsonFence(Fence + tag + w + x) == x
  {
    var t := Fence + tag + w + x;
    assert t[..3] == Fence && t[3..7] == tag;
    assert t[7..] == w + x;
    TrimStartOfPadded(w, x);
    TrimStartOfUnpadded(x);
  }

  lemma StripJsonFenceSkips(t: string)
    requires |t| < 7 || t[3] == '{' || t[3] == '`' || IsSpace(t[3])
    ensures StripOpeningJsonFence(t) == t
  {
    if |t| >= 7 {
      assert t[3..7][0] == t[3];
      assert !IsJsonTag(t[3..7]);
    }
  }

  lemma StripFenceStep(w: string, x: string)
    requires AllSpace(w) && |x| > 0 && !IsSpace(x[0])
    ensures StripOpeningFence(Fence + w + x) == x
  {
    var t := Fence + w + x;
    assert t[..3] == Fence;
    assert t[3..] == w + x;
    TrimStartOfPadded(w, x);
    TrimStartOfUnpadded(x);
  }

  lemma StripClosingFenceStep(b: string, w: string)
    requires AllSpace(w) && |b| > 0 && !IsSpace(b[|b| - 1])
    ensures StripClosingFence(b + w + Fence) == b
  {
    var t := b + w + Fence;
    assert t[|t| - 3..] == Fence;
    assert t[..|t| - 3] == b + w;
    TrimEndOfPadded(b, w);
    TrimEndOfUnpadded(b);
  }

  /** A JSON object wrapped in a "```json" fence (any case of "json", any
      whitespace around) is recovered exactly. */
  lemma CleanJsonFenced(w0: string, tag: string, w1: string, b: string, w2: string, w3: string)
    requires AllSpace(w0) && AllSpace(w1) && AllSpace(w2) && AllSpace(w3)
    requires IsJsonTag(tag) && IsObjectText(b)
    ensures CleanFences(w0 + Fence + tag + w1 + b + w2 + Fence + w3) == b
  {
    var inner := Fence + tag + w1 + (b + w2 + Fence);
    Regroup(w0, Fence, tag, w1, b, w2, Fence, w3);
    FencedIsTrimmed(w0, inner, w3);
    JsonFencedInner(tag, w1, b, w2);
    CleanVia(w0 + inner + w3, inner, b);
  }

  /** `CleanFences` through its stages: trimming, the three strips, and a
      final trim that leaves object text as it is. */
  lemma CleanVia(data: string, inner: string, b: string)
    requires Trim(data) == inner && IsObjectText(b)
    requires StripClosingFence(StripOpeningFence(StripOpeningJsonFence(inner))) == b
    ensures CleanFences(data) == b
  {
    ObjectTextIsTrimmed(b);
    TrimOfPadded("", b, "");
    assert "" + b + "" == b;
  }

  lemma Regroup(p0: string, p1: string, p2: string, p3: string, p4: string, p5: string, p6: string, p7: string)
    ensures p0 + p1 + p2 + p3 + p4 + p5 + p6 + p7 == p0 + (p1 + p2 + p3 + (p4 + p5 + p6)) + p7
  {
  }

  lemma RegroupPlain(p0: string, p1: string, p2: string, p3: string, p4: string, p5: string, p6: string)
    ensures p0 + p1 + p2 + p3 + p4 + p5 + p6 == p0 + (p1 + p2 + (p3 + p4 + p5)) + p6
  {
  }

  /** Text between two backticks, padded with white space, trims to
      itself. */
  lemma FencedIsTrimmed(w0: string, inner: string, w3: string)
    requires AllSpace(w0) && AllSpace(w3)
    requires |inner| >= 2 && inner[0] == '`' && inner[|inner| - 1] == '`'
    ensures Trim(w0 + inner + w3) == inner
  {
    TrimOfPadded(w0, inner, w3);
  }

  /** The three fence strips applied to a trimmed `json` fence. */
  lemma JsonFencedInner(tag: string, w1: string, b: string, w2: string)
    requires AllSpace(w1) && AllSpace(w2) && IsJsonTag(tag) && IsObjectText(b)
    ensures StripClosingFence(StripOpeningFence(StripOpeningJsonFence(Fence + tag + w1 + (b + w2 + Fence)))) == b
  {
    var x := b + w2 + Fence;
    assert x[0] == '{';
    StripJsonFenceStep(tag, w1, x);
    assert !StartsWith(x, Fence) by {
      assert x[..3][0] == '{';
    }
    StripClosingFenceStep(b, w2);
  }

  /** A JSON object wrapped in a bare "```" fence is recovered exactly. */
  lemma CleanPlainFenced(w0: string, w1: string, b: string, w2: string, w3: string)
    requires AllSpace(w0) && AllSpace(w1) && AllSpace(w2) && AllSpace(w3)
    requires IsObjectText(b)
    ensures CleanFences(w0 + Fence + w1 + b + w2 + Fence + w3) == b
  {
    var inner := Fence + w1 + (b + w2 + Fence);
    RegroupPlain(w0, Fence, w1, b, w2, Fence, w3);
    FencedIsTrimmed(w0, inner, w3);
    PlainFencedInner(w1, b, w2);
    CleanVia(w0 + inner + w3, inner, b);
  }

  /** The three fence strips applied to a trimmed bare fence. */
  lemma PlainFencedInner(w1: string, b: string, w2: string)
    requires AllSpace(w1) && AllSpace(w2) && IsObjectText(b)
    ensures StripClosingFence(StripOpeningFence(StripOpeningJsonFence(Fence + w1 + (b + w2 + Fence)))) == b
  {
    var x := b + w2 + Fence;
    var inner := Fence + w1 + x;
    assert x[0] == '{';
    if |w1| > 0 {
      assert inner[3] == w1[0];
    } else {
      assert inner[3] == x[0];
    }
    StripJsonFenceSkips(inner);
    StripFenceStep(w1, x);
    StripClosingFenceStep(b, w2);
  }

  /** An object text is already clean. */
  lemma CleanObjectText(b: string)
    requires IsObjectText(b)
    ensures CleanFences(b) == b
  {
    ObjectTextIsTrimmed(b);
    TrimOfPadded("", b, "");
    assert "" + b + "" == b;
    CleanUnfenced(b);
  }

  /** The shape the displays are written for: "```json", a newline, the
      object, a newline, "```". */
  lemma CleanTypicalReply(body: string)
    requires IsObjectText(body)
    ensures CleanFences("```json\n" + body + "\n```") == body
  {
    var nl := "\n";
    var input := "```json\n" + body + "\n```";
    assert input == "" + Fence + "json" + nl + body + nl + Fence + "" by {
      assert |input| == |body| + 12;
    }
    assert AllSpace(nl) && AllSpace("");
    assert IsJsonTag("json");
    CleanJsonFenced("", "json", nl, body, nl, "");
  }

  /** The loading list has six entries; the index of the highlighted one. */
  const LoadingStepCount: nat := 6

  /** `Math.min(Math.floor(len / charsPerStep), messages.length - 1)`. */
  function ProgressIndex(len: nat, charsPerStep: nat): (r: nat)
    requires charsPerStep > 0
    ensures r < LoadingStepCount
    ensures r == LoadingStepCount - 1 <==> len >= (LoadingStepCount - 1) * charsPerStep
    ensures r < LoadingStepCount - 1 ==> r * charsPerStep <= len < (r + 1) * charsPerStep
  {
    var q := len / charsPerStep;
    if q < LoadingStepCount - 1 then q else LoadingStepCount - 1
  }

  /** The loading step never moves back as more text streams in. */
  lemma ProgressIndexMonotone(a: nat, b: nat, charsPerStep: nat)
    requires charsPerStep > 0 && a <= b
    ensures ProgressIndex(a, charsPerStep) <= ProgressIndex(b, charsPerStep)
  {
  }

  datatype EntryState = Done | Current | Pending

  /** Entry `idx` shows a check mark below the index, a spinner at it. */
  function EntryStateAt(idx: nat, progress: nat): EntryState {
    if idx < progress then Done else if idx == progress then Current else Pending
  }

  /** Entry `idx` uses the emphasised style (`idx <= progressIndex`). */
  predicate Highlighted(idx: nat, progress: nat) {
    idx <= progress
  }

  function CountDone(s: seq<EntryState>): nat {
    if |s| == 0 then 0 else (if s[0] == Done then 1 else 0) + CountDone(s[1..])
  }

  lemma {:induction false} CountDoneOfPrefix(s: seq<EntryState>, p: nat)
    requires p <= |s|
    requires forall i :: 0 <= i < p ==> s[i] == Done
    requires forall i :: p <= i < |s| ==> s[i] != Done
    ensures CountDone(s) == p
    decreases |s|
  {
    if |s| > 0 {
      if p > 0 {
        CountDoneOfPrefix(s[1..], p - 1);
      } else {
        CountDoneOfPrefix(s[1..], 0);
      }
    }
  }

  /** The rendered loading list: exactly one spinner, at the progress
      index, after exactly that many completed steps; an entry is
      emphasised exactly when it is not pending. */
  function LoadingEntries(progress: nat): (r: seq<EntryState>)
    requires progress < LoadingStepCount
    ensures |r| == LoadingStepCount
    ensures r[progress] == Current
    ensures forall i :: 0 <= i < |r| && i != progress ==> r[i] != Current
    ensures CountDone(r) == progress
    ensures forall i :: 0 <= i < |r| ==> (r[i] != Pending <==> Highlighted(i, progress))
  {
    var r := seq(LoadingStepCount, i requires 0 <= i => EntryStateAt(i, progress));
    CountDoneOfPrefix(r, progress);
    r
  }

  /** `(parsed as any).message || fallback` for a sentinel object. */
  function MessageOr(fields: map<string, Value>, fallback: string): (r: Value)
    requires fallback != ""
    ensures Truthy(r)
    ensures Truthy(Field(fields, "message")) ==> r == fields["message"]
  {
    Or(Field(fields, "message"), Str(fallback))
  }
}
