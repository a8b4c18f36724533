/** String operations with the semantics of the JavaScript built-ins the
    application uses: `trim`, the regex class `\s`, `startsWith`,
    `slice(0, n)`, `indexOf`, and `replace` with a literal pattern (first
    occurrence) or a global one. Strings are sequences of characters; the
    source counts UTF-16 code units. */
module Text {
  import opened Options

  /** The characters `String.prototype.trim` removes and `\s` matches:
      the WhiteSpace and LineTerminator code points of ECMA-262. */
  predicate IsSpace(c: char) {
    || c == '\t' || c == '\n' || c == '\U{000B}' || c == '\U{000C}' || c == '\r'
    || c == ' ' || c == '\U{00A0}' || c == '\U{1680}'
    || ('\U{2000}' <= c <= '\U{200A}')
    || c == '\U{2028}' || c == '\U{2029}' || c == '\U{202F}' || c == '\U{205F}'
    || c == '\U{3000}' || c == '\U{FEFF}'
  }

  predicate AllSpace(s: string) {
    forall i :: 0 <= i < |s| ==> IsSpace(s[i])
  }

  /** Neither end of `s` is whitespace. */
  predicate Trimmed(s: string) {
    |s| == 0 || (!IsSpace(s[0]) && !IsSpace(s[|s| - 1]))
  }

  /** Leading whitespace removed (`trimStart`). */
  function TrimStart(s: string): (r: string)
    ensures |r| <= |s| && r == s[|s| - |r|..]
    ensures AllSpace(s[..|s| - |r|])
    ensures |r| == 0 || !IsSpace(r[0])
    decreases |s|
  {
    if |s| > 0 && IsSpace(s[0]) then TrimStart(s[1..]) else s
  }

  /** Trailing whitespace removed (`trimEnd`). */
  function TrimEnd(s: string): (r: string)
    ensures |r| <= |s| && r == s[..|r|]
    ensures AllSpace(s[|r|..])
    ensures |r| == 0 || !IsSpace(r[|r| - 1])
    decreases |s|
  {
    if |s| > 0 && IsSpace(s[|s| - 1]) then TrimEnd(s[..|s| - 1]) else s
  }

  /** `String.prototype.trim`. */
  function Trim(s: string): (r: string)
    ensures Trimmed(r)
    ensures |r| <= |s|
  {
    TrimEnd(TrimStart(s))
  }

  predicate StartsWith(s: string, p: string) {
    |p| <= |s| && s[..|p|] == p
  }

  predicate EndsWith(s: string, p: string) {
    |p| <= |s| && s[|s| - |p|..] == p
  }

  /** `s.slice(0, n)` for a non-negative `n`. */
  function Prefix(s: string, n: nat): (r: string)
    ensures |r| == if |s| <= n then |s| else n
    ensures r == s[..|r|]
  {
    if |s| <= n then s else s[..n]
  }

  /** `p` occurs in `s` at index `i`. */
  predicate OccursAt(s: string, p: string, i: int) {
    0 <= i && i + |p| <= |s| && s[i..i + |p|] == p
  }

  /** `s.indexOf(p, from)`: the first occurrence at or after `from`. */
  function IndexOfFrom(s: string, p: string, from: nat): (r: Option<nat>)
    ensures r.Some? ==> from <= r.value && OccursAt(s, p, r.value)
    ensures r.Some? ==> forall j :: from <= j < r.value ==> !OccursAt(s, p, j)
    ensures r.None? ==> forall j :: from <= j ==> !OccursAt(s, p, j)
    decreases |s| - from
  {
    if from + |p| > |s| then None
    else if s[from..from + |p|] == p then Some(from)
    else IndexOfFrom(s, p, from + 1)
  }

  /** `s.replace(p, '')` with a string pattern: only the first occurrence
      of `p` is removed. */
  function RemoveFirst(s: string, p: string): (r: string)
    ensures (forall j :: !OccursAt(s, p, j)) ==> r == s
    ensures (exists j :: OccursAt(s, p, j)) ==> |r| == |s| - |p|
    ensures forall i :: OccursAt(s, p, i) && (forall j :: 0 <= j < i ==> !OccursAt(s, p, j)) ==>
              r == s[..i] + s[i + |p|..]
  {
    match IndexOfFrom(s, p, 0)
    case None => s
    case Some(i) => s[..i] + s[i + |p|..]
  }

  /** `s.replace(/p/g, '')`: a left-to-right scan removing every
      non-overlapping occurrence of `p`. */
  function RemoveAll(s: string, p: string): (r: string)
    requires |p| > 0
    ensures |r| <= |s|
    ensures (forall j :: !OccursAt(s, p, j)) ==> r == s
    decreases |s|
  {
    if |s| < |p| then s
    else if s[..|p|] == p then
      assert OccursAt(s, p, 0);
      RemoveAll(s[|p|..], p)
    else
      var rest := RemoveAll(s[1..], p);
      assert (forall j :: !OccursAt(s, p, j)) ==> forall j :: !OccursAt(s[1..], p, j) by {
        if forall j :: !OccursAt(s, p, j) {
          forall j | OccursAt(s[1..], p, j) ensures false {
            assert s[1..][j..j + |p|] == s[j + 1..j + 1 + |p|];
            assert OccursAt(s, p, j + 1);
          }
        }
      }
      [s[0]] + rest
  }

  lemma {:induction false} TrimStartOfPadded(w: string, x: string)
    requires AllSpace(w)
    ensures TrimStart(w + x) == TrimStart(x)
    decreases |w|
  {
    if |w| > 0 {
      assert (w + x)[1..] == w[1..] + x;
      TrimStartOfPadded(w[1..], x);
    } else {
      assert w + x == x;
    }
  }

  lemma TrimStartOfUnpadded(x: string)
    requires |x| == 0 || !IsSpace(x[0])
    ensures TrimStart(x) == x
  {
  }

  lemma {:induction false} TrimEndOfPadded(x: string, w: string)
    requires AllSpace(w)
    ensures TrimEnd(x + w) == TrimEnd(x)
    decreases |w|
  {
    if |w| > 0 {
      assert (x + w)[..|x + w| - 1] == x + w[..|w| - 1];
      TrimEndOfPadded(x, w[..|w| - 1]);
    } else {
      assert x + w == x;
    }
  }

  lemma TrimEndOfUnpadded(x: string)
    requires |x| == 0 || !IsSpace(x[|x| - 1])
    ensures TrimEnd(x) == x
  {
  }

  /** Trimming undoes whitespace padding: the partner of `Trim`. */
  lemma TrimOfPadded(w1: string, b: string, w2: string)
    requires AllSpace(w1) && AllSpace(w2) && Trimmed(b)
    ensures Trim(w1 + b + w2) == b
  {
    var x := b + w2;
    assert w1 + b + w2 == w1 + x;
    TrimStartOfPadded(w1, x);
    if |b| > 0 {
      assert x[0] == b[0];
      TrimStartOfUnpadded(x);
      TrimEndOfPadded(b, w2);
      TrimEndOfUnpadded(b);
    } else {
      assert x == w2 + "";
      TrimStartOfPadded(w2, "");
    }
  }

  /** Trimming twice is trimming once. */
  lemma TrimIdempotent(s: string)
    ensures Trim(Trim(s)) == Trim(s)
  {
    var t := Trim(s);
    TrimOfPadded("", t, "");
    assert "" + t + "" == t;
  }
}
