/**
 * The comparison-explanation engine of `_pytest/assertion.py`: when an
 * assertion `left op right` fails, `pytest_assertrepr_compare` builds the
 * lines that explain why — a width-bounded summary line followed by a
 * diff chosen by the operator and the operands' categories — contains any
 * exception raised while doing so, and truncates output that is too long.
 *
 * Each routine of the source is a method with the source's loops, proved
 * against a specification function; the lemmas state what those functions
 * promise.
 */
module Assertion {
  import opened PyStr
  import opened PyValues

  /* ---------------------------------------------------------------------
   * Constants of the explanation format
   * ------------------------------------------------------------------- */

  /** a common leading or trailing run longer than this is skipped */
  const SkipThreshold: nat := 42
  /** characters of the skipped run kept as context */
  const Context: nat := 10
  /** `80*8`: longest detail part (joined without separators) left as it is */
  const MaxDetailLength: nat := 640

  const TruncatedLine := "Detailed information too verbose, truncated"
  const FallbackLine := "(pytest_assertion plugin: representation of details failed. Probably an object has a faulty __repr__.)"

  function LeadingNote(n: nat): string {
    "Skipping " + NatToString(n) + " identical leading characters in diff"
  }

  function TrailingNote(n: nat): string {
    "Skipping " + NatToString(n) + " identical trailing characters in diff"
  }

  /* ---------------------------------------------------------------------
   * The index a `for i in range(n): if bad(i): break` loop leaves in `i`
   * ------------------------------------------------------------------- */

  function ScanFrom(bad: seq<bool>, k: nat): (i: nat)
    requires k < |bad|
    ensures k <= i < |bad|
    decreases |bad| - k
  {
    if bad[k] || k + 1 == |bad| then k else ScanFrom(bad, k + 1)
  }

  /**
   * The value of `i` after `for i in range(len(bad)): if bad[i]: break`
   * when `i` held `prior` before the loop: a loop that does not run leaves
   * `i` alone, one that runs to the end leaves the last index in it.
   */
  function LoopIndex(bad: seq<bool>, prior: int): (i: int)
    ensures |bad| == 0 ==> i == prior
    ensures |bad| > 0 ==> 0 <= i < |bad|
  {
    if |bad| == 0 then prior else ScanFrom(bad, 0)
  }

  lemma {:induction false} ScanFromSpec(bad: seq<bool>, k: nat)
    requires k < |bad|
    ensures forall j :: k <= j < ScanFrom(bad, k) ==> !bad[j]
    ensures bad[ScanFrom(bad, k)] || ScanFrom(bad, k) == |bad| - 1
    decreases |bad| - k
  {
    if !bad[k] && k + 1 < |bad| {
      ScanFromSpec(bad, k + 1);
    }
  }

  /**
   * The loop stops at the first `bad` index, or, when there is none, at the
   * last index; these two facts determine `i`.
   */
  lemma LoopIndexSpec(bad: seq<bool>, prior: int, i: int)
    requires |bad| > 0
    ensures LoopIndex(bad, prior) == i <==>
      (0 <= i < |bad| && (forall j :: 0 <= j < i ==> !bad[j]) && (bad[i] || i == |bad| - 1))
  {
    ScanFromSpec(bad, 0);
  }

  /* ---------------------------------------------------------------------
   * _diff_text
   * ------------------------------------------------------------------- */

  /**
   * `left[i] != right[i]` for each `i` in `range(min(len(left), len(right)))`,
   * over strings in `_diff_text` and over items in `_compare_eq_sequence`
   */
  function Mismatch<T(==)>(left: seq<T>, right: seq<T>): (bad: seq<bool>)
    ensures |bad| == Min(|left|, |right|)
    ensures forall k :: 0 <= k < |bad| ==> (bad[k] <==> left[k] != right[k])
  {
    seq(Min(|left|, |right|), k requires 0 <= k < Min(|left|, |right|) => left[k] != right[k])
  }

  /** Python's `s[k]` for `-len(s) <= k < len(s)` */
  function PyIndex(s: string, k: int): char
    requires -|s| <= k < |s|
  {
    if k < 0 then s[|s| + k] else s[k]
  }

  /** `left[-i] != right[-i]` for each `i` in `range(len(left))`; `-0` is index 0 */
  function TrailingMismatch(left: string, right: string): (bad: seq<bool>)
    requires |left| == |right|
    ensures |bad| == |left|
  {
    seq(|left|, k requires 0 <= k < |left| => PyIndex(left, -k) != PyIndex(right, -k))
  }

  /**
   * What the trimming passes of `_diff_text` leave: the notes written so
   * far, the two strings still to diff, and the loop variable `i`.
   */
  datatype Trimmed = Trimmed(notes: seq<string>, left: string, right: string, i: int)

  /** The leading pass of `_diff_text`. */
  function TrimLeading(left: string, right: string): Trimmed {
    var i := LoopIndex(Mismatch(left, right), 0);
    if i > SkipThreshold then
      Trimmed([LeadingNote(i - Context)], left[i - Context..], right[i - Context..], i - Context)
    else Trimmed([], left, right, i)
  }

  /** The trailing pass of `_diff_text`, which starts from the `i` the leading pass left. */
  function TrimTrailing(t: Trimmed): Trimmed {
    if |t.left| == |t.right| then
      var j := LoopIndex(TrailingMismatch(t.left, t.right), t.i);
      if j > SkipThreshold then
        Trimmed(t.notes + [TrailingNote(j - Context)],
                SliceTo(t.left, -(j - Context)), SliceTo(t.right, -(j - Context)), j - Context)
      else Trimmed(t.notes, t.left, t.right, j)
    else t
  }

  /** Both trimming passes of `_diff_text`. */
  function TrimCommon(left: string, right: string): Trimmed {
    TrimTrailing(TrimLeading(left, right))
  }

  /**
   * `[line.strip('\n') for line in lines]`: one line per line, each the
   * line with only the newlines at its ends removed, none of them starting
   * or ending with a newline, and a line that had none at either end kept
   * as it was
   */
  function StripEach(lines: seq<string>): (r: seq<string>)
    ensures |r| == |lines|
    ensures forall k :: 0 <= k < |r| ==> IsNewlineStrip(lines[k], r[k])
  {
    seq(|lines|, k requires 0 <= k < |lines| => StripNewlines(lines[k]))
  }

  /** The lines `_diff_text(left, right)` returns. */
  function DiffTextLines(left: string, right: string, f: Foreign): seq<string> {
    var t := TrimCommon(left, right);
    t.notes + StripEach(f.ndiff(f.splitlines(t.left), f.splitlines(t.right)))
  }

  /** The leading pass stops inside both strings, after a run they share. */
  lemma LeadingIndexSpec(left: string, right: string)
    ensures var i := LoopIndex(Mismatch(left, right), 0);
      && 0 <= i <= Min(|left|, |right|)
      && (Min(|left|, |right|) > 0 ==> i < Min(|left|, |right|))
      && left[..i] == right[..i]
  {
    var bad := Mismatch(left, right);
    if |bad| > 0 {
      var i := LoopIndex(bad, 0);
      LoopIndexSpec(bad, 0, i);
      assert forall j :: 0 <= j < i ==> left[j] == right[j] by {
        forall j | 0 <= j < i ensures left[j] == right[j] { assert !bad[j]; }
      }
    }
  }

  /**
   * When the trailing pass runs on strings of length `n > 0` and stops at
   * `j`, the two strings agree at index 0 (when `j > 0`) and in their last
   * `j - 1` characters.
   */
  lemma TrailingIndexSpec(l: string, r: string, prior: int)
    requires |l| == |r| > 0
    ensures var j := LoopIndex(TrailingMismatch(l, r), prior);
      && 0 <= j < |l|
      && (j > 0 ==> l[0] == r[0])
      && forall k :: |l| - j < k < |l| ==> l[k] == r[k]
  {
    var bad := TrailingMismatch(l, r);
    var n := |l|;
    var j := LoopIndex(bad, prior);
    LoopIndexSpec(bad, prior, j);
    if j > 0 {
      assert !bad[0];
      forall k | n - j < k < n ensures l[k] == r[k] {
        assert !bad[n - k];
        assert PyIndex(l, -(n - k)) == l[k];
      }
    }
  }

  /**
   * The leading pass drops the same `p` characters from both strings,
   * characters they share: `p` is the common leading run less 10 of
   * context when that run exceeds 42, and 0 otherwise; it writes a note
   * counting `p` exactly when `p > 0`. If it leaves `i` above 42, what
   * remains of both strings is not empty.
   */
  lemma TrimLeadingSpec(left: string, right: string) returns (p: nat)
    ensures var t := TrimLeading(left, right);
      && p <= |left| && p <= |right|
      && t.left == left[p..] && t.right == right[p..]
      && left[..p] == right[..p]
      && t.notes == (if p > 0 then [LeadingNote(p)] else [])
      && (t.i > SkipThreshold ==> |t.left| > 0 && |t.right| > 0)
    ensures var i := LoopIndex(Mismatch(left, right), 0);
      p == if i > SkipThreshold then i - Context else 0
  {
    var i := LoopIndex(Mismatch(left, right), 0);
    LeadingIndexSpec(left, right);
    p := if i > SkipThreshold then i - Context else 0;
    assert left[..p] == left[..i][..p] && right[..p] == right[..i][..p];
  }

  /**
   * The trailing pass is attempted only on strings of equal length; it
   * drops the same `q` characters from the end of both, characters they
   * share, and writes a note counting `q` exactly when `q > 0`.
   */
  lemma TrimTrailingSpec(t: Trimmed) returns (q: nat)
    requires t.i > SkipThreshold ==> |t.left| > 0
    ensures var u := TrimTrailing(t);
      && q <= |t.left| && q <= |t.right|
      && u.left == t.left[..|t.left| - q] && u.right == t.right[..|t.right| - q]
      && t.left[|t.left| - q..] == t.right[|t.right| - q..]
      && u.notes == t.notes + (if q > 0 then [TrailingNote(q)] else [])
      && (q > 0 ==> |t.left| == |t.right| && q > SkipThreshold - Context)
    ensures |t.left| == |t.right| ==>
      var j := LoopIndex(TrailingMismatch(t.left, t.right), t.i);
      q == if j > SkipThreshold then j - Context else 0
  {
    q := 0;
    if |t.left| == |t.right| {
      var j := LoopIndex(TrailingMismatch(t.left, t.right), t.i);
      if |t.left| > 0 && j > SkipThreshold {
        q := TrailingCut(t);
      } else {
        assert t.left[..|t.left|] == t.left && t.right[..|t.right|] == t.right;
      }
    } else {
      assert t.left[..|t.left|] == t.left && t.right[..|t.right|] == t.right;
    }
  }

  /** The trailing pass when its loop leaves an index above the threshold. */
  lemma TrailingCut(t: Trimmed) returns (q: nat)
    requires |t.left| == |t.right| > 0
    requires LoopIndex(TrailingMismatch(t.left, t.right), t.i) > SkipThreshold
    ensures q == LoopIndex(TrailingMismatch(t.left, t.right), t.i) - Context
    ensures q <= |t.left|
    ensures TrimTrailing(t) ==
      Trimmed(t.notes + [TrailingNote(q)], t.left[..|t.left| - q], t.right[..|t.right| - q], q)
    ensures t.left[|t.left| - q..] == t.right[|t.right| - q..]
  {
    var n := |t.left|;
    var j := LoopIndex(TrailingMismatch(t.left, t.right), t.i);
    q := j - Context;
    assert t.left[n - q..] == t.right[n - q..] by {
      TrailingIndexSpec(t.left, t.right, t.i);
    }
    assert SliceTo(t.left, -(j - Context)) == t.left[..n - q];
    assert SliceTo(t.right, -(j - Context)) == t.right[..n - q];
  }

  /**
   * `_diff_text` only ever removes a prefix and a suffix the two strings
   * share, and says so: what it diffs is `left[p..|left| - q]` against
   * `right[p..|right| - q]`, where the first `p` and the last `q`
   * characters of the two strings agree; the notes count exactly the
   * characters removed at each end.
   */
  lemma TrimCommonSpec(left: string, right: string) returns (p: nat, q: nat)
    ensures p + q <= |left| && p + q <= |right|
    ensures TrimCommon(left, right).left == left[p..|left| - q]
    ensures TrimCommon(left, right).right == right[p..|right| - q]
    ensures left[..p] == right[..p]
    ensures left[|left| - q..] == right[|right| - q..]
    ensures TrimCommon(left, right).notes ==
      (if p > 0 then [LeadingNote(p)] else []) + (if q > 0 then [TrailingNote(q)] else [])
    ensures var i := LoopIndex(Mismatch(left, right), 0);
      p == if i > SkipThreshold then i - Context else 0
    ensures q > 0 ==> |left| == |right|
    ensures var t := TrimLeading(left, right);
      |t.left| == |t.right| ==>
      var j := LoopIndex(TrailingMismatch(t.left, t.right), t.i);
      q == if j > SkipThreshold then j - Context else 0
  {
    var t1 := TrimLeading(left, right);
    p := TrimLeadingSpec(left, right);
    q := TrimTrailingSpec(t1);
    var t := TrimTrailing(t1);
    assert TrimCommon(left, right) == t;
    CutBothEnds(left, right, t1, t, p, q);
  }

  /** Cutting `p` from the front and then `q` from the back of both strings. */
  lemma CutBothEnds(left: string, right: string, t1: Trimmed, t: Trimmed, p: nat, q: nat)
    requires p <= |left| && p <= |right| && t1.left == left[p..] && t1.right == right[p..]
    requires q <= |t1.left| && q <= |t1.right|
    requires t.left == t1.left[..|t1.left| - q] && t.right == t1.right[..|t1.right| - q]
    requires t1.left[|t1.left| - q..] == t1.right[|t1.right| - q..]
    ensures p + q <= |left| && p + q <= |right|
    ensures t.left == left[p..|left| - q] && t.right == right[p..|right| - q]
    ensures left[|left| - q..] == right[|right| - q..]
  {
    SliceOfSlice(left, p, q);
    SliceOfSlice(right, p, q);
  }

  lemma SliceOfSlice(s: string, p: nat, q: nat)
    requires p + q <= |s|
    ensures s[p..][..|s| - p - q] == s[p..|s| - q]
    ensures s[p..][|s| - p - q..] == s[|s| - q..]
  {
  }

  /**
   * The lines of `_diff_text` after its notes are the `ndiff` of the
   * trimmed strings' lines, each with surrounding newlines stripped.
   */
  lemma DiffTextLinesSpec(left: string, right: string, f: Foreign)
    ensures var t := TrimCommon(left, right);
      var d := f.ndiff(f.splitlines(t.left), f.splitlines(t.right));
      var lines := DiffTextLines(left, right, f);
      && |t.notes| <= 2
      && |lines| == |t.notes| + |d|
      && lines[..|t.notes|] == t.notes
      && forall k :: 0 <= k < |d| ==> lines[|t.notes| + k] == StripNewlines(d[k])
  {
    var t := TrimCommon(left, right);
    var stripped := StripEach(f.ndiff(f.splitlines(t.left), f.splitlines(t.right)));
    assert |TrimLeading(left, right).notes| <= 1;
    ConcatParts(t.notes, stripped);
  }

  lemma ConcatParts(a: seq<string>, b: seq<string>)
    ensures (a + b)[..|a|] == a
    ensures forall k :: 0 <= k < |b| ==> (a + b)[|a| + k] == b[k]
  {
  }

  /** The leading pass of `_diff_text`, as the source runs it. */
  method SkipLeading(left: string, right: string) returns (t: Trimmed)
    ensures t == TrimLeading(left, right)
  {
    var l, r := left, right;
    var explanation := [];
    var i := 0;  // just in case left or right has zero length
    ghost var bad := Mismatch(l, r);
    var m := Min(|l|, |r|);
    var k := 0;
    while k < m
      invariant 0 <= k <= m
      invariant k == 0 ==> i == 0
      invariant k > 0 ==> i == k - 1
      invariant forall j :: 0 <= j < k ==> !bad[j]
    {
      i := k;
      if l[k] != r[k] {
        break;
      }
      k := k + 1;
    }
    assert i == LoopIndex(bad, 0) by {
      if m > 0 {
        LoopIndexSpec(bad, 0, i);
      }
    }
    if i > SkipThreshold {
      i := i - Context;  // provide some context
      explanation := [LeadingNote(i)];
      l := l[i..];
      r := r[i..];
    }
    t := Trimmed(explanation, l, r, i);
  }

  /** The loop of the trailing pass: `for i in range(len(l)): if l[-i] != r[-i]: break`. */
  method TrailingLoop(l: string, r: string, prior: int) returns (i: int)
    requires |l| == |r|
    ensures i == LoopIndex(TrailingMismatch(l, r), prior)
  {
    i := prior;
    ghost var bad := TrailingMismatch(l, r);
    var n := |l|;
    var k := 0;
    while k < n
      invariant 0 <= k <= n
      invariant k == 0 ==> i == prior
      invariant k > 0 ==> i == k - 1
      invariant forall j :: 0 <= j < k ==> !bad[j]
    {
      i := k;
      if PyIndex(l, -k) != PyIndex(r, -k) {
        break;
      }
      k := k + 1;
    }
    if n > 0 {
      LoopIndexSpec(bad, prior, i);
    }
  }

  /** The trailing pass of `_diff_text`, continuing from what the leading pass left. */
  method SkipTrailing(t: Trimmed) returns (u: Trimmed)
    ensures u == TrimTrailing(t)
  {
    var explanation, l, r, i := t.notes, t.left, t.right, t.i;
    if |l| == |r| {
      i := TrailingLoop(l, r, i);
      if i > SkipThreshold {
        i := i - Context;  // provide some context
        explanation := explanation + [TrailingNote(i)];
        l := SliceTo(l, -i);
        r := SliceTo(r, -i);
      }
    }
    u := Trimmed(explanation, l, r, i);
  }

  /**
   * `_diff_text`: trim the common ends, then diff what remains line by
   * line; the result is `DiffTextLines`, whose shape `TrimCommonSpec` and
   * `DiffTextLinesSpec` describe.
   */
  method DiffText(left: string, right: string, f: Foreign) returns (explanation: seq<string>)
    ensures explanation == DiffTextLines(left, right, f)
  {
    var lead := SkipLeading(left, right);
    var t := SkipTrailing(lead);
    explanation := t.notes + StripEach(f.ndiff(f.splitlines(t.left), f.splitlines(t.right)));
  }

  /* ---------------------------------------------------------------------
   * _compare_eq_sequence
   * ------------------------------------------------------------------- */

  /** the smallest index below `min(len)` where the sequences differ, if any */
  function FirstDifference(left: seq<Value>, right: seq<Value>): Option<nat> {
    var bad := Mismatch(left, right);
    if |bad| > 0 && bad[LoopIndex(bad, 0)] then Some(LoopIndex(bad, 0)) else None
  }

  function AtIndexLine(i: nat, l: string, r: string): string {
    "At index " + NatToString(i) + " diff: " + l + " != " + r
  }

  function LeftExtraLine(item: string): string {
    "Left contains more items, first extra item: " + item
  }

  function RightExtraLine(item: string): string {
    "Right contains more items, first extra item: " + item
  }

  /** the line naming the first item the longer sequence has in excess, if any */
  function ExtraItemLines(left: seq<Value>, right: seq<Value>, f: Foreign): seq<string> {
    if |left| > |right| then [LeftExtraLine(f.saferepr(left[|right|], None))]
    else if |left| < |right| then [RightExtraLine(f.saferepr(right[|left|], None))]
    else []
  }

  /** What `_compare_eq_sequence(left, right)` returns, or the exception a `%r` raises. */
  function SequenceLines(left: seq<Value>, right: seq<Value>, f: Foreign): Outcome<seq<string>> {
    match FirstDifference(left, right)
    case None => Returned(ExtraItemLines(left, right, f))
    case Some(i) =>
      match f.repr(left[i])
      case Raised(e) => Raised(e)
      case Returned(lr) =>
        match f.repr(right[i])
        case Raised(e) => Raised(e)
        case Returned(rr) => Returned([AtIndexLine(i, lr, rr)] + ExtraItemLines(left, right, f))
  }

  /** `FirstDifference` is the least index at which the sequences differ. */
  lemma FirstDifferenceSpec(left: seq<Value>, right: seq<Value>)
    ensures FirstDifference(left, right).None? <==>
      forall k :: 0 <= k < Min(|left|, |right|) ==> left[k] == right[k]
    ensures FirstDifference(left, right).Some? ==>
      var i := FirstDifference(left, right).value;
      && i < Min(|left|, |right|) && left[i] != right[i]
      && forall k :: 0 <= k < i ==> left[k] == right[k]
  {
    var bad := Mismatch(left, right);
    if |bad| > 0 {
      var i := LoopIndex(bad, 0);
      LoopIndexSpec(bad, 0, i);
      assert forall k :: 0 <= k < i ==> left[k] == right[k] by {
        forall k | 0 <= k < i ensures left[k] == right[k] { assert !bad[k]; }
      }
      if !bad[i] {
        forall k | 0 <= k < |bad| ensures left[k] == right[k] {
          assert k < i || k == i;
        }
      }
    }
  }

  /**
   * `_compare_eq_sequence` reports the first differing index (and no
   * other) and then the first extra item of the longer side; it says
   * nothing exactly when the sequences are equal.
   */
  lemma SequenceLinesSpec(left: seq<Value>, right: seq<Value>, f: Foreign)
    ensures left == right ==> SequenceLines(left, right, f) == Returned([])
    ensures SequenceLines(left, right, f) == Returned([]) ==> left == right
    ensures SequenceLines(left, right, f).Returned? ==>
      var lines := SequenceLines(left, right, f).value;
      && |lines| <= 2
      && (FirstDifference(left, right).Some? ==> lines[0] == AtIndexLine(FirstDifference(left, right).value,
            f.repr(left[FirstDifference(left, right).value]).value,
            f.repr(right[FirstDifference(left, right).value]).value))
      && (|left| > |right| ==> lines[|lines| - 1] == LeftExtraLine(f.saferepr(left[|right|], None)))
      && (|left| < |right| ==> lines[|lines| - 1] == RightExtraLine(f.saferepr(right[|left|], None)))
      && |lines| == (if FirstDifference(left, right).Some? then 1 else 0) + (if |left| != |right| then 1 else 0)
  {
    FirstDifferenceSpec(left, right);
    if SequenceLines(left, right, f) == Returned([]) {
      assert |left| == |right|;
      assert forall k :: 0 <= k < |left| ==> left[k] == right[k];
    }
  }

  /** `_compare_eq_sequence`, with the source's early-exit loop. */
  method CompareEqSequence(left: seq<Value>, right: seq<Value>, f: Foreign) returns (r: Outcome<seq<string>>)
    ensures r == SequenceLines(left, right, f)
  {
    var explanation := [];
    ghost var bad := Mismatch(left, right);
    ghost var diffAt: Option<nat> := None;
    var m := Min(|left|, |right|);
    var i := 0;
    while i < m
      invariant 0 <= i <= m
      invariant forall j :: 0 <= j < i ==> !bad[j]
      invariant explanation == [] && diffAt == None
    {
      if left[i] != right[i] {
        LoopIndexSpec(bad, 0, i);
        var lr := f.repr(left[i]);
        if lr.Raised? {
          return Raised(lr.exc);
        }
        var rr := f.repr(right[i]);
        if rr.Raised? {
          return Raised(rr.exc);
        }
        explanation := explanation + [AtIndexLine(i, lr.value, rr.value)];
        diffAt := Some(i);
        assert SequenceLines(left, right, f) == Returned(explanation + ExtraItemLines(left, right, f)) by {
          assert bad[i];
          assert FirstDifference(left, right) == Some(i);
          assert explanation == [AtIndexLine(i, lr.value, rr.value)];
        }
        break;
      }
      i := i + 1;
    }
    if diffAt == None {
      assert FirstDifference(left, right) == None by {
        if m > 0 {
          LoopIndexSpec(bad, 0, m - 1);
        }
      }
      assert explanation + ExtraItemLines(left, right, f) == ExtraItemLines(left, right, f);
    }
    ghost var expected := explanation + ExtraItemLines(left, right, f);
    assert SequenceLines(left, right, f) == Returned(expected);
    if |left| > |right| {
      explanation := explanation + [LeftExtraLine(f.saferepr(left[|right|], None))];
      assert expected == explanation;
    } else if |left| < |right| {
      explanation := explanation + [RightExtraLine(f.saferepr(right[|left|], None))];
      assert expected == explanation;
    } else {
      assert expected == explanation + [] == explanation;
    }
    return Returned(explanation);
  }

  /* ---------------------------------------------------------------------
   * _compare_eq_set
   * ------------------------------------------------------------------- */

  const LeftSetHeader := "Extra items in the left set:"
  const RightSetHeader := "Extra items in the right set:"

  /** `[saferepr(x) for x in xs]` */
  function Reprs(xs: seq<Value>, f: Foreign): (r: seq<string>)
    ensures |r| == |xs|
    ensures forall k :: 0 <= k < |xs| ==> r[k] == f.saferepr(xs[k], None)
  {
    seq(|xs|, k requires 0 <= k < |xs| => f.saferepr(xs[k], None))
  }

  /** `line` is the `saferepr` of some element of `s` */
  ghost predicate ReprOfMember(line: string, s: set<Value>, f: Foreign) {
    exists x :: x in s && line == f.saferepr(x, None)
  }

  /** a header followed by the items of `s`, when `s` is not empty */
  function SetBlock(header: string, s: set<Value>, f: Foreign): seq<string> {
    if s == {} then [] else [header] + Reprs(f.setOrder(s), f)
  }

  /** What `_compare_eq_set(left, right)` returns. */
  function SetLines(left: set<Value>, right: set<Value>, f: Foreign): seq<string> {
    SetBlock(LeftSetHeader, left - right, f) + SetBlock(RightSetHeader, right - left, f)
  }

  /**
   * When set iteration visits each element of `s` once, a block is the
   * header followed by one line per element, and is empty exactly when
   * `s` is.
   */
  lemma SetBlockSpec(header: string, s: set<Value>, f: Foreign)
    requires Enumerates(f.setOrder(s), s)
    ensures var block := SetBlock(header, s, f);
      && |block| == (if s == {} then 0 else 1 + |s|)
      && (s != {} ==> block[0] == header)
      && (forall x :: x in s ==> f.saferepr(x, None) in block[1..])
      && forall k :: 1 <= k < |block| ==> ReprOfMember(block[k], s, f)
  {
    var xs := f.setOrder(s);
    EnumerationLength(xs, s);
    var block := SetBlock(header, s, f);
    forall k | 1 <= k < |block| ensures ReprOfMember(block[k], s, f) {
      assert xs[k - 1] in s && block[k] == f.saferepr(xs[k - 1], None);
    }
    forall x | x in s ensures f.saferepr(x, None) in block[1..] {
      var k :| 0 <= k < |xs| && xs[k] == x;
      assert block[1..][k] == f.saferepr(x, None);
    }
  }

  /**
   * `_compare_eq_set` says nothing exactly when the sets are equal; when
   * set iteration visits each element of the differences once, it lists
   * the left-only elements under the left header, then the right-only
   * ones under the right header, each header present only when its
   * difference is not empty.
   */
  lemma SetLinesSpec(left: set<Value>, right: set<Value>, f: Foreign)
    requires Enumerates(f.setOrder(left - right), left - right)
    requires Enumerates(f.setOrder(right - left), right - left)
    ensures SetLines(left, right, f) == [] <==> left == right
    ensures var lines := SetLines(left, right, f);
      var a := if left - right == {} then 0 else 1 + |left - right|;
      && |lines| == a + (if right - left == {} then 0 else 1 + |right - left|)
      && (left - right != {} ==> lines[0] == LeftSetHeader)
      && (right - left != {} ==> lines[a] == RightSetHeader)
      && (forall x :: x in left - right ==> f.saferepr(x, None) in lines[..a])
      && (forall x :: x in right - left ==> f.saferepr(x, None) in lines[a..])
      && (forall k :: 1 <= k < a ==> ReprOfMember(lines[k], left - right, f))
      && (forall k :: a + 1 <= k < |lines| ==> ReprOfMember(lines[k], right - left, f))
  {
    var lb := SetBlock(LeftSetHeader, left - right, f);
    var rb := SetBlock(RightSetHeader, right - left, f);
    SetBlockSpec(LeftSetHeader, left - right, f);
    SetBlockSpec(RightSetHeader, right - left, f);
    var lines := SetLines(left, right, f);
    assert lines == lb + rb;
    assert lines[..|lb|] == lb;
    assert lines[|lb|..] == rb;
    forall x | x in left - right ensures f.saferepr(x, None) in lines[..|lb|] {
      assert f.saferepr(x, None) in lb[1..];
    }
    forall x | x in right - left ensures f.saferepr(x, None) in lines[|lb|..] {
      assert f.saferepr(x, None) in rb[1..];
    }
    BlockItems(lines, lb, rb, left - right, right - left, f);
    SetLinesEmpty(left, right, f);
  }

  /** Item lines of two blocks keep their elements once the blocks are joined. */
  lemma BlockItems(lines: seq<string>, lb: seq<string>, rb: seq<string>, l: set<Value>, r: set<Value>, f: Foreign)
    requires lines == lb + rb
    requires forall k :: 1 <= k < |lb| ==> ReprOfMember(lb[k], l, f)
    requires forall k :: 1 <= k < |rb| ==> ReprOfMember(rb[k], r, f)
    ensures forall k :: 1 <= k < |lb| ==> ReprOfMember(lines[k], l, f)
    ensures forall k :: |lb| + 1 <= k < |lines| ==> ReprOfMember(lines[k], r, f)
  {
    forall k | 1 <= k < |lb| ensures ReprOfMember(lines[k], l, f) {
      assert lines[k] == lb[k];
    }
    forall k | |lb| + 1 <= k < |lines| ensures ReprOfMember(lines[k], r, f) {
      assert lines[k] == rb[k - |lb|];
    }
  }

  lemma SetLinesEmpty(left: set<Value>, right: set<Value>, f: Foreign)
    ensures SetLines(left, right, f) == [] <==> left == right
  {
    if SetLines(left, right, f) == [] {
      assert left - right == {} && right - left == {};
      assert left <= right && right <= left;
    }
  }

  method CompareEqSet(left: set<Value>, right: set<Value>, f: Foreign) returns (explanation: seq<string>)
    ensures explanation == SetLines(left, right, f)
  {
    explanation := [];
    var diffLeft := left - right;
    var diffRight := right - left;
    if diffLeft != {} {
      explanation := explanation + [LeftSetHeader];
      var items := f.setOrder(diffLeft);
      var k := 0;
      while k < |items|
        invariant 0 <= k <= |items|
        invariant explanation == [LeftSetHeader] + Reprs(items[..k], f)
      {
        explanation := explanation + [f.saferepr(items[k], None)];
        k := k + 1;
      }
      assert items[..k] == items;
    }
    ghost var leftPart := explanation;
    if diffRight != {} {
      explanation := explanation + [RightSetHeader];
      var items := f.setOrder(diffRight);
      var k := 0;
      while k < |items|
        invariant 0 <= k <= |items|
        invariant explanation == leftPart + [RightSetHeader] + Reprs(items[..k], f)
      {
        explanation := explanation + [f.saferepr(items[k], None)];
        k := k + 1;
      }
      assert items[..k] == items;
    }
  }

  /* ---------------------------------------------------------------------
   * _notin_text
   * ------------------------------------------------------------------- */

  /** `text` with its first occurrence of `term` cut out (`head + tail`) */
  function CorrectText(term: string, text: string): string {
    var index := Find(text, term);
    SliceTo(text, index) + SliceFrom(text, index + |term|)
  }

  /** the line `_notin_text` puts first */
  function ContainedHeader(term: string, f: Foreign): string {
    f.saferepr(Str(term), Some(42)) + " is contained here:"
  }

  /** how `_notin_text` rewrites one line of the diff */
  function Relabel(line: string): seq<string> {
    if StartsWith(line, "Skipping") then []
    else if StartsWith(line, "- ") then []
    else if StartsWith(line, "+ ") then ["  " + line[2..]]
    else [line]
  }

  /** the lines the relabelling loop of `_notin_text` emits for a whole diff */
  function RelabelAll(diff: seq<string>): seq<string> {
    FlatMap(Relabel, diff)
  }

  /** What `_notin_text(term, text)` returns. */
  function NotinLines(term: string, text: string, f: Foreign): seq<string> {
    [ContainedHeader(term, f)] + RelabelAll(DiffTextLines(CorrectText(term, text), text, f))
  }

  /**
   * For a `term` found in `text`, the text diffed against `text` is `text`
   * with the first occurrence of `term` removed.
   */
  lemma CorrectTextSpec(term: string, text: string)
    requires Contains(text, term)
    ensures var i := Find(text, term);
      && 0 <= i && i + |term| <= |text|
      && text == text[..i] + term + text[i + |term|..]
      && CorrectText(term, text) == text[..i] + text[i + |term|..]
      && forall j :: 0 <= j < i ==> !OccursAt(text, term, j)
  {
    var i := Find(text, term);
    assert text == text[..i] + text[i..i + |term|] + text[i + |term|..];
  }

  /** No relabelled line starts with "Skipping" or "- ". */
  lemma {:induction false} RelabelAllClean(diff: seq<string>)
    ensures forall line :: line in RelabelAll(diff) ==>
      !StartsWith(line, "Skipping") && !StartsWith(line, "- ")
  {
    if diff != [] {
      RelabelAllClean(diff[1..]);
      assert RelabelAll(diff) == Relabel(diff[0]) + RelabelAll(diff[1..]);
      forall line | line in Relabel(diff[0])
        ensures !StartsWith(line, "Skipping") && !StartsWith(line, "- ")
      {
        if StartsWith(diff[0], "+ ") {
          assert line[..2] == "  ";
        }
      }
    }
  }

  /** A "+ " line is neither a "Skipping" nor a "- " line, so it is kept with its marker blanked. */
  lemma RelabelPlus(line: string)
    requires StartsWith(line, "+ ")
    ensures Relabel(line) == ["  " + line[2..]]
  {
    assert line[0] == '+';
    assert |line| < 8 || line[..8][0] == '+';
    assert line[..2][0] == '+';
  }

  /**
   * `_notin_text` opens with the contained-here line and no later line of
   * it starts with "Skipping" or "- "; every "+ " line of the diff of the
   * corrected text against the text appears with its marker blanked.
   */
  lemma NotinLinesSpec(term: string, text: string, f: Foreign)
    ensures var lines := NotinLines(term, text, f);
      && lines[0] == ContainedHeader(term, f)
      && forall k :: 1 <= k < |lines| ==> !StartsWith(lines[k], "Skipping") && !StartsWith(lines[k], "- ")
    ensures var diff := DiffTextLines(CorrectText(term, text), text, f);
      forall k :: 0 <= k < |diff| && StartsWith(diff[k], "+ ") ==>
        "  " + diff[k][2..] in NotinLines(term, text, f)
  {
    HeaderThenRelabelled(ContainedHeader(term, f), DiffTextLines(CorrectText(term, text), text, f));
  }

  /** `NotinLinesSpec` for any header line and any diff. */
  lemma HeaderThenRelabelled(header: string, diff: seq<string>)
    ensures var lines := [header] + RelabelAll(diff);
      && lines[0] == header
      && forall k :: 1 <= k < |lines| ==> !StartsWith(lines[k], "Skipping") && !StartsWith(lines[k], "- ")
    ensures forall k :: 0 <= k < |diff| && StartsWith(diff[k], "+ ") ==>
      "  " + diff[k][2..] in [header] + RelabelAll(diff)
  {
    var rest := RelabelAll(diff);
    var lines := [header] + rest;
    RelabelAllClean(diff);
    forall k | 1 <= k < |lines| ensures !StartsWith(lines[k], "Skipping") && !StartsWith(lines[k], "- ") {
      assert lines[k] == rest[k - 1];
    }
    forall k | 0 <= k < |diff| && StartsWith(diff[k], "+ ") ensures "  " + diff[k][2..] in lines {
      RelabelAllKeepsPlus(diff, k);
      var i :| 0 <= i < |rest| && rest[i] == "  " + diff[k][2..];
      assert lines[i + 1] == rest[i];
    }
  }

  /** Every "+ " line of a diff survives the relabelling, with its marker blanked. */
  lemma RelabelAllKeepsPlus(diff: seq<string>, k: nat)
    requires k < |diff| && StartsWith(diff[k], "+ ")
    ensures "  " + diff[k][2..] in RelabelAll(diff)
  {
    FlatMapAt(Relabel, diff, k);
    RelabelPlus(diff[k]);
    var pre, mid, post := RelabelAll(diff[..k]), Relabel(diff[k]), RelabelAll(diff[k + 1..]);
    assert (pre + mid + post)[|pre|] == mid[0];
  }

  /** The relabelling loop of `_notin_text`, appending to the lines `newdiff` already holds. */
  method AppendRelabelled(newdiff: seq<string>, diff: seq<string>) returns (r: seq<string>)
    ensures r == newdiff + RelabelAll(diff)
  {
    r := newdiff;
    var k := 0;
    while k < |diff|
      invariant 0 <= k <= |diff|
      invariant r == newdiff + RelabelAll(diff[..k])
    {
      var line := diff[k];
      FlatMapSnoc(Relabel, diff, k);
      k := k + 1;
      if StartsWith(line, "Skipping") {
        continue;
      }
      if StartsWith(line, "- ") {
        continue;
      }
      if StartsWith(line, "+ ") {
        r := r + ["  " + line[2..]];
      } else {
        r := r + [line];
      }
    }
    assert diff[..k] == diff;
  }

  /** `_notin_text`: diff the text with `term` cut out against the text, then relabel. */
  method NotinText(term: string, text: string, f: Foreign) returns (newdiff: seq<string>)
    ensures newdiff == NotinLines(term, text, f)
  {
    var index := Find(text, term);
    var head := SliceTo(text, index);
    var tail := SliceFrom(text, index + |term|);
    var correctText := head + tail;
    assert correctText == CorrectText(term, text);
    var diff := DiffText(correctText, text, f);
    newdiff := [ContainedHeader(term, f)];
    newdiff := AppendRelabelled(newdiff, diff);
  }

  /* ---------------------------------------------------------------------
   * pytest_assertrepr_compare
   * ------------------------------------------------------------------- */

  /** `80 - 15 - len(op) - 2`: 15 characters of indentation, a space each side of `op` */
  function Width(op: string): int {
    80 - 15 - |op| - 2
  }

  /** Python 3's `int(w/2)`: true division truncated toward zero */
  function TruncHalf(w: int): int {
    if w >= 0 then w / 2 else -((-w) / 2)
  }

  /** the first line of every explanation: both operands bounded to share the width */
  function Summary(op: string, left: Value, right: Value, f: Foreign): string {
    var width := Width(op);
    var leftRepr := f.saferepr(left, Some(TruncHalf(width)));
    var rightRepr := f.saferepr(right, Some(width - |leftRepr|));
    leftRepr + " " + op + " " + rightRepr
  }

  /** the operator and operand categories for which a diff routine is chosen */
  predicate HasDiffRoutine(op: string, left: Value, right: Value) {
    if op == "==" then
      (IsText(left) && IsText(right)) || (IsSequence(left) && IsSequence(right))
      || (IsSet(left) && IsSet(right)) || (IsDict(left) && IsDict(right))
    else op == "not in" && IsText(left) && IsText(right)
  }

  /**
   * What the `try` block of `pytest_assertrepr_compare` leaves in
   * `explanation` (`None` when no branch applies), or the exception it raises.
   */
  function Details(op: string, left: Value, right: Value, f: Foreign): Outcome<Option<seq<string>>> {
    if op == "==" then
      if IsText(left) && IsText(right) then Returned(Some(DiffTextLines(left.s, right.s, f)))
      else if IsSequence(left) && IsSequence(right) then
        match SequenceLines(left.items, right.items, f)
        case Raised(e) => Raised(e)
        case Returned(lines) => Returned(Some(lines))
      else if IsSet(left) && IsSet(right) then Returned(Some(SetLines(left.elems, right.elems, f)))
      else if IsDict(left) && IsDict(right) then
        match f.pformat(left)
        case Raised(e) => Raised(e)
        case Returned(l) =>
          match f.pformat(right)
          case Raised(e) => Raised(e)
          case Returned(r) => Returned(Some(DiffTextLines(l, r, f)))
      else Returned(None)
    else if op == "not in" then
      if IsText(left) && IsText(right) then Returned(Some(NotinLines(left.s, right.s, f)))
      else Returned(None)
    else Returned(None)
  }

  /** the detail lines after the `except` clauses: a non-system exception becomes the fallback pair */
  function Caught(d: Outcome<Option<seq<string>>>): Outcome<Option<seq<string>>> {
    match d
    case Raised(e) => if e.sysex then d else Returned(Some([FallbackLine, e.text]))
    case Returned(x) => d
  }

  /** the detail part as returned: too long a detail part collapses to one line */
  function Bounded(lines: seq<string>): (r: seq<string>)
    ensures TotalLength(r) <= MaxDetailLength
    ensures r == lines || r == [TruncatedLine]
    ensures TotalLength(lines) <= MaxDetailLength ==> r == lines
    ensures TotalLength(lines) > MaxDetailLength ==> r == [TruncatedLine]
  {
    if TotalLength(lines) > MaxDetailLength then [TruncatedLine] else lines
  }

  /** a diff routine is chosen exactly for matching categories under `==` and `not in` */
  lemma DetailsChosen(op: string, left: Value, right: Value, f: Foreign)
    ensures Details(op, left, right, f) == Returned(None) <==> !HasDiffRoutine(op, left, right)
    ensures Details(op, left, right, f).Raised? ==>
      op == "==" && ((IsSequence(left) && IsSequence(right)) || (IsDict(left) && IsDict(right)))
  {
  }

  /** The `try` block of `pytest_assertrepr_compare`: dispatch on the operator and the operands. */
  method TryDetails(op: string, left: Value, right: Value, f: Foreign) returns (d: Outcome<Option<seq<string>>>)
    ensures d == Details(op, left, right, f)
  {
    d := Returned(None);
    if op == "==" {
      if IsText(left) && IsText(right) {
        var lines := DiffText(left.s, right.s, f);
        d := Returned(Some(lines));
      } else if IsSequence(left) && IsSequence(right) {
        var res := CompareEqSequence(left.items, right.items, f);
        match res {
          case Raised(e) => d := Raised(e);
          case Returned(lines) => d := Returned(Some(lines));
        }
      } else if IsSet(left) && IsSet(right) {
        var lines := CompareEqSet(left.elems, right.elems, f);
        d := Returned(Some(lines));
      } else if IsDict(left) && IsDict(right) {
        var l := f.pformat(left);
        if l.Raised? {
          d := Raised(l.exc);
        } else {
          var rt := f.pformat(right);
          if rt.Raised? {
            d := Raised(rt.exc);
          } else {
            var lines := DiffText(l.value, rt.value, f);
            d := Returned(Some(lines));
          }
        }
      }
    } else if op == "not in" {
      if IsText(left) && IsText(right) {
        var lines := NotinText(left.s, right.s, f);
        d := Returned(Some(lines));
      }
    }
  }

  /** What `pytest_assertrepr_compare` returns, or the exception that escapes it. */
  function ReprCompare(op: string, left: Value, right: Value, f: Foreign): Outcome<Option<seq<string>>> {
    Explain(Summary(op, left, right, f), Details(op, left, right, f))
  }

  /** what follows the `try` block: the summary put before the caught, bounded details */
  function Explain(summary: string, d: Outcome<Option<seq<string>>>): Outcome<Option<seq<string>>> {
    match Caught(d)
    case Raised(e) => Raised(e)
    case Returned(x) =>
      if x.None? || x.value == [] then Returned(None)
      else Returned(Some([summary] + Bounded(x.value)))
  }

  /**
   * Only system-exiting exceptions escape `pytest_assertrepr_compare`,
   * unchanged; there is no explanation exactly when no diff routine
   * applies or the chosen one has nothing to say; otherwise the
   * explanation is the summary line followed by the detail lines, bounded.
   */
  lemma ReprCompareSpec(op: string, left: Value, right: Value, f: Foreign)
    ensures var r := ReprCompare(op, left, right, f);
      var d := Details(op, left, right, f);
      && (r.Raised? <==> d.Raised? && d.exc.sysex)
      && (r.Raised? ==> r == d)
      && (r == Returned(None) <==> !HasDiffRoutine(op, left, right) || d == Returned(Some([])))
      && (r.Returned? && r.value.Some? ==>
            && Caught(d).Returned? && Caught(d).value.Some?
            && r.value.value[0] == Summary(op, left, right, f)
            && r.value.value[1..] == Bounded(Caught(d).value.value)
            && TotalLength(r.value.value[1..]) <= MaxDetailLength)
  {
    DetailsChosen(op, left, right, f);
    var r := ReprCompare(op, left, right, f);
    if r.Returned? && r.value.Some? {
      var lines := Caught(Details(op, left, right, f)).value.value;
      assert r.value.value == [Summary(op, left, right, f)] + Bounded(lines);
      assert r.value.value[1..] == Bounded(lines);
    }
  }

  /** `pytest_assertrepr_compare` */
  method AssertReprCompare(op: string, left: Value, right: Value, f: Foreign)
    returns (r: Outcome<Option<seq<string>>>)
    ensures r == ReprCompare(op, left, right, f)
  {
    var width := 80 - 15 - |op| - 2;
    var leftRepr := f.saferepr(left, Some(TruncHalf(width)));
    var rightRepr := f.saferepr(right, Some(width - |leftRepr|));
    var summary := leftRepr + " " + op + " " + rightRepr;
    assert summary == Summary(op, left, right, f);
    var d := TryDetails(op, left, right, f);
    r := Conclude(summary, d);
  }

  /** The part of `pytest_assertrepr_compare` after its `try` block, given what the block left or raised. */
  method Conclude(summary: string, d: Outcome<Option<seq<string>>>) returns (r: Outcome<Option<seq<string>>>)
    ensures r == Explain(summary, d)
  {
    var explanation: Option<seq<string>>;
    match d {
      case Raised(e) =>
        if e.sysex {
          return Raised(e);
        }
        explanation := Some([FallbackLine, e.text]);
      case Returned(x) =>
        explanation := x;
    }

    if explanation.None? || explanation.value == [] {
      return Returned(None);
    }
    var details := explanation.value;
    if TotalLength(details) > 80 * 8 {
      details := [TruncatedLine];
    }
    return Returned(Some([summary] + details));
  }

  /**
   * An exception other than a system exit, raised while the details are
   * built, becomes the two fallback lines under the summary (or the
   * truncation line, when the pair is too long).
   */
  lemma FallbackShape(op: string, left: Value, right: Value, f: Foreign)
    requires Details(op, left, right, f).Raised? && !Details(op, left, right, f).exc.sysex
    ensures var e := Details(op, left, right, f).exc;
      Caught(Details(op, left, right, f)) == Returned(Some([FallbackLine, e.text]))
      && Bounded([FallbackLine, e.text]) ==
         (if |FallbackLine| + |e.text| > MaxDetailLength then [TruncatedLine] else [FallbackLine, e.text])
  {
    var e := Details(op, left, right, f).exc;
    var pair := [FallbackLine, e.text];
    assert pair[1..] == [e.text];
    assert [e.text][1..] == [];
    assert TotalLength([e.text]) == |e.text|;
    assert TotalLength(pair) == |FallbackLine| + |e.text|;
  }

  /**
   * If `saferepr` keeps to the size it is given (from 3 on), the summary
   * fits the 65 columns left after the 15 of indentation.
   */
  lemma SummaryFitsLine(op: string, left: Value, right: Value, f: Foreign)
    requires |op| <= 57
    requires forall v: Value, n: int :: n >= 3 ==> |f.saferepr(v, Some(n))| <= n
    ensures |Summary(op, left, right, f)| <= 80 - 15
  {
    var width := Width(op);
    var leftRepr := f.saferepr(left, Some(TruncHalf(width)));
    assert |leftRepr| <= width / 2;
    assert width - |leftRepr| >= 3;
  }

  /* ---------------------------------------------------------------------
   * callbinrepr: joining the hook results
   * ------------------------------------------------------------------- */

  /** `if new_expl:` — a result is used only when it is a non-empty list */
  predicate Usable(result: Option<seq<string>>) {
    result.Some? && result.value != []
  }

  /**
   * `callbinrepr`: the first usable hook result, its lines joined with
   * `'\n~'`; `None` when no hook result is usable.
   */
  function CallBinRepr(results: seq<Option<seq<string>>>): Option<string> {
    if results == [] then None
    else if Usable(results[0]) then Some(Join(results[0].value, "\n~"))
    else CallBinRepr(results[1..])
  }

  /** The first usable result wins; later ones are never consulted. */
  lemma {:induction false} CallBinReprFirstWins(results: seq<Option<seq<string>>>)
    ensures CallBinRepr(results).None? <==> forall k :: 0 <= k < |results| ==> !Usable(results[k])
    ensures CallBinRepr(results).Some? ==>
      exists k :: 0 <= k < |results| && Usable(results[k])
        && (forall j :: 0 <= j < k ==> !Usable(results[j]))
        && CallBinRepr(results).value == Join(results[k].value, "\n~")
  {
    if results != [] && !Usable(results[0]) {
      CallBinReprFirstWins(results[1..]);
      assert forall k :: 1 <= k < |results| ==> results[k] == results[1..][k - 1];
      if CallBinRepr(results).Some? {
        var k :| 0 <= k < |results[1..]| && Usable(results[1..][k])
          && (forall j :: 0 <= j < k ==> !Usable(results[1..][j]))
          && CallBinRepr(results[1..]).value == Join(results[1..][k].value, "\n~");
        assert forall j :: 0 <= j < k + 1 ==> !Usable(results[j]);
      }
    }
  }
}
