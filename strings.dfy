/**
 * Python `str` operations that the modelled code relies on, written out
 * with Python's semantics: `startswith`, `find`, slicing with negative or
 * out-of-range bounds, `join`, `strip('\n')`, `replace(".[", "[")`, `%d`
 * formatting of naturals and the code-point ordering used by `list.sort`.
 */
module PyStr {

  function Min(a: nat, b: nat): nat { if a <= b then a else b }

  /** `s.startswith(p)` */
  predicate StartsWith(s: string, p: string) {
    |p| <= |s| && s[..|p|] == p
  }

  /** `s.endswith(p)` */
  predicate EndsWith(s: string, p: string) {
    |p| <= |s| && s[|s| - |p|..] == p
  }

  /** `s` backwards (`list.reverse()`) */
  function Reverse<T>(s: seq<T>): (r: seq<T>)
    ensures |r| == |s|
    ensures forall k :: 0 <= k < |s| ==> r[k] == s[|s| - 1 - k]
  {
    seq(|s|, k requires 0 <= k < |s| => s[|s| - 1 - k])
  }

  /** Reversing a list with one more element at its end puts that element first. */
  lemma ReverseSnoc<T>(s: seq<T>, x: T)
    ensures Reverse(s + [x]) == [x] + Reverse(s)
  {
    var a, b := Reverse(s + [x]), [x] + Reverse(s);
    assert |a| == |b|;
    forall k | 0 <= k < |a| ensures a[k] == b[k] {
      if k > 0 {
        assert b[k] == Reverse(s)[k - 1] == s[|s| - k];
      }
    }
  }

  lemma ConcatAssoc<T>(a: seq<T>, b: seq<T>, c: seq<T>)
    ensures a + (b + c) == a + b + c
  {
  }

  /** `[y for x in xs for y in f(x)]` */
  function FlatMap<T, U>(f: T -> seq<U>, xs: seq<T>): seq<U> {
    if xs == [] then [] else f(xs[0]) + FlatMap(f, xs[1..])
  }

  lemma {:induction false} FlatMapAppend<T, U>(f: T -> seq<U>, a: seq<T>, b: seq<T>)
    ensures FlatMap(f, a + b) == FlatMap(f, a) + FlatMap(f, b)
  {
    if a == [] {
      assert a + b == b;
    } else {
      assert (a + b)[1..] == a[1..] + b;
      FlatMapAppend(f, a[1..], b);
    }
  }

  lemma FlatMapSingle<T, U>(f: T -> seq<U>, x: T)
    ensures FlatMap(f, [x]) == f(x)
  {
    assert [x][1..] == [];
    assert f(x) + [] == f(x);
  }

  /** Mapping a list one element longer appends that element's image. */
  lemma FlatMapSnoc<T, U>(f: T -> seq<U>, xs: seq<T>, k: nat)
    requires k < |xs|
    ensures FlatMap(f, xs[..k + 1]) == FlatMap(f, xs[..k]) + f(xs[k])
  {
    assert xs[..k + 1] == xs[..k] + [xs[k]];
    FlatMapAppend(f, xs[..k], [xs[k]]);
    FlatMapSingle(f, xs[k]);
  }

  /** Each element's image sits, in place, between those of the elements before and after it. */
  lemma FlatMapAt<T, U>(f: T -> seq<U>, xs: seq<T>, k: nat)
    requires k < |xs|
    ensures FlatMap(f, xs) == FlatMap(f, xs[..k]) + f(xs[k]) + FlatMap(f, xs[k + 1..])
  {
    var tail := xs[k..];
    assert xs == xs[..k] + tail;
    FlatMapAppend(f, xs[..k], tail);
    assert tail[0] == xs[k] && tail[1..] == xs[k + 1..];
    assert FlatMap(f, tail) == f(xs[k]) + FlatMap(f, xs[k + 1..]);
    ConcatAssoc(FlatMap(f, xs[..k]), f(xs[k]), FlatMap(f, xs[k + 1..]));
  }

  /** `term` occurs in `text` at index `k` */
  predicate OccursAt(text: string, term: string, k: int) {
    0 <= k && k + |term| <= |text| && text[k..k + |term|] == term
  }

  predicate Contains(text: string, term: string) {
    exists k | 0 <= k <= |text| :: OccursAt(text, term, k)
  }

  /** `text.find(term)` scanning from index `k` on */
  function FindFrom(text: string, term: string, k: nat): (r: int)
    requires k <= |text|
    ensures r == -1 || (k <= r && OccursAt(text, term, r))
    ensures forall j :: k <= j && (r == -1 || j < r) ==> !OccursAt(text, term, j)
    decreases |text| - k
  {
    if k + |term| > |text| then -1
    else if text[k..k + |term|] == term then k
    else if k == |text| then -1
    else FindFrom(text, term, k + 1)
  }

  /** `text.find(term)`: the least index where `term` occurs, or -1 */
  function Find(text: string, term: string): (r: int)
    ensures r == -1 <==> !Contains(text, term)
    ensures r != -1 ==> OccursAt(text, term, r) && forall j :: 0 <= j < r ==> !OccursAt(text, term, j)
  {
    FindFrom(text, term, 0)
  }

  /** the index a Python slice bound `k` denotes in a sequence of length `n` */
  function SliceBound(n: nat, k: int): (r: nat)
    ensures r <= n
    ensures 0 <= k <= n ==> r == k
    ensures k < 0 && 0 <= n + k ==> r == n + k
    ensures k > n ==> r == n
    ensures n + k < 0 ==> r == 0
  {
    if k < 0 then (if n + k < 0 then 0 else n + k)
    else if k > n then n
    else k
  }

  /** `s[k:]`: the suffix that drops `k` items from the front, or keeps `-k` at the back */
  function SliceFrom<T>(s: seq<T>, k: int): (r: seq<T>)
    ensures |r| == (if k >= 0 then |s| - Min(k, |s|) else Min(-k, |s|))
    ensures r == s[|s| - |r|..]
  {
    s[SliceBound(|s|, k)..]
  }

  /** `s[:k]`: the prefix that keeps `k` items, or drops `-k` from the back */
  function SliceTo<T>(s: seq<T>, k: int): (r: seq<T>)
    ensures |r| == (if k >= 0 then Min(k, |s|) else |s| - Min(-k, |s|))
    ensures r == s[..|r|]
  {
    s[..SliceBound(|s|, k)]
  }

  /** `s[a:b]` */
  function Slice<T>(s: seq<T>, a: int, b: int): (r: seq<T>)
    ensures SliceBound(|s|, a) <= SliceBound(|s|, b) ==> r == s[SliceBound(|s|, a)..SliceBound(|s|, b)]
    ensures SliceBound(|s|, a) > SliceBound(|s|, b) ==> r == []
  {
    var i, j := SliceBound(|s|, a), SliceBound(|s|, b);
    if i <= j then s[i..j] else []
  }

  /** `sep.join(parts)` */
  function Join(parts: seq<string>, sep: string): string {
    if |parts| == 0 then ""
    else if |parts| == 1 then parts[0]
    else parts[0] + sep + Join(parts[1..], sep)
  }

  /** `len(''.join(lines))`, summed line by line */
  function TotalLength(lines: seq<string>): nat {
    if lines == [] then 0 else |lines[0]| + TotalLength(lines[1..])
  }

  /** Joining with a separator adds exactly one separator between neighbours. */
  lemma {:induction false} JoinLength(parts: seq<string>, sep: string)
    ensures |Join(parts, sep)| == TotalLength(parts) + (if parts == [] then 0 else |sep| * (|parts| - 1))
  {
    if |parts| > 1 {
      JoinLength(parts[1..], sep);
    }
  }

  function DigitChar(d: nat): char
    requires d < 10
  {
    "0123456789"[d]
  }

  predicate IsDigit(c: char) { '0' <= c <= '9' }

  /** `'%d' % n` (and `str(n)`) for a natural number */
  function NatToString(n: nat): (r: string)
    ensures |r| >= 1
    ensures forall k :: 0 <= k < |r| ==> IsDigit(r[k])
    ensures (|r| == 1) == (n < 10)
    ensures r[|r| - 1] == DigitChar(n % 10)
  {
    if n < 10 then [DigitChar(n)] else NatToString(n / 10) + [DigitChar(n % 10)]
  }

  lemma DigitCharInjective(a: nat, b: nat)
    requires a < 10 && b < 10 && DigitChar(a) == DigitChar(b)
    ensures a == b
  {
  }

  /** Distinct naturals are rendered as distinct strings. */
  lemma {:induction false} NatToStringInjective(a: nat, b: nat)
    requires NatToString(a) == NatToString(b)
    ensures a == b
  {
    var s := NatToString(a);
    DigitCharInjective(a % 10, b % 10);
    if a >= 10 {
      assert NatToString(a / 10) == s[..|s| - 1] == NatToString(b / 10);
      NatToStringInjective(a / 10, b / 10);
    }
  }

  /** `s.lstrip('\n')` */
  function StripLeadingNewlines(s: string): (r: string)
    ensures |r| <= |s| && r == s[|s| - |r|..]
    ensures r == [] || r[0] != '\n'
    ensures forall k :: 0 <= k < |s| - |r| ==> s[k] == '\n'
  {
    if s != [] && s[0] == '\n' then StripLeadingNewlines(s[1..]) else s
  }

  /** `s.rstrip('\n')` */
  function StripTrailingNewlines(s: string): (r: string)
    ensures |r| <= |s| && r == s[..|r|]
    ensures r == [] || r[|r| - 1] != '\n'
    ensures forall k :: |r| <= k < |s| ==> s[k] == '\n'
  {
    if s != [] && s[|s| - 1] == '\n' then StripTrailingNewlines(s[..|s| - 1]) else s
  }

  /** every character of `x` is a newline */
  predicate AllNewlines(x: string) {
    forall k :: 0 <= k < |x| ==> x[k] == '\n'
  }

  /** `s` is `r` with nothing but newlines before and after it */
  ghost predicate NewlinesAround(s: string, r: string) {
    exists pre, post :: AllNewlines(pre) && AllNewlines(post) && s == pre + r + post
  }

  /** `s` neither starts nor ends with a newline */
  predicate NoNewlineAtEnds(s: string) {
    s == [] || (s[0] != '\n' && s[|s| - 1] != '\n')
  }

  /**
   * What `s.strip('\n')` promises: `s` is `r` with nothing but newlines
   * before and after it, `r` neither starts nor ends with a newline, and a
   * string that already does neither is left as it is.
   */
  ghost predicate IsNewlineStrip(s: string, r: string) {
    && NewlinesAround(s, r)
    && NoNewlineAtEnds(r)
    && (NoNewlineAtEnds(s) ==> r == s)
  }

  /** `IsNewlineStrip` pins its result: at most one string strips `s`. */
  lemma NewlineStripUnique(s: string, r1: string, r2: string)
    requires IsNewlineStrip(s, r1) && IsNewlineStrip(s, r2)
    ensures r1 == r2
  {
    var pre1, post1 :| AllNewlines(pre1) && AllNewlines(post1) && s == pre1 + r1 + post1;
    var pre2, post2 :| AllNewlines(pre2) && AllNewlines(post2) && s == pre2 + r2 + post2;
    if r1 == [] || r2 == [] {
      if r1 == [] {
        NewlinesJoin(pre1, post1);
      } else {
        NewlinesJoin(pre2, post2);
      }
      if r1 != [] {
        FirstOfMiddle(pre1, r1, post1);
        NewlineAt(s, |pre1|);
        assert false;
      }
      if r2 != [] {
        FirstOfMiddle(pre2, r2, post2);
        NewlineAt(s, |pre2|);
        assert false;
      }
    } else {
      NewlineRunLength(s, pre1, r1, post1, pre2, r2, post2);
      NewlineRunLength(s, pre2, r2, post2, pre1, r1, post1);
      assert r1 == s[|pre1|..|s| - |post1|];
      assert r2 == s[|pre2|..|s| - |post2|];
    }
  }

  /** Any string that strips `s` as `IsNewlineStrip` describes is `StripNewlines(s)`. */
  lemma StripNewlinesOnly(s: string, r: string)
    requires IsNewlineStrip(s, r)
    ensures r == StripNewlines(s)
  {
    NewlineStripUnique(s, r, StripNewlines(s));
  }

  /** The newline runs around a non-empty stripped part cannot be longer than another split's. */
  lemma NewlineRunLength(s: string, pre1: string, r1: string, post1: string, pre2: string, r2: string, post2: string)
    requires AllNewlines(pre1) && AllNewlines(post1) && s == pre1 + r1 + post1
    requires AllNewlines(pre2) && AllNewlines(post2) && s == pre2 + r2 + post2
    requires r1 != [] && NoNewlineAtEnds(r1)
    ensures |pre2| <= |pre1| && |post2| <= |post1|
  {
    if |pre2| > |pre1| {
      FirstOfMiddle(pre1, r1, post1);
      NewlineAt(pre2, |pre1|);
      assert false;
    }
    NewlineTailLength(s, pre1, r1, post1, pre2, r2, post2);
  }

  lemma NewlinesJoin(pre: string, post: string)
    requires AllNewlines(pre) && AllNewlines(post)
    ensures AllNewlines(pre + [] + post)
  {
    var s := pre + [] + post;
    forall k | 0 <= k < |s| ensures s[k] == '\n' {
      if k < |pre| { assert s[k] == pre[k]; } else { assert s[k] == post[k - |pre|]; }
    }
  }

  lemma FirstOfMiddle(pre: string, r: string, post: string)
    requires r != []
    ensures (pre + r + post)[|pre|] == r[0]
  {
  }

  lemma LastOfMiddle(pre: string, r: string, post: string)
    requires r != []
    ensures (pre + r + post)[|pre| + |r| - 1] == r[|r| - 1]
  {
  }

  lemma NewlineAt(x: string, i: int)
    requires AllNewlines(x) && 0 <= i < |x|
    ensures x[i] == '\n'
  {
  }

  lemma NewlineTailLength(s: string, pre1: string, r1: string, post1: string, pre2: string, r2: string, post2: string)
    requires AllNewlines(post2) && s == pre1 + r1 + post1 && s == pre2 + r2 + post2
    requires r1 != [] && NoNewlineAtEnds(r1)
    ensures |post2| <= |post1|
  {
    if |post2| > |post1| {
      LastOfMiddle(pre1, r1, post1);
      NewlineAt(post2, |post2| - |post1| - 1);
      assert false;
    }
  }

  /** `s.strip('\n')` */
  function StripNewlines(s: string): (r: string)
    ensures IsNewlineStrip(s, r)
  {
    var m := StripLeadingNewlines(s);
    var r := StripTrailingNewlines(m);
    var pre, post := s[..|s| - |m|], s[|s| - |m| + |r|..];
    StripSplit(s, m, r);
    assert AllNewlines(pre) && AllNewlines(post) && s == pre + r + post;
    r
  }

  /** A suffix `m` of `s` after newlines, and a prefix `r` of `m` before newlines. */
  lemma StripSplit(s: string, m: string, r: string)
    requires |m| <= |s| && m == s[|s| - |m|..] && forall k :: 0 <= k < |s| - |m| ==> s[k] == '\n'
    requires |r| <= |m| && r == m[..|r|] && forall k :: |r| <= k < |m| ==> m[k] == '\n'
    ensures var a := |s| - |m|;
      && AllNewlines(s[..a]) && AllNewlines(s[a + |r|..])
      && s == s[..a] + r + s[a + |r|..]
  {
    var a := |s| - |m|;
    assert s[a + |r|..] == m[|r|..];
    assert s == s[..a] + m;
    assert m == r + m[|r|..];
  }

  /** `s.replace(".[", "[")`: each non-overlapping ".[", scanned left to right, loses its dot */
  function ReplaceDotBracket(s: string): (r: string)
    ensures |r| <= |s|
  {
    if |s| >= 2 && s[0] == '.' && s[1] == '[' then "[" + ReplaceDotBracket(s[2..])
    else if s == [] then []
    else [s[0]] + ReplaceDotBracket(s[1..])
  }

  /** A string without ".[" is left as it is. */
  lemma {:induction false} ReplaceDotBracketNoMatch(s: string)
    requires forall k :: 0 <= k < |s| - 1 ==> !(s[k] == '.' && s[k + 1] == '[')
    ensures ReplaceDotBracket(s) == s
  {
    if s != [] {
      ReplaceDotBracketNoMatch(s[1..]);
    }
  }

  /**
   * Replacement distributes over a concatenation at a point where no
   * ".[" straddles the cut and none is split off.
   */
  lemma {:induction false} ReplaceDotBracketAppend(a: string, b: string)
    requires a == [] || a[|a| - 1] != '.'
    ensures ReplaceDotBracket(a + b) == ReplaceDotBracket(a) + ReplaceDotBracket(b)
    decreases |a|
  {
    var s := a + b;
    if a == [] {
      assert s == b;
    } else if |a| >= 2 && a[0] == '.' && a[1] == '[' {
      assert s[0] == '.' && s[1] == '[';
      assert s[2..] == a[2..] + b;
      ReplaceDotBracketAppend(a[2..], b);
      assert ReplaceDotBracket(s) == "[" + ReplaceDotBracket(a[2..] + b);
      assert ReplaceDotBracket(a) == "[" + ReplaceDotBracket(a[2..]);
      ConcatAssoc("[", ReplaceDotBracket(a[2..]), ReplaceDotBracket(b));
    } else if |a| == 1 {
      assert s[0] == a[0] != '.';
      assert s[1..] == b;
      assert ReplaceDotBracket(a) == [a[0]];
    } else {
      assert s[0] == a[0] && s[1] == a[1];
      assert s[1..] == a[1..] + b;
      ReplaceDotBracketAppend(a[1..], b);
      assert ReplaceDotBracket(s) == [a[0]] + ReplaceDotBracket(a[1..] + b);
      assert ReplaceDotBracket(a) == [a[0]] + ReplaceDotBracket(a[1..]);
      ConcatAssoc([a[0]], ReplaceDotBracket(a[1..]), ReplaceDotBracket(b));
    }
  }

  /** Python's `<` on `str`: code-point lexicographic order */
  predicate StrLess(a: string, b: string) {
    if a == [] then b != []
    else if b == [] then false
    else if a[0] != b[0] then a[0] < b[0]
    else StrLess(a[1..], b[1..])
  }

  lemma {:induction false} StrLessIrreflexive(a: string)
    ensures !StrLess(a, a)
  {
    if a != [] { StrLessIrreflexive(a[1..]); }
  }

  lemma {:induction false} StrLessTransitive(a: string, b: string, c: string)
    requires StrLess(a, b) && StrLess(b, c)
    ensures StrLess(a, c)
  {
    if a != [] && b != [] && c != [] && a[0] == b[0] == c[0] {
      StrLessTransitive(a[1..], b[1..], c[1..]);
    }
  }

  lemma {:induction false} StrLessTotal(a: string, b: string)
    requires a != b
    ensures StrLess(a, b) || StrLess(b, a)
  {
    if a != [] && b != [] && a[0] == b[0] {
      assert a == [a[0]] + a[1..] && b == [b[0]] + b[1..];
      StrLessTotal(a[1..], b[1..]);
    }
  }
}
