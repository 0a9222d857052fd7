/**
 * The JavaScript string primitives the recipe parser, the recommender and the
 * path normaliser rely on: the `\s` character class and `trim()`, `.` and `$`,
 * `includes`, `startsWith`, `split`/`join`, ASCII case mapping and the
 * first-match searches a regular-expression engine performs.
 */
module Text {
  import opened Wrappers

  /** The characters of the class `\s`, which are also what `trim()` removes. */
  predicate IsSpace(c: char) {
    c == ' ' || c == '\t' || c == '\n' || c == '\r' || c == '\U{000B}' || c == '\U{000C}'
    || c == '\U{00A0}' || c == '\U{1680}' || ('\U{2000}' <= c <= '\U{200A}')
    || c == '\U{2028}' || c == '\U{2029}' || c == '\U{202F}' || c == '\U{205F}'
    || c == '\U{3000}' || c == '\U{FEFF}'
  }

  /** The line terminators: `.` never matches one, multiline `^`/`$` stop at one. */
  predicate IsLineTerminator(c: char) {
    c == '\n' || c == '\r' || c == '\U{2028}' || c == '\U{2029}'
  }

  predicate IsDigit(c: char) { '0' <= c <= '9' }

  /** No character of `s` is a line terminator, so `.*` can run over all of it. */
  predicate NoLineTerminator(s: string) {
    forall k :: 0 <= k < |s| ==> !IsLineTerminator(s[k])
  }

  /** The end of the longest run of characters satisfying `p` that starts at `i`. */
  function RunEnd(s: string, i: nat, p: char -> bool): (r: nat)
    requires i <= |s|
    ensures i <= r <= |s|
    ensures forall k :: i <= k < r ==> p(s[k])
    ensures r < |s| ==> !p(s[r])
    decreases |s| - i
  {
    if i == |s| || !p(s[i]) then i else RunEnd(s, i + 1, p)
  }

  function SpaceRunEnd(s: string, i: nat): nat requires i <= |s| { RunEnd(s, i, IsSpace) }

  function DigitRunEnd(s: string, i: nat): nat requires i <= |s| { RunEnd(s, i, IsDigit) }

  /** Where the line containing position `i` ends: the next line terminator, or the end. */
  function LineEnd(s: string, i: nat): nat requires i <= |s| {
    RunEnd(s, i, c => !IsLineTerminator(c))
  }

  /** The line end seen in a window `s[i..e]` is the one seen in `s`, cut at the window's end. */
  lemma {:induction false} LineEndWindow(s: string, i: nat, e: nat, j: nat)
    requires i <= e <= |s| && j <= e - i
    ensures var r := LineEnd(s, i + j); LineEnd(s[i..e], j) + i == if r <= e then r else e
    decreases e - i - j
  {
    var t := s[i..e];
    if j < |t| {
      assert t[j] == s[i + j];
      if !IsLineTerminator(t[j]) {
        LineEndWindow(s, i, e, j + 1);
      }
    }
  }

  /** On a line without terminators, `.*` runs to the end of the text. */
  lemma LineEndWithoutTerminator(s: string, i: nat)
    requires i <= |s| && NoLineTerminator(s)
    ensures LineEnd(s, i) == |s|
  {
  }

  /** Multiline `^`: the start of the text or just after a line terminator. */
  predicate AtLineStart(s: string, p: nat) {
    p == 0 || (p <= |s| && IsLineTerminator(s[p - 1]))
  }

  // ---------------------------------------------------------------- trim

  predicate IsTrimmed(s: string) {
    |s| == 0 || (!IsSpace(s[0]) && !IsSpace(s[|s| - 1]))
  }

  /** The length of `s` without its trailing spaces. */
  function ContentEnd(s: string): (n: nat)
    ensures n <= |s|
    ensures n > 0 ==> !IsSpace(s[n - 1])
    ensures forall k :: n <= k < |s| ==> IsSpace(s[k])
  {
    if |s| > 0 && IsSpace(s[|s| - 1]) then ContentEnd(s[..|s| - 1]) else |s|
  }

  /** `String.prototype.trimEnd`. */
  function TrimEnd(s: string): string { s[..ContentEnd(s)] }

  /** `String.prototype.trim`: the slice between the leading and the trailing spaces. */
  function Trim(s: string): (r: string)
    ensures IsTrimmed(r)
    ensures exists i, j ::
              (0 <= i <= j <= |s| && r == s[i..j]
               && (forall k :: 0 <= k < i ==> IsSpace(s[k]))
               && (forall k :: j <= k < |s| ==> IsSpace(s[k])))
  {
    var i := SpaceRunEnd(s, 0);
    var t := s[i..];
    var n := ContentEnd(t);
    assert t[..n] == s[i..i + n];
    s[i..i + n]
  }

  lemma TrimmedIsFixed(s: string)
    requires IsTrimmed(s)
    ensures Trim(s) == s
  {
    if |s| > 0 {
      assert SpaceRunEnd(s, 0) == 0;
      assert s[0..] == s;
    }
  }

  // ---------------------------------------------------------------- searching

  predicate StartsWith(s: string, prefix: string) {
    |prefix| <= |s| && s[..|prefix|] == prefix
  }

  /** `prefix` occurs in `s` at position `i`. */
  predicate StartsWithAt(s: string, i: nat, prefix: string) {
    i + |prefix| <= |s| && s[i..i + |prefix|] == prefix
  }

  predicate EndsWith(s: string, suffix: string) {
    |suffix| <= |s| && s[|s| - |suffix|..] == suffix
  }

  /** `String.prototype.includes`. */
  predicate Contains(s: string, sub: string)
    decreases |s|
  {
    StartsWith(s, sub) || (|s| > 0 && Contains(s[1..], sub))
  }

  /** An occurrence at position `i` makes `Contains` hold. */
  lemma {:induction false} ContainsFromAt(s: string, i: nat, sub: string)
    requires StartsWithAt(s, i, sub)
    ensures Contains(s, sub)
    decreases i
  {
    if i == 0 {
      assert s[..|sub|] == s[0..0 + |sub|];
    } else {
      assert s[1..][i - 1..i - 1 + |sub|] == s[i..i + |sub|];
      ContainsFromAt(s[1..], i - 1, sub);
    }
  }

  /** `Contains` holds exactly when `sub` occurs at some position. */
  lemma {:induction false} ContainsIff(s: string, sub: string)
    ensures Contains(s, sub) <==> exists i :: 0 <= i <= |s| && StartsWithAt(s, i, sub)
    decreases |s|
  {
    forall i | 0 <= i <= |s| && StartsWithAt(s, i, sub) ensures Contains(s, sub) {
      ContainsFromAt(s, i, sub);
    }
    if StartsWith(s, sub) {
      assert StartsWithAt(s, 0, sub);
    } else if Contains(s, sub) {
      ContainsIff(s[1..], sub);
      var i :| 0 <= i <= |s[1..]| && StartsWithAt(s[1..], i, sub);
      assert s[1..][i..i + |sub|] == s[i + 1..i + 1 + |sub|];
      assert StartsWithAt(s, i + 1, sub);
    }
  }

  /** A text none of whose characters starts `sub` does not contain it. */
  lemma NotContainsByFirst(s: string, sub: string)
    requires |sub| > 0 && forall k :: 0 <= k < |s| ==> s[k] != sub[0]
    ensures !Contains(s, sub)
  {
    ContainsIff(s, sub);
  }

  /** An occurrence inside a slice is an occurrence in the whole string. */
  lemma ContainsInSlice(s: string, i: nat, j: nat, sub: string)
    requires i <= j <= |s|
    requires Contains(s[i..j], sub)
    ensures Contains(s, sub)
  {
    ContainsIff(s[i..j], sub);
    var p :| 0 <= p <= |s[i..j]| && StartsWithAt(s[i..j], p, sub);
    var t := s[i..j];
    assert t[p..p + |sub|] == sub;
    assert forall k :: 0 <= k < |sub| ==> s[i + p + k] == sub[k];
    assert s[i + p..i + p + |sub|] == sub;
    ContainsFromAt(s, i + p, sub);
  }

  /** The first index in `[lo, hi)` where `p` holds. */
  function FirstIndex(p: nat -> bool, lo: nat, hi: nat): (r: Option<nat>)
    ensures r.Some? ==> lo <= r.value < hi && p(r.value)
    ensures r.Some? ==> forall j :: lo <= j < r.value ==> !p(j)
    ensures r.None? ==> forall j :: lo <= j < hi ==> !p(j)
    decreases hi - lo
  {
    if lo >= hi then None
    else if p(lo) then Some(lo)
    else FirstIndex(p, lo + 1, hi)
  }

  /** The last index in `[lo, hi)` where `p` holds. */
  function LastIndex(p: nat -> bool, lo: nat, hi: nat): (r: Option<nat>)
    ensures r.Some? ==> lo <= r.value < hi && p(r.value)
    ensures r.Some? ==> forall j :: r.value < j < hi ==> !p(j)
    ensures r.None? ==> forall j :: lo <= j < hi ==> !p(j)
    decreases hi - lo
  {
    if lo >= hi then None
    else if p(hi - 1) then Some(hi - 1)
    else LastIndex(p, lo, hi - 1)
  }

  // ---------------------------------------------------------------- split and join

  /** `String.prototype.split` with a one-character separator. */
  function SplitOn(s: string, sep: char): (parts: seq<string>)
    ensures |parts| >= 1
    ensures forall k :: 0 <= k < |parts| ==> sep !in parts[k]
    decreases |s|
  {
    if |s| == 0 then [""]
    else
      var rest := SplitOn(s[1..], sep);
      if s[0] == sep then [""] + rest else [[s[0]] + rest[0]] + rest[1..]
  }

  /** `Array.prototype.join` with a one-character separator. */
  function Join(parts: seq<string>, sep: char): string
    decreases |parts|
  {
    if |parts| == 0 then ""
    else if |parts| == 1 then parts[0]
    else parts[0] + [sep] + Join(parts[1..], sep)
  }

  /** Joining the pieces of a split restores the string. */
  lemma {:induction false} JoinSplit(s: string, sep: char)
    ensures Join(SplitOn(s, sep), sep) == s
    decreases |s|
  {
    if |s| > 0 {
      JoinSplit(s[1..], sep);
      var rest := SplitOn(s[1..], sep);
      if s[0] == sep {
        assert SplitOn(s, sep)[1..] == rest;
        assert s == [sep] + s[1..];
      } else {
        var parts := SplitOn(s, sep);
        if |rest| == 1 {
          assert parts == [[s[0]] + rest[0]];
          assert s == [s[0]] + s[1..];
        } else {
          assert parts[1..] == rest[1..];
          assert Join(rest, sep) == rest[0] + [sep] + Join(rest[1..], sep);
          assert s == [s[0]] + s[1..];
        }
      }
    }
  }

  lemma {:induction false} SplitWithoutSep(s: string, sep: char)
    requires sep !in s
    ensures SplitOn(s, sep) == [s]
    decreases |s|
  {
    if |s| > 0 {
      assert sep !in s[1..];
      SplitWithoutSep(s[1..], sep);
      assert [s[0]] + s[1..] == s;
    }
  }

  lemma {:induction false} SplitAfterPiece(a: string, sep: char, b: string)
    requires sep !in a
    ensures SplitOn(a + [sep] + b, sep) == [a] + SplitOn(b, sep)
    decreases |a|
  {
    if |a| == 0 {
      assert [sep] + b == (a + [sep] + b);
      assert (a + [sep] + b)[1..] == b;
    } else {
      var s := a + [sep] + b;
      assert s[1..] == a[1..] + [sep] + b;
      assert sep !in a[1..];
      SplitAfterPiece(a[1..], sep, b);
      assert [a[0]] + a[1..] == a;
    }
  }

  /** A separator-free tail after a separator becomes one more piece. */
  lemma {:induction false} SplitBeforeLast(a: string, sep: char, b: string)
    requires sep !in b
    ensures SplitOn(a + [sep] + b, sep) == SplitOn(a, sep) + [b]
    decreases |a|
  {
    if |a| == 0 {
      SplitAfterPiece(a, sep, b);
      SplitWithoutSep(b, sep);
    } else {
      var s := a + [sep] + b;
      assert s[1..] == a[1..] + [sep] + b;
      SplitBeforeLast(a[1..], sep, b);
      assert s[0] == a[0];
    }
  }

  /** Splitting what was joined from separator-free pieces gives the pieces back. */
  lemma {:induction false} SplitJoin(parts: seq<string>, sep: char)
    requires |parts| >= 1
    requires forall k :: 0 <= k < |parts| ==> sep !in parts[k]
    ensures SplitOn(Join(parts, sep), sep) == parts
    decreases |parts|
  {
    if |parts| == 1 {
      SplitWithoutSep(parts[0], sep);
    } else {
      SplitJoin(parts[1..], sep);
      SplitAfterPiece(parts[0], sep, Join(parts[1..], sep));
      assert [parts[0]] + parts[1..] == parts;
    }
  }

  // ---------------------------------------------------------------- case mapping

  function ToLowerChar(c: char): char {
    if 'A' <= c <= 'Z' then (c as int + 32) as char else c
  }

  function ToUpperChar(c: char): char {
    if 'a' <= c <= 'z' then (c as int - 32) as char else c
  }

  /** `toLowerCase` restricted to the ASCII letters. */
  function ToLower(s: string): (r: string)
    ensures |r| == |s|
    ensures forall k :: 0 <= k < |s| ==> r[k] == ToLowerChar(s[k])
  {
    seq(|s|, k requires 0 <= k < |s| => ToLowerChar(s[k]))
  }

  /** `toUpperCase` restricted to the ASCII letters. */
  function ToUpper(s: string): (r: string)
    ensures |r| == |s|
    ensures forall k :: 0 <= k < |s| ==> r[k] == ToUpperChar(s[k])
  {
    seq(|s|, k requires 0 <= k < |s| => ToUpperChar(s[k]))
  }

  // ---------------------------------------------------------------- numbers

  function DigitChar(d: nat): char requires d < 10 { ('0' as int + d) as char }

  /** The decimal notation of a natural number, as `String(n)` writes it. */
  function NatToString(n: nat): (r: string)
    ensures |r| >= 1
    ensures forall k :: 0 <= k < |r| ==> IsDigit(r[k])
  {
    if n < 10 then [DigitChar(n)] else NatToString(n / 10) + [DigitChar(n % 10)]
  }
}
