/**
 * The regular expressions of the recipe parser, each written out as the search
 * a backtracking JavaScript engine performs for it. A greedy quantifier offers
 * its possible ends longest first, a lazy one shortest first, and the first
 * combination of choices that completes the pattern is the match. Without the
 * `m` flag `^` and `$` are the ends of the text; `.` matches anything but a line
 * terminator.
 */
module Matchers {
  import opened Wrappers
  import opened Text

  // ---------------------------------------------------------------- backtracking

  /** The first candidate, in the order given, for which `f` succeeds, with its result. */
  function FirstSome<T>(cands: seq<nat>, f: nat -> Option<T>): (r: Option<T>)
    ensures r.Some? <==> exists k :: 0 <= k < |cands| && f(cands[k]).Some?
    decreases |cands|
  {
    if |cands| == 0 then None
    else if f(cands[0]).Some? then f(cands[0])
    else
      var r := FirstSome(cands[1..], f);
      assert forall k :: 1 <= k < |cands| ==> cands[1..][k - 1] == cands[k];
      r
  }

  /** The result of a successful search is the result of the first candidate that succeeds. */
  lemma {:induction false} FirstSomeIsFirst<T>(cands: seq<nat>, f: nat -> Option<T>)
    requires FirstSome(cands, f).Some?
    ensures exists k :: 0 <= k < |cands| && f(cands[k]) == FirstSome(cands, f)
                        && forall j :: 0 <= j < k ==> f(cands[j]).None?
    decreases |cands|
  {
    if f(cands[0]).None? {
      FirstSomeIsFirst(cands[1..], f);
      var k :| 0 <= k < |cands[1..]| && f(cands[1..][k]) == FirstSome(cands[1..], f)
               && forall j :: 0 <= j < k ==> f(cands[1..][j]).None?;
      assert f(cands[k + 1]) == FirstSome(cands, f);
      assert forall j :: 1 <= j < k + 1 ==> cands[j] == cands[1..][j - 1];
    } else {
      assert f(cands[0]) == FirstSome(cands, f);
    }
  }

  /** Some candidate satisfies `p`: the search of a pattern whose captures are not used. */
  predicate AnyOf(cands: seq<nat>, p: nat -> bool) {
    exists k :: 0 <= k < |cands| && p(cands[k])
  }

  /** The ends `hi, hi - 1, ..., lo` that a greedy quantifier offers, longest first. */
  function Down(hi: nat, lo: nat): (r: seq<nat>)
    ensures |r| == if hi >= lo then hi - lo + 1 else 0
    ensures forall k :: 0 <= k < |r| ==> r[k] == hi - k
  {
    if hi >= lo then seq(hi - lo + 1, k requires 0 <= k <= hi - lo => hi - k) else []
  }

  /** The ends `lo, lo + 1, ..., hi` that a lazy quantifier offers, shortest first. */
  function Up(lo: nat, hi: nat): (r: seq<nat>)
    ensures |r| == if hi >= lo then hi - lo + 1 else 0
    ensures forall k :: 0 <= k < |r| ==> r[k] == lo + k
  {
    if hi >= lo then seq(hi - lo + 1, k requires 0 <= k <= hi - lo => lo + k) else []
  }

  lemma InDown(hi: nat, lo: nat, x: nat)
    requires lo <= x <= hi
    ensures Down(hi, lo)[hi - x] == x && hi - x < |Down(hi, lo)|
  {
  }

  /** The ends of `\s*` (`min` = 0) or `\s+` (`min` = 1) at `i`, longest first. */
  function SpaceEnds(s: string, i: nat, min: nat): seq<nat> {
    if i <= |s| then Down(SpaceRunEnd(s, i), i + min) else []
  }

  /** The ends of `(.+?)` at the start of the text, shortest first. */
  function LazyLineEnds(s: string, i: nat): seq<nat> {
    if i <= |s| then Up(i + 1, LineEnd(s, i)) else []
  }

  /** The ends of `(?:\.\d+)?` after the integer part ending at `de`, with the fraction first. */
  function FractionEnds(s: string, de: nat): seq<nat> {
    if de < |s| && s[de] == '.' then Down(DigitRunEnd(s, de + 1), de + 2) else []
  }

  /** The ends of `\d+(?:\.\d+)?` at `i`, in the order the engine tries them. */
  function NumberEnds(s: string, i: nat): seq<nat> {
    if i <= |s| then NumberEndsDown(s, i, DigitRunEnd(s, i)) else []
  }

  function NumberEndsDown(s: string, i: nat, de: nat): seq<nat>
    decreases de
  {
    if de <= i then [] else FractionEnds(s, de) + [de] + NumberEndsDown(s, i, de - 1)
  }

  lemma {:induction false} NumberEndsDownHas(s: string, i: nat, de: nat, x: nat)
    requires i < x <= de
    ensures x in NumberEndsDown(s, i, de)
    decreases de
  {
    if x < de {
      NumberEndsDownHas(s, i, de - 1, x);
    }
  }

  /** Every end the number pattern offers lies past its first digit and within the text. */
  lemma {:induction false} NumberEndsDownBound(s: string, i: nat, de: nat, x: nat)
    requires de <= |s| && x in NumberEndsDown(s, i, de)
    ensures i < x <= |s|
    decreases de
  {
    if x !in FractionEnds(s, de) + [de] {
      NumberEndsDownBound(s, i, de - 1, x);
    }
  }

  lemma NumberEndsBound(s: string, i: nat, x: nat)
    requires x in NumberEnds(s, i)
    ensures i < x <= |s|
  {
    NumberEndsDownBound(s, i, DigitRunEnd(s, i), x);
  }

  /** `(.+)$` at `t`: at least one character and no line terminator up to the end. */
  predicate RestOfText(s: string, t: nat) {
    t < |s| && NoLineTerminator(s[t..])
  }

  /** `\s*(.+)$` or `\s+(.+)$` at `q`: where its capture starts. */
  function TailFrom(s: string, q: nat, min: nat): (r: Option<nat>)
    ensures r.Some? ==> q + min <= r.value && RestOfText(s, r.value)
  {
    var f := (t: nat) => if RestOfText(s, t) then Some(t) else None;
    var r := FirstSome(SpaceEnds(s, q, min), f);
    if r.Some? then FirstSomeIsFirst(SpaceEnds(s, q, min), f); r else r
  }

  /** With no line terminator, `\s*(.+)$` matches wherever a character is left. */
  lemma TailWithoutTerminator(s: string, q: nat)
    requires q < |s| && NoLineTerminator(s)
    ensures TailFrom(s, q, 0).Some?
  {
    var e := SpaceRunEnd(s, q);
    InDown(e, q, q);
    assert RestOfText(s, q);
  }

  // ---------------------------------------------------------------- ingredient lines

  /** The captures of `^(.+?)\s+(\d+(?:\.\d+)?)\s*(.+)$`: name end, amount start and end, unit start. */
  datatype Quantity = Quantity(nameEnd: nat, amountStart: nat, amountEnd: nat, unitStart: nat)

  /** The captures lie in order inside the text. */
  predicate QuantityInside(s: string, r: Quantity) {
    r.nameEnd < r.amountStart < r.amountEnd <= r.unitStart < |s|
  }

  function MatchQuantity(s: string): (r: Option<Quantity>)
    ensures r.Some? ==> QuantityInside(s, r.value)
  {
    var f := (n: nat) => QuantityAfterName(s, n);
    var r := FirstSome(LazyLineEnds(s, 0), f);
    if r.Some? then FirstSomeIsFirst(LazyLineEnds(s, 0), f); r else r
  }

  function QuantityAfterName(s: string, n: nat): (r: Option<Quantity>)
    ensures r.Some? ==> QuantityInside(s, r.value) && r.value.nameEnd == n
  {
    var f := (m: nat) => QuantityAfterSpace(s, n, m);
    var r := FirstSome(SpaceEnds(s, n, 1), f);
    if r.Some? then FirstSomeIsFirst(SpaceEnds(s, n, 1), f); r else r
  }

  function QuantityAfterSpace(s: string, n: nat, m: nat): (r: Option<Quantity>)
    ensures r.Some? ==> r.value.nameEnd == n && r.value.amountStart == m
    ensures r.Some? ==> m < r.value.amountEnd <= r.value.unitStart < |s|
  {
    var f := (q: nat) => QuantityAfterAmount(s, n, m, q);
    var r := FirstSome(NumberEnds(s, m), f);
    if r.Some? then
      FirstSomeIsFirst(NumberEnds(s, m), f);
      var k :| 0 <= k < |NumberEnds(s, m)| && f(NumberEnds(s, m)[k]) == r;
      NumberEndsBound(s, m, NumberEnds(s, m)[k]);
      r
    else r
  }

  function QuantityAfterAmount(s: string, n: nat, m: nat, q: nat): (r: Option<Quantity>)
    ensures r.Some? ==> r.value == Quantity(n, m, q, r.value.unitStart) && q <= r.value.unitStart < |s|
  {
    match TailFrom(s, q, 0)
    case None => None
    case Some(t) => Some(Quantity(n, m, q, t))
  }

  /** The captures of `^(.+?)\s+(\d+(?:\.\d+)?)\s*-\s*(\d+(?:\.\d+)?)\s*(.+)$`. */
  datatype Range = Range(nameEnd: nat, lowStart: nat, lowEnd: nat, highStart: nat, highEnd: nat, unitStart: nat)

  predicate RangeInside(s: string, r: Range) {
    r.nameEnd < r.lowStart < r.lowEnd < r.highStart < r.highEnd <= r.unitStart < |s|
  }

  function MatchRange(s: string): (r: Option<Range>)
    ensures r.Some? ==> RangeInside(s, r.value)
  {
    var f := (n: nat) => RangeAfterName(s, n);
    var r := FirstSome(LazyLineEnds(s, 0), f);
    if r.Some? then FirstSomeIsFirst(LazyLineEnds(s, 0), f); r else r
  }

  function RangeAfterName(s: string, n: nat): (r: Option<Range>)
    ensures r.Some? ==> RangeInside(s, r.value) && r.value.nameEnd == n
  {
    var f := (m: nat) => RangeAfterSpace(s, n, m);
    var r := FirstSome(SpaceEnds(s, n, 1), f);
    if r.Some? then FirstSomeIsFirst(SpaceEnds(s, n, 1), f); r else r
  }

  function RangeAfterSpace(s: string, n: nat, m: nat): (r: Option<Range>)
    ensures r.Some? ==> r.value.nameEnd == n && r.value.lowStart == m
    ensures r.Some? ==> m < r.value.lowEnd < r.value.highStart < r.value.highEnd <= r.value.unitStart < |s|
  {
    var f := (q: nat) => RangeAfterLow(s, n, m, q);
    var r := FirstSome(NumberEnds(s, m), f);
    if r.Some? then
      FirstSomeIsFirst(NumberEnds(s, m), f);
      var k :| 0 <= k < |NumberEnds(s, m)| && f(NumberEnds(s, m)[k]) == r;
      NumberEndsBound(s, m, NumberEnds(s, m)[k]);
      r
    else r
  }

  function RangeAfterLow(s: string, n: nat, m: nat, q: nat): (r: Option<Range>)
    ensures r.Some? ==> r.value.nameEnd == n && r.value.lowStart == m && r.value.lowEnd == q
    ensures r.Some? ==> q < r.value.highStart < r.value.highEnd <= r.value.unitStart < |s|
  {
    var f := (a: nat) => RangeAfterDash(s, n, m, q, a);
    var r := FirstSome(SpaceEnds(s, q, 0), f);
    if r.Some? then
      FirstSomeIsFirst(SpaceEnds(s, q, 0), f);
      var k :| 0 <= k < |SpaceEnds(s, q, 0)| && f(SpaceEnds(s, q, 0)[k]) == r;
      assert q <= SpaceEnds(s, q, 0)[k];
      r
    else r
  }

  function RangeAfterDash(s: string, n: nat, m: nat, q: nat, a: nat): (r: Option<Range>)
    ensures r.Some? ==> r.value.nameEnd == n && r.value.lowStart == m && r.value.lowEnd == q
    ensures r.Some? ==> a < r.value.highStart < r.value.highEnd <= r.value.unitStart < |s|
  {
    if a < |s| && s[a] == '-' then
      var f := (b: nat) => RangeAfterSecondSpace(s, n, m, q, b);
      var r := FirstSome(SpaceEnds(s, a + 1, 0), f);
      if r.Some? then
        FirstSomeIsFirst(SpaceEnds(s, a + 1, 0), f);
        var k :| 0 <= k < |SpaceEnds(s, a + 1, 0)| && f(SpaceEnds(s, a + 1, 0)[k]) == r;
        assert a + 1 <= SpaceEnds(s, a + 1, 0)[k];
        r
      else r
    else None
  }

  function RangeAfterSecondSpace(s: string, n: nat, m: nat, q: nat, b: nat): (r: Option<Range>)
    ensures r.Some? ==> r.value.nameEnd == n && r.value.lowStart == m && r.value.lowEnd == q
    ensures r.Some? ==> r.value.highStart == b < r.value.highEnd <= r.value.unitStart < |s|
  {
    var f := (q2: nat) => RangeAfterHigh(s, n, m, q, b, q2);
    var r := FirstSome(NumberEnds(s, b), f);
    if r.Some? then
      FirstSomeIsFirst(NumberEnds(s, b), f);
      var k :| 0 <= k < |NumberEnds(s, b)| && f(NumberEnds(s, b)[k]) == r;
      NumberEndsBound(s, b, NumberEnds(s, b)[k]);
      r
    else r
  }

  function RangeAfterHigh(s: string, n: nat, m: nat, q: nat, b: nat, q2: nat): (r: Option<Range>)
    ensures r.Some? ==> r.value == Range(n, m, q, b, q2, r.value.unitStart) && q2 <= r.value.unitStart < |s|
  {
    match TailFrom(s, q2, 0)
    case None => None
    case Some(t) => Some(Range(n, m, q, b, q2, t))
  }

  /** `^(.+?)\s*(适量)$`: where the name ends. */
  function MatchSentinel(s: string): (r: Option<nat>)
    ensures r.Some? ==> 1 <= r.value <= |s|
  {
    var f := (n: nat) => SentinelAfterName(s, n);
    var r := FirstSome(LazyLineEnds(s, 0), f);
    if r.Some? then FirstSomeIsFirst(LazyLineEnds(s, 0), f); r else r
  }

  function SentinelAfterName(s: string, n: nat): (r: Option<nat>)
    ensures r.Some? ==> r.value == n <= |s|
  {
    var f := (t: nat) => if t + 2 == |s| && s[t..] == "适量" && n <= t then Some(n) else None;
    var r := FirstSome(SpaceEnds(s, n, 0), f);
    if r.Some? then FirstSomeIsFirst(SpaceEnds(s, n, 0), f); r else r
  }

  /**
   * On a line without line terminators, the "number then rest" pattern matches
   * every line the range pattern matches, so the range pattern is never the one
   * that decides.
   */
  lemma RangeShadowed(s: string)
    requires NoLineTerminator(s) && MatchRange(s).Some?
    ensures MatchQuantity(s).Some?
  {
    var ns := LazyLineEnds(s, 0);
    var k :| 0 <= k < |ns| && RangeAfterName(s, ns[k]).Some?;
    RangeShadowedAfterName(s, ns[k]);
    assert QuantityAfterName(s, ns[k]).Some?;
  }

  lemma RangeShadowedAfterName(s: string, n: nat)
    requires NoLineTerminator(s) && RangeAfterName(s, n).Some?
    ensures QuantityAfterName(s, n).Some?
  {
    var ms := SpaceEnds(s, n, 1);
    var k :| 0 <= k < |ms| && RangeAfterSpace(s, n, ms[k]).Some?;
    RangeShadowedAfterSpace(s, n, ms[k]);
    assert QuantityAfterSpace(s, n, ms[k]).Some?;
  }

  lemma RangeShadowedAfterSpace(s: string, n: nat, m: nat)
    requires NoLineTerminator(s) && RangeAfterSpace(s, n, m).Some?
    ensures QuantityAfterSpace(s, n, m).Some?
  {
    var qs := NumberEnds(s, m);
    var k :| 0 <= k < |qs| && RangeAfterLow(s, n, m, qs[k]).Some?;
    RangeLeavesText(s, n, m, qs[k]);
    TailWithoutTerminator(s, qs[k]);
    assert QuantityAfterAmount(s, n, m, qs[k]).Some?;
  }

  /** A range match has a dash, so something follows its first number. */
  lemma RangeLeavesText(s: string, n: nat, m: nat, q: nat)
    requires RangeAfterLow(s, n, m, q).Some?
    ensures q < |s|
  {
    var as_ := SpaceEnds(s, q, 0);
    var j :| 0 <= j < |as_| && RangeAfterDash(s, n, m, q, as_[j]).Some?;
  }

  // ---------------------------------------------------------------- clean-up of a line

  predicate IsBullet(c: char) { c == '-' || c == '*' || c == '\U{2022}' }

  /** `replace(/^[-*•]\s+/, '')`. */
  function StripBullet(s: string): (r: string)
    ensures |r| <= |s|
  {
    if |s| > 0 && IsBullet(s[0]) && SpaceRunEnd(s, 1) > 1 then s[SpaceRunEnd(s, 1)..] else s
  }

  /**
   * Where the group opened at `i` closes: the lazy `.*?` between the brackets
   * stops at the first closing bracket and cannot cross a line terminator.
   */
  function GroupClose(s: string, i: nat, close: char): (r: Option<nat>)
    ensures r.Some? ==> i < r.value < |s|
  {
    if i < |s| then FirstIndex((j: nat) => j < |s| && s[j] == close, i + 1, LineEnd(s, i + 1)) else None
  }

  /** The leftmost position from `p` where `open.*?close` matches. */
  function GroupStart(s: string, p: nat, open: char, close: char): (r: Option<nat>)
    ensures r.Some? ==> p <= r.value < |s| && GroupClose(s, r.value, close).Some?
  {
    FirstIndex((i: nat) => i < |s| && s[i] == open && GroupClose(s, i, close).Some?, p, |s|)
  }

  /** `replace(/open.*?close/g, '')` applied to `s[p..]`. */
  function StripGroupsFrom(s: string, p: nat, open: char, close: char): (r: string)
    requires p <= |s|
    ensures |r| <= |s| - p
    decreases |s| - p
  {
    match GroupStart(s, p, open, close)
    case None => s[p..]
    case Some(i) =>
      var j := GroupClose(s, i, close).value;
      s[p..i] + StripGroupsFrom(s, j + 1, open, close)
  }

  /** `replace(/（.*?）/g, '').replace(/\(.*?\)/g, '')`. */
  function StripGroups(s: string): (r: string)
    ensures |r| <= |s|
  {
    var t := StripGroupsFrom(s, 0, '\U{FF08}', '\U{FF09}');
    StripGroupsFrom(t, 0, '(', ')')
  }

  // ---------------------------------------------------------------- step markers

  /** The ends of `\d+` at `i`, longest first. */
  function DigitEnds(s: string, i: nat): seq<nat> {
    if i <= |s| then Down(DigitRunEnd(s, i), i + 1) else []
  }

  /** A marker `\d+` then `sep`, followed by `\s*(.+)$` (`min` = 0) or `\s+(.+)$` (`min` = 1). */
  function MatchCounted(s: string, sep: char, min: nat): (r: Option<nat>)
    ensures r.Some? ==> RestOfText(s, r.value)
  {
    var f := (d: nat) => CountedAt(s, sep, min, d);
    var r := FirstSome(DigitEnds(s, 0), f);
    if r.Some? then CountedFound(DigitEnds(s, 0), f, s); r else r
  }

  /** `sep` then the tail, after the digits that end at `d`. */
  function CountedAt(s: string, sep: char, min: nat, d: nat): (r: Option<nat>)
    ensures r.Some? ==> RestOfText(s, r.value)
  {
    if d < |s| && s[d] == sep then TailFrom(s, d + 1, min) else None
  }

  lemma CountedFound(ends: seq<nat>, f: nat -> Option<nat>, s: string)
    requires FirstSome(ends, f).Some?
    requires forall d: nat :: f(d).Some? ==> RestOfText(s, f(d).value)
    ensures RestOfText(s, FirstSome(ends, f).value)
  {
    FirstSomeIsFirst(ends, f);
    var k :| 0 <= k < |ends| && f(ends[k]) == FirstSome(ends, f)
             && forall j :: 0 <= j < k ==> f(ends[j]).None?;
  }

  /** `^[-*•]\s+(.+)$`: where the capture starts. */
  function MatchBulleted(s: string): (r: Option<nat>)
    ensures r.Some? ==> RestOfText(s, r.value)
  {
    if |s| > 0 && IsBullet(s[0]) then TailFrom(s, 1, 1) else None
  }

  /**
   * The step markers `^\d+\.\s+(.+)$`, `^\d+、\s*(.+)$` and `^[-*•]\s+(.+)$`,
   * tried in that order: where the step text starts.
   */
  function StepMarker(s: string): (r: Option<nat>)
    ensures r.Some? ==> RestOfText(s, r.value)
  {
    if MatchCounted(s, '.', 1).Some? then MatchCounted(s, '.', 1)
    else if MatchCounted(s, '\U{3001}', 0).Some? then MatchCounted(s, '\U{3001}', 0)
    else MatchBulleted(s)
  }

  // ---------------------------------------------------------------- title and description

  /** `marker\s*(.+)$` with the `m` flag at `p` (`min` spaces at least): where the capture starts. */
  function LineCaptureAt(s: string, p: nat, marker: char, min: nat): (r: Option<nat>)
    ensures r.Some? ==> p + 1 + min <= r.value < |s| && !IsLineTerminator(s[r.value])
  {
    if p < |s| && s[p] == marker then
      var f := (t: nat) => if t < |s| && !IsLineTerminator(s[t]) then Some(t) else None;
      var r := FirstSome(SpaceEnds(s, p + 1, min), f);
      if r.Some? then FirstSomeIsFirst(SpaceEnds(s, p + 1, min), f); r else r
    else None
  }

  /**
   * The first match of `/^marker\s*(.+)$/m` (`min` = 0) or `/^marker\s+(.+)$/m`
   * (`min` = 1): the captured rest of the line.
   */
  function FirstLineCapture(s: string, marker: char, min: nat): (r: Option<string>)
    ensures r.Some? ==> |r.value| >= 1 && NoLineTerminator(r.value)
  {
    match FirstIndex((p: nat) => AtLineStart(s, p) && LineCaptureAt(s, p, marker, min).Some?, 0, |s|)
    case None => None
    case Some(p) =>
      var t := LineCaptureAt(s, p, marker, min).value;
      Some(s[t..LineEnd(s, t)])
  }

  // ---------------------------------------------------------------- section headers

  function HashRunEnd(s: string, i: nat): nat requires i <= |s| { RunEnd(s, i, (c: char) => c == '#') }

  /** The ends of `##+` at `i`, longest first. */
  function HashEnds(s: string, i: nat): seq<nat> {
    if i < |s| && s[i] == '#' then Down(HashRunEnd(s, i + 1), i + 2) else []
  }

  /** One of `words`, the alternatives of a group, starts at `t`. */
  predicate SomeWordAt(s: string, t: nat, words: seq<string>) {
    exists w :: 0 <= w < |words| && StartsWithAt(s, t, words[w])
  }

  /** `##+\s*(word1|word2|...)` matches at `i`. */
  predicate HeaderAt(s: string, i: nat, words: seq<string>) {
    AnyOf(HashEnds(s, i), (h: nat) => AnyOf(SpaceEnds(s, h, 0), (t: nat) => SomeWordAt(s, t, words)))
  }

  /** The index of the first match of `/##+\s*(word1|word2|...)/`. */
  function FirstHeader(s: string, words: seq<string>): (r: Option<nat>)
    ensures r.Some? ==> r.value < |s| && HeaderAt(s, r.value, words)
    ensures r.Some? ==> forall j: nat :: j < r.value ==> !HeaderAt(s, j, words)
    ensures r.None? ==> forall j: nat :: j < |s| ==> !HeaderAt(s, j, words)
  {
    var p := (i: nat) => HeaderAt(s, i, words);
    assert forall j: nat :: p(j) == HeaderAt(s, j, words);
    FirstIndex(p, 0, |s|)
  }

  /** `\n##+\s+` matches at `j`. */
  predicate NextHeaderAt(s: string, j: nat) {
    j < |s| && s[j] == '\n' && AnyOf(HashEnds(s, j + 1), (h: nat) => |SpaceEnds(s, h, 1)| > 0)
  }

  /** `search(/\n##+\s+/)`, with `None` for -1. */
  function SearchNextHeader(s: string): (r: Option<nat>)
    ensures r.Some? ==> r.value < |s| && NextHeaderAt(s, r.value)
    ensures r.Some? ==> forall j: nat :: j < r.value ==> !NextHeaderAt(s, j)
    ensures r.None? ==> forall j: nat :: j < |s| ==> !NextHeaderAt(s, j)
  {
    var p := (j: nat) => NextHeaderAt(s, j);
    assert forall j: nat :: p(j) == NextHeaderAt(s, j);
    FirstIndex(p, 0, |s|)
  }

  // ---------------------------------------------------------------- image references

  /** The captures of `!\[.*?\]\((.+?)\)` at `i`: where the target starts and where it closes. */
  datatype ImageRef = ImageRef(target: nat, close: nat)

  /** The first `)` in `[u, hi)`: where a lazy `(.+?)` followed by `\)` stops. */
  function FirstClose(s: string, u: nat, hi: nat): (r: Option<nat>)
    requires hi <= |s|
    ensures r.Some? ==> u <= r.value < hi && s[r.value] == ')'
    ensures r.Some? ==> forall k :: u <= k < r.value ==> s[k] != ')'
    ensures r.None? ==> forall k :: u <= k < hi ==> s[k] != ')'
    decreases hi - u
  {
    if u >= hi then None else if s[u] == ')' then Some(u) else FirstClose(s, u + 1, hi)
  }

  /**
   * With the alt text closed by the `]` at `a`, the lazy target `(.+?)` runs to
   * the first `)` after at least one character, on the same line.
   */
  function ImageTargetAt(s: string, a: nat): (r: Option<ImageRef>)
    ensures r.Some? ==> a + 2 < r.value.close < |s| && r.value.target == a + 2
  {
    if a + 1 < |s| && s[a] == ']' && s[a + 1] == '(' then
      match FirstClose(s, a + 3, LineEnd(s, a + 2))
      case None => None
      case Some(u) => Some(ImageRef(a + 2, u))
    else None
  }

  /** The lazy alt text `.*?` tries its ends `a, a + 1, ..., hi` until a target closes. */
  function AltScan(s: string, a: nat, hi: nat): (r: Option<ImageRef>)
    ensures r.Some? ==> a + 2 <= r.value.target <= hi + 2 && r.value.target < r.value.close < |s|
    decreases hi + 1 - a
  {
    if a > hi then None
    else match ImageTargetAt(s, a)
      case Some(m) => Some(m)
      case None => AltScan(s, a + 1, hi)
  }

  /** The scan stops at the first end `a'` in `[a, hi]` where `\]\((.+?)\)` matches. */
  lemma {:induction false} AltScanFinds(s: string, a: nat, hi: nat, m: ImageRef)
    requires AltScan(s, a, hi) == Some(m)
    ensures ImageTargetAt(s, m.target - 2) == Some(m)
    ensures forall x :: a <= x < m.target - 2 ==> ImageTargetAt(s, x).None?
    decreases hi + 1 - a
  {
    AltScanUnfolds(s, a, hi);
    if ImageTargetAt(s, a).None? {
      AltScanFinds(s, a + 1, hi, m);
    }
  }

  /** The scan finds nothing only when `\]\((.+?)\)` matches at no end in `[a, hi]`. */
  lemma {:induction false} AltScanNone(s: string, a: nat, hi: nat)
    requires AltScan(s, a, hi).None?
    ensures forall x :: a <= x <= hi ==> ImageTargetAt(s, x).None?
    decreases hi + 1 - a
  {
    if a <= hi {
      AltScanUnfolds(s, a, hi);
      AltScanNone(s, a + 1, hi);
    }
  }

  /** `!\[.*?\]\((.+?)\)` matched at `i`. */
  function ImageAt(s: string, i: nat): (r: Option<ImageRef>)
    ensures r.Some? ==> i + 2 <= r.value.target < r.value.close < |s| && s[i] == '!' && s[i + 1] == '['
  {
    if i + 1 < |s| && s[i] == '!' && s[i + 1] == '[' then AltScan(s, i + 2, LineEnd(s, i + 2)) else None
  }

  /** In a window `s[i..e]`, the first `)` is the one in `s`, if it lies inside the window. */
  lemma {:induction false} FirstCloseWindow(s: string, i: nat, e: nat, u: nat, hiS: nat, hiT: nat)
    requires i <= e <= |s| && hiS <= |s| && hiT <= e - i && i + hiT == (if hiS <= e then hiS else e)
    ensures var r := FirstClose(s, i + u, hiS);
      FirstClose(s[i..e], u, hiT) == if r.Some? && r.value < e then Some(r.value - i) else None
    decreases hiT - u
  {
    if u < hiT {
      assert s[i..e][u] == s[i + u];
      FirstCloseWindow(s, i, e, u + 1, hiS, hiT);
    }
  }

  /** A target of the whole text as a window `[i, e)` sees it: moved by `i`, and only if it closes inside. */
  function Shifted(r: Option<ImageRef>, i: nat, e: nat): Option<ImageRef> {
    if r.Some? && r.value.close < e && i <= r.value.target <= r.value.close then Some(ImageRef(r.value.target - i, r.value.close - i))
    else None
  }

  /** In a window, a target is found exactly when the whole text's target closes inside it. */
  lemma ImageTargetWindow(s: string, i: nat, e: nat, a: nat)
    requires i <= e <= |s| && a <= e - i
    ensures ImageTargetAt(s[i..e], a) == Shifted(ImageTargetAt(s, i + a), i, e)
  {
    if a + 1 < e - i {
      assert s[i..e][a] == s[i + a] && s[i..e][a + 1] == s[i + a + 1];
      if s[i + a] == ']' && s[i + a + 1] == '(' {
        ImageTargetWindowOpen(s, i, e, a);
      }
    }
  }

  /** The case of `ImageTargetWindow` where "](" stands at `a`. */
  lemma ImageTargetWindowOpen(s: string, i: nat, e: nat, a: nat)
    requires i <= e <= |s| && a + 1 < e - i && s[i + a] == ']' && s[i + a + 1] == '('
    ensures ImageTargetAt(s[i..e], a) == Shifted(ImageTargetAt(s, i + a), i, e)
  {
    var t := s[i..e];
    assert t[a] == ']' && t[a + 1] == '(';
    var hiS, hiT := LineEnd(s, i + a + 2), LineEnd(t, a + 2);
    LineEndWindow(s, i, e, a + 2);
    FirstCloseWindow(s, i, e, a + 3, hiS, hiT);
    var r := FirstClose(s, i + a + 3, hiS);
    if r.Some? && r.value < e {
      assert ImageTargetAt(s, i + a) == Some(ImageRef(i + a + 2, r.value));
      assert ImageTargetAt(t, a) == Some(ImageRef(a + 2, r.value - i));
    } else {
      assert ImageTargetAt(t, a) == None;
    }
  }

  /**
   * Two texts whose targets agree up to `Shifted` over the ends `a..hiT` scan to
   * the same reference, when the first text's reference closes before `e`.
   */
  lemma {:induction false} AltScanShift(s: string, t: string, i: nat, e: nat, a: nat, hiS: nat, hiT: nat, m: ImageRef)
    requires a <= hiT && i + hiT == (if hiS <= e then hiS else e)
    requires forall x :: a <= x <= hiT ==> ImageTargetAt(t, x) == Shifted(ImageTargetAt(s, i + x), i, e)
    requires AltScan(s, i + a, hiS) == Some(m) && m.close < e
    ensures AltScan(t, a, hiT) == Some(ImageRef(m.target - i, m.close - i))
    decreases hiS - (i + a)
  {
    if ImageTargetAt(s, i + a).Some? {
      AltScanShiftHere(s, t, i, e, a, hiS, hiT, m);
    } else {
      AltScanShiftSkip(s, t, i, e, a, hiS, hiT, m);
      AltScanShift(s, t, i, e, a + 1, hiS, hiT, m);
    }
  }

  /** The scan of the whole text stops at `i + a`: so does the window's, at `a`. */
  lemma AltScanShiftHere(s: string, t: string, i: nat, e: nat, a: nat, hiS: nat, hiT: nat, m: ImageRef)
    requires a <= hiT
    requires ImageTargetAt(t, a) == Shifted(ImageTargetAt(s, i + a), i, e)
    requires AltScan(s, i + a, hiS) == Some(m) && m.close < e && ImageTargetAt(s, i + a).Some?
    ensures AltScan(t, a, hiT) == Some(ImageRef(m.target - i, m.close - i))
  {
    AltScanUnfolds(s, i + a, hiS);
    AltScanUnfolds(t, a, hiT);
  }

  /** Neither text has a target at the current end: both scans move on. */
  lemma AltScanShiftSkip(s: string, t: string, i: nat, e: nat, a: nat, hiS: nat, hiT: nat, m: ImageRef)
    requires a <= hiT && i + hiT == (if hiS <= e then hiS else e)
    requires ImageTargetAt(t, a) == Shifted(ImageTargetAt(s, i + a), i, e)
    requires AltScan(s, i + a, hiS) == Some(m) && m.close < e && ImageTargetAt(s, i + a).None?
    ensures AltScan(s, i + (a + 1), hiS) == Some(m) && a + 1 <= hiT
    ensures AltScan(t, a, hiT) == AltScan(t, a + 1, hiT)
  {
    AltScanUnfolds(s, i + a, hiS);
    AltScanUnfolds(t, a, hiT);
  }

  /** One step of the scan: the target at `a` if there is one, else the scan from `a + 1`. */
  lemma AltScanUnfolds(s: string, a: nat, hi: nat)
    requires a <= hi
    ensures AltScan(s, a, hi) == if ImageTargetAt(s, a).Some? then ImageTargetAt(s, a) else AltScan(s, a + 1, hi)
  {
  }

  /**
   * Matched again on its own text, an image reference is found at once, with
   * its captures where the search over the whole text put them.
   */
  lemma ImageWindow(s: string, i: nat, m: ImageRef)
    requires ImageAt(s, i) == Some(m)
    ensures ImageAt(s[i..m.close + 1], 0) == Some(ImageRef(m.target - i, m.close - i))
  {
    var e := m.close + 1;
    var t := s[i..e];
    LineEndWindow(s, i, e, 2);
    assert t[0] == '!' && t[1] == '[';
    forall x | 2 <= x <= LineEnd(t, 2)
      ensures ImageTargetAt(t, x) == Shifted(ImageTargetAt(s, i + x), i, e)
    {
      ImageTargetWindow(s, i, e, x);
    }
    AltScanShift(s, t, i, e, 2, LineEnd(s, i + 2), LineEnd(t, 2), m);
  }

  // ---------------------------------------------------------------- title suffixes

  /** `lit.*$` at `t` without the `m` flag: the literal, then no line terminator up to the end. */
  predicate LiteralToEnd(s: string, t: nat, lit: string) {
    StartsWithAt(s, t, lit) && NoLineTerminator(s[t + |lit|..])
  }

  /**
   * `\s*(lit1|lit2|...).*$` matches at `i`; an optional character such as
   * `的?` is written as the two literals with and without it. The `i` flag has
   * no effect on these characters, which have no case.
   */
  predicate SuffixAt(s: string, i: nat, lits: seq<string>) {
    AnyOf(SpaceEnds(s, i, 0), (t: nat) => exists k :: 0 <= k < |lits| && LiteralToEnd(s, t, lits[k]))
  }

  /** `replace(/\s*(lit1|...).*$/, '')`: the match runs to the end, so the text is cut where it starts. */
  function CutSuffix(s: string, lits: seq<string>): (r: string)
    ensures |r| <= |s| && r == s[..|r|]
    ensures |r| < |s| ==> SuffixAt(s, |r|, lits)
    ensures forall j: nat :: j < |r| ==> !SuffixAt(s, j, lits)
  {
    var p := (i: nat) => SuffixAt(s, i, lits);
    assert forall j: nat :: p(j) == SuffixAt(s, j, lits);
    match FirstIndex(p, 0, |s|)
    case None => s
    case Some(i) => s[..i]
  }

  /** Where a literal occurs with no line terminator after it, the suffix pattern matches. */
  lemma SuffixAtLiteral(s: string, k: nat, lits: seq<string>, w: nat)
    requires w < |lits| && StartsWithAt(s, k, lits[w]) && NoLineTerminator(s)
    ensures SuffixAt(s, k, lits)
  {
    InDown(SpaceRunEnd(s, k), k, k);
    assert SpaceEnds(s, k, 0)[SpaceRunEnd(s, k) - k] == k;
    assert LiteralToEnd(s, k, lits[w]);
  }

  /** On a text without line terminators the cut leaves no occurrence of any literal. */
  lemma CutSuffixRemoves(s: string, lits: seq<string>, w: nat)
    requires w < |lits| && |lits[w]| > 0 && NoLineTerminator(s)
    ensures !Contains(CutSuffix(s, lits), lits[w])
  {
    var r := CutSuffix(s, lits);
    if Contains(r, lits[w]) {
      ContainsIff(r, lits[w]);
      var k :| 0 <= k <= |r| && StartsWithAt(r, k, lits[w]);
      assert s[k..k + |lits[w]|] == r[k..k + |lits[w]|];
      SuffixAtLiteral(s, k, lits, w);
    }
  }

  predicate IsDashOrSpace(c: char) { IsSpace(c) || c == '-' || c == '\U{2013}' || c == '\U{2014}' }

  /** `replace(/[\s\-–—]+$/g, '')`: the trailing run of white space and dashes goes. */
  function StripTrailingDashes(s: string): (r: string)
    ensures |r| <= |s| && r == s[..|r|]
    ensures forall k :: |r| <= k < |s| ==> IsDashOrSpace(s[k])
    ensures |r| > 0 ==> !IsDashOrSpace(r[|r| - 1])
  {
    var p := (i: nat) => i < |s| && forall k :: i <= k < |s| ==> IsDashOrSpace(s[k]);
    assert forall j: nat :: p(j) == (j < |s| && forall k :: j <= k < |s| ==> IsDashOrSpace(s[k]));
    match FirstIndex(p, 0, |s|)
    case None => assert |s| > 0 ==> !p(|s| - 1); s
    case Some(i) => assert i > 0 ==> !p(i - 1); s[..i]
  }
}
