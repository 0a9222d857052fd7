/**
 * The path handling of the recipe loader: `normalizePath`, the case variants of
 * an image file's extension, and the lookup of an image reference among the
 * bundled assets by a fixed list of candidate spellings.
 */
module Loader {
  import opened Wrappers
  import opened Seqs
  import opened Text

  // ---------------------------------------------------------------- normalizePath

  /** `filter(Boolean)` on strings keeps the non-empty ones. */
  predicate NonEmpty(s: string) { s != "" }

  /** `path.split('/').filter(Boolean)`. */
  function Segments(path: string): seq<string> {
    Filter(SplitOn(path, '/'), NonEmpty)
  }

  /** One segment of the walk: `.` is skipped, `..` pops (nothing at the root), anything else is pushed. */
  function Step(stack: seq<string>, part: string): seq<string> {
    if part == "." then stack
    else if part == ".." then (if |stack| == 0 then [] else stack[..|stack| - 1])
    else stack + [part]
  }

  /** The stack after walking `parts` from the root. */
  function Walk(parts: seq<string>): seq<string>
    decreases |parts|
  {
    if |parts| == 0 then [] else Step(Walk(parts[..|parts| - 1]), parts[|parts| - 1])
  }

  /** What `normalizePath` returns. */
  function Normalized(path: string): string {
    "/" + Join(Walk(Segments(path)), '/')
  }

  /** A segment a normalised path may hold: not empty, not `.` or `..`, and no `/` inside. */
  predicate Canonical(seg: string) {
    seg != "" && seg != "." && seg != ".." && '/' !in seg
  }

  /** `normalizePath`: the stack loop over the non-empty segments. */
  method NormalizePath(path: string) returns (r: string)
    ensures r == Normalized(path)
  {
    var parts := Segments(path);
    var stack: seq<string> := [];
    for i := 0 to |parts|
      invariant stack == Walk(parts[..i])
    {
      assert parts[..i + 1][..i] == parts[..i];
      var part := parts[i];
      if part == "." {
        continue;
      }
      if part == ".." {
        if |stack| > 0 {
          stack := stack[..|stack| - 1];
        }
        continue;
      }
      stack := stack + [part];
    }
    assert parts[..|parts|] == parts;
    r := "/" + Join(stack, '/');
  }

  /** The segments of a split are separator-free, and `filter(Boolean)` leaves no empty one. */
  lemma SegmentsShape(path: string)
    ensures forall k :: 0 <= k < |Segments(path)| ==> Segments(path)[k] != "" && '/' !in Segments(path)[k]
  {
    var parts := SplitOn(path, '/');
    FilterMembers(parts, NonEmpty);
    forall k | 0 <= k < |Segments(path)|
      ensures Segments(path)[k] != "" && '/' !in Segments(path)[k]
    {
      var seg := Segments(path)[k];
      assert seg in Segments(path);
      assert seg in parts && NonEmpty(seg);
    }
  }

  /** Walking separator-free non-empty segments leaves only canonical ones on the stack. */
  lemma {:induction false} WalkCanonical(parts: seq<string>)
    requires forall k :: 0 <= k < |parts| ==> parts[k] != "" && '/' !in parts[k]
    ensures forall k :: 0 <= k < |Walk(parts)| ==> Canonical(Walk(parts)[k])
    decreases |parts|
  {
    if |parts| > 0 {
      var init := parts[..|parts| - 1];
      WalkCanonical(init);
    }
  }

  /** Canonical segments walk to themselves. */
  lemma {:induction false} WalkKeepsCanonical(parts: seq<string>)
    requires forall k :: 0 <= k < |parts| ==> Canonical(parts[k])
    ensures Walk(parts) == parts
    decreases |parts|
  {
    if |parts| > 0 {
      var init := parts[..|parts| - 1];
      WalkKeepsCanonical(init);
      assert init + [parts[|parts| - 1]] == parts;
    }
  }

  /** The segments of `"/" + segs.join('/')` are `segs` again, when they are canonical. */
  lemma SegmentsOfJoined(w: seq<string>)
    requires forall k :: 0 <= k < |w| ==> Canonical(w[k])
    ensures Segments("/" + Join(w, '/')) == w
    ensures |w| > 0 ==> SplitOn("/" + Join(w, '/'), '/') == [""] + w
  {
    if |w| == 0 {
      SegmentsOfRoot();
    } else {
      SegmentsOfNonRoot(w);
    }
  }

  lemma SegmentsOfRoot()
    ensures SplitOn("/", '/') == ["", ""]
    ensures Segments("/") == []
  {
    assert "/"[1..] == "";
    assert Filter([""], NonEmpty) == [];
  }

  lemma SegmentsOfNonRoot(w: seq<string>)
    requires |w| > 0
    requires forall k :: 0 <= k < |w| ==> Canonical(w[k])
    ensures SplitOn("/" + Join(w, '/'), '/') == [""] + w
    ensures Segments("/" + Join(w, '/')) == w
  {
    SplitRooted(w);
    DropLeadingEmpty(w);
  }

  lemma SplitRooted(w: seq<string>)
    requires |w| > 0
    requires forall k :: 0 <= k < |w| ==> '/' !in w[k]
    ensures SplitOn("/" + Join(w, '/'), '/') == [""] + w
  {
    var j := Join(w, '/');
    SplitJoin(w, '/');
    assert "/" + j == "" + ['/'] + j;
    SplitAfterPiece("", '/', j);
  }

  lemma DropLeadingEmpty(w: seq<string>)
    requires forall k :: 0 <= k < |w| ==> w[k] != ""
    ensures Filter([""] + w, NonEmpty) == w
  {
    FilterAppend([""], w, NonEmpty);
    assert Filter([""], NonEmpty) == [];
    FilterKeepsAll(w, NonEmpty);
  }

  /** The stack `normalizePath` joins holds only canonical segments. */
  lemma NormalizedStack(path: string)
    ensures forall k :: 0 <= k < |Walk(Segments(path))| ==> Canonical(Walk(Segments(path))[k])
  {
    SegmentsShape(path);
    WalkCanonical(Segments(path));
  }

  /**
   * `normalizePath` returns an absolute path: the root `/` itself, or `/` followed by
   * segments none of which is empty, `.` or `..`.
   */
  lemma NormalizedForm(path: string)
    ensures |Normalized(path)| >= 1 && Normalized(path)[0] == '/'
    ensures var pieces := SplitOn(Normalized(path), '/');
      Normalized(path) == "/" || (pieces[0] == "" && forall k :: 1 <= k < |pieces| ==> Canonical(pieces[k]))
  {
    var w := Walk(Segments(path));
    NormalizedStack(path);
    SegmentsOfJoined(w);
  }

  /** Normalising a normalised path changes nothing. */
  lemma NormalizedIdempotent(path: string)
    ensures Normalized(Normalized(path)) == Normalized(path)
  {
    var w := Walk(Segments(path));
    NormalizedStack(path);
    SegmentsOfJoined(w);
    WalkKeepsCanonical(w);
  }

  /** The segments of `path + "/" + seg`, for a separator-free `seg`. */
  lemma SegmentsThen(path: string, seg: string)
    requires seg != "" && '/' !in seg
    ensures Segments(path + "/" + seg) == Segments(path) + [seg]
  {
    assert path + "/" + seg == path + ['/'] + seg;
    SplitBeforeLast(path, '/', seg);
    FilterAppend(SplitOn(path, '/'), [seg], NonEmpty);
  }

  /** A trailing `..` drops the last kept segment, and at the root it changes nothing. */
  lemma ParentSegment(path: string)
    ensures var w := Walk(Segments(path));
      Walk(Segments(path + "/..")) == if |w| == 0 then [] else w[..|w| - 1]
    ensures Walk(Segments(path)) == [] ==> Normalized(path + "/..") == Normalized(path) == "/"
  {
    assert path + "/.." == path + "/" + "..";
    SegmentsThen(path, "..");
    var parts := Segments(path) + [".."];
    assert parts[..|parts| - 1] == Segments(path);
  }

  /** A trailing `.` changes nothing. */
  lemma CurrentSegment(path: string)
    ensures Normalized(path + "/.") == Normalized(path)
  {
    assert path + "/." == path + "/" + ".";
    SegmentsThen(path, ".");
    var parts := Segments(path) + ["."];
    assert parts[..|parts| - 1] == Segments(path);
  }

  // ---------------------------------------------------------------- extension case

  /**
   * The length of the suffix `\.(png|jpg|jpeg|webp|gif)$` matched without regard to
   * ASCII case, or 0 when there is none. The five-character and four-character forms
   * cannot both match, since the former has a letter where the latter has its dot.
   */
  function ExtensionLength(p: string): (n: nat)
    ensures n == 0 || n == 4 || n == 5
    ensures n <= |p|
    ensures n > 0 ==> p[|p| - n] == '.'
  {
    if |p| >= 5 && p[|p| - 5] == '.' && ToUpper(p[|p| - 4..]) in {"JPEG", "WEBP"} then 5
    else if |p| >= 4 && p[|p| - 4] == '.' && ToUpper(p[|p| - 3..]) in {"PNG", "JPG", "GIF"} then 4
    else 0
  }

  /** `toLowerExt`: the matched extension in lower case. */
  function ToLowerExt(p: string): string {
    LowerFrom(p, |p| - ExtensionLength(p))
  }

  /** `toUpperExt`: the matched extension in upper case. */
  function ToUpperExt(p: string): string {
    UpperFrom(p, |p| - ExtensionLength(p))
  }

  /** `p` with the characters from `m` on in lower case. */
  function LowerFrom(p: string, m: nat): string
    requires m <= |p|
  {
    p[..m] + ToLower(p[m..])
  }

  /** `p` with the characters from `m` on in upper case. */
  function UpperFrom(p: string, m: nat): string
    requires m <= |p|
  {
    p[..m] + ToUpper(p[m..])
  }

  lemma UpperOfLowerChar(c: char)
    ensures ToUpperChar(ToLowerChar(c)) == ToUpperChar(c)
    ensures ToUpperChar(ToUpperChar(c)) == ToUpperChar(c)
  {
  }

  /** Re-casing a tail keeps the head and the length and changes nothing up to case. */
  lemma LowerFromFacts(p: string, m: nat)
    requires m <= |p|
    ensures var r := LowerFrom(p, m);
      |r| == |p| && r[..m] == p[..m] && (forall k :: m <= k < |p| ==> r[k] == ToLowerChar(p[k]))
      && ToUpper(r) == ToUpper(p) && (m == |p| ==> r == p)
  {
    var r := LowerFrom(p, m);
    assert r[..m] == p[..m];
    forall k | 0 <= k < |p| ensures ToUpperChar(r[k]) == ToUpperChar(p[k]) {
      UpperOfLowerChar(p[k]);
    }
  }

  lemma UpperFromFacts(p: string, m: nat)
    requires m <= |p|
    ensures var r := UpperFrom(p, m);
      |r| == |p| && r[..m] == p[..m] && (forall k :: m <= k < |p| ==> r[k] == ToUpperChar(p[k]))
      && ToUpper(r) == ToUpper(p) && (m == |p| ==> r == p)
  {
    var r := UpperFrom(p, m);
    assert r[..m] == p[..m];
    forall k | 0 <= k < |p| ensures ToUpperChar(r[k]) == ToUpperChar(p[k]) {
      UpperOfLowerChar(p[k]);
    }
  }

  /**
   * Only the extension changes, and of it only the case: everything before it stays,
   * each extension character is mapped by the character case mapping, a path with no
   * image extension comes back unchanged, and the result is still recognised as
   * the same extension.
   */
  lemma ToLowerExtChangesCaseOnly(p: string)
    ensures var r, n := ToLowerExt(p), ExtensionLength(p);
      |r| == |p| && r[..|p| - n] == p[..|p| - n]
      && (forall k :: |p| - n <= k < |p| ==> r[k] == ToLowerChar(p[k]))
      && (n == 0 ==> r == p)
      && ExtensionLength(r) == n
      && ToUpper(r) == ToUpper(p)
  {
    LowerFromFacts(p, |p| - ExtensionLength(p));
    SameExtension(p, ToLowerExt(p));
  }

  /** The counterpart for `toUpperExt`. */
  lemma ToUpperExtChangesCaseOnly(p: string)
    ensures var r, n := ToUpperExt(p), ExtensionLength(p);
      |r| == |p| && r[..|p| - n] == p[..|p| - n]
      && (forall k :: |p| - n <= k < |p| ==> r[k] == ToUpperChar(p[k]))
      && (n == 0 ==> r == p)
      && ExtensionLength(r) == n
      && ToUpper(r) == ToUpper(p)
  {
    UpperFromFacts(p, |p| - ExtensionLength(p));
    SameExtension(p, ToUpperExt(p));
  }

  /** Two paths equal up to ASCII case have the same extension length. */
  lemma SameExtension(p: string, q: string)
    requires ToUpper(p) == ToUpper(q)
    ensures ExtensionLength(p) == ExtensionLength(q)
  {
    assert |p| == |q|;
    if |p| >= 4 {
      assert ToUpper(p[|p| - 4..]) == ToUpper(p)[|p| - 4..] == ToUpper(q)[|q| - 4..] == ToUpper(q[|q| - 4..]);
      assert ToUpper(p[|p| - 3..]) == ToUpper(p)[|p| - 3..] == ToUpper(q)[|q| - 3..] == ToUpper(q[|q| - 3..]);
      assert ToUpperChar(p[|p| - 4]) == ToUpperChar(q[|q| - 4]);
    }
    if |p| >= 5 {
      assert ToUpperChar(p[|p| - 5]) == ToUpperChar(q[|q| - 5]);
    }
  }

  /** Lower-casing the extension twice, or after upper-casing it, is lower-casing it once. */
  lemma ToLowerExtAbsorbs(p: string)
    ensures ToLowerExt(ToLowerExt(p)) == ToLowerExt(p)
    ensures ToLowerExt(ToUpperExt(p)) == ToLowerExt(p)
  {
    var m := |p| - ExtensionLength(p);
    ToLowerExtChangesCaseOnly(p);
    ToUpperExtChangesCaseOnly(p);
    SameLowerFrom(p, ToLowerExt(p), m);
    SameLowerFrom(p, ToUpperExt(p), m);
  }

  /** A respelling in other case that keeps the head lowers to the same path. */
  lemma SameLowerFrom(p: string, q: string, m: nat)
    requires m <= |p| == |q| && ToUpper(q) == ToUpper(p) && q[..m] == p[..m]
    ensures LowerFrom(q, m) == LowerFrom(p, m)
  {
    forall k | 0 <= k < |p| - m
      ensures ToLower(q[m..])[k] == ToLower(p[m..])[k]
    {
      assert ToUpperChar(q[m + k]) == ToUpper(q)[m + k] == ToUpper(p)[m + k] == ToUpperChar(p[m + k]);
    }
  }

  // ---------------------------------------------------------------- resolveImageUrl

  /** `map[c]` is truthy: the key is present and its URL is not the empty string. */
  predicate Hit(assets: map<string, string>, c: string) {
    c in assets && assets[c] != ""
  }

  /** An absolute image reference as it stands, a relative one against `baseDir + '/'`. */
  function RawPath(baseDir: string, img: string): string {
    if StartsWith(img, "/") then img else Normalized(baseDir + "/" + img)
  }

  /** The spellings `resolveImageUrl` tries, in order. */
  function Candidates(baseDir: string, img: string, encode: string -> string, decode: string -> string): (cs: seq<string>)
    ensures |cs| == 8
  {
    var raw := RawPath(baseDir, img);
    [raw, Normalized(raw), encode(raw), decode(raw),
     ToLowerExt(raw), encode(ToLowerExt(raw)), ToUpperExt(raw), encode(ToUpperExt(raw))]
  }

  /** The reference `resolveImageUrl` starts from is absolute, and a relative one is already normalised. */
  lemma RawPathAbsolute(baseDir: string, img: string)
    ensures StartsWith(RawPath(baseDir, img), "/")
    ensures !StartsWith(img, "/") ==> Normalized(RawPath(baseDir, img)) == RawPath(baseDir, img)
  {
    if !StartsWith(img, "/") {
      NormalizedForm(baseDir + "/" + img);
      NormalizedIdempotent(baseDir + "/" + img);
    }
  }

  /**
   * `resolveImageUrl`: the URL of the first candidate the asset map holds a non-empty
   * URL for, or `None` (`undefined`) when it holds none of them. `encodeURI` and
   * `decodeURI` are given as functions.
   */
  method ResolveImageUrl(baseDir: string, img: string, assets: map<string, string>,
                         encode: string -> string, decode: string -> string)
    returns (r: Option<string>)
    ensures var cs := Candidates(baseDir, img, encode, decode);
      r.Some? ==> exists k :: 0 <= k < |cs| && Hit(assets, cs[k]) && r.value == assets[cs[k]]
                              && forall j :: 0 <= j < k ==> !Hit(assets, cs[j])
    ensures var cs := Candidates(baseDir, img, encode, decode);
      r.None? <==> forall k :: 0 <= k < |cs| ==> !Hit(assets, cs[k])
  {
    var raw: string;
    if StartsWith(img, "/") {
      raw := img;
    } else {
      raw := NormalizePath(baseDir + "/" + img);
    }
    var again := NormalizePath(raw);
    var lower := ToLowerExt(raw);
    var upper := ToUpperExt(raw);
    var candidates := [raw, again, encode(raw), decode(raw), lower, encode(lower), upper, encode(upper)];
    assert candidates == Candidates(baseDir, img, encode, decode);
    r := FirstHit(assets, candidates);
  }

  /** `for (const c of candidates) if (map[c]) return map[c]`: the URL of the first hit. */
  method FirstHit(assets: map<string, string>, cs: seq<string>) returns (r: Option<string>)
    ensures r.Some? ==> exists k :: 0 <= k < |cs| && Hit(assets, cs[k]) && r.value == assets[cs[k]]
                                    && forall j :: 0 <= j < k ==> !Hit(assets, cs[j])
    ensures r.None? <==> forall k :: 0 <= k < |cs| ==> !Hit(assets, cs[k])
  {
    for i := 0 to |cs|
      invariant forall j :: 0 <= j < i ==> !Hit(assets, cs[j])
    {
      var c := cs[i];
      if c in assets && assets[c] != "" {
        return Some(assets[c]);
      }
    }
    return None;
  }
}
