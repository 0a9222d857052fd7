/**
 * `RecipeParser`: one Markdown recipe text and its path become a `Recipe`.
 * The title (or the file name) gives the name, the first `>` line the
 * description, three kinds of `##` sections the ingredient names, their
 * quantities and the steps; the path and the name decide the category, and
 * the counts of ingredients and steps decide difficulty and cooking time.
 */
module RecipeParser {
  import opened Wrappers
  import opened Text
  import opened Numbers
  import opened Types
  import opened Matchers
  import opened Seqs

  // ---------------------------------------------------------------- units

  /** The unit table; any other text, including the empty one, has no entry. */
  const UnitTable: map<string, Unit> := map[
    "g" := G, "克" := G, "公斤" := Kg, "kg" := Kg, "千克" := Kg,
    "ml" := Ml, "毫升" := Ml, "l" := L, "升" := L, "L" := L, "毫升/滴" := Ml, "滴" := Ml,
    "个" := Ge, "只" := Zhi, "片" := Pian, "根" := Gen]

  /** `unitMap[unit] || '适量'`. */
  function ParseUnit(u: string): Unit {
    if u in UnitTable then UnitTable[u] else Shiliang
  }

  /** The spellings the table accepts for each unit, listed unit by unit. */
  function Spellings(x: Unit): set<string> {
    match x
    case G => {"g", "克"}
    case Kg => {"公斤", "kg", "千克"}
    case Ml => {"ml", "毫升", "毫升/滴", "滴"}
    case L => {"l", "升", "L"}
    case Ge => {"个"}
    case Zhi => {"只"}
    case Pian => {"片"}
    case Gen => {"根"}
    case Shiliang => {}
  }

  /**
   * A text reads as a unit exactly when it is one of that unit's spellings;
   * every other text reads as the unspecified unit.
   */
  lemma ParseUnitSpellings(u: string, x: Unit)
    ensures x != Shiliang ==> (ParseUnit(u) == x <==> u in Spellings(x))
    ensures ParseUnit(u) == Shiliang <==> forall y :: u !in Spellings(y)
  {
    assert forall y :: u in Spellings(y) ==> u in UnitTable && UnitTable[u] == y;
    if u in UnitTable {
      assert u in Spellings(UnitTable[u]);
    }
  }

  // ---------------------------------------------------------------- ingredient categories

  const MeatKeywords: seq<string> := ["肉", "鸡", "鸭", "鱼", "虾", "蟹", "牛", "羊", "猪"]
  const VegetableKeywords: seq<string> := ["菜", "豆", "茄", "椒", "瓜", "萝卜", "洋葱", "蒜", "姜", "葱"]
  const SeasoningKeywords: seq<string> := ["盐", "糖", "醋", "酱油", "料酒", "油", "粉", "精", "香料"]

  /** `keywords.some(keyword => name.includes(keyword))`. */
  predicate MentionsAny(name: string, keywords: seq<string>) {
    exists k :: 0 <= k < |keywords| && Contains(name, keywords[k])
  }

  /** `categorizeIngredient`: meat keywords first, then vegetables, then seasonings. */
  function Categorize(name: string): (r: IngredientCategory)
    ensures r == Meat <==> MentionsAny(name, MeatKeywords)
    ensures r == Vegetable <==> !MentionsAny(name, MeatKeywords) && MentionsAny(name, VegetableKeywords)
    ensures r == Seasoning <==> !MentionsAny(name, MeatKeywords) && !MentionsAny(name, VegetableKeywords)
                                && MentionsAny(name, SeasoningKeywords)
  {
    if MentionsAny(name, MeatKeywords) then Meat
    else if MentionsAny(name, VegetableKeywords) then Vegetable
    else if MentionsAny(name, SeasoningKeywords) then Seasoning
    else Other
  }

  /** Any name with 鸡 in it is meat, 鸡蛋 (egg) included. */
  lemma ChickenIsMeat(name: string)
    requires Contains(name, "鸡")
    ensures Categorize(name) == Meat
  {
    assert MeatKeywords[1] == "鸡";
  }

  lemma EggIsMeat()
    ensures Categorize("鸡蛋") == Meat
  {
    assert StartsWith("鸡蛋", "鸡");
    ChickenIsMeat("鸡蛋");
  }

  // ---------------------------------------------------------------- ids and titles

  /** `replace(/\s+/g, '-')` on `s[p..]`: every run of white space becomes one dash. */
  function DashRuns(s: string, p: nat): (r: string)
    requires p <= |s|
    ensures forall k :: 0 <= k < |r| ==> !IsSpace(r[k])
    decreases |s| - p
  {
    if p == |s| then ""
    else if IsSpace(s[p]) then "-" + DashRuns(s, SpaceRunEnd(s, p))
    else [s[p]] + DashRuns(s, p + 1)
  }

  lemma {:induction false} DashRunsWithoutSpace(s: string, p: nat)
    requires p <= |s| && forall k :: p <= k < |s| ==> !IsSpace(s[k])
    ensures DashRuns(s, p) == s[p..]
    decreases |s| - p
  {
    if p < |s| {
      DashRunsWithoutSpace(s, p + 1);
      assert s[p..] == [s[p]] + s[p + 1..];
    }
  }

  /** `generateId`: white-space runs become dashes, then ASCII letters are lowered. */
  function GenerateId(name: string): (r: string)
    ensures forall k :: 0 <= k < |r| ==> !IsSpace(r[k]) && !('A' <= r[k] <= 'Z')
  {
    ToLower(DashRuns(name, 0))
  }

  /** An id is its own id. */
  lemma GenerateIdIdempotent(name: string)
    ensures GenerateId(GenerateId(name)) == GenerateId(name)
  {
    var id := GenerateId(name);
    DashRunsWithoutSpace(id, 0);
    assert id[0..] == id;
  }

  /** A name without white space keeps its characters; only its ASCII letters are lowered. */
  lemma GenerateIdWithoutSpace(name: string)
    requires forall k :: 0 <= k < |name| ==> !IsSpace(name[k])
    ensures GenerateId(name) == ToLower(name)
  {
    DashRunsWithoutSpace(name, 0);
    assert name[0..] == name;
  }

  const HowToMake: seq<string> := ["的做法", "做法"]
  const MakingMethod: seq<string> := ["制作方法"]
  const MakingSteps: seq<string> := ["制作步骤"]

  /**
   * `sanitizeTitle`: cut at the first "(的)做法", then at the first "制作方法",
   * then at the first "制作步骤" (each with the white space before it and all
   * that follows), drop the trailing white space and dashes, and trim.
   */
  function SanitizeTitle(raw: string): string {
    var n1 := CutSuffix(raw, HowToMake);
    var n2 := CutSuffix(n1, MakingMethod);
    var n3 := CutSuffix(n2, MakingSteps);
    Trim(StripTrailingDashes(n3))
  }

  /** Trimming a prefix of a text leaves a piece of the text that only white space precedes. */
  lemma TrimOfPrefix(raw: string, p: string)
    requires |p| <= |raw| && p == raw[..|p|]
    ensures exists i, j :: 0 <= i <= j <= |raw| && Trim(p) == raw[i..j]
                           && forall k :: 0 <= k < i ==> IsSpace(raw[k])
  {
    var i, j :| 0 <= i <= j <= |p| && Trim(p) == p[i..j]
                && (forall k :: 0 <= k < i ==> IsSpace(p[k]))
                && (forall k :: j <= k < |p| ==> IsSpace(p[k]));
    assert p[i..j] == raw[i..j];
    assert forall k :: 0 <= k < i ==> raw[k] == p[k];
  }

  /** What a trimmed text contains, the text contains. */
  lemma ContainsInTrim(s: string, w: string)
    requires Contains(Trim(s), w)
    ensures Contains(s, w)
  {
    var i, j :| 0 <= i <= j <= |s| && Trim(s) == s[i..j]
                && (forall k :: 0 <= k < i ==> IsSpace(s[k]))
                && (forall k :: j <= k < |s| ==> IsSpace(s[k]));
    ContainsInSlice(s, i, j, w);
  }

  /** What a prefix contains, the text contains. */
  lemma ContainsInPrefix(s: string, p: string, w: string)
    requires |p| <= |s| && p == s[..|p|] && Contains(p, w)
    ensures Contains(s, w)
  {
    assert p == s[0..|p|];
    ContainsInSlice(s, 0, |p|, w);
  }

  /** The cleaned title is trimmed and is a piece of the raw title that only white space precedes. */
  lemma SanitizeTitleIsTrimmedPrefix(raw: string)
    ensures IsTrimmed(SanitizeTitle(raw))
    ensures exists i, j :: 0 <= i <= j <= |raw| && SanitizeTitle(raw) == raw[i..j]
                           && forall k :: 0 <= k < i ==> IsSpace(raw[k])
  {
    var n4 := StripTrailingDashes(CutSuffix(CutSuffix(CutSuffix(raw, HowToMake), MakingMethod), MakingSteps));
    UntrimmedIsPrefix(raw);
    TrimOfPrefix(raw, n4);
  }

  /** Before the trim, the cleaned title is a prefix of the raw title. */
  lemma UntrimmedIsPrefix(raw: string)
    ensures var n4 := StripTrailingDashes(CutSuffix(CutSuffix(CutSuffix(raw, HowToMake), MakingMethod), MakingSteps));
      |n4| <= |raw| && n4 == raw[..|n4|]
  {
    var n1 := CutSuffix(raw, HowToMake);
    var n2 := CutSuffix(n1, MakingMethod);
    var n3 := CutSuffix(n2, MakingSteps);
    var n4 := StripTrailingDashes(n3);
    PrefixOfPrefix(raw, n1, n2);
    PrefixOfPrefix(raw, n2, n3);
    PrefixOfPrefix(raw, n3, n4);
  }

  lemma PrefixOfPrefix(a: string, b: string, c: string)
    requires |b| <= |a| && b == a[..|b|] && |c| <= |b| && c == b[..|c|]
    ensures c == a[..|c|]
  {
  }

  /**
   * A one-line title keeps nothing of "做法", "制作方法" or "制作步骤":
   * the cut happens before the first occurrence of each.
   */
  lemma SanitizeTitleDropsMarkers(raw: string)
    requires NoLineTerminator(raw)
    ensures !Contains(SanitizeTitle(raw), "做法")
    ensures !Contains(SanitizeTitle(raw), "制作方法")
    ensures !Contains(SanitizeTitle(raw), "制作步骤")
  {
    var n1 := CutSuffix(raw, HowToMake);
    var n2 := CutSuffix(n1, MakingMethod);
    var n3 := CutSuffix(n2, MakingSteps);
    var n4 := StripTrailingDashes(n3);
    assert forall k :: 0 <= k < |n1| ==> n1[k] == raw[k];
    assert forall k :: 0 <= k < |n2| ==> n2[k] == n1[k];
    CutSuffixRemoves(raw, HowToMake, 1);
    CutSuffixRemoves(n1, MakingMethod, 0);
    CutSuffixRemoves(n2, MakingSteps, 0);
    forall w | w in ["做法", "制作方法", "制作步骤"] && Contains(SanitizeTitle(raw), w)
      ensures Contains(n1, w) && Contains(n2, w) && Contains(n3, w)
    {
      ContainsInTrim(n4, w);
      ContainsInPrefix(n3, n4, w);
      ContainsInPrefix(n2, n3, w);
      ContainsInPrefix(n1, n2, w);
    }
  }

  // ---------------------------------------------------------------- dish categories

  /** One line of the classification: a path segment of the lower-cased path, or a keyword of the path. */
  datatype Rule = PathRule(segments: seq<string>, category: Category)
                | NameRule(keywords: seq<string>, category: Category)

  /** The classification in the order it is checked: every path rule before every name rule. */
  const ClassificationRules: seq<Rule> := [
    PathRule(["/soup/"], Soup),
    PathRule(["/vegetarian/", "/vegetable_dish/"], Vegetarian),
    PathRule(["/meat_dish/"], MeatDish),
    PathRule(["/aquatic/"], Aquatic),
    PathRule(["/drink/"], Drink),
    PathRule(["/dessert/"], Dessert),
    NameRule(["汤"], Soup),
    NameRule(["素", "素菜", "蔬菜"], Vegetarian),
    NameRule(["海鲜", "鱼"], Aquatic),
    NameRule(["饮料", "饮品"], Drink),
    NameRule(["甜品", "蛋糕"], Dessert)]

  predicate Fires(rule: Rule, path: string) {
    match rule
    case PathRule(segments, _) => MentionsAny(ToLower(path), segments)
    case NameRule(keywords, _) => MentionsAny(path, keywords)
  }

  /** The category of the first rule that fires, or meat_dish when none does. */
  function FirstFiring(rules: seq<Rule>, path: string): Category
    decreases |rules|
  {
    if |rules| == 0 then MeatDish
    else if Fires(rules[0], path) then rules[0].category
    else FirstFiring(rules[1..], path)
  }

  /**
   * The category decision of `parseMarkdown`: its chain of `includes` tests
   * is the walk down `ClassificationRules`.
   */
  function Classify(path: string): Category {
    FirstFiring(ClassificationRules, path)
  }

  /** Rules after one that fires play no part. */
  lemma {:induction false} FirstFiringPrefix(a: seq<Rule>, b: seq<Rule>, path: string)
    ensures (exists k :: 0 <= k < |a| && Fires(a[k], path)) ==> FirstFiring(a + b, path) == FirstFiring(a, path)
    ensures (forall k :: 0 <= k < |a| ==> !Fires(a[k], path)) ==> FirstFiring(a + b, path) == FirstFiring(b, path)
    decreases |a|
  {
    if |a| == 0 {
      assert a + b == b;
    } else {
      assert (a + b)[1..] == a[1..] + b;
      FirstFiringPrefix(a[1..], b, path);
      assert forall k :: 1 <= k < |a| ==> a[1..][k - 1] == a[k];
      if forall k :: 0 <= k < |a| ==> !Fires(a[k], path) {
        assert forall k :: 0 <= k < |a[1..]| ==> !Fires(a[1..][k], path);
      }
    }
  }

  const PathRules: seq<Rule> := ClassificationRules[..6]
  const NameRules: seq<Rule> := ClassificationRules[6..]

  /**
   * The path decides before the name: when a path segment matches, the
   * keywords of the name do not matter, and they are consulted only when no
   * segment matches.
   */
  lemma PathBeforeName(path: string)
    ensures (exists k :: 0 <= k < |PathRules| && Fires(PathRules[k], path)) ==>
              Classify(path) == FirstFiring(PathRules, path)
    ensures (forall k :: 0 <= k < |PathRules| ==> !Fires(PathRules[k], path)) ==>
              Classify(path) == FirstFiring(NameRules, path)
  {
    assert ClassificationRules == PathRules + NameRules;
    FirstFiringPrefix(PathRules, NameRules, path);
  }

  /** With no segment and no keyword, a recipe is a meat dish. */
  lemma {:induction false} NothingFires(rules: seq<Rule>, path: string)
    requires forall k :: 0 <= k < |rules| ==> !Fires(rules[k], path)
    ensures FirstFiring(rules, path) == MeatDish
    decreases |rules|
  {
    if |rules| > 0 {
      assert forall k :: 1 <= k < |rules| ==> rules[1..][k - 1] == rules[k];
      NothingFires(rules[1..], path);
    }
  }

  // ---------------------------------------------------------------- difficulty and time

  /** Difficulty from the ingredient and step counts. */
  function DifficultyFor(ingredients: nat, steps: nat): (r: Difficulty)
    ensures r == Easy <==> ingredients <= 5 && steps <= 5
    ensures r == Hard <==> !(ingredients <= 5 && steps <= 5) && (ingredients >= 10 || steps >= 10)
  {
    if ingredients <= 5 && steps <= 5 then Easy
    else if ingredients >= 10 || steps >= 10 then Hard
    else Medium
  }

  function DifficultyRank(d: Difficulty): nat {
    match d
    case Easy => 0
    case Medium => 1
    case Hard => 2
  }

  /** More ingredients or more steps never make a recipe easier. */
  lemma DifficultyMonotone(i1: nat, s1: nat, i2: nat, s2: nat)
    requires i1 <= i2 && s1 <= s2
    ensures DifficultyRank(DifficultyFor(i1, s1)) <= DifficultyRank(DifficultyFor(i2, s2))
  {
  }

  /** `Math.max(15, steps.length * 5)`. */
  function CookingTime(steps: nat): (r: int)
    ensures r >= 15 && r >= 5 * steps
    ensures r == 15 || r == 5 * steps
  {
    if steps * 5 > 15 then steps * 5 else 15
  }

  // ---------------------------------------------------------------- sections

  const IngredientWords: seq<string> := ["食材", "原料", "材料", "用料", "配料", "必备原料和工具"]
  const QuantityWords: seq<string> := ["计算", "配比", "分量"]
  const StepWords: seq<string> := ["制作", "操作", "做法", "步骤", "方法", "烹饪"]

  /**
   * `findSection`: from the first header matching one of `words` up to (not
   * including) the next `\n##+\s+` found after its first character.
   */
  function FindSection(s: string, words: seq<string>): (r: Option<string>)
    ensures r.Some? <==> FirstHeader(s, words).Some?
    ensures r.Some? ==> r.value == SectionAt(s, FirstHeader(s, words).value)
  {
    match FirstHeader(s, words)
    case None => None
    case Some(i) => Some(SectionAt(s, i))
  }

  /**
   * The section that starts at `i`: a non-empty piece of `s` that stops where
   * the first `\n##+\s+` header after its first character starts, or runs to
   * the end when there is none.
   */
  function SectionAt(s: string, i: nat): (r: string)
    requires i < |s|
    ensures |r| >= 1 && i + |r| <= |s| && r == s[i..i + |r|]
    ensures i + |r| < |s| ==> NextHeaderAt(s[i + 1..], |r| - 1)
    ensures forall j: nat {:trigger NextHeaderAt(s[i + 1..], j)} :: j < |r| - 1 ==> !NextHeaderAt(s[i + 1..], j)
  {
    var after := s[i..];
    assert after[1..] == s[i + 1..];
    match SearchNextHeader(after[1..])
    case None => after
    case Some(j) => assert after[..j + 1] == s[i..i + j + 1]; after[..j + 1]
  }

  // ---------------------------------------------------------------- lines

  /** The lines the ingredient and step passes look at: not blank and not a heading. */
  predicate Kept(line: string) {
    var t := Trim(line);
    |t| > 0 && !StartsWith(t, "#")
  }

  /** The ingredient a line of a section yields, if any. */
  function IngredientOfLine(line: string, namesOnly: bool): (r: Option<Ingredient>)
    ensures r.Some? ==> Kept(line)
    ensures namesOnly ==> (r.Some? <==> Kept(line))
  {
    if !Kept(line) then None
    else
      var cl := StripGroups(StripBullet(Trim(line)));
      match MatchQuantity(cl)
      case Some(q) =>
        var name := Trim(cl[..q.nameEnd]);
        Some(Ingredient(name, Trim(cl[q.amountStart..q.amountEnd]), ParseUnit(Trim(cl[q.unitStart..])),
                        Categorize(name)))
      case None =>
        match MatchRange(cl)
        case Some(g) =>
          var name := Trim(cl[..g.nameEnd]);
          var avg := AverageText(ParseFloat(cl[g.lowStart..g.lowEnd]), ParseFloat(cl[g.highStart..g.highEnd]));
          Some(Ingredient(name, avg, ParseUnit(Trim(cl[g.unitStart..])), Categorize(name)))
        case None =>
          match MatchSentinel(cl)
          case Some(n) =>
            var name := Trim(cl[..n]);
            Some(Ingredient(name, Sentinel, Shiliang, Categorize(name)))
          case None =>
            if namesOnly then Some(Ingredient(cl, Sentinel, Shiliang, Categorize(cl))) else None
  }

  /**
   * The line "辣椒 1-2 个" is taken by the quantity pattern before the range
   * pattern is tried: the amount is the first number and the unit text "-2 个"
   * is not in the unit table.
   */
  lemma RangeLineKeepsFirstNumber()
    ensures IngredientOfLine("辣椒 1-2 个", false) == Some(Ingredient("辣椒", "1", Shiliang, Vegetable))
  {
    var s := "辣椒 1-2 个";
    PlainRangeLine(s);
    QuantityOfRangeLine(s);
    QuantityLine(s, Quantity(2, 3, 4, 4));
    CapturesOfRangeLine(s);
  }

  /** A kept line that trimming, the bullet and the brackets leave alone, taken by the quantity pattern. */
  lemma QuantityLine(line: string, q: Quantity)
    requires Kept(line) && Trim(line) == line && StripBullet(line) == line && StripGroups(line) == line
    requires MatchQuantity(line) == Some(q)
    ensures var name := Trim(line[..q.nameEnd]);
      IngredientOfLine(line, false)
        == Some(Ingredient(name, Trim(line[q.amountStart..q.amountEnd]), ParseUnit(Trim(line[q.unitStart..])), Categorize(name)))
  {
  }

  /** "辣椒 1-2 个" is kept and has no bullet, no brackets and no line terminator. */
  lemma PlainRangeLine(s: string)
    requires s == "辣椒 1-2 个"
    ensures Kept(s) && Trim(s) == s && StripBullet(s) == s && StripGroups(s) == s && LineEnd(s, 0) == |s|
  {
    PlainRangeLineTrimmed(s);
    PlainRangeLineUngrouped(s);
  }

  lemma PlainRangeLineTrimmed(s: string)
    requires s == "辣椒 1-2 个"
    ensures Kept(s) && Trim(s) == s && StripBullet(s) == s
  {
    assert IsTrimmed(s);
    TrimmedIsFixed(s);
    assert !StartsWith(s, "#");
  }

  lemma PlainRangeLineUngrouped(s: string)
    requires s == "辣椒 1-2 个"
    ensures StripGroups(s) == s && LineEnd(s, 0) == |s|
  {
    NoOpenNothingStripped(s, '\U{FF08}', '\U{FF09}');
    NoOpenNothingStripped(s, '(', ')');
    assert NoLineTerminator(s);
    LineEndWithoutTerminator(s, 0);
  }

  /** The three captures of "辣椒 1-2 个", trimmed, read as they are written. */
  lemma CapturesOfRangeLine(s: string)
    requires s == "辣椒 1-2 个"
    ensures Trim(s[..2]) == "辣椒" && Trim(s[3..4]) == "1" && ParseUnit(Trim(s[4..])) == Shiliang
    ensures Categorize("辣椒") == Vegetable
  {
    var name, amount, unit := s[..2], s[3..4], s[4..];
    assert name == "辣椒" && amount == "1" && unit == "-2 个";
    assert IsTrimmed(name) && IsTrimmed(amount);
    TrimmedIsFixed(name);
    TrimmedIsFixed(amount);
    UnknownUnit(unit);
    ChiliIsVegetable();
  }

  /** "-2 个", the rest of the line after the first number, is no unit. */
  lemma UnknownUnit(unit: string)
    requires unit == "-2 个"
    ensures ParseUnit(Trim(unit)) == Shiliang
  {
    assert IsTrimmed(unit);
    TrimmedIsFixed(unit);
    assert forall k :: k in UnitTable && |k| == 4 ==> k[0] != '-';
  }

  /** 辣椒 (chili) names no meat and holds the vegetable keyword 椒. */
  lemma ChiliIsVegetable()
    ensures Categorize("辣椒") == Vegetable
  {
    var name := "辣椒";
    forall k | 0 <= k < |MeatKeywords| ensures !Contains(name, MeatKeywords[k]) {
      NotContainsByFirst(name, MeatKeywords[k]);
    }
    assert VegetableKeywords[3] == "椒";
    assert StartsWithAt(name, 1, "椒");
    ContainsFromAt(name, 1, "椒");
  }

  lemma NoOpenNothingStripped(s: string, open: char, close: char)
    requires open !in s
    ensures StripGroupsFrom(s, 0, open, close) == s
  {
    assert GroupStart(s, 0, open, close).None?;
    assert s[0..] == s;
  }

  /** The quantity pattern's captures on the line "辣椒 1-2 个". */
  lemma QuantityOfRangeLine(s: string)
    requires s == "辣椒 1-2 个" && LineEnd(s, 0) == |s|
    ensures MatchQuantity(s) == Some(Quantity(2, 3, 4, 4))
  {
    assert s[1] == '椒' && s[2] == ' ' && s[3] == '1' && s[4] == '-';
    var ns := LazyLineEnds(s, 0);
    assert ns[0] == 1 && ns[1] == 2;
    assert SpaceRunEnd(s, 1) == 1;
    assert QuantityAfterName(s, 1).None?;
    assert RunEnd(s, 3, IsSpace) == 3;
    assert SpaceRunEnd(s, 2) == 3;
    assert SpaceEnds(s, 2, 1) == [3];
    assert RunEnd(s, 4, IsDigit) == 4;
    assert DigitRunEnd(s, 3) == 4;
    assert NumberEnds(s, 3) == [4];
    assert SpaceRunEnd(s, 4) == 4;
    assert RestOfText(s, 4);
    assert TailFrom(s, 4, 0) == Some(4);
    assert QuantityAfterName(s, 2) == Some(Quantity(2, 3, 4, 4));
    var f := (n: nat) => QuantityAfterName(s, n);
    assert ns[1..][0] == 2;
    assert FirstSome(ns[1..], f) == Some(Quantity(2, 3, 4, 4));
    assert FirstSome(ns, f) == Some(Quantity(2, 3, 4, 4));
  }

  /** What `parseIngredients` collects from `lines`, in order. */
  function IngredientsOf(lines: seq<string>, namesOnly: bool): seq<Ingredient>
    decreases |lines|
  {
    if |lines| == 0 then []
    else
      var last := IngredientOfLine(lines[|lines| - 1], namesOnly);
      IngredientsOf(lines[..|lines| - 1], namesOnly) + (if last.Some? then [last.value] else [])
  }

  /** The number of kept lines. */
  function KeptCount(lines: seq<string>): nat
    decreases |lines|
  {
    if |lines| == 0 then 0 else KeptCount(lines[..|lines| - 1]) + (if Kept(lines[|lines| - 1]) then 1 else 0)
  }

  /** At most one ingredient per kept line, and exactly one when bare names are accepted. */
  lemma {:induction false} IngredientsPerLine(lines: seq<string>, namesOnly: bool)
    ensures |IngredientsOf(lines, namesOnly)| <= KeptCount(lines)
    ensures namesOnly ==> |IngredientsOf(lines, namesOnly)| == KeptCount(lines)
    decreases |lines|
  {
    if |lines| > 0 {
      IngredientsPerLine(lines[..|lines| - 1], namesOnly);
    }
  }

  /** Blank lines and headings contribute nothing. */
  lemma {:induction false} SkippedLinesAddNothing(lines: seq<string>, line: string, namesOnly: bool)
    requires !Kept(line)
    ensures IngredientsOf(lines + [line], namesOnly) == IngredientsOf(lines, namesOnly)
    ensures StepsOf(lines + [line]) == StepsOf(lines)
  {
    assert (lines + [line])[..|lines|] == lines;
  }

  lemma IngredientsOfStep(lines: seq<string>, i: nat, namesOnly: bool)
    requires i < |lines|
    ensures var o := IngredientOfLine(lines[i], namesOnly);
      IngredientsOf(lines[..i + 1], namesOnly) == IngredientsOf(lines[..i], namesOnly) + (if o.Some? then [o.value] else [])
  {
    assert lines[..i + 1][..i] == lines[..i];
  }

  /** `parseIngredients` over the lines of a section. */
  method ParseIngredients(content: string, namesOnly: bool) returns (ingredients: seq<Ingredient>)
    ensures ingredients == IngredientsOf(SplitOn(content, '\n'), namesOnly)
  {
    var lines := SplitOn(content, '\n');
    ingredients := [];
    var i := 0;
    while i < |lines|
      invariant 0 <= i <= |lines|
      invariant ingredients == IngredientsOf(lines[..i], namesOnly)
    {
      var ingredient := IngredientOfLine(lines[i], namesOnly);
      IngredientsOfStep(lines, i, namesOnly);
      if ingredient.Some? {
        ingredients := ingredients + [ingredient.value];
      }
      i := i + 1;
    }
    assert lines[..|lines|] == lines;
  }

  /** The step a kept line yields: its text after a step marker, or the whole trimmed line. */
  function StepOfLine(line: string): (r: Option<string>)
    ensures r.Some? <==> Kept(line)
  {
    if !Kept(line) then None
    else
      var t := Trim(line);
      match StepMarker(t)
      case Some(k) => Some(Trim(t[k..]))
      case None => Some(t)
  }

  function StepsOf(lines: seq<string>): seq<string>
    decreases |lines|
  {
    if |lines| == 0 then []
    else
      var last := StepOfLine(lines[|lines| - 1]);
      StepsOf(lines[..|lines| - 1]) + (if last.Some? then [last.value] else [])
  }

  /** Exactly one step per kept line. */
  lemma {:induction false} StepsPerLine(lines: seq<string>)
    ensures |StepsOf(lines)| == KeptCount(lines)
    decreases |lines|
  {
    if |lines| > 0 {
      StepsPerLine(lines[..|lines| - 1]);
    }
  }

  /** A trimmed text whose last character is not white space does not trim to nothing. */
  lemma TrimKeepsContent(s: string)
    requires |s| > 0 && !IsSpace(s[|s| - 1])
    ensures |Trim(s)| > 0
  {
    var r := Trim(s);
    var i, j :| 0 <= i <= j <= |s| && r == s[i..j]
                && (forall k :: 0 <= k < i ==> IsSpace(s[k]))
                && (forall k :: j <= k < |s| ==> IsSpace(s[k]));
    assert j == |s|;
  }

  /** Every step is a non-empty trimmed text. */
  lemma StepIsContent(line: string)
    requires Kept(line)
    ensures var st := StepOfLine(line).value; |st| > 0 && IsTrimmed(st)
  {
    var t := Trim(line);
    match StepMarker(t)
    case Some(k) =>
      assert t[k..][|t[k..]| - 1] == t[|t| - 1];
      TrimKeepsContent(t[k..]);
    case None =>
  }

  /** `parseSteps` over the lines of a section. */
  method ParseSteps(content: string) returns (steps: seq<string>)
    ensures steps == StepsOf(SplitOn(content, '\n'))
  {
    var lines := SplitOn(content, '\n');
    steps := [];
    var i := 0;
    while i < |lines|
      invariant 0 <= i <= |lines|
      invariant steps == StepsOf(lines[..i])
    {
      assert lines[..i + 1][..i] == lines[..i];
      var step := StepOfLine(lines[i]);
      if step.Some? {
        steps := steps + [step.value];
      }
      i := i + 1;
    }
    assert lines[..|lines|] == lines;
  }

  // ---------------------------------------------------------------- merging names and quantities

  /** The `Map` of `mergeIngredientQuantities`: its keys in insertion order and its entries. */
  datatype Table = Table(keys: seq<string>, entries: map<string, Ingredient>)

  /** The keys are distinct, are exactly the entries' keys, and each entry carries its key as name. */
  ghost predicate TableValid(t: Table) {
    Distinct(t.keys)
    && (forall k :: k in t.entries <==> k in t.keys)
    && (forall k :: k in t.entries ==> t.entries[k].name == k)
  }

  const EmptyTable: Table := Table([], map[])

  /** `map.set(i.name, i)`: a new key goes to the end, an old key keeps its place. */
  function Put(t: Table, i: Ingredient): Table {
    Table(if i.name in t.entries then t.keys else t.keys + [i.name], t.entries[i.name := i])
  }

  /** The quantity fields that a later quantity writes over an entry. */
  function Overwrite(i: Ingredient, q: Ingredient): Ingredient {
    i.(amount := q.amount, unit := q.unit)
  }

  /**
   * One quantity: an existing entry takes its amount and unit (its category is
   * a non-empty string, so `existing.category || q.category` keeps it); a new
   * name is stored as it is.
   */
  function Assign(t: Table, q: Ingredient): Table {
    if q.name in t.entries then Table(t.keys, t.entries[q.name := Overwrite(t.entries[q.name], q)])
    else Table(t.keys + [q.name], t.entries[q.name := q])
  }

  function PutAll(t: Table, xs: seq<Ingredient>): (r: Table)
    requires TableValid(t)
    ensures TableValid(r)
    decreases |xs|
  {
    if |xs| == 0 then t
    else
      var u := PutAll(t, xs[..|xs| - 1]);
      var r := Put(u, xs[|xs| - 1]);
      assert Distinct(r.keys);
      r
  }

  function AssignAll(t: Table, qs: seq<Ingredient>): (r: Table)
    requires TableValid(t)
    ensures TableValid(r)
    decreases |qs|
  {
    if |qs| == 0 then t
    else
      var u := AssignAll(t, qs[..|qs| - 1]);
      var r := Assign(u, qs[|qs| - 1]);
      assert Distinct(r.keys);
      r
  }

  /** `Array.from(map.values())`. */
  function Values(t: Table): (r: seq<Ingredient>)
    requires TableValid(t)
    ensures |r| == |t.keys| && forall p :: 0 <= p < |r| ==> r[p] == t.entries[t.keys[p]]
  {
    seq(|t.keys|, p requires 0 <= p < |t.keys| => t.entries[t.keys[p]])
  }

  /** `mergeIngredientQuantities`. */
  function Merged(names: seq<Ingredient>, quantities: seq<Ingredient>): seq<Ingredient> {
    if |quantities| == 0 then names else Values(AssignAll(PutAll(EmptyTable, names), quantities))
  }

  /** `mergeIngredientQuantities`, filling the map entry by entry. */
  method MergeIngredientQuantities(names: seq<Ingredient>, quantities: seq<Ingredient>) returns (r: seq<Ingredient>)
    ensures r == Merged(names, quantities)
  {
    if |quantities| == 0 {
      return names;
    }
    var keys: seq<string> := [];
    var entries: map<string, Ingredient> := map[];
    for i := 0 to |names|
      invariant Table(keys, entries) == PutAll(EmptyTable, names[..i])
    {
      assert names[..i + 1][..i] == names[..i];
      var item := names[i];
      if item.name !in entries {
        keys := keys + [item.name];
      }
      entries := entries[item.name := item];
    }
    assert names[..|names|] == names;
    for i := 0 to |quantities|
      invariant TableValid(PutAll(EmptyTable, names))
      invariant Table(keys, entries) == AssignAll(PutAll(EmptyTable, names), quantities[..i])
    {
      assert quantities[..i + 1][..i] == quantities[..i];
      var q := quantities[i];
      if q.name in entries {
        var existing := entries[q.name];
        entries := entries[q.name := existing.(amount := q.amount, unit := q.unit)];
      } else {
        keys := keys + [q.name];
        entries := entries[q.name := q];
      }
    }
    assert quantities[..|quantities|] == quantities;
    r := Values(Table(keys, entries));
  }

  // The reference description of the merge: first-seen order of names, and
  // for each name the entry it ends up with.

  function NamesOf(xs: seq<Ingredient>): (r: seq<string>)
    ensures |r| == |xs| && forall k :: 0 <= k < |xs| ==> r[k] == xs[k].name
  {
    seq(|xs|, k requires 0 <= k < |xs| => xs[k].name)
  }

  /** The last ingredient of `xs` named `k`. */
  function LastWith(xs: seq<Ingredient>, k: string): (r: Option<Ingredient>)
    ensures r.Some? ==> r.value in xs && r.value.name == k
    ensures r.None? <==> forall j :: 0 <= j < |xs| ==> xs[j].name != k
    decreases |xs|
  {
    if |xs| == 0 then None
    else if xs[|xs| - 1].name == k then Some(xs[|xs| - 1])
    else LastWith(xs[..|xs| - 1], k)
  }

  /** The first ingredient of `xs` named `k`. */
  function FirstWith(xs: seq<Ingredient>, k: string): (r: Option<Ingredient>)
    ensures r.Some? ==> r.value in xs && r.value.name == k
    ensures r.None? <==> forall j :: 0 <= j < |xs| ==> xs[j].name != k
    decreases |xs|
  {
    if |xs| == 0 then None
    else
      var f := FirstWith(xs[..|xs| - 1], k);
      if f.Some? then f else if xs[|xs| - 1].name == k then Some(xs[|xs| - 1]) else None
  }

  function Lookup(m: map<string, Ingredient>, k: string): Option<Ingredient> {
    if k in m then Some(m[k]) else None
  }

  lemma {:induction false} PutAllShape(t: Table, xs: seq<Ingredient>, k: string)
    requires TableValid(t)
    ensures PutAll(t, xs).keys == AppendNew(t.keys, NamesOf(xs))
    ensures Lookup(PutAll(t, xs).entries, k) == if LastWith(xs, k).Some? then LastWith(xs, k) else Lookup(t.entries, k)
  {
    PutAllKeys(t, xs);
    PutAllLookup(t, xs, k);
  }

  lemma {:induction false} PutAllKeys(t: Table, xs: seq<Ingredient>)
    requires TableValid(t)
    ensures PutAll(t, xs).keys == AppendNew(t.keys, NamesOf(xs))
    decreases |xs|
  {
    if |xs| > 0 {
      var init := xs[..|xs| - 1];
      PutAllKeys(t, init);
      assert NamesOf(xs)[..|xs| - 1] == NamesOf(init);
    }
  }

  lemma {:induction false} PutAllLookup(t: Table, xs: seq<Ingredient>, k: string)
    requires TableValid(t)
    ensures Lookup(PutAll(t, xs).entries, k) == if LastWith(xs, k).Some? then LastWith(xs, k) else Lookup(t.entries, k)
    decreases |xs|
  {
    if |xs| > 0 {
      PutAllLookup(t, xs[..|xs| - 1], k);
    }
  }

  lemma AssignAllShape(t: Table, qs: seq<Ingredient>, k: string)
    requires TableValid(t)
    ensures AssignAll(t, qs).keys == AppendNew(t.keys, NamesOf(qs))
    ensures Lookup(AssignAll(t, qs).entries, k) ==
      match LastWith(qs, k)
      case None => Lookup(t.entries, k)
      case Some(q) => Some(Overwrite(if k in t.entries then t.entries[k] else FirstWith(qs, k).value, q))
  {
    AssignAllKeys(t, qs);
    AssignAllLookup(t, qs, k);
  }

  lemma {:induction false} AssignAllKeys(t: Table, qs: seq<Ingredient>)
    requires TableValid(t)
    ensures AssignAll(t, qs).keys == AppendNew(t.keys, NamesOf(qs))
    decreases |qs|
  {
    if |qs| > 0 {
      var init := qs[..|qs| - 1];
      AssignAllKeys(t, init);
      assert NamesOf(qs)[..|qs| - 1] == NamesOf(init);
    }
  }

  lemma {:induction false} AssignAllLookup(t: Table, qs: seq<Ingredient>, k: string)
    requires TableValid(t)
    ensures Lookup(AssignAll(t, qs).entries, k) ==
      match LastWith(qs, k)
      case None => Lookup(t.entries, k)
      case Some(q) => Some(Overwrite(if k in t.entries then t.entries[k] else FirstWith(qs, k).value, q))
    decreases |qs|
  {
    if |qs| > 0 {
      AssignAllLookup(t, qs[..|qs| - 1], k);
    }
  }

  /**
   * The entry a name ends up with: the last name entry for it (or, for a name
   * only the quantities have, the first quantity), with the amount and unit of
   * the last quantity for it when there is one.
   */
  function Expected(names: seq<Ingredient>, quantities: seq<Ingredient>, k: string): Ingredient
    requires LastWith(names, k).Some? || FirstWith(quantities, k).Some?
  {
    var base := if LastWith(names, k).Some? then LastWith(names, k).value else FirstWith(quantities, k).value;
    match LastWith(quantities, k)
    case None => base
    case Some(q) => Overwrite(base, q)
  }

  /**
   * With quantities present, the merge lists each name once, the names of the
   * names section first in first-seen order and then the new names of the
   * quantities section in first-seen order, each with its expected entry.
   */
  lemma MergedContents(names: seq<Ingredient>, quantities: seq<Ingredient>)
    requires |quantities| > 0
    ensures var keys := AppendNew(AppendNew([], NamesOf(names)), NamesOf(quantities));
      var r := Merged(names, quantities);
      |r| == |keys| && Distinct(keys)
      && forall p :: 0 <= p < |r| ==>
           (r[p].name == keys[p]
            && (LastWith(names, keys[p]).Some? || FirstWith(quantities, keys[p]).Some?)
            && r[p] == Expected(names, quantities, keys[p]))
  {
    var t := PutAll(EmptyTable, names);
    var u := AssignAll(t, quantities);
    PutAllShape(EmptyTable, names, "");
    AssignAllShape(t, quantities, "");
    forall p | 0 <= p < |u.keys|
      ensures Values(u)[p].name == u.keys[p]
      ensures LastWith(names, u.keys[p]).Some? || FirstWith(quantities, u.keys[p]).Some?
      ensures Values(u)[p] == Expected(names, quantities, u.keys[p])
    {
      var k := u.keys[p];
      PutAllShape(EmptyTable, names, k);
      AssignAllShape(t, quantities, k);
    }
  }

  /** The merge is empty only when there was nothing to merge, so the fallback re-parse changes nothing. */
  lemma MergedEmpty(names: seq<Ingredient>, quantities: seq<Ingredient>)
    requires |Merged(names, quantities)| == 0
    ensures |names| == 0
  {
    if |quantities| > 0 {
      var t := PutAll(EmptyTable, names);
      AssignAllShape(t, quantities, "");
      AppendNewGrows(t.keys, NamesOf(quantities));
    }
  }

  lemma {:induction false} AppendNewGrows(acc: seq<string>, xs: seq<string>)
    requires |xs| > 0
    ensures |AppendNew(acc, xs)| > 0
    decreases |xs|
  {
    if |xs| > 1 {
      AppendNewGrows(acc, xs[..|xs| - 1]);
    }
  }

  // ---------------------------------------------------------------- images

  /** The first image reference starting at or after `p`. */
  function NextImage(s: string, p: nat): (r: Option<nat>)
    ensures r.Some? ==> p <= r.value < |s| && ImageAt(s, r.value).Some?
    ensures r.Some? ==> forall k :: p <= k < r.value ==> ImageAt(s, k).None?
    ensures r.None? ==> forall k :: p <= k < |s| ==> ImageAt(s, k).None?
    decreases |s| - p
  {
    if p >= |s| then None
    else if ImageAt(s, p).Some? then Some(p)
    else NextImage(s, p + 1)
  }

  /** `match.match(/!\[.*?\]\((.+?)\)/)`, then `urlMatch ? urlMatch[1] : ''`. */
  function Recapture(text: string): string {
    match NextImage(text, 0)
    case None => ""
    case Some(i) =>
      var m := ImageAt(text, i).value;
      text[m.target..m.close]
  }

  /** The target captured again from the text of the image reference at `i`. */
  function UrlAt(s: string, i: nat): string
    requires ImageAt(s, i).Some?
  {
    Recapture(s[i..ImageAt(s, i).value.close + 1])
  }

  /**
   * `content.match(/!\[.*?\]\((.+?)\)/g)` from `p`, each match matched again
   * for its target, with the empty targets filtered out.
   */
  function ImagesFrom(s: string, p: nat): (r: seq<string>)
    requires p <= |s|
    ensures forall u <- r :: u != ""
    decreases |s| - p
  {
    match NextImage(s, p)
    case None => []
    case Some(i) =>
      var url := UrlAt(s, i);
      var rest := ImagesFrom(s, AfterImage(s, i));
      if url == "" then rest else [url] + rest
  }

  /** Where the global search resumes after the image reference at `i`. */
  function AfterImage(s: string, i: nat): (r: nat)
    requires ImageAt(s, i).Some?
    ensures i < r <= |s|
  {
    ImageAt(s, i).value.close + 1
  }

  function ImagesOf(content: string): seq<string> {
    ImagesFrom(content, 0)
  }

  /**
   * Matching a reference again on its own text captures what the global search
   * captured, and that target is never empty, so `.filter(Boolean)` drops nothing.
   */
  lemma UrlAtIsTarget(s: string, i: nat, m: ImageRef)
    requires ImageAt(s, i) == Some(m)
    ensures UrlAt(s, i) == s[m.target..m.close]
    ensures |UrlAt(s, i)| > 0
  {
    UrlAtUnfolds(s, i, m);
    RecaptureWindow(s, i, m);
  }

  /** The text of the reference at `i`, matched again, captures the same target. */
  lemma RecaptureWindow(s: string, i: nat, m: ImageRef)
    requires ImageAt(s, i) == Some(m)
    ensures Recapture(s[i..m.close + 1]) == s[m.target..m.close]
  {
    ImageWindow(s, i, m);
    RecaptureAtStart(s[i..m.close + 1], ImageRef(m.target - i, m.close - i));
    SliceOfSlice(s, i, m.close + 1, m.target, m.close);
  }

  lemma UrlAtUnfolds(s: string, i: nat, m: ImageRef)
    requires ImageAt(s, i) == Some(m)
    ensures UrlAt(s, i) == Recapture(s[i..m.close + 1])
  {
    assert ImageAt(s, i).value.close == m.close;
    var t := s[i..m.close + 1];
    assert s[i..ImageAt(s, i).value.close + 1] == t;
  }

  /** A text that starts with an image reference captures that reference's target. */
  lemma RecaptureAtStart(t: string, r: ImageRef)
    requires ImageAt(t, 0) == Some(r)
    ensures Recapture(t) == t[r.target..r.close]
  {
    assert NextImage(t, 0) == Some(0);
  }

  lemma SliceOfSlice(s: string, i: nat, e: nat, a: nat, b: nat)
    requires i <= a <= b <= e <= |s|
    ensures s[i..e][a - i..b - i] == s[a..b]
  {
    var t := s[i..e][a - i..b - i];
    assert |t| == b - a;
    assert forall k :: 0 <= k < b - a ==> t[k] == s[i..e][a - i + k] == s[a + k];
  }

  /** One match of the global image search: where it starts and what it captures. */
  datatype ImageMatch = ImageMatch(at: nat, ref: ImageRef)

  /**
   * The matches `/!\[.*?\]\((.+?)\)/g` finds from `p` on: the first image
   * reference at or after `p`, then each next one from where the previous ended.
   */
  function ImageMatches(s: string, p: nat): seq<ImageMatch>
    requires p <= |s|
    decreases |s| - p
  {
    match NextImage(s, p)
    case None => []
    case Some(i) => [ImageMatch(i, ImageAt(s, i).value)] + ImageMatches(s, AfterImage(s, i))
  }

  /**
   * Each match is an image reference at or after `p`, the first one is the
   * first reference at or after `p`, and there is none only when there is no reference.
   */
  lemma {:induction false} ImageMatchesAreMatches(s: string, p: nat)
    requires p <= |s|
    ensures var ms := ImageMatches(s, p);
      && (forall k :: 0 <= k < |ms| ==> p <= ms[k].at < |s| && ImageAt(s, ms[k].at) == Some(ms[k].ref))
      && (|ms| == 0 <==> NextImage(s, p).None?)
      && (|ms| > 0 ==> NextImage(s, p) == Some(ms[0].at))
    decreases |s| - p
  {
    match NextImage(s, p)
    case None =>
    case Some(i) =>
      ImageMatchesAreMatches(s, AfterImage(s, i));
  }

  /** The matches come in document order: each starts after the one before it has closed. */
  lemma {:induction false} ImageMatchesOrdered(s: string, p: nat)
    requires p <= |s|
    ensures var ms := ImageMatches(s, p); forall k :: 0 < k < |ms| ==> ms[k - 1].ref.close < ms[k].at
    decreases |s| - p
  {
    match NextImage(s, p)
    case None =>
    case Some(i) =>
      var m := ImageAt(s, i).value;
      var q := AfterImage(s, i);
      ImageMatchesOrdered(s, q);
      ImageMatchesAreMatches(s, q);
      var ms := ImageMatches(s, p);
      var rest := ImageMatches(s, q);
      assert ms == [ImageMatch(i, m)] + rest;
      forall k | 0 < k < |ms|
        ensures ms[k - 1].ref.close < ms[k].at
      {
        if k == 1 {
          assert ms[1] == rest[0];
        } else {
          assert ms[k - 1] == rest[k - 2] && ms[k] == rest[k - 1];
        }
      }
  }

  /** `us` are the targets of the matches `ms`, one for one. */
  predicate AreTargets(s: string, us: seq<string>, ms: seq<ImageMatch>) {
    |us| == |ms| && forall k :: 0 <= k < |ms| ==> ms[k].ref.target <= ms[k].ref.close <= |s| && us[k] == s[ms[k].ref.target..ms[k].ref.close]
  }

  lemma AreTargetsCons(s: string, u: string, x: ImageMatch, us: seq<string>, ms: seq<ImageMatch>)
    requires x.ref.target <= x.ref.close <= |s| && u == s[x.ref.target..x.ref.close] && AreTargets(s, us, ms)
    ensures AreTargets(s, [u] + us, [x] + ms)
  {
    assert forall k :: 1 <= k <= |ms| ==> ([u] + us)[k] == us[k - 1] && ([x] + ms)[k] == ms[k - 1];
  }

  /** The images are the targets of the successive matches, in document order, none dropped. */
  lemma {:induction false} ImagesAreTargets(s: string, p: nat)
    requires p <= |s|
    ensures AreTargets(s, ImagesFrom(s, p), ImageMatches(s, p))
    decreases |s| - p
  {
    match NextImage(s, p)
    case None =>
    case Some(i) =>
      var m := ImageAt(s, i).value;
      UrlAtIsTarget(s, i, m);
      ImagesAreTargets(s, AfterImage(s, i));
      AreTargetsCons(s, UrlAt(s, i), ImageMatch(i, m), ImagesFrom(s, AfterImage(s, i)), ImageMatches(s, AfterImage(s, i)));
  }

  // ---------------------------------------------------------------- the whole document

  /** `filePathOrName.split('/').pop() || filePathOrName`. */
  function FileNameOf(path: string): string {
    var parts := SplitOn(path, '/');
    var last := parts[|parts| - 1];
    if last == "" then path else last
  }

  /** `.replace(/\.md$/, '').replace(/[-_]/g, ' ')`. */
  function FileTitle(fileName: string): (r: string)
    ensures forall k :: 0 <= k < |r| ==> r[k] != '-' && r[k] != '_'
  {
    var f := if EndsWith(fileName, ".md") then fileName[..|fileName| - 3] else fileName;
    seq(|f|, k requires 0 <= k < |f| => if f[k] == '-' || f[k] == '_' then ' ' else f[k])
  }

  /** The recipe name: the first `# ` title line, else the file name, cleaned by `sanitizeTitle`. */
  function NameOf(content: string, path: string): string {
    match FirstLineCapture(content, '#', 1)
    case Some(title) => SanitizeTitle(Trim(title))
    case None => SanitizeTitle(FileTitle(FileNameOf(path)))
  }

  /** The description: the first `>` line, trimmed, or "" when there is none. */
  function DescriptionOf(content: string): string {
    match FirstLineCapture(content, '>', 0)
    case Some(line) => Trim(line)
    case None => ""
  }

  /** Trimming a line keeps it free of line terminators. */
  lemma TrimmedLine(line: string, t: string)
    requires NoLineTerminator(line) && t == Trim(line)
    ensures NoLineTerminator(t)
  {
    var i, j :| 0 <= i <= j <= |line| && t == line[i..j];
    assert forall k :: 0 <= k < |t| ==> t[k] == line[i + k];
  }

  /** A name taken from a title line carries none of the "how to make" suffixes. */
  lemma TitleNameHasNoMarkers(content: string, path: string)
    requires FirstLineCapture(content, '#', 1).Some?
    ensures !Contains(NameOf(content, path), "做法")
    ensures !Contains(NameOf(content, path), "制作方法")
    ensures !Contains(NameOf(content, path), "制作步骤")
  {
    var title := FirstLineCapture(content, '#', 1).value;
    TrimmedLine(title, Trim(title));
    SanitizeTitleDropsMarkers(Trim(title));
  }

  function SectionLines(content: string, words: seq<string>): Option<seq<string>> {
    match FindSection(content, words)
    case None => None
    case Some(section) => Some(SplitOn(section, '\n'))
  }

  /** The ingredients of a document: the names section merged with the quantities section. */
  function IngredientsFor(content: string): seq<Ingredient> {
    var names := match SectionLines(content, IngredientWords)
      case None => [] case Some(lines) => IngredientsOf(lines, true);
    var quantities := match SectionLines(content, QuantityWords)
      case None => [] case Some(lines) => IngredientsOf(lines, false);
    Merged(names, quantities)
  }

  function StepsFor(content: string): seq<string> {
    match SectionLines(content, StepWords)
    case None => []
    case Some(lines) => StepsOf(lines)
  }

  /** The name step of `parseMarkdown`: the title line, else the file name. */
  method ParseName(content: string, path: string) returns (name: string)
    ensures name == NameOf(content, path)
  {
    var titleMatch := FirstLineCapture(content, '#', 1);
    if titleMatch.Some? {
      name := SanitizeTitle(Trim(titleMatch.value));
    } else {
      name := SanitizeTitle(FileTitle(FileNameOf(path)));
    }
  }

  /** The description step of `parseMarkdown`. */
  method ParseDescription(content: string) returns (description: string)
    ensures description == DescriptionOf(content)
  {
    description := "";
    var descMatch := FirstLineCapture(content, '>', 0);
    if descMatch.Some? {
      description := Trim(descMatch.value);
    }
  }

  /**
   * The ingredient step of `parseMarkdown`: both sections parsed and merged; the
   * re-parse of the names section when the merge comes back empty.
   */
  method ParseAllIngredients(content: string) returns (ingredients: seq<Ingredient>)
    ensures ingredients == IngredientsFor(content)
  {
    var ingredientSection := FindSection(content, IngredientWords);
    var quantitySection := FindSection(content, QuantityWords);
    var fromNames: seq<Ingredient> := [];
    if ingredientSection.Some? {
      fromNames := ParseIngredients(ingredientSection.value, true);
    }
    var fromQuantities: seq<Ingredient> := [];
    if quantitySection.Some? {
      fromQuantities := ParseIngredients(quantitySection.value, false);
    }
    ingredients := MergeIngredientQuantities(fromNames, fromQuantities);
    if |ingredients| == 0 && ingredientSection.Some? {
      MergedEmpty(fromNames, fromQuantities);
      ingredients := ParseIngredients(ingredientSection.value, true);
    }
  }

  /** The step step of `parseMarkdown`. */
  method ParseAllSteps(content: string) returns (steps: seq<string>)
    ensures steps == StepsFor(content)
  {
    steps := [];
    var stepsSection := FindSection(content, StepWords);
    if stepsSection.Some? {
      steps := ParseSteps(stepsSection.value);
    }
  }

  /** `parseMarkdown`: the recipe of a document, its fields filled in one after another. */
  method ParseMarkdown(content: string, path: string) returns (r: Recipe)
    ensures r.name == NameOf(content, path) && r.id == GenerateId(r.name)
    ensures r.description == DescriptionOf(content)
    ensures r.ingredients == IngredientsFor(content)
    ensures r.steps == StepsFor(content)
    ensures r.images == ImagesOf(content)
    ensures r.category == Classify(path)
    ensures r.difficulty == DifficultyFor(|r.ingredients|, |r.steps|)
    ensures r.cookingTime == CookingTime(|r.steps|) && r.servings == 2
  {
    var difficulty := Medium;
    var name := ParseName(content, path);
    var description := ParseDescription(content);
    var ingredients := ParseAllIngredients(content);
    var steps := ParseAllSteps(content);
    var images := ImagesOf(content);
    var category := Classify(path);
    if |ingredients| <= 5 && |steps| <= 5 {
      difficulty := Easy;
    } else if |ingredients| >= 10 || |steps| >= 10 {
      difficulty := Hard;
    }
    var cookingTime := if |steps| * 5 > 15 then |steps| * 5 else 15;
    r := Recipe(GenerateId(name), name, category, difficulty, cookingTime, 2,
                ingredients, steps, images, description);
  }
}
