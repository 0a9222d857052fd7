/**
 * `MenuRecommender`: the dishes of a menu for a number of people, chosen
 * from a corpus of recipes by preference filtering, a Fisher–Yates shuffle,
 * one dish per main category and a fill-up to a target count; and the
 * shopping list of a menu.
 *
 * A dish is identified by its position in the corpus, standing for the
 * object identity that `menu.includes(recipe)` compares. `Math.random()` is
 * the stream `rand`, read from position `seed` on; every method that draws
 * returns the position after its last draw, except `ChooseOfCategory`,
 * which draws at most once at the position it is given and leaves the
 * advance to its caller.
 */
module Recommendation {
  import opened Wrappers
  import opened Seqs
  import opened Types
  import opened Shopping

  // ---------------------------------------------------------------- randomness

  /** A value of `Math.random()`. */
  type Draw = x: real | 0.0 <= x < 1.0

  /** `Math.floor(Math.random() * n)`: an index below `n`. */
  function Pick(x: Draw, n: nat): (r: nat)
    requires n > 0
    ensures r < n
  {
    assert x * (n as real) < n as real;
    (x * (n as real)).Floor
  }

  function Swap<T>(s: seq<T>, i: nat, j: nat): (r: seq<T>)
    requires i < |s| && j < |s|
    ensures |r| == |s|
  {
    s[i := s[j]][j := s[i]]
  }

  lemma SwapPermutes<T>(s: seq<T>, i: nat, j: nat)
    requires i < |s| && j < |s|
    ensures multiset(Swap(s, i, j)) == multiset(s)
  {
  }

  /** The swaps of Fisher–Yates for positions `i` down to 1, each with index `Pick(rand(seed), i + 1)`. */
  function ShuffleDown<T>(s: seq<T>, i: nat, rand: nat -> Draw, seed: nat): (r: seq<T>)
    requires i < |s|
    ensures |r| == |s|
    decreases i
  {
    if i == 0 then s else ShuffleDown(Swap(s, i, Pick(rand(seed), i + 1)), i - 1, rand, seed + 1)
  }

  /** The Fisher–Yates shuffle of `s`: swaps for the positions from the last down to 1. */
  function Shuffled<T>(s: seq<T>, rand: nat -> Draw, seed: nat): seq<T> {
    if |s| == 0 then s else ShuffleDown(s, |s| - 1, rand, seed)
  }

  /** The numbers the shuffle draws from `rand`: one per swap. */
  function Draws(n: nat): nat {
    if n == 0 then 0 else n - 1
  }

  lemma {:induction false} ShuffleDownPermutes<T>(s: seq<T>, i: nat, rand: nat -> Draw, seed: nat)
    requires i < |s|
    ensures multiset(ShuffleDown(s, i, rand, seed)) == multiset(s)
    decreases i
  {
    if i > 0 {
      var j := Pick(rand(seed), i + 1);
      SwapPermutes(s, i, j);
      ShuffleDownPermutes(Swap(s, i, j), i - 1, rand, seed + 1);
    }
  }

  /** The shuffle only rearranges: same length, same elements, same multiplicities. */
  lemma ShuffledPermutes<T>(s: seq<T>, rand: nat -> Draw, seed: nat)
    ensures |Shuffled(s, rand, seed)| == |s|
    ensures multiset(Shuffled(s, rand, seed)) == multiset(s)
  {
    if |s| > 0 {
      ShuffleDownPermutes(s, |s| - 1, rand, seed);
    }
  }

  /**
   * The in-place Fisher–Yates loop `for (i = a.length - 1; i > 0; i--)` swapping
   * `a[i]` with `a[Math.floor(Math.random() * (i + 1))]`.
   */
  method Shuffle<T>(a: array<T>, rand: nat -> Draw, seed: nat) returns (next: nat)
    modifies a
    ensures a[..] == Shuffled(old(a[..]), rand, seed)
    ensures next == seed + Draws(a.Length)
  {
    next := seed;
    if a.Length == 0 {
      return;
    }
    var i := a.Length - 1;
    while i > 0
      invariant 0 <= i < a.Length
      invariant next == seed + (a.Length - 1 - i)
      invariant ShuffleDown(a[..], i, rand, next) == Shuffled(old(a[..]), rand, seed)
      decreases i
    {
      var j := Pick(rand(next), i + 1);
      ghost var before := a[..];
      a[i], a[j] := a[j], a[i];
      assert a[..] == Swap(before, i, j);
      next := next + 1;
      i := i - 1;
    }
  }

  // ---------------------------------------------------------------- preferences

  datatype PreferenceType = Include | Exclude

  /**
   * A `Preference`: an include or exclude clause on the category and the
   * difficulty, and a bound on the cooking time; absent fields are `None`.
   */
  datatype Preference = Preference(
    kind: PreferenceType,
    category: Option<Category>,
    difficulty: Option<Difficulty>,
    maxCookingTime: Option<int>)

  /** `if (preference.maxCookingTime)`: a bound of 0 is falsy and counts as absent. */
  predicate HasTimeBound(p: Preference) {
    p.maxCookingTime.Some? && p.maxCookingTime.value != 0
  }

  /** What one preference asks of one recipe. */
  predicate Admits(p: Preference, r: Recipe) {
    (p.category.Some? ==> (r.category == p.category.value <==> p.kind == Include))
    && (p.difficulty.Some? ==> (r.difficulty == p.difficulty.value <==> p.kind == Include))
    && (HasTimeBound(p) ==> r.cookingTime <= p.maxCookingTime.value)
  }

  function CategoryTest(corpus: seq<Recipe>, p: Preference): nat -> bool
    requires p.category.Some?
  {
    (x: nat) => x < |corpus| &&
      (if p.kind == Include then corpus[x].category == p.category.value else corpus[x].category != p.category.value)
  }

  function DifficultyTest(corpus: seq<Recipe>, p: Preference): nat -> bool
    requires p.difficulty.Some?
  {
    (x: nat) => x < |corpus| &&
      (if p.kind == Include then corpus[x].difficulty == p.difficulty.value else corpus[x].difficulty != p.difficulty.value)
  }

  function TimeTest(corpus: seq<Recipe>, p: Preference): nat -> bool
    requires p.maxCookingTime.Some?
  {
    (x: nat) => x < |corpus| && corpus[x].cookingTime <= p.maxCookingTime.value
  }

  /** The three filters one preference applies, in the order of the source. */
  function ApplyPreference(corpus: seq<Recipe>, xs: seq<nat>, p: Preference): seq<nat> {
    var a := if p.category.Some? then Filter(xs, CategoryTest(corpus, p)) else xs;
    var b := if p.difficulty.Some? then Filter(a, DifficultyTest(corpus, p)) else a;
    if HasTimeBound(p) then Filter(b, TimeTest(corpus, p)) else b
  }

  /** `[0, 1, ..., n - 1]`: the whole corpus, `[...this.recipes]`. */
  function Indices(n: nat): (r: seq<nat>)
    ensures |r| == n && forall k :: 0 <= k < n ==> r[k] == k
  {
    seq(n, k requires 0 <= k < n => k)
  }

  /** The dishes left after the preferences, one preference after another. */
  function Selected(corpus: seq<Recipe>, prefs: seq<Preference>): seq<nat>
    decreases |prefs|
  {
    if |prefs| == 0 then Indices(|corpus|)
    else ApplyPreference(corpus, Selected(corpus, prefs[..|prefs| - 1]), prefs[|prefs| - 1])
  }

  predicate Increasing(xs: seq<nat>) {
    forall a, b :: 0 <= a < b < |xs| ==> xs[a] < xs[b]
  }

  lemma {:induction false} FilterIncreasing(s: seq<nat>, f: nat -> bool)
    requires Increasing(s)
    ensures Increasing(Filter(s, f))
  {
    if |s| > 0 {
      FilterIncreasing(s[1..], f);
      FilterMembers(s[1..], f);
      var r := Filter(s, f);
      forall k | 0 <= k < |Filter(s[1..], f)|
        ensures s[0] < Filter(s[1..], f)[k]
      {
        var x := Filter(s[1..], f)[k];
        assert x in s[1..];
      }
    }
  }

  lemma ApplyPreferenceMeaning(corpus: seq<Recipe>, xs: seq<nat>, p: Preference)
    requires Increasing(xs) && forall k :: 0 <= k < |xs| ==> xs[k] < |corpus|
    ensures Increasing(ApplyPreference(corpus, xs, p))
    ensures forall x: nat :: x in ApplyPreference(corpus, xs, p) <==> x in xs && x < |corpus| && Admits(p, corpus[x])
  {
    var a := if p.category.Some? then Filter(xs, CategoryTest(corpus, p)) else xs;
    var b := if p.difficulty.Some? then Filter(a, DifficultyTest(corpus, p)) else a;
    var r := if HasTimeBound(p) then Filter(b, TimeTest(corpus, p)) else b;
    assert ApplyPreference(corpus, xs, p) == r;
    CategoryStage(corpus, xs, p);
    DifficultyStage(corpus, a, p);
    TimeStage(corpus, b, p);
    forall x: nat
      ensures x in r <==> x in xs && x < |corpus| && Admits(p, corpus[x])
    {
    }
  }

  lemma CategoryStage(corpus: seq<Recipe>, xs: seq<nat>, p: Preference)
    requires Increasing(xs) && InCorpus(corpus, xs)
    ensures var a := if p.category.Some? then Filter(xs, CategoryTest(corpus, p)) else xs;
      Increasing(a) && InCorpus(corpus, a)
      && forall x: nat :: x in a <==>
           (x in xs && x < |corpus| && (p.category.Some? ==> (corpus[x].category == p.category.value <==> p.kind == Include)))
  {
    if p.category.Some? {
      FilterMembers(xs, CategoryTest(corpus, p));
      FilterIncreasing(xs, CategoryTest(corpus, p));
    }
  }

  lemma DifficultyStage(corpus: seq<Recipe>, xs: seq<nat>, p: Preference)
    requires Increasing(xs) && InCorpus(corpus, xs)
    ensures var b := if p.difficulty.Some? then Filter(xs, DifficultyTest(corpus, p)) else xs;
      Increasing(b) && InCorpus(corpus, b)
      && forall x: nat :: x in b <==>
           (x in xs && x < |corpus| && (p.difficulty.Some? ==> (corpus[x].difficulty == p.difficulty.value <==> p.kind == Include)))
  {
    if p.difficulty.Some? {
      FilterMembers(xs, DifficultyTest(corpus, p));
      FilterIncreasing(xs, DifficultyTest(corpus, p));
    }
  }

  lemma TimeStage(corpus: seq<Recipe>, xs: seq<nat>, p: Preference)
    requires Increasing(xs) && InCorpus(corpus, xs)
    ensures var r := if HasTimeBound(p) then Filter(xs, TimeTest(corpus, p)) else xs;
      Increasing(r)
      && forall x: nat :: x in r <==>
           (x in xs && x < |corpus| && (HasTimeBound(p) ==> corpus[x].cookingTime <= p.maxCookingTime.value))
  {
    if HasTimeBound(p) {
      FilterMembers(xs, TimeTest(corpus, p));
      FilterIncreasing(xs, TimeTest(corpus, p));
    }
  }

  /**
   * The preference filter keeps, in corpus order and without repeats, exactly
   * the dishes every preference admits; with no preferences, the whole corpus.
   */
  lemma {:induction false} SelectedMeaning(corpus: seq<Recipe>, prefs: seq<Preference>)
    ensures Increasing(Selected(corpus, prefs))
    ensures forall k :: 0 <= k < |Selected(corpus, prefs)| ==> Selected(corpus, prefs)[k] < |corpus|
    ensures forall x: nat :: x in Selected(corpus, prefs) <==>
              x < |corpus| && forall k :: 0 <= k < |prefs| ==> Admits(prefs[k], corpus[x])
    ensures |prefs| == 0 ==> Selected(corpus, prefs) == Indices(|corpus|)
    decreases |prefs|
  {
    if |prefs| > 0 {
      var init := prefs[..|prefs| - 1];
      SelectedMeaning(corpus, init);
      ApplyPreferenceMeaning(corpus, Selected(corpus, init), prefs[|prefs| - 1]);
      assert forall k :: 0 <= k < |init| ==> init[k] == prefs[k];
    } else {
      assert forall x: nat :: x in Indices(|corpus|) <==> x < |corpus| by {
        forall x: nat | x < |corpus| ensures x in Indices(|corpus|) {
          assert Indices(|corpus|)[x] == x;
        }
      }
    }
  }

  /** The candidates have no repeats and are dishes of the corpus. */
  lemma SelectedShape(corpus: seq<Recipe>, prefs: seq<Preference>)
    ensures Distinct(Selected(corpus, prefs)) && InCorpus(corpus, Selected(corpus, prefs))
  {
    SelectedMeaning(corpus, prefs);
    IncreasingDistinct(Selected(corpus, prefs));
  }

  lemma CandidatesInCorpus(corpus: seq<Recipe>, filtered: seq<nat>, available: seq<nat>)
    requires InCorpus(corpus, filtered) && forall y :: y in available <==> y in filtered
    ensures InCorpus(corpus, available)
  {
    assert forall k :: 0 <= k < |available| ==> available[k] in filtered;
  }

  /** A menu balanced over a reordering of the candidates is balanced over the candidates. */
  lemma MenuOverFiltered(corpus: seq<Recipe>, filtered: seq<nat>, available: seq<nat>, chosen: seq<nat>)
    requires forall y :: y in available <==> y in filtered
    requires forall k :: 0 <= k < |chosen| ==> chosen[k] in available
    requires exists n :: 0 <= n <= |chosen| && Balanced(corpus, available, chosen[..n])
               && (n == |chosen| || Covering(corpus, available, chosen[..n]))
    ensures forall k :: 0 <= k < |chosen| ==> chosen[k] in filtered
    ensures exists n :: 0 <= n <= |chosen| && Balanced(corpus, filtered, chosen[..n])
              && (n == |chosen| || Covering(corpus, filtered, chosen[..n]))
  {
    var n :| 0 <= n <= |chosen| && Balanced(corpus, available, chosen[..n])
             && (n == |chosen| || Covering(corpus, available, chosen[..n]));
    SameCandidates(corpus, available, filtered, chosen[..n]);
  }

  lemma IncreasingDistinct(xs: seq<nat>)
    requires Increasing(xs)
    ensures Distinct(xs)
  {
  }

  // ---------------------------------------------------------------- sizes

  /** `getTargetDishCount`: 2, 3, 4, 5 or 6 dishes for up to 2, 4, 6, 8 or more people. */
  function TargetDishCount(peopleCount: int): (r: nat)
    ensures 2 <= r <= 6
  {
    if peopleCount <= 2 then 2
    else if peopleCount <= 4 then 3
    else if peopleCount <= 6 then 4
    else if peopleCount <= 8 then 5
    else 6
  }

  /** More people never get fewer dishes. */
  lemma TargetDishCountMonotone(p: int, q: int)
    requires p <= q
    ensures TargetDishCount(p) <= TargetDishCount(q)
  {
  }

  /** `Math.max(1, Math.ceil(peopleCount * 0.8))`, on exact numbers. */
  function ServingsFor(peopleCount: int): (r: int)
    ensures r >= 1
    ensures r == 1 || (5 * (r - 1) < 4 * peopleCount <= 5 * r)
  {
    var c := (4 * peopleCount + 4) / 5;
    if c > 1 then c else 1
  }

  /** The servings are the least whole number, but at least 1, covering eighty percent of the people. */
  lemma ServingsForIsCeiling(peopleCount: int, n: int)
    requires n >= 1 && 5 * n >= 4 * peopleCount
    ensures ServingsFor(peopleCount) <= n
  {
  }

  /** `getRecommendations`: one hint by group size, and a second from six people up. */
  function Recommendations(peopleCount: int): (r: seq<string>)
    ensures |r| == (if peopleCount >= 6 then 2 else 1)
    ensures r[0] == if peopleCount <= 2 then "建议2-3道菜，避免浪费"
                    else if peopleCount <= 4 then "建议3-4道菜，注意荤素搭配"
                    else "建议4道菜以上，记得准备汤品"
    ensures peopleCount >= 6 ==> r[1] == "用餐人数较多，建议提前准备"
  {
    var first := if peopleCount <= 2 then ["建议2-3道菜，避免浪费"]
                 else if peopleCount <= 4 then ["建议3-4道菜，注意荤素搭配"]
                 else ["建议4道菜以上，记得准备汤品"];
    if peopleCount >= 6 then first + ["用餐人数较多，建议提前准备"] else first
  }

  // ---------------------------------------------------------------- balanced menus

  /** The categories the first pass of `buildBalancedMenu` fills, before shuffling. */
  const BalanceCategories: seq<Category> := [MeatDish, Vegetarian, Soup, Aquatic]

  /** `recipe.difficulty !== 'hard' && recipe.cookingTime <= 60`. */
  predicate Suitable(r: Recipe) {
    r.difficulty != Hard && r.cookingTime <= 60
  }

  predicate InCorpus(corpus: seq<Recipe>, xs: seq<nat>) {
    forall k :: 0 <= k < |xs| ==> xs[k] < |corpus|
  }

  function OfCategory(corpus: seq<Recipe>, c: Category): nat -> bool {
    (x: nat) => x < |corpus| && corpus[x].category == c
  }

  function SuitableTest(corpus: seq<Recipe>): nat -> bool {
    (x: nat) => x < |corpus| && Suitable(corpus[x])
  }

  function NotIn(menu: seq<nat>): nat -> bool {
    (x: nat) => x !in menu
  }

  /** Some candidate has category `c`. */
  predicate Offers(corpus: seq<Recipe>, available: seq<nat>, c: Category) {
    exists y :: y in available && y < |corpus| && corpus[y].category == c
  }

  /**
   * The dish `x` is a fair pick for its category: it is suitable, or no candidate
   * of its category is.
   */
  predicate Fit(corpus: seq<Recipe>, available: seq<nat>, x: nat) {
    x < |corpus|
    && (Suitable(corpus[x])
        || forall y :: y in available && y < |corpus| && corpus[y].category == corpus[x].category ==> !Suitable(corpus[y]))
  }

  /**
   * The picks of the category pass: candidates, each a fair pick, each in one of
   * the four balance categories, no two of the same category.
   */
  predicate Balanced(corpus: seq<Recipe>, available: seq<nat>, picks: seq<nat>) {
    InCorpus(corpus, picks)
    && (forall k :: 0 <= k < |picks| ==>
          picks[k] in available && Fit(corpus, available, picks[k]) && corpus[picks[k]].category in BalanceCategories)
    && (forall a, b :: 0 <= a < b < |picks| ==> corpus[picks[a]].category != corpus[picks[b]].category)
  }

  /** Every balance category some candidate has is among the picks. */
  predicate Covering(corpus: seq<Recipe>, available: seq<nat>, picks: seq<nat>) {
    InCorpus(corpus, picks)
    && forall c :: c in BalanceCategories && Offers(corpus, available, c) ==>
         exists k :: 0 <= k < |picks| && corpus[picks[k]].category == c
  }

  lemma BalancedPrefix(corpus: seq<Recipe>, available: seq<nat>, picks: seq<nat>, n: nat)
    requires Balanced(corpus, available, picks) && n <= |picks|
    ensures Balanced(corpus, available, picks[..n])
  {
  }

  /** A menu holds a soup. */
  predicate HasSoup(corpus: seq<Recipe>, menu: seq<nat>) {
    exists x :: x in menu && x < |corpus| && corpus[x].category == Soup
  }

  /** The predicates about picks depend only on which dishes are candidates. */
  lemma SameCandidates(corpus: seq<Recipe>, s: seq<nat>, t: seq<nat>, picks: seq<nat>)
    requires forall y :: y in s <==> y in t
    ensures Balanced(corpus, s, picks) == Balanced(corpus, t, picks)
    ensures Covering(corpus, s, picks) == Covering(corpus, t, picks)
  {
    assert forall c :: Offers(corpus, s, c) == Offers(corpus, t, c);
    assert forall x :: Fit(corpus, s, x) == Fit(corpus, t, x);
  }

  /** When a candidate is a soup, a covering category pass has put a soup on the menu. */
  lemma SoupKept(corpus: seq<Recipe>, available: seq<nat>, picks: seq<nat>, menu: seq<nat>)
    requires Covering(corpus, available, picks) && Offers(corpus, available, Soup)
    requires |picks| <= |menu| && menu[..|picks|] == picks
    ensures HasSoup(corpus, menu)
  {
    assert Soup in BalanceCategories;
    var k :| 0 <= k < |picks| && corpus[picks[k]].category == Soup;
    assert menu[k] == picks[k];
  }

  /** Four balanced picks take all four balance categories, so one of them is a soup. */
  lemma FourCover(corpus: seq<Recipe>, available: seq<nat>, picks: seq<nat>)
    requires Balanced(corpus, available, picks) && |picks| >= 4
    ensures HasSoup(corpus, picks)
  {
    var c0, c1, c2, c3 := corpus[picks[0]].category, corpus[picks[1]].category,
                          corpus[picks[2]].category, corpus[picks[3]].category;
    assert c0 in BalanceCategories && c1 in BalanceCategories && c2 in BalanceCategories && c3 in BalanceCategories;
    assert c0 != c1 && c0 != c2 && c0 != c3 && c1 != c2 && c1 != c3 && c2 != c3;
    var k :| 0 <= k < 4 && corpus[picks[k]].category == Soup;
    assert picks[k] in picks;
  }

  /**
   * The final menu of a party whose target is four dishes or more holds a soup
   * whenever a candidate is one: the comment "确保有汤品" holds from five people up.
   * The hypotheses are what `RecommendMenu` ensures of `chosen` over `Selected`.
   */
  lemma SoupFromFourDishes(corpus: seq<Recipe>, available: seq<nat>, chosen: seq<nat>, target: nat)
    requires Distinct(available) && Distinct(chosen)
    requires forall k :: 0 <= k < |chosen| ==> chosen[k] in available
    requires |chosen| == Min(target, |available|) && target >= 4
    requires exists n :: 0 <= n <= |chosen| && Balanced(corpus, available, chosen[..n])
               && (n == |chosen| || Covering(corpus, available, chosen[..n]))
    requires Offers(corpus, available, Soup)
    ensures HasSoup(corpus, chosen)
  {
    var y :| y in available && y < |corpus| && corpus[y].category == Soup;
    if |chosen| == |available| {
      AllTaken(chosen, available);
      assert y in chosen;
    } else {
      var n :| 0 <= n <= |chosen| && Balanced(corpus, available, chosen[..n])
               && (n == |chosen| || Covering(corpus, available, chosen[..n]));
      if n == |chosen| {
        assert chosen[..n] == chosen;
        FourCover(corpus, available, chosen);
      } else {
        assert Soup in BalanceCategories;
        var k :| 0 <= k < n && corpus[chosen[..n][k]].category == Soup;
        assert chosen[k] in chosen;
      }
    }
  }

  /** Four easy, quick dishes, one per balance category, with the soup last. */
  function SoupLastCorpus(): (r: seq<Recipe>)
    ensures |r| == 4 && forall x :: 0 <= x < 4 ==> Suitable(r[x])
  {
    var r := Recipe("", "", MeatDish, Easy, 15, 2, [], [], [], "");
    [r, r.(category := Vegetarian), r.(category := Aquatic), r.(category := Soup)]
  }

  /**
   * For four people (target 3) the cut can drop the soup the category pass chose:
   * a balanced, covering pass that puts the soup last loses it to `slice(0, 3)`.
   */
  lemma CutCanDropSoup()
    ensures var corpus, picks := SoupLastCorpus(), [0, 1, 2, 3];
            Balanced(corpus, picks, picks) && Covering(corpus, picks, picks) && HasSoup(corpus, picks)
            && TargetDishCount(4) == 3 && !HasSoup(corpus, picks[..3])
  {
    SoupLastBalanced();
    SoupLastCovering();
    SoupLastCut();
  }

  /** The four picks of `SoupLastCorpus` are balanced. */
  lemma SoupLastBalanced()
    ensures var corpus, picks := SoupLastCorpus(), [0, 1, 2, 3];
            Balanced(corpus, picks, picks)
  {
    var corpus, picks := SoupLastCorpus(), [0, 1, 2, 3];
    assert forall k :: 0 <= k < 4 ==> picks[k] == k;
    assert forall k :: 0 <= k < 4 ==> Fit(corpus, picks, picks[k]);
  }

  /** They cover every offered category, the soup among them. */
  lemma SoupLastCovering()
    ensures var corpus, picks := SoupLastCorpus(), [0, 1, 2, 3];
            Covering(corpus, picks, picks) && HasSoup(corpus, picks)
  {
    var corpus, picks := SoupLastCorpus(), [0, 1, 2, 3];
    assert corpus[picks[0]].category == MeatDish && corpus[picks[1]].category == Vegetarian;
    assert corpus[picks[2]].category == Aquatic && corpus[picks[3]].category == Soup;
    assert 3 in picks;
  }

  /** The first three of them hold no soup. */
  lemma SoupLastCut()
    ensures var corpus, picks := SoupLastCorpus(), [0, 1, 2, 3];
            !HasSoup(corpus, picks[..3])
  {
    var corpus, picks := SoupLastCorpus(), [0, 1, 2, 3];
    assert picks[..3] == [0, 1, 2];
  }

  /**
   * After the first `i` categories of the first pass: the picks are dishes of the
   * corpus, at most one per category, each of one of those categories, and every
   * one of them the candidates offer has its pick.
   */
  predicate PassState(corpus: seq<Recipe>, available: seq<nat>, categories: seq<Category>, i: nat, menu: seq<nat>)
    requires i <= |categories|
  {
    InCorpus(corpus, menu) && |menu| <= i && Balanced(corpus, available, menu)
    && (forall k :: 0 <= k < |menu| ==> corpus[menu[k]].category in categories[..i])
    && (forall j :: 0 <= j < i && Offers(corpus, available, categories[j]) ==>
          exists k :: 0 <= k < |menu| && corpus[menu[k]].category == categories[j])
  }

  /** A category the candidates do not offer leaves the picks as they are. */
  lemma PassSkip(corpus: seq<Recipe>, available: seq<nat>, categories: seq<Category>, i: nat, menu: seq<nat>)
    requires i < |categories| && PassState(corpus, available, categories, i, menu)
    requires !Offers(corpus, available, categories[i])
    ensures PassState(corpus, available, categories, i + 1, menu)
  {
    assert categories[..i + 1] == categories[..i] + [categories[i]];
  }

  /** After every category, the picks are balanced and covering. */
  lemma PassComplete(corpus: seq<Recipe>, available: seq<nat>, categories: seq<Category>, menu: seq<nat>)
    requires forall c :: c in categories <==> c in BalanceCategories
    requires PassState(corpus, available, categories, |categories|, menu)
    ensures Balanced(corpus, available, menu) && Covering(corpus, available, menu)
  {
    assert categories[..|categories|] == categories;
    forall c | c in BalanceCategories && Offers(corpus, available, c)
      ensures exists k :: 0 <= k < |menu| && corpus[menu[k]].category == c
    {
      var j :| 0 <= j < |categories| && categories[j] == c;
    }
  }

  /** One round of the category pass keeps its invariant. */
  lemma PassStep(corpus: seq<Recipe>, available: seq<nat>, categories: seq<Category>, i: nat,
                 menu: seq<nat>, selected: nat)
    requires i < |categories| && Distinct(categories)
    requires forall c :: c in categories <==> c in BalanceCategories
    requires PassState(corpus, available, categories, i, menu)
    requires selected in available && selected < |corpus| && corpus[selected].category == categories[i]
    requires Fit(corpus, available, selected)
    ensures PassState(corpus, available, categories, i + 1, menu + [selected])
  {
    var m := menu + [selected];
    assert categories[..i + 1] == categories[..i] + [categories[i]];
    assert categories[i] !in categories[..i];
    assert categories[i] in BalanceCategories;
    forall j | 0 <= j < i + 1 && Offers(corpus, available, categories[j])
      ensures exists k :: 0 <= k < |m| && corpus[m[k]].category == categories[j]
    {
      if j == i {
        assert corpus[m[|menu|]].category == categories[j];
      } else {
        var k :| 0 <= k < |menu| && corpus[menu[k]].category == categories[j];
        assert corpus[m[k]].category == categories[j];
      }
    }
  }

  /** What the cut of the filled menu to the target count keeps. */
  lemma CutMenu(corpus: seq<Recipe>, available: seq<nat>, picks: seq<nat>, filled: seq<nat>, target: nat, menu: seq<nat>)
    requires Distinct(available) && Balanced(corpus, available, picks) && Covering(corpus, available, picks)
    requires |picks| <= |filled| && filled[..|picks|] == picks
    requires Distinct(filled) && forall k :: 0 <= k < |filled| ==> filled[k] in available
    requires |filled| == if |picks| >= target then |picks| else Min(target, |available|)
    requires menu == filled[..Min(target, |filled|)]
    ensures Distinct(menu) && forall k :: 0 <= k < |menu| ==> menu[k] in available
    ensures |menu| == Min(target, |available|)
    ensures exists n :: 0 <= n <= |menu| && Balanced(corpus, available, menu[..n])
              && (n == |menu| || Covering(corpus, available, menu[..n]))
  {
    SubsetNoLonger(picks, available);
    var n := Min(|picks|, |menu|);
    assert menu[..n] == picks[..n];
    BalancedPrefix(corpus, available, picks, n);
    if n == |picks| {
      assert picks[..n] == picks;
    }
  }

  /** The contribution of ingredient `j` of a dish. */
  lemma ContributionAt(recipe: Recipe, peopleCount: int, j: nat)
    requires recipe.servings > 0 && j < |recipe.ingredients|
    ensures var i := recipe.ingredients[j];
      ContributionsOf(recipe, peopleCount)[j]
        == Contribution(KeyOf(i), i.unit, i.category, Scaled(AmountOf(i), peopleCount as real / recipe.servings as real), recipe.name)
  {
  }

  lemma AllContributionsSnoc(dishes: seq<Recipe>, peopleCount: int, i: nat)
    requires Servable(dishes) && i < |dishes|
    ensures Servable(dishes[..i]) && Servable(dishes[..i + 1])
    ensures AllContributions(dishes[..i + 1], peopleCount)
              == AllContributions(dishes[..i], peopleCount) + ContributionsOf(dishes[i], peopleCount)
  {
    assert dishes[..i + 1][..i] == dishes[..i];
  }

  /** Folding one more contribution in. */
  lemma AccumulateSnoc(cs: seq<Contribution>, more: seq<Contribution>, j: nat)
    requires j < |more|
    ensures Accumulate(cs + more[..j + 1]) == Add(Accumulate(cs + more[..j]), more[j])
  {
    var all := cs + more[..j + 1];
    assert all[..|all| - 1] == cs + more[..j];
    assert all[|all| - 1] == more[j];
    AccumulateLast(all);
  }

  lemma AccumulateLast(cs: seq<Contribution>)
    requires |cs| > 0
    ensures Accumulate(cs) == Add(Accumulate(cs[..|cs| - 1]), cs[|cs| - 1])
  {
  }

  // ---------------------------------------------------------------- the recommender

  class MenuRecommender {
    /** The corpus of recipes. */
    var recipes: seq<Recipe>

    constructor(recipes: seq<Recipe>)
      ensures this.recipes == recipes
    {
      this.recipes := recipes;
    }

    /** `filterByPreferences`: `filtered` starts as the whole corpus and each preference narrows it. */
    method FilterByPreferences(preferences: seq<Preference>) returns (filtered: seq<nat>)
      ensures filtered == Selected(recipes, preferences)
    {
      var corpus := recipes;
      filtered := Indices(|corpus|);
      for i := 0 to |preferences|
        invariant filtered == Selected(corpus, preferences[..i])
      {
        var p := preferences[i];
        if p.category.Some? {
          filtered := Filter(filtered, CategoryTest(corpus, p));
        }
        if p.difficulty.Some? {
          filtered := Filter(filtered, DifficultyTest(corpus, p));
        }
        if HasTimeBound(p) {
          filtered := Filter(filtered, TimeTest(corpus, p));
        }
        assert preferences[..i + 1][..i] == preferences[..i];
      }
      assert preferences[..|preferences|] == preferences;
    }

    /**
     * The first pass of `buildBalancedMenu`: for each category in the shuffled
     * order, a random suitable dish of that category if there is one, else a
     * random dish of it, else nothing.
     */
    method CategoryPass(available: seq<nat>, categories: seq<Category>, rand: nat -> Draw, seed: nat)
      returns (menu: seq<nat>, next: nat)
      requires InCorpus(recipes, available)
      requires Distinct(categories) && forall c :: c in categories <==> c in BalanceCategories
      ensures Balanced(recipes, available, menu) && Covering(recipes, available, menu)
      ensures |menu| <= |categories| && next == seed + |menu|
    {
      var corpus := recipes;
      menu := [];
      next := seed;
      for i := 0 to |categories|
        invariant PassState(corpus, available, categories, i, menu) && next == seed + |menu|
      {
        var c := categories[i];
        var found, selected := ChooseOfCategory(corpus, available, c, rand, next);
        if found {
          PassStep(corpus, available, categories, i, menu, selected);
          menu := menu + [selected];
          next := next + 1;
        } else {
          PassSkip(corpus, available, categories, i, menu);
        }
      }
      PassComplete(corpus, available, categories, menu);
    }

    /** `while (menu.length < targetDishCount && availableRecipes.length > menu.length)`: random further dishes. */
    method FillUp(available: seq<nat>, picks: seq<nat>, target: nat, rand: nat -> Draw, seed: nat)
      returns (menu: seq<nat>, next: nat)
      requires Distinct(available) && Distinct(picks)
      requires forall k :: 0 <= k < |picks| ==> picks[k] in available
      ensures |picks| <= |menu| && menu[..|picks|] == picks
      ensures Distinct(menu) && forall k :: 0 <= k < |menu| ==> menu[k] in available
      ensures |menu| == if |picks| >= target then |picks| else Min(target, |available|)
      ensures next == seed + (|menu| - |picks|)
    {
      SubsetNoLonger(picks, available);
      menu := picks;
      next := seed;
      while |menu| < target && |available| > |menu|
        invariant |picks| <= |menu| && menu[..|picks|] == picks
        invariant Distinct(menu) && forall k :: 0 <= k < |menu| ==> menu[k] in available
        invariant |menu| <= |available|
        invariant |menu| > |picks| ==> |menu| <= target
        invariant next == seed + (|menu| - |picks|)
        decreases |available| - |menu|
      {
        var remaining := Filter(available, NotIn(menu));
        FilterMembers(available, NotIn(menu));
        Pigeonhole(menu, available);
        if |remaining| > 0 {
          var x := remaining[Pick(rand(next), |remaining|)];
          assert x in remaining;
          menu := menu + [x];
          next := next + 1;
        } else {
          break;
        }
      }
    }

    /** `if (peopleCount >= 4 && !menu.some(soup))`: a random soup is added when the candidates have one. */
    method ForceSoup(available: seq<nat>, menu: seq<nat>, peopleCount: int, rand: nat -> Draw, seed: nat)
      returns (r: seq<nat>, next: nat)
      ensures var forced := peopleCount >= 4 && !HasSoup(recipes, menu) && Offers(recipes, available, Soup);
        (forced ==> |r| == |menu| + 1 && r[..|menu|] == menu && r[|menu|] in available
                    && r[|menu|] < |recipes| && recipes[r[|menu|]].category == Soup && next == seed + 1)
        && (!forced ==> r == menu && next == seed)
    {
      var corpus := recipes;
      r := menu;
      next := seed;
      if peopleCount >= 4 && !HasSoup(corpus, menu) {
        var soupRecipes := Filter(available, OfCategory(corpus, Soup));
        FilterMembers(available, OfCategory(corpus, Soup));
        if |soupRecipes| > 0 {
          var soup := soupRecipes[Pick(rand(next), |soupRecipes|)];
          assert soup in soupRecipes;
          r := menu + [soup];
          next := next + 1;
        } else {
          assert !Offers(corpus, available, Soup);
        }
      }
    }

    /**
     * `buildBalancedMenu`: the category pass over the four categories in shuffled
     * order, the fill-up to the target count, the forced soup and the cut to the
     * target count. The menu has no repeats, takes only candidates and is as long
     * as the target allows; it starts with one fair pick per category, covering
     * every category the candidates offer unless the cut reaches into the picks.
     */
    method BuildBalancedMenu(available: seq<nat>, peopleCount: int, rand: nat -> Draw, seed: nat)
      returns (menu: seq<nat>, next: nat)
      requires InCorpus(recipes, available) && Distinct(available)
      ensures Distinct(menu) && forall k :: 0 <= k < |menu| ==> menu[k] in available
      ensures |menu| == Min(TargetDishCount(peopleCount), |available|)
      ensures exists n :: 0 <= n <= |menu| && Balanced(recipes, available, menu[..n])
                && (n == |menu| || Covering(recipes, available, menu[..n]))
    {
      var order;
      order, next := ShuffledCategories(rand, seed);
      var picks;
      picks, next := CategoryPass(available, order, rand, next);
      var target := TargetDishCount(peopleCount);
      var filled;
      filled, next := FillUp(available, picks, target, rand, next);
      if Offers(recipes, available, Soup) {
        SoupKept(recipes, available, picks, filled);
      }
      var withSoup;
      withSoup, next := ForceSoup(available, filled, peopleCount, rand, next);
      assert withSoup == filled;
      menu := withSoup[..Min(target, |withSoup|)];
      CutMenu(recipes, available, picks, filled, target, menu);
    }

    /** The four balance categories in the order of an in-place Fisher–Yates shuffle. */
    method ShuffledCategories(rand: nat -> Draw, seed: nat) returns (order: seq<Category>, next: nat)
      ensures Distinct(order) && forall c :: c in order <==> c in BalanceCategories
      ensures order == Shuffled(BalanceCategories, rand, seed) && next == seed + 3
    {
      var categories := new Category[4] [MeatDish, Vegetarian, Soup, Aquatic];
      assert categories[..] == BalanceCategories;
      next := Shuffle(categories, rand, seed);
      ShuffledPermutes(BalanceCategories, rand, seed);
      order := categories[..];
      DistinctPermutation(order, BalanceCategories);
      assert forall c :: c in order <==> c in multiset(order);
    }

    /**
     * `recommendMenu`: the candidates the preferences admit, shuffled, built into
     * a balanced menu, each dish copied with the servings for the group. The
     * corpus itself is not changed.
     */
    method RecommendMenu(peopleCount: int, preferences: seq<Preference>, rand: nat -> Draw, seed: nat)
      returns (menu: seq<Recipe>, chosen: seq<nat>, next: nat)
      ensures |menu| == |chosen|
      ensures forall k :: 0 <= k < |chosen| ==>
                chosen[k] < |recipes| && menu[k] == recipes[chosen[k]].(servings := ServingsFor(peopleCount))
      ensures Distinct(chosen) && forall k :: 0 <= k < |chosen| ==> chosen[k] in Selected(recipes, preferences)
      ensures |chosen| == Min(TargetDishCount(peopleCount), |Selected(recipes, preferences)|)
      ensures exists n :: 0 <= n <= |chosen| && Balanced(recipes, Selected(recipes, preferences), chosen[..n])
                && (n == |chosen| || Covering(recipes, Selected(recipes, preferences), chosen[..n]))
      ensures (TargetDishCount(peopleCount) >= 4 && Offers(recipes, Selected(recipes, preferences), Soup))
                ==> HasSoup(recipes, chosen)
    {
      var corpus := recipes;
      var filtered := FilterByPreferences(preferences);
      SelectedShape(corpus, preferences);
      var available;
      available, next := ShuffleCandidates(filtered, rand, seed);
      CandidatesInCorpus(corpus, filtered, available);
      if |available| == 0 {
        menu, chosen := [], [];
        assert Balanced(corpus, filtered, chosen[..0]);
        return;
      }
      chosen, next := BuildBalancedMenu(available, peopleCount, rand, next);
      MenuOverFiltered(corpus, filtered, available, chosen);
      menu := seq(|chosen|, k requires 0 <= k < |chosen| => corpus[chosen[k]].(servings := ServingsFor(peopleCount)));
      if TargetDishCount(peopleCount) >= 4 && Offers(corpus, filtered, Soup) {
        SoupFromFourDishes(corpus, filtered, chosen, TargetDishCount(peopleCount));
      }
    }

    /** The Fisher–Yates loop of `recommendMenu` over a copy of the candidates. */
    method ShuffleCandidates(filtered: seq<nat>, rand: nat -> Draw, seed: nat) returns (available: seq<nat>, next: nat)
      requires Distinct(filtered)
      ensures available == Shuffled(filtered, rand, seed) && next == seed + Draws(|filtered|)
      ensures |available| == |filtered| && Distinct(available)
      ensures forall y :: y in available <==> y in filtered
    {
      var candidates := new nat[|filtered|] (k requires 0 <= k < |filtered| => filtered[k]);
      assert candidates[..] == filtered;
      next := Shuffle(candidates, rand, seed);
      ShuffledPermutes(filtered, rand, seed);
      available := candidates[..];
      assert forall y :: y in available <==> y in multiset(available);
      DistinctPermutation(available, filtered);
    }

    /**
     * `calculateIngredients`: every ingredient of every dish goes into the bucket of
     * its name and unit; the buckets become the lines of the list, sorted by
     * ingredient category.
     */
    method CalculateIngredients(dishes: seq<Recipe>, peopleCount: int) returns (list: seq<ShoppingItem>)
      requires Servable(dishes)
      ensures list == ShoppingList(dishes, peopleCount)
    {
      var keys: seq<string> := [];
      var buckets: map<string, Bucket> := map[];
      for i := 0 to |dishes|
        invariant Ledger(keys, buckets) == Accumulate(AllContributions(dishes[..i], peopleCount))
      {
        ghost var done := AllContributions(dishes[..i], peopleCount);
        keys, buckets := AddDish(keys, buckets, dishes[i], peopleCount, done);
        AllContributionsSnoc(dishes, peopleCount, i);
      }
      assert dishes[..|dishes|] == dishes;
      LedgerKeys(AllContributions(dishes, peopleCount));
      list := SortByCategory(ItemsOf(Ledger(keys, buckets)));
    }
  }

  /**
   * One category of the first pass: a random suitable dish of category `c` if there
   * is one, else a random dish of it; `found` is false when there is none.
   */
  method ChooseOfCategory(corpus: seq<Recipe>, available: seq<nat>, c: Category, rand: nat -> Draw, next: nat)
    returns (found: bool, selected: nat)
    requires InCorpus(corpus, available)
    ensures found <==> Offers(corpus, available, c)
    ensures found ==> selected in available && selected < |corpus| && corpus[selected].category == c
                      && Fit(corpus, available, selected)
  {
    var categoryRecipes := Filter(available, OfCategory(corpus, c));
    FilterMembers(available, OfCategory(corpus, c));
    found := |categoryRecipes| > 0;
    selected := 0;
    if found {
      var suitable := Filter(categoryRecipes, SuitableTest(corpus));
      FilterMembers(categoryRecipes, SuitableTest(corpus));
      if |suitable| > 0 {
        selected := suitable[Pick(rand(next), |suitable|)];
      } else {
        selected := categoryRecipes[Pick(rand(next), |categoryRecipes|)];
      }
      assert selected in categoryRecipes;
    } else {
      assert !Offers(corpus, available, c);
    }
  }

  /** The inner `recipe.ingredients.forEach` of `calculateIngredients`. */
  method AddDish(keys0: seq<string>, buckets0: map<string, Bucket>, recipe: Recipe, peopleCount: int,
                 ghost done: seq<Contribution>)
    returns (keys: seq<string>, buckets: map<string, Bucket>)
    requires recipe.servings > 0
    requires Ledger(keys0, buckets0) == Accumulate(done)
    ensures Ledger(keys, buckets) == Accumulate(done + ContributionsOf(recipe, peopleCount))
  {
    keys, buckets := keys0, buckets0;
    var multiplier := peopleCount as real / recipe.servings as real;
    ghost var mine := ContributionsOf(recipe, peopleCount);
    assert done + mine[..0] == done;
    for j := 0 to |recipe.ingredients|
      invariant Ledger(keys, buckets) == Accumulate(done + mine[..j])
    {
      keys, buckets := AddIngredient(keys, buckets, recipe.ingredients[j], multiplier, recipe.name);
      ContributionAt(recipe, peopleCount, j);
      AccumulateSnoc(done, mine, j);
    }
    assert mine[..|recipe.ingredients|] == mine;
  }

  /** One step of the inner loop: the ingredient's amount, scaled, goes into its bucket. */
  method AddIngredient(keys0: seq<string>, buckets0: map<string, Bucket>, ingredient: Ingredient,
                       multiplier: real, name: string)
    returns (keys: seq<string>, buckets: map<string, Bucket>)
    ensures Ledger(keys, buckets)
      == Add(Ledger(keys0, buckets0),
             Contribution(KeyOf(ingredient), ingredient.unit, ingredient.category, Scaled(AmountOf(ingredient), multiplier), name))
  {
    keys, buckets := keys0, buckets0;
    var key := KeyOf(ingredient);
    var current := if key in buckets then buckets[key] else Bucket(0.0, ingredient.unit, ingredient.category, []);
    var amount := AmountOf(ingredient);
    var names := if name in current.recipes then current.recipes else current.recipes + [name];
    AddUnfolds(Ledger(keys0, buckets0),
               Contribution(key, ingredient.unit, ingredient.category, Scaled(amount, multiplier), name),
               current, names, if key in buckets then keys else keys + [key]);
    if key !in buckets {
      keys := keys + [key];
    }
    buckets := buckets[key := Bucket(current.total + Scaled(amount, multiplier), current.unit, current.category, names)];
  }
}
