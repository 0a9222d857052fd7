/**
 * The shopping list of `MenuRecommender.calculateIngredients`: one bucket
 * per ingredient name and unit, each adding up the scaled amounts of the
 * dishes that need it, written out and ordered by ingredient category.
 */
module Shopping {
  import opened Wrappers
  import opened Seqs
  import opened Text
  import opened Numbers
  import opened Types

  // ---------------------------------------------------------------- bucket keys

  /** `${ingredient.name}_${ingredient.unit}`. */
  function KeyOf(i: Ingredient): string {
    i.name + "_" + UnitName(i.unit)
  }

  lemma UnitNameShape(u: Unit)
    ensures |UnitName(u)| >= 1 && '_' !in UnitName(u)
  {
  }

  lemma UnitNameInjective(u: Unit, v: Unit)
    requires UnitName(u) == UnitName(v)
    ensures u == v
  {
  }

  /** The text after the last underscore. */
  function AfterLastUnderscore(s: string): string
    decreases |s|
  {
    if |s| == 0 || s[|s| - 1] == '_' then "" else AfterLastUnderscore(s[..|s| - 1]) + [s[|s| - 1]]
  }

  lemma {:induction false} AfterLastUnderscoreOf(n: string, u: string)
    requires '_' !in u
    ensures AfterLastUnderscore(n + "_" + u) == u
    decreases |u|
  {
    var s := n + "_" + u;
    if |u| > 0 {
      assert s[..|s| - 1] == n + "_" + u[..|u| - 1];
      AfterLastUnderscoreOf(n, u[..|u| - 1]);
      assert u == u[..|u| - 1] + [u[|u| - 1]];
    } else {
      assert s[|s| - 1] == '_';
    }
  }

  /** Different names or units never share a bucket: the key ends in an underscore-free unit. */
  lemma KeyInjective(a: Ingredient, b: Ingredient)
    requires KeyOf(a) == KeyOf(b)
    ensures a.name == b.name && a.unit == b.unit
  {
    var key := KeyOf(a);
    var ua, ub := UnitName(a.unit), UnitName(b.unit);
    UnitNameShape(a.unit);
    UnitNameShape(b.unit);
    AfterLastUnderscoreOf(a.name, ua);
    AfterLastUnderscoreOf(b.name, ub);
    UnitNameInjective(a.unit, b.unit);
    assert a.name == key[..|key| - |ua| - 1] == b.name;
  }

  /** `const [name] = key.split('_')`: the key up to its first underscore. */
  function ItemName(key: string): (r: string)
    ensures '_' !in r
  {
    SplitOn(key, '_')[0]
  }

  /** An underscore-free name comes back whole from its key. */
  lemma ItemNameOfKey(i: Ingredient)
    requires '_' !in i.name
    ensures ItemName(KeyOf(i)) == i.name
  {
    SplitAfterPiece(i.name, '_', UnitName(i.unit));
    assert KeyOf(i) == i.name + ['_'] + UnitName(i.unit);
  }

  /** A name with an underscore is cut at it: the first part of the key is all the list shows. */
  lemma ItemNameCutsAtUnderscore()
    ensures ItemName(KeyOf(Ingredient("a_b", "1", G, Other))) == "a"
  {
    var key := KeyOf(Ingredient("a_b", "1", G, Other));
    assert key == "a" + ['_'] + "b_g";
    SplitAfterPiece("a", '_', "b_g");
  }

  // ---------------------------------------------------------------- amounts

  /** `parseFloat(ingredient.amount) || 0`, replaced by 1 for the unit 适量. */
  function AmountOf(i: Ingredient): (r: real)
    ensures i.unit == Shiliang ==> r == 1.0
    ensures i.unit != Shiliang && ParseFloat(i.amount).None? ==> r == 0.0
  {
    if i.unit == Shiliang then 1.0
    else match ParseFloat(i.amount)
      case None => 0.0
      case Some(v) => v
  }

  /** An amount times the dish's multiplier `peopleCount / recipe.servings`. */
  function Scaled(amount: real, multiplier: real): real {
    amount * multiplier
  }

  /** Every dish serves at least one person, so `peopleCount / recipe.servings` is a number. */
  predicate Servable(recipes: seq<Recipe>) {
    forall k :: 0 <= k < |recipes| ==> recipes[k].servings > 0
  }

  /** One ingredient of one dish, as it enters the buckets. */
  datatype Contribution = Contribution(
    key: string,
    unit: Unit,
    category: IngredientCategory,
    amount: real,
    recipe: string)

  /** The contributions of one dish: each amount times `peopleCount / recipe.servings`. */
  function ContributionsOf(r: Recipe, peopleCount: int): (cs: seq<Contribution>)
    requires r.servings > 0
    ensures |cs| == |r.ingredients|
  {
    seq(|r.ingredients|, k requires 0 <= k < |r.ingredients| =>
      var i := r.ingredients[k];
      Contribution(KeyOf(i), i.unit, i.category, Scaled(AmountOf(i), peopleCount as real / r.servings as real), r.name))
  }

  /** The contributions of all dishes, dish by dish and ingredient by ingredient. */
  function AllContributions(recipes: seq<Recipe>, peopleCount: int): seq<Contribution>
    requires Servable(recipes)
    decreases |recipes|
  {
    if |recipes| == 0 then []
    else AllContributions(recipes[..|recipes| - 1], peopleCount) + ContributionsOf(recipes[|recipes| - 1], peopleCount)
  }

  // ---------------------------------------------------------------- buckets

  /** `{ totalAmount, unit, category, recipes }`. */
  datatype Bucket = Bucket(total: real, unit: Unit, category: IngredientCategory, recipes: seq<string>)

  /** The `Map` of buckets: its keys in insertion order and its entries. */
  datatype Ledger = Ledger(keys: seq<string>, buckets: map<string, Bucket>)

  const EmptyLedger: Ledger := Ledger([], map[])

  /**
   * One contribution: a new key opens a bucket with the contribution's unit and
   * category, the amount is added, the dish is listed once.
   */
  function Add(l: Ledger, c: Contribution): Ledger {
    var cur := if c.key in l.buckets then l.buckets[c.key] else Bucket(0.0, c.unit, c.category, []);
    var recipes := if c.recipe in cur.recipes then cur.recipes else cur.recipes + [c.recipe];
    Ledger(if c.key in l.buckets then l.keys else l.keys + [c.key],
           l.buckets[c.key := Bucket(cur.total + c.amount, cur.unit, cur.category, recipes)])
  }

  /** `Add` written out field by field, as an in-place update performs it. */
  lemma AddUnfolds(l: Ledger, c: Contribution, cur: Bucket, names: seq<string>, keys: seq<string>)
    requires cur == if c.key in l.buckets then l.buckets[c.key] else Bucket(0.0, c.unit, c.category, [])
    requires names == if c.recipe in cur.recipes then cur.recipes else cur.recipes + [c.recipe]
    requires keys == if c.key in l.buckets then l.keys else l.keys + [c.key]
    ensures Add(l, c) == Ledger(keys, l.buckets[c.key := Bucket(cur.total + c.amount, cur.unit, cur.category, names)])
  {
  }

  function Accumulate(cs: seq<Contribution>): Ledger
    decreases |cs|
  {
    if |cs| == 0 then EmptyLedger else Add(Accumulate(cs[..|cs| - 1]), cs[|cs| - 1])
  }

  function KeysOf(cs: seq<Contribution>): (r: seq<string>)
    ensures |r| == |cs| && forall k :: 0 <= k < |cs| ==> r[k] == cs[k].key
  {
    seq(|cs|, k requires 0 <= k < |cs| => cs[k].key)
  }

  /** The sum of the amounts contributed under `key`. */
  function SumFor(cs: seq<Contribution>, key: string): real
    decreases |cs|
  {
    if |cs| == 0 then 0.0
    else SumFor(cs[..|cs| - 1], key) + (if cs[|cs| - 1].key == key then cs[|cs| - 1].amount else 0.0)
  }

  /** The dishes contributing under `key`, one entry per contribution. */
  function RecipesFor(cs: seq<Contribution>, key: string): seq<string>
    decreases |cs|
  {
    if |cs| == 0 then []
    else RecipesFor(cs[..|cs| - 1], key) + (if cs[|cs| - 1].key == key then [cs[|cs| - 1].recipe] else [])
  }

  /** The first contribution under `key`. */
  function FirstFor(cs: seq<Contribution>, key: string): (r: Option<Contribution>)
    ensures r.Some? ==> r.value in cs && r.value.key == key
    ensures r.None? <==> forall k :: 0 <= k < |cs| ==> cs[k].key != key
    decreases |cs|
  {
    if |cs| == 0 then None
    else
      var f := FirstFor(cs[..|cs| - 1], key);
      if f.Some? then f else if cs[|cs| - 1].key == key then Some(cs[|cs| - 1]) else None
  }

  /** The keys of the buckets: the contributed keys in first-encounter order, without repeats. */
  lemma {:induction false} LedgerKeys(cs: seq<Contribution>)
    ensures var l := Accumulate(cs);
      l.keys == AppendNew([], KeysOf(cs)) && Distinct(l.keys)
      && (forall x :: x in l.buckets <==> x in l.keys)
    decreases |cs|
  {
    if |cs| > 0 {
      var init := cs[..|cs| - 1];
      var c := cs[|cs| - 1];
      LedgerKeys(init);
      assert KeysOf(init) == KeysOf(cs)[..|cs| - 1];
      var l := Accumulate(init);
      if c.key !in l.buckets {
        assert forall a, b :: 0 <= a < b < |l.keys| + 1 ==> (l.keys + [c.key])[a] != (l.keys + [c.key])[b];
      }
    }
  }

  /**
   * The bucket of a key: there is one exactly when something was contributed under
   * the key, and it holds the sum of the amounts, the unit and category of the
   * first contribution and each contributing dish once, in the order first seen.
   */
  lemma {:induction false} LedgerBucket(cs: seq<Contribution>, key: string)
    ensures var l := Accumulate(cs);
      (key in l.buckets <==> FirstFor(cs, key).Some?)
      && (key in l.buckets ==>
            var b := l.buckets[key];
            var f := FirstFor(cs, key).value;
            b.total == SumFor(cs, key) && b.unit == f.unit && b.category == f.category
            && b.recipes == AppendNew([], RecipesFor(cs, key)))
    decreases |cs|
  {
    if |cs| > 0 {
      var init := cs[..|cs| - 1];
      var c := cs[|cs| - 1];
      LedgerBucket(init, key);
      assert init + [c] == cs;
      BucketStep(Accumulate(init), init, c, key);
    }
  }

  /** What `LedgerBucket` states of a ledger and the contributions it was built from. */
  predicate BucketMatches(l: Ledger, cs: seq<Contribution>, key: string) {
    (key in l.buckets <==> FirstFor(cs, key).Some?)
    && (key in l.buckets ==>
          var b := l.buckets[key];
          var f := FirstFor(cs, key).value;
          b.total == SumFor(cs, key) && b.unit == f.unit && b.category == f.category
          && b.recipes == AppendNew([], RecipesFor(cs, key)))
  }

  /** One more contribution keeps the bucket of `key` in step with the contributions. */
  lemma BucketStep(l: Ledger, init: seq<Contribution>, c: Contribution, key: string)
    requires BucketMatches(l, init, key)
    ensures BucketMatches(Add(l, c), init + [c], key)
  {
    var cs := init + [c];
    assert cs[..|cs| - 1] == init;
    if c.key != key {
      BucketStepOther(l, init, c, key);
    } else if key in l.buckets {
      BucketStepExisting(l, init, c, key);
    } else {
      BucketStepFresh(l, init, c, key);
    }
  }

  /** A contribution under another key leaves the bucket of `key` as it was. */
  lemma BucketStepOther(l: Ledger, init: seq<Contribution>, c: Contribution, key: string)
    requires BucketMatches(l, init, key) && c.key != key
    ensures BucketMatches(Add(l, c), init + [c], key)
  {
    var cs := init + [c];
    assert cs[..|cs| - 1] == init;
    assert SumFor(cs, key) == SumFor(init, key);
    assert RecipesFor(cs, key) == RecipesFor(init, key) + [] == RecipesFor(init, key);
    assert FirstFor(cs, key) == FirstFor(init, key);
    assert key in l.buckets ==> Add(l, c).buckets[key] == l.buckets[key];
  }

  /** A further contribution under `key` adds its amount and, if new, its dish. */
  lemma BucketStepExisting(l: Ledger, init: seq<Contribution>, c: Contribution, key: string)
    requires BucketMatches(l, init, key) && c.key == key && key in l.buckets
    ensures BucketMatches(Add(l, c), init + [c], key)
  {
    var cs := init + [c];
    assert cs[..|cs| - 1] == init;
    assert FirstFor(cs, key) == FirstFor(init, key);
    var rs := RecipesFor(cs, key);
    assert rs == RecipesFor(init, key) + [c.recipe];
    assert rs[..|rs| - 1] == RecipesFor(init, key);
    assert AppendNew([], rs) == var d := AppendNew([], RecipesFor(init, key)); if c.recipe in d then d else d + [c.recipe];
  }

  /** The first contribution under `key` opens its bucket with its own amount, unit, category and dish. */
  lemma BucketStepFresh(l: Ledger, init: seq<Contribution>, c: Contribution, key: string)
    requires BucketMatches(l, init, key) && c.key == key && key !in l.buckets
    ensures BucketMatches(Add(l, c), init + [c], key)
  {
    var cs := init + [c];
    assert cs[..|cs| - 1] == init;
    NothingContributed(init, key);
    assert FirstFor(cs, key) == Some(c);
    var rs := RecipesFor(cs, key);
    assert rs == [c.recipe];
    assert rs[..0] == [];
    assert AppendNew([], rs) == [c.recipe];
  }

  lemma {:induction false} NothingContributed(cs: seq<Contribution>, key: string)
    requires FirstFor(cs, key).None?
    ensures SumFor(cs, key) == 0.0 && RecipesFor(cs, key) == []
    decreases |cs|
  {
    if |cs| > 0 {
      NothingContributed(cs[..|cs| - 1], key);
    }
  }

  // ---------------------------------------------------------------- the list

  /** Totals in g or ml from 1000 up are divided by 1000; the unit text is not changed. */
  function Rescaled(total: real, u: Unit): (r: real)
    ensures (u == G || u == Ml) && total >= 1000.0 ==> r * 1000.0 == total
    ensures !((u == G || u == Ml) && total >= 1000.0) ==> r == total
  {
    if u == G && total >= 1000.0 then total / 1000.0
    else if u == Ml && total >= 1000.0 then total / 1000.0
    else total
  }

  /** The list line of one bucket. */
  function ItemOf(key: string, b: Bucket): ShoppingItem {
    ShoppingItem(ItemName(key), FormatNumber(Rescaled(b.total, b.unit)), b.category, b.recipes)
  }

  /** `Array.from(ingredientMap.entries()).map(...)`: one line per bucket, in key order. */
  function ItemsOf(l: Ledger): (r: seq<ShoppingItem>)
    requires forall k :: 0 <= k < |l.keys| ==> l.keys[k] in l.buckets
    ensures |r| == |l.keys|
    ensures forall k :: 0 <= k < |r| ==> r[k] == ItemOf(l.keys[k], l.buckets[l.keys[k]])
  {
    seq(|l.keys|, k requires 0 <= k < |l.keys| => ItemOf(l.keys[k], l.buckets[l.keys[k]]))
  }

  /** `categoryOrder`: meat, vegetable, seasoning, other. */
  function CategoryRank(c: IngredientCategory): nat {
    match c
    case Meat => 0
    case Vegetable => 1
    case Seasoning => 2
    case Other => 3
  }

  function InCategory(c: IngredientCategory): ShoppingItem -> bool {
    (x: ShoppingItem) => x.category == c
  }

  /** The stable sort by `categoryOrder`: each category's lines, in their order, one category after another. */
  function SortByCategory(items: seq<ShoppingItem>): seq<ShoppingItem> {
    Filter(items, InCategory(Meat)) + Filter(items, InCategory(Vegetable))
    + Filter(items, InCategory(Seasoning)) + Filter(items, InCategory(Other))
  }

  lemma SortByCategorySorted(items: seq<ShoppingItem>)
    ensures var r := SortByCategory(items);
      forall a, b :: 0 <= a < b < |r| ==> CategoryRank(r[a].category) <= CategoryRank(r[b].category)
  {
    var m, v, s, o := Filter(items, InCategory(Meat)), Filter(items, InCategory(Vegetable)),
                      Filter(items, InCategory(Seasoning)), Filter(items, InCategory(Other));
    var r := SortByCategory(items);
    forall k | 0 <= k < |r|
      ensures CategoryRank(r[k].category) == if k < |m| then 0 else if k < |m| + |v| then 1
                                     else if k < |m| + |v| + |s| then 2 else 3
    {
      if k < |m| {
        assert r[k] == m[k];
      } else if k < |m| + |v| {
        assert r[k] == v[k - |m|];
      } else if k < |m| + |v| + |s| {
        assert r[k] == s[k - |m| - |v|];
      } else {
        assert r[k] == o[k - |m| - |v| - |s|];
      }
    }
  }

  /** The sort loses and adds no line. */
  lemma SortByCategoryPermutes(items: seq<ShoppingItem>)
    ensures multiset(SortByCategory(items)) == multiset(items)
  {
    forall x | true
      ensures multiset(SortByCategory(items))[x] == multiset(items)[x]
    {
      PermutesAt(items, x);
    }
  }

  /** One line's multiplicity: only its own category's part holds it, as often as the input does. */
  lemma PermutesAt(items: seq<ShoppingItem>, x: ShoppingItem)
    ensures multiset(SortByCategory(items))[x] == multiset(items)[x]
  {
    var m, v, s, o := Filter(items, InCategory(Meat)), Filter(items, InCategory(Vegetable)),
                      Filter(items, InCategory(Seasoning)), Filter(items, InCategory(Other));
    FilterMultiset(items, InCategory(Meat), x);
    FilterMultiset(items, InCategory(Vegetable), x);
    FilterMultiset(items, InCategory(Seasoning), x);
    FilterMultiset(items, InCategory(Other), x);
    assert multiset(SortByCategory(items)) == multiset(m) + multiset(v) + multiset(s) + multiset(o);
  }

  /** The sort is stable: the lines of one category keep their relative order. */
  lemma SortByCategoryStable(items: seq<ShoppingItem>, c: IngredientCategory)
    ensures Filter(SortByCategory(items), InCategory(c)) == Filter(items, InCategory(c))
  {
    var m, v, s, o := Filter(items, InCategory(Meat)), Filter(items, InCategory(Vegetable)),
                      Filter(items, InCategory(Seasoning)), Filter(items, InCategory(Other));
    var f := InCategory(c);
    FilterFour(m, v, s, o, f);
    OneCategory(items, Meat, c);
    OneCategory(items, Vegetable, c);
    OneCategory(items, Seasoning, c);
    OneCategory(items, Other, c);
    assert SortByCategory(items) == m + v + s + o;
    PickOne(Filter(m, f), Filter(v, f), Filter(s, f), Filter(o, f), Filter(items, f), c);
  }

  /** Of four parts of which only the one of category `c` is not emptied, the sum is that part. */
  lemma PickOne(a: seq<ShoppingItem>, b: seq<ShoppingItem>, d: seq<ShoppingItem>, e: seq<ShoppingItem>,
                x: seq<ShoppingItem>, c: IngredientCategory)
    requires a == if Meat == c then x else []
    requires b == if Vegetable == c then x else []
    requires d == if Seasoning == c then x else []
    requires e == if Other == c then x else []
    ensures a + b + d + e == x
  {
    match c
    case Meat => assert a + [] + [] + [] == x;
    case Vegetable => assert [] + b + [] + [] == x;
    case Seasoning => assert [] + [] + d + [] == x;
    case Other => assert [] + [] + [] + e == x;
  }

  lemma OneCategory(items: seq<ShoppingItem>, d: IngredientCategory, c: IngredientCategory)
    ensures Filter(Filter(items, InCategory(d)), InCategory(c)) == if d == c then Filter(items, InCategory(c)) else []
  {
    var f := Filter(items, InCategory(d));
    if d == c {
      FilterKeepsAll(f, InCategory(c));
    } else {
      FilterNone(f, InCategory(c));
    }
  }

  lemma {:induction false} FilterNone(s: seq<ShoppingItem>, f: ShoppingItem -> bool)
    requires forall k :: 0 <= k < |s| ==> !f(s[k])
    ensures Filter(s, f) == []
  {
    if |s| > 0 {
      FilterNone(s[1..], f);
    }
  }

  /** The shopping list of `calculateIngredients`. */
  function ShoppingList(recipes: seq<Recipe>, peopleCount: int): seq<ShoppingItem>
    requires Servable(recipes)
  {
    var cs := AllContributions(recipes, peopleCount);
    LedgerKeys(cs);
    SortByCategory(ItemsOf(Accumulate(cs)))
  }

  /**
   * What the list holds, line by line: before sorting, line `k` is the bucket of
   * the `k`-th distinct key, with the rescaled sum of its amounts written out,
   * the category of its first contribution and its dishes without repeats.
   */
  lemma ShoppingListContents(recipes: seq<Recipe>, peopleCount: int)
    requires Servable(recipes)
    ensures var cs := AllContributions(recipes, peopleCount);
      var keys := AppendNew([], KeysOf(cs));
      var r := ShoppingList(recipes, peopleCount);
      Distinct(keys)
      && exists lines: seq<ShoppingItem> ::
           multiset(r) == multiset(lines) && |lines| == |keys|
           && (forall k :: 0 <= k < |keys| ==>
                 FirstFor(cs, keys[k]).Some?
                 && lines[k] == ShoppingItem(ItemName(keys[k]),
                                  FormatNumber(Rescaled(SumFor(cs, keys[k]), FirstFor(cs, keys[k]).value.unit)),
                                  FirstFor(cs, keys[k]).value.category,
                                  AppendNew([], RecipesFor(cs, keys[k]))))
  {
    var cs := AllContributions(recipes, peopleCount);
    var l := Accumulate(cs);
    LedgerKeys(cs);
    var lines := ItemsOf(l);
    forall k | 0 <= k < |l.keys|
      ensures FirstFor(cs, l.keys[k]).Some?
      ensures lines[k] == ShoppingItem(ItemName(l.keys[k]),
                            FormatNumber(Rescaled(SumFor(cs, l.keys[k]), FirstFor(cs, l.keys[k]).value.unit)),
                            FirstFor(cs, l.keys[k]).value.category,
                            AppendNew([], RecipesFor(cs, l.keys[k])))
    {
      LedgerBucket(cs, l.keys[k]);
    }
    SortByCategoryPermutes(lines);
  }
}
