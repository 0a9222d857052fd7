# whatToCook core in Dafny

This project models the logic at the core of the whatToCook recipe app and
proves properties of that model. It covers three parts:

- the Markdown recipe parser (`RecipeParser`), which turns one HowToCook
  document and its path into a `Recipe`;
- the menu recommender (`MenuRecommender`), which picks a category-balanced
  menu for a number of people and totals the ingredients of a menu into a
  shopping list;
- the path helpers of the recipe loader, which normalise paths and look up
  an image reference among the bundled assets.

Modules, in dependency order:

| module | file | contents |
|---|---|---|
| `Wrappers` | wrappers.dfy | `Option` |
| `Seqs` | seqs.dfy | `filter`, the first-seen order of a `Map`'s keys, duplicate-freedom |
| `Text` | text.dfy | the JavaScript string primitives used: `\s`, `trim`, `includes`, `split`, `join`, ASCII case mapping |
| `Numbers` | numbers.dfy | `parseFloat`, and the `toString`/`toFixed(1)` formatting of amounts, on exact reals |
| `Types` | types.dfy | `Recipe`, `Ingredient`, `ShoppingItem` and their enumerations |
| `Matchers` | matchers.dfy | each regular expression of the parser, written as the search a backtracking engine performs |
| `RecipeParser` | recipe_parser.dfy | `parseMarkdown` and its helpers |
| `Shopping` | shopping.dfy | the reference definition of the shopping list: buckets, sums, rescaling, ordering |
| `Recommendation` | recommender.dfy | the class `MenuRecommender`, the shuffle, the preferences and menu sizes |
| `Loader` | loader.dfy | `normalizePath`, `toLowerExt`/`toUpperExt`, `resolveImageUrl` |

Where the source works step by step, the model does too. The line loops of
`parseIngredients` and `parseSteps` are methods, and so are the filling of
the merge map, `parseMarkdown`'s field-by-field assignments, the
Fisher–Yates swaps on an `array`, and the pushes of `buildBalancedMenu`. The
bucket map of `calculateIngredients` and the stack loop of `normalizePath`
are methods as well. The parsing, merging, shuffling, filtering,
shopping-list and path methods are each proved equal to a function that
states what they compute, and the source's promises are proved about those
functions as lemmas. The menu-building methods (`CategoryPass`, `FillUp`,
`ForceSoup`, `BuildBalancedMenu`, `RecommendMenu` and `ChooseOfCategory`)
have no such function: which dishes they pick depends on the random draws,
so they are specified by the properties they ensure instead. Those
properties are that the picks come from the candidates, that no dish
appears twice, that the menu has length min(target, candidates), and that
the category pass is balanced and covering.

Modelling choices:

- A dish is identified by its position in the corpus. This stands for the
  object identity that `menu.includes(recipe)` compares.
- `Math.random()` is a stream `rand: nat -> Draw` of numbers in [0, 1). Each
  method that draws takes the position of its first draw. Apart from
  `ChooseOfCategory`, it also returns the position after its last one.
  `ChooseOfCategory` draws at most once at the position it is given, and
  its caller `CategoryPass` advances the position.
- Numbers are exact reals. `parseFloat` is the longest-prefix decimal reader
  (`Numbers.ParseFloat`); it does not read the `Infinity` prefixes.

Where the code does not do what its own comments announce, the model
follows the code:

- The comment at src/utils/recipeParser.ts:136 announces a pattern for
  ranges such as "1-2 个". But an ingredient line such as "辣椒 1-2 个" is
  taken by the `name number rest` pattern before the range pattern is
  tried. The amount is the first number and the unit text "-2 个" reads as
  适量, so the range average is not produced:
  `RecipeParser.RangeLineKeepsFirstNumber` exhibits the line. On every line
  without an internal line terminator, `Matchers.RangeShadowed` proves that
  the range pattern never decides. The lemma does not cover a line with a
  U+2028 or U+2029 inside, which `\s` matches and `.` does not.
- The comment "确保有汤品" at src/utils/menuRecommender.ts:170 announces that a
  soup is ensured for larger parties. But the forced-soup step of
  `buildBalancedMenu` never adds anything. When a soup is among the
  candidates, the category pass has already put one on the menu
  (`Recommendation.SoupKept`). So `ForceSoup` returns the menu unchanged
  inside `BuildBalancedMenu`, and the menu never exceeds the target. The
  soup is not always kept, though. For four people the target is 3, and
  when the category pass takes all four categories with the soup last,
  `slice(0, 3)` drops it (`Recommendation.CutCanDropSoup`). From five
  people up the target is at least 4, and the final menu holds a soup
  whenever a candidate is one (`Recommendation.SoupFromFourDishes`, an
  ensures of `RecommendMenu`). Nor is there always exactly one soup: the
  fill-up picks any candidate not yet on the menu, so it can add a second
  soup.
- The comment "回退" at src/utils/recipeParser.ts:39-40 announces a fallback
  that uses the ingredient names when no quantities are found. But the
  fallback re-parse changes nothing: an empty merge means an empty names
  list (`RecipeParser.MergedEmpty`).

Other behaviour of the code that the model keeps as written:

- A shopping-list line shows its key only up to the first underscore. An
  ingredient name containing `_` is therefore cut short
  (`Shopping.ItemNameCutsAtUnderscore`).
- g and ml totals of 1000 or more are divided by 1000 and keep their unit.
- Any name containing 鸡 is meat, 鸡蛋 included.

## Model

| member | source | states |
|---|---|---|
| RecipeParser.ParseMarkdown | src/utils/recipeParser.ts:5-94 | the recipe of a document: every field is the value its step defines (name from the title or file name, id the slug of the name, description, merged ingredients, steps, images, category from the path), difficulty and cooking time come from the ingredient and step counts, and servings is 2 |
| RecipeParser.ParseName | src/utils/recipeParser.ts:18-25 | the name is the cleaned first `# ` title line, and without one the cleaned file name with `.md` dropped and `-`/`_` turned into spaces |
| RecipeParser.TitleNameHasNoMarkers | src/utils/recipeParser.ts:18-20 | a name taken from a title line contains none of 做法, 制作方法, 制作步骤 |
| Matchers.FirstLineCapture | src/utils/recipeParser.ts:18 | a captured title or description line is non-empty and holds no line terminator |
| RecipeParser.ParseDescription | src/utils/recipeParser.ts:28-31 | the description is the trimmed first `>` line, or empty when there is none |
| RecipeParser.ParseAllIngredients | src/utils/recipeParser.ts:34-42 | the ingredients are the names section (names allowed) merged with the quantities section (names not allowed), including the fallback re-parse |
| RecipeParser.ParseAllSteps | src/utils/recipeParser.ts:45-48 | the steps are those of the steps section, or none without one |
| RecipeParser.ImagesFrom | src/utils/recipeParser.ts:50-56 | every image target kept is non-empty |
| RecipeParser.ImagesAreTargets | src/utils/recipeParser.ts:50-55 | the images are exactly the `(.+?)` targets of the successive matches of the global search, one per match and in document order; `.filter(Boolean)` drops none of them |
| RecipeParser.UrlAtIsTarget | src/utils/recipeParser.ts:52-54 | matching the text of one match again captures the target the global search found for it, and that target is not empty |
| RecipeParser.ImageMatchesAreMatches | src/utils/recipeParser.ts:50 | every match of the global search is an image reference at or after the start; the first is the first reference there, and there is no match only when there is no reference |
| RecipeParser.ImageMatchesOrdered | src/utils/recipeParser.ts:50 | the matches come in document order without overlapping: each starts after the one before it has closed |
| Matchers.ImageWindow | src/utils/recipeParser.ts:50-53 | the text of a match, cut out on its own, matches again at its start with the target in the same place |
| Matchers.AltScanFinds | src/utils/recipeParser.ts:50 | the lazy `.*?` inside `!\[.*?\]` stops at the first `]` on the line from which `\((.+?)\)` matches |
| Matchers.AltScanNone | src/utils/recipeParser.ts:50 | a reference fails only when `\]\((.+?)\)` matches from no `]` on the line |
| RecipeParser.PathBeforeName | src/utils/recipeParser.ts:60-74 | when a path segment rule fires, the category is the first firing segment rule's and the name keywords play no part; only when none fires do the keyword rules decide |
| RecipeParser.NothingFires | src/utils/recipeParser.ts:67-74 | with no segment and no keyword the category stays meat_dish |
| RecipeParser.DifficultyFor | src/utils/recipeParser.ts:77-78 | easy iff at most 5 ingredients and at most 5 steps; hard iff not easy and 10 or more of either; medium otherwise |
| RecipeParser.DifficultyMonotone | src/utils/recipeParser.ts:77-78 | more ingredients or more steps never make a recipe easier |
| RecipeParser.CookingTime | src/utils/recipeParser.ts:81 | the time is at least 15 and at least 5 per step, and equals one of the two |
| RecipeParser.FindSection | src/utils/recipeParser.ts:101-109 | a section is found exactly when a matching `##` header exists, and it is the section starting at the first such header |
| RecipeParser.SectionAt | src/utils/recipeParser.ts:104-108 | a section is a non-empty piece of the document from its header on that stops where the first `\n##+\s+` header after its first character begins, and runs to the end when no such header follows |
| RecipeParser.ParseIngredients | src/utils/recipeParser.ts:112-175 | the loop collects, in order, the ingredient each line of the section yields |
| RecipeParser.IngredientOfLine | src/utils/recipeParser.ts:116-171 | only a kept line (not blank, not a heading) yields an ingredient, and with bare names allowed every kept line yields one |
| RecipeParser.IngredientsPerLine | src/utils/recipeParser.ts:116-171 | at most one ingredient per kept line, exactly one when bare names are allowed |
| RecipeParser.SkippedLinesAddNothing | src/utils/recipeParser.ts:117-118 | a blank or heading line adds neither an ingredient nor a step |
| Matchers.MatchQuantity | src/utils/recipeParser.ts:124 | the captures of the quantity pattern lie in order inside the line |
| Matchers.RangeShadowed | src/utils/recipeParser.ts:124-137 | on a line without an internal line terminator, every line the range pattern matches is matched by the quantity pattern first |
| Matchers.RangeLeavesText | src/utils/recipeParser.ts:137 | a range match leaves text after its first number |
| RecipeParser.RangeLineKeepsFirstNumber | src/utils/recipeParser.ts:124-134 | "辣椒 1-2 个" becomes 辣椒 with amount "1", unit 适量 and category vegetable |
| RecipeParser.ParseSteps | src/utils/recipeParser.ts:178-197 | the loop collects, in order, the step each line of the section yields |
| RecipeParser.StepOfLine | src/utils/recipeParser.ts:182-194 | a line yields a step exactly when it is kept |
| RecipeParser.StepsPerLine | src/utils/recipeParser.ts:182-194 | exactly one step per kept line |
| RecipeParser.StepIsContent | src/utils/recipeParser.ts:186-193 | every step is non-empty and trimmed |
| Matchers.StepMarker | src/utils/recipeParser.ts:186-188 | after a `N. `, `N、` or bullet marker, the step text is the non-empty, terminator-free rest of the line |
| RecipeParser.ParseUnitSpellings | src/utils/recipeParser.ts:200-208 | a text reads as a unit exactly when it is one of that unit's spellings in the table, and as 适量 exactly when it is none (inherited property names excepted, see "## Left out") |
| RecipeParser.Categorize | src/utils/recipeParser.ts:211-221 | meat iff a meat keyword occurs; vegetable iff none does and a vegetable keyword occurs; seasoning iff neither and a seasoning keyword occurs |
| RecipeParser.ChickenIsMeat | src/utils/recipeParser.ts:212-216 | any name containing 鸡 is meat |
| RecipeParser.EggIsMeat | src/utils/recipeParser.ts:216 | 鸡蛋 is meat |
| RecipeParser.ChiliIsVegetable | src/utils/recipeParser.ts:212-217 | 辣椒 is a vegetable |
| RecipeParser.GenerateId | src/utils/recipeParser.ts:224-226 | an id has no white space and no ASCII capital |
| RecipeParser.GenerateIdIdempotent | src/utils/recipeParser.ts:224-226 | the id of an id is itself |
| RecipeParser.GenerateIdWithoutSpace | src/utils/recipeParser.ts:224-226 | a name without white space only has its ASCII letters lowered |
| RecipeParser.SanitizeTitleIsTrimmedPrefix | src/utils/recipeParser.ts:229-239 | the cleaned title is trimmed and is a piece of the raw title preceded only by white space |
| RecipeParser.SanitizeTitleDropsMarkers | src/utils/recipeParser.ts:229-235 | a one-line title keeps nothing of 做法, 制作方法 or 制作步骤 |
| RecipeParser.MergeIngredientQuantities | src/utils/recipeParser.ts:242-257 | the map-filling loops compute the merge |
| RecipeParser.MergedContents | src/utils/recipeParser.ts:243-256 | with quantities present, each name appears once, names-section names first and then new quantity names, each in first-seen order; an entry keeps its category and takes amount and unit from the last quantity of its name |
| RecipeParser.MergedEmpty | src/utils/recipeParser.ts:38-42 | the merge is empty only when the names list is |
| Numbers.ParseNatToString | src/utils/menuRecommender.ts:57 | a whole amount written out reads back exactly through `parseFloat` |
| Numbers.FormatNumberReadsBack | src/utils/menuRecommender.ts:85 | a non-negative total written as amount text reads back within a twentieth of its value |
| Shopping.KeyInjective | src/utils/menuRecommender.ts:48 | two ingredients share a bucket key only when name and unit are equal |
| Shopping.ItemNameOfKey | src/utils/menuRecommender.ts:73 | an underscore-free name comes back whole from its key |
| Shopping.ItemNameCutsAtUnderscore | src/utils/menuRecommender.ts:73 | the name a_b is listed as a |
| Shopping.AmountOf | src/utils/menuRecommender.ts:57-60 | 适量 counts as 1, and an amount `parseFloat` cannot read counts as 0 (an `Infinity` prefix counts as 0 too) |
| Shopping.LedgerKeys | src/utils/menuRecommender.ts:44-69 | the buckets are keyed by the contributed keys in first-encounter order, without repeats |
| Shopping.LedgerBucket | src/utils/menuRecommender.ts:44-69 | a key has a bucket exactly when something was contributed under it; the bucket holds the sum of the scaled amounts, the unit and category of the first contribution, and each contributing dish once in first-seen order |
| Shopping.Rescaled | src/utils/menuRecommender.ts:77-81 | g and ml totals of 1000 or more become a thousandth; every other total is unchanged |
| Shopping.ItemsOf | src/utils/menuRecommender.ts:72-88 | one list line per bucket, in key order |
| Shopping.SortByCategorySorted | src/utils/menuRecommender.ts:89-93 | the list is ordered meat, vegetable, seasoning, other |
| Shopping.SortByCategoryPermutes | src/utils/menuRecommender.ts:89-93 | the sort loses and adds no line |
| Shopping.SortByCategoryStable | src/utils/menuRecommender.ts:89-93 | the lines of one category keep their relative order |
| Shopping.ShoppingListContents | src/utils/menuRecommender.ts:41-94 | the list is a rearrangement of one line per distinct key, each with its name, rescaled and formatted sum, first category and dishes |
| Recommendation.Pick | src/utils/menuRecommender.ts:22 | `Math.floor(Math.random() * n)` is an index below n |
| Recommendation.Shuffle | src/utils/menuRecommender.ts:21-24 | the in-place loop leaves the array shuffled as the swap sequence defines and uses one draw per swap |
| Recommendation.ShuffledPermutes | src/utils/menuRecommender.ts:21-24 | the shuffle keeps the length and the multiset of elements |
| Recommendation.ApplyPreferenceMeaning | src/utils/menuRecommender.ts:100-121 | one preference keeps, in order, exactly the dishes it admits: include keeps equal category or difficulty, exclude keeps unequal ones, and a non-zero time bound keeps times up to it |
| Recommendation.SelectedMeaning | src/utils/menuRecommender.ts:97-125 | the filter returns, in corpus order and without repeats, exactly the dishes every preference admits, and the whole corpus when there are no preferences |
| Recommendation.TargetDishCount | src/utils/menuRecommender.ts:183-189 | the target is between 2 and 6 |
| Recommendation.TargetDishCountMonotone | src/utils/menuRecommender.ts:183-189 | more people never get fewer dishes |
| Recommendation.ServingsFor | src/utils/menuRecommender.ts:36 | the servings are at least 1 and, above 1, the ceiling of 0.8 times the people |
| Recommendation.ServingsForIsCeiling | src/utils/menuRecommender.ts:36 | no whole number of at least 1 covering 80% of the people is smaller |
| Recommendation.Recommendations | src/utils/menuRecommender.ts:192-208 | one hint chosen by group size, and a second one from six people up |
| Recommendation.SoupKept | src/utils/menuRecommender.ts:171-177 | when a candidate is a soup, the menu after the category pass already holds a soup |
| Recommendation.SoupFromFourDishes | src/utils/menuRecommender.ts:139-180 | with a target of four or more, a menu of min(target, candidates) distinct candidates with a balanced, covering prefix holds a soup whenever a candidate is one |
| Recommendation.CutCanDropSoup | src/utils/menuRecommender.ts:180 | for four people (target 3), a balanced, covering pass over the four categories with the soup last loses the soup to the cut |
| Recommendation.CutMenu | src/utils/menuRecommender.ts:180 | the cut menu has no repeats, holds only candidates, has length min(target, candidates), and begins with balanced picks that cover every offered category unless the cut reaches into them |
| Recommendation.ChooseOfCategory | src/utils/menuRecommender.ts:140-149 | a dish is found iff a candidate has the category; the dish is such a candidate, and a suitable one whenever the category has one |
| Recommendation.AddDish | src/utils/menuRecommender.ts:44-68 | the inner loop adds the dish's scaled contributions to the buckets |
| Recommendation.AddIngredient | src/utils/menuRecommender.ts:48-67 | one ingredient's scaled amount goes into its bucket as one contribution |
| Recommendation.MenuRecommender.constructor | src/utils/menuRecommender.ts:13-15 | the recommender holds the given corpus |
| Recommendation.MenuRecommender.FilterByPreferences | src/utils/menuRecommender.ts:97-125 | the clause-by-clause loop computes the dishes the preferences select |
| Recommendation.MenuRecommender.CategoryPass | src/utils/menuRecommender.ts:139-154 | the picks are candidates, each suitable when its category allows, at most one per balance category, covering every balance category the candidates offer, one draw per pick |
| Recommendation.MenuRecommender.FillUp | src/utils/menuRecommender.ts:160-168 | the picks stay in front; the further dishes are new candidates; the menu grows to min(target, candidates) unless the picks already reach the target |
| Recommendation.MenuRecommender.ForceSoup | src/utils/menuRecommender.ts:171-177 | from four people, a menu without a soup gets one soup candidate appended when there is one; otherwise the menu is unchanged |
| Recommendation.MenuRecommender.BuildBalancedMenu | src/utils/menuRecommender.ts:128-181 | the menu has no repeats, holds only candidates, has length min(target, candidates), and begins with balanced picks covering every offered category unless the cut reaches into them |
| Recommendation.MenuRecommender.ShuffledCategories | src/utils/menuRecommender.ts:133-137 | the four balance categories come out in shuffled order, each once |
| Recommendation.MenuRecommender.RecommendMenu | src/utils/menuRecommender.ts:18-38 | each returned dish is a selected corpus dish with servings replaced; no dish twice; min(target, selected) dishes, so none when nothing is selected; balanced as above; with a target of four or more, a soup whenever a selected dish is one |
| Recommendation.MenuRecommender.ShuffleCandidates | src/utils/menuRecommender.ts:19-24 | the shuffled candidates are the filtered dishes rearranged, still without repeats |
| Recommendation.MenuRecommender.CalculateIngredients | src/utils/menuRecommender.ts:41-94 | the bucket loops and the sort compute the shopping list |
| Loader.NormalizePath | src/utils/loader.ts:6-15 | the stack loop computes the normalised path |
| Loader.NormalizedForm | src/utils/loader.ts:6-15 | a normalised path starts with `/` and is the root or has only segments that are non-empty, not `.` and not `..` |
| Loader.NormalizedIdempotent | src/utils/loader.ts:6-15 | normalising a normalised path changes nothing |
| Loader.ParentSegment | src/utils/loader.ts:11 | a trailing `..` drops the last kept segment, and at the root it changes nothing |
| Loader.CurrentSegment | src/utils/loader.ts:10 | a trailing `.` changes nothing |
| Loader.ExtensionLength | src/utils/loader.ts:84 | the matched image extension is 4 or 5 characters long starting with the dot, or absent |
| Loader.ToLowerExtChangesCaseOnly | src/utils/loader.ts:83-85 | only the extension changes, character by character to lower case; a path without an image extension comes back unchanged |
| Loader.ToUpperExtChangesCaseOnly | src/utils/loader.ts:87-89 | only the extension changes, character by character to upper case; a path without an image extension comes back unchanged |
| Loader.ToLowerExtAbsorbs | src/utils/loader.ts:83-89 | lowering the extension is idempotent and undoes raising it |
| Loader.RawPathAbsolute | src/utils/loader.ts:66 | the starting path is absolute, and a relative reference is normalised against the base directory |
| Loader.ResolveImageUrl | src/utils/loader.ts:65-81 | the result is the URL of the first candidate with a non-empty URL in the asset map, and none iff no candidate has one |
| Loader.FirstHit | src/utils/loader.ts:76-79 | the result is the URL of the first candidate with a truthy map entry, and there is none exactly when no candidate has one |

## Left out

- `loadAllRecipes` (src/utils/loader.ts:17-63): its build-time `import.meta.glob` loading, the asset map it fills and the `cachedRecipes` memo are build and module state; the model has the helpers it calls.
- src/utils/storage.ts, src/stores/index.ts, src/router/index.ts and src/main.ts are not part of this model: they are browser storage, UI state and routing.
- `getMockRecipes` is demonstration data, not logic.
- RecipeParser.ParseMarkdown: the `try`/`catch` with `console.error` is left out; nothing in the modelled steps throws, so the recipe is always returned.
- Loader.ResolveImageUrl: `encodeURI` and `decodeURI` are function parameters, so the `URIError` that `decodeURI` throws on a malformed escape is not modelled.
- Recommendation.Shuffle: `Math.random()` is an arbitrary stream of numbers in [0, 1); its distribution is not modelled.
- Recommendation.MenuRecommender.RecommendMenu: dishes are corpus positions, so a corpus holding the same object twice, which `includes` treats as one dish, is not modelled.
- Recommendation.MenuRecommender.CalculateIngredients: requires every dish to serve at least one person; with 0 servings the source divides by zero and totals become Infinity or NaN, which exact reals cannot express.
- RecipeParser.ParseUnit: the unit table is a plain object, so `unitMap[unit]` also finds the names it inherits from `Object.prototype` ("toString", "constructor", "valueOf", "hasOwnProperty", "isPrototypeOf", "propertyIsEnumerable", "toLocaleString", "__proto__" and the other `__…__` accessors) and returns a truthy non-string for them. The model reads these texts as 适量, so `RecipeParser.ParseUnitSpellings` does not hold of the source for them, and `Shopping.AmountOf` counts such a line as 1 in the `name_适量` bucket where the source counts its number in a bucket keyed by the function's text.
- Numbers.ParseFloat: the "Infinity", "+Infinity" and "-Infinity" prefixes that JavaScript's `parseFloat` reads are not modelled, because exact reals have no infinity. `Shopping.AmountOf` therefore counts such an amount as 0 where the source totals Infinity.
- Numbers.FormatNumber: totals and averages are exact reals, so binary rounding is not modelled, nor the exponent form `toString` uses from 10^21 on.
- Recommendation.ServingsFor: `peopleCount * 0.8` is computed exactly, and `peopleCount` is an integer.
- RecipeParser.GenerateId: only ASCII letters are lowered, so non-ASCII case mappings of `toLowerCase` are not modelled.
- RecipeParser.Classify: the path is lowered in ASCII only, so special mappings such as U+0130 or the Kelvin sign are not modelled.
- Mutation of the merged entries in place is modelled on values. The name entries it changes are not read again, so nothing observable is lost.
