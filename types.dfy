/** The records the parser produces and the recommender consumes. */
module Types {

  /** `Recipe['category']`: the coarse dish class used for menu balancing. */
  datatype Category = MeatDish | Aquatic | Vegetarian | Soup | Drink | Dessert

  /** `Recipe['difficulty']`, derived from the ingredient and step counts. */
  datatype Difficulty = Easy | Medium | Hard

  /**
   * `Ingredient['unit']`: g, kg, ml, l, 个 (Ge), 只 (Zhi), 片 (Pian), 根 (Gen)
   * and the unspecified unit 适量 (Shiliang).
   */
  datatype Unit = G | Kg | Ml | L | Ge | Zhi | Pian | Gen | Shiliang

  /** `Ingredient['category']`, inferred from keywords in the ingredient name. */
  datatype IngredientCategory = Meat | Vegetable | Seasoning | Other

  /** The text of a unit, as the `Ingredient` type spells it. */
  function UnitName(u: Unit): string {
    match u
    case G => "g"
    case Kg => "kg"
    case Ml => "ml"
    case L => "l"
    case Ge => "个"
    case Zhi => "只"
    case Pian => "片"
    case Gen => "根"
    case Shiliang => "适量"
  }

  /** The sentinel amount "appropriate amount". */
  const Sentinel: string := "适量"

  /** An ingredient line: `amount` is a numeral or the sentinel. */
  datatype Ingredient = Ingredient(name: string, amount: string, unit: Unit, category: IngredientCategory)

  /** One parsed recipe document. The optional description is "" when absent. */
  datatype Recipe = Recipe(
    id: string,
    name: string,
    category: Category,
    difficulty: Difficulty,
    cookingTime: int,
    servings: int,
    ingredients: seq<Ingredient>,
    steps: seq<string>,
    images: seq<string>,
    description: string)

  /** A shopping-list line: the total is written as text. */
  datatype ShoppingItem = ShoppingItem(
    name: string,
    totalAmount: string,
    category: IngredientCategory,
    recipes: seq<string>)
}
