/**
 * `DataProvider`: the rows the app reads back from the database and how
 * an inventory row becomes the `InventoryItem` the inventory screen shows.
 */
module DataProvider {
  import opened Wrappers
  import opened Text
  import opened Uuids
  import opened Models

  /** `DBRecipeSummaryRow` */
  datatype RecipeSummary = RecipeSummary(
    recipeId: Uuid, recipeName: string, cuisine: Option<string>, cookTime: Option<int>,
    servings: Option<int>, photoUrl: Option<string>, shortageItemsCount: int, canCook: bool)

  /** `DBRecipeRequirementRow` */
  datatype RequirementRow = RequirementRow(
    ingredientName: string, requiredAmount: Option<int>, requiredUnit: string,
    inStockAmount: Option<real>, shortageAmount: Option<real>,
    recipeId: Option<Uuid>, recipeName: Option<string>)

  /** The joined `ingredients` columns of an inventory row. */
  datatype JoinedIngredient = JoinedIngredient(name: Option<string>, category: Option<string>, unit: Option<string>)

  /** `InventoryRow`: a row of `inventory` with its ingredient joined in. */
  datatype InventoryRow = InventoryRow(
    id: Option<Uuid>, userId: Option<Uuid>, ingredientId: Option<Uuid>, quantity: Option<real>,
    unit: Option<string>, expiresAt: Option<string>, updatedAt: Option<string>,
    ingredients: Option<JoinedIngredient>)

  const DefaultCategory := "その他"
  const UnknownIdLabel := "unknown"
  const IdNamePrefix := "食材ID: "

  /** `DBRecipeRequirementRow.id`: the ingredient name and the unit, joined by '|'. */
  function RequirementId(row: RequirementRow): string {
    row.ingredientName + "|" + row.requiredUnit
  }

  /** While names hold no '|', distinct (name, unit) pairs get distinct ids. */
  lemma RequirementIdInjective(a: RequirementRow, b: RequirementRow)
    requires '|' !in a.ingredientName && '|' !in b.ingredientName
    requires RequirementId(a) == RequirementId(b)
    ensures a.ingredientName == b.ingredientName && a.requiredUnit == b.requiredUnit
  {
    var s := RequirementId(a);
    var n, m := |a.ingredientName|, |b.ingredientName|;
    assert s[n] == '|' && s[m] == '|';
    assert a.ingredientName == s[..n] == b.ingredientName;
    assert a.requiredUnit == s[n + 1..] == b.requiredUnit;
  }

  datatype DecodeError = EmptyResponse | Malformed(description: string)

  /** `decodeResponse(data:)`: no body is an error before any decoding is tried. */
  function DecodeResponse<T>(data: Option<seq<Byte>>, decode: seq<Byte> -> Result<T, DecodeError>)
    : (r: Result<T, DecodeError>)
    ensures data.None? ==> r == Err(EmptyResponse)
    ensures data.Some? ==> r == decode(data.value)
  {
    match data
    case None => Err(EmptyResponse)
    case Some(bytes) => decode(bytes)
  }

  /** `emojiFor(category:)`: the first of 肉, 魚, 野菜, 果 the category contains picks the emoji. */
  function EmojiFor(category: string): (e: string)
    ensures Contains(category, "肉") ==> e == "🍗"
    ensures !Contains(category, "肉") && Contains(category, "魚") ==> e == "🐟"
    ensures !Contains(category, "肉") && !Contains(category, "魚") && Contains(category, "野菜") ==> e == "🥕"
    ensures (!Contains(category, "肉") && !Contains(category, "魚") && !Contains(category, "野菜") &&
             Contains(category, "果")) ==> e == "🍎"
    ensures e == "🥫" <==>
      !Contains(category, "肉") && !Contains(category, "魚") && !Contains(category, "野菜") && !Contains(category, "果")
  {
    if Contains(category, "肉") then "🍗"
    else if Contains(category, "魚") then "🐟"
    else if Contains(category, "野菜") then "🥕"
    else if Contains(category, "果") then "🍎"
    else "🥫"
  }

  /** The gauge: a fifth of the quantity, clamped to [0, 1]. */
  function Fill(quantity: Option<real>): (f: real)
    ensures 0.0 <= f <= 1.0
    ensures quantity.None? ==> f == 0.0
    ensures quantity.Some? && 0.0 <= quantity.value <= 5.0 ==> f == quantity.value / 5.0
  {
    var raw := quantity.GetOr(0.0) / 5.0;
    var low := if raw < 0.0 then 0.0 else raw;
    if low < 1.0 then low else 1.0
  }

  /** The quantity text; `format` stands for Swift's rendering of a `Double`. */
  function QuantityLabel(quantity: Option<real>, unit: Option<string>, format: real -> string): (text: string)
    ensures quantity.Some? && unit.Some? && unit.value != [] ==> text == format(quantity.value) + unit.value
    ensures quantity.Some? && (unit.None? || unit.value == []) ==> text == format(quantity.value)
    ensures quantity.None? ==> text == unit.GetOr("")
  {
    match quantity
    case Some(q) => if unit.Some? && unit.value != [] then format(q) + unit.value else format(q)
    case None => unit.GetOr("")
  }

  /** The name shown for a row: the joined name, else a label made from the ingredient id. */
  function DisplayName(row: InventoryRow): string {
    if row.ingredients.Some? && row.ingredients.value.name.Some? then row.ingredients.value.name.value
    else IdNamePrefix + (if row.ingredientId.Some? then Format(row.ingredientId.value)[..8] else UnknownIdLabel)
  }

  function Category(row: InventoryRow): string {
    if row.ingredients.Some? && row.ingredients.value.category.Some? then row.ingredients.value.category.value
    else DefaultCategory
  }

  /**
   * `InventoryRow.toDomain()`. `format` renders a quantity; `freshId` is
   * the UUID drawn when the row has no id.
   */
  function ToDomain(row: InventoryRow, format: real -> string, freshId: Uuid): (item: InventoryItem)
    ensures item.id == row.id.GetOr(freshId)
    ensures 0.0 <= item.fill <= 1.0 && (row.quantity.None? ==> item.fill == 0.0)
    ensures item.category == (if row.ingredients.Some? then row.ingredients.value.category else None).GetOr(DefaultCategory)
    ensures item.emoji == EmojiFor(item.category)
    ensures !item.alert && item.location.None? && item.expiresAt == row.expiresAt
    ensures item.quantityLabel == QuantityLabel(row.quantity, row.unit, format)
  {
    InventoryItem(
      row.id.GetOr(freshId), DisplayName(row), QuantityLabel(row.quantity, row.unit, format),
      Fill(row.quantity), EmojiFor(Category(row)), Category(row), false, row.expiresAt, None)
  }

  /**
   * Without a joined name, the name is "食材ID: " and the first eight
   * upper-case hex digits of the ingredient id (its first four bytes), or
   * "食材ID: unknown" without one.
   */
  lemma ToDomainName(row: InventoryRow, format: real -> string, freshId: Uuid)
    ensures row.ingredients.Some? && row.ingredients.value.name.Some? ==>
      ToDomain(row, format, freshId).name == row.ingredients.value.name.value
    ensures !(row.ingredients.Some? && row.ingredients.value.name.Some?) && row.ingredientId.Some? ==>
      ToDomain(row, format, freshId).name == IdNamePrefix + HexBytes(row.ingredientId.value[..4])
    ensures !(row.ingredients.Some? && row.ingredients.value.name.Some?) && row.ingredientId.None? ==>
      ToDomain(row, format, freshId).name == IdNamePrefix + UnknownIdLabel
  {
    if row.ingredientId.Some? {
      var u := row.ingredientId.value;
      assert Format(u)[..8] == HexBytes(u[..4]);
    }
  }
}
