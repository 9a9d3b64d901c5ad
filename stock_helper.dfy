/** The low-stock warning. */
module StockHelper {
  import opened Models

  /** At or below this quantity an ingredient counts as low stock. */
  const LowStockLimit: real := 1.0

  /** `isLowStock`: reads the quantity and nothing else. */
  predicate IsLowStock(ingredient: Ingredient) {
    ingredient.quantity <= LowStockLimit
  }

  /** Exactly the quantities up to 1 are low: 0 and 1 are, anything above 1
      is not. */
  lemma LowStockBoundary(ingredient: Ingredient)
    ensures IsLowStock(ingredient) <==> ingredient.quantity <= 1.0
    ensures ingredient.quantity == 1.0 ==> IsLowStock(ingredient)
    ensures ingredient.quantity == 0.0 ==> IsLowStock(ingredient)
    ensures ingredient.quantity > 1.0 ==> !IsLowStock(ingredient)
  {
  }

  /** Only the quantity matters: two ingredients with the same quantity
      agree, whatever their names, units or dates. */
  lemma LowStockOnlyQuantity(a: Ingredient, b: Ingredient)
    requires a.quantity == b.quantity
    ensures IsLowStock(a) == IsLowStock(b)
  {
  }

  /** Downward monotone: less of a low ingredient is still low. */
  lemma LowStockMonotone(ingredient: Ingredient, q: real)
    requires IsLowStock(ingredient) && q <= ingredient.quantity
    ensures IsLowStock(ingredient.(quantity := q))
  {
  }
}
