/** Days until an ingredient expires, and the "expiring soon" predicate.
    Dates are calendar day numbers; the current day is passed in. */
module ExpirationHelper {
  import opened Models

  /** The window used when the caller gives no threshold. */
  const DefaultDaysThreshold: int := 5

  /** Signed number of days from `today` to the expiry date; `None` when the
      ingredient has no expiry date. Same day gives 0, past dates are
      negative. */
  function DaysUntilExpiration(ingredient: Ingredient, today: Day): (r: Option<int>)
    ensures r.None? <==> ingredient.expirationDate.None?
    ensures r.Some? ==> today + r.value == ingredient.expirationDate.value
    ensures r.Some? ==> (r.value == 0 <==> ingredient.expirationDate.value == today)
    ensures r.Some? ==> (r.value < 0 <==> ingredient.expirationDate.value < today)
  {
    match ingredient.expirationDate
    case None => None
    case Some(expiry) => Some(expiry - today)
  }

  /** True when the days left lie in the window [0, daysThreshold]. */
  predicate IsExpiringSoon(ingredient: Ingredient, today: Day, daysThreshold: int := DefaultDaysThreshold) {
    match DaysUntilExpiration(ingredient, today)
    case None => false
    case Some(daysLeft) => daysLeft >= 0 && daysLeft <= daysThreshold
  }

  /** Restated on the dates themselves: the expiry falls between today and
      today + threshold, both inclusive. */
  lemma ExpiringSoonWindow(ingredient: Ingredient, today: Day, daysThreshold: int)
    ensures IsExpiringSoon(ingredient, today, daysThreshold) <==>
      && ingredient.expirationDate.Some?
      && today <= ingredient.expirationDate.value <= today + daysThreshold
  {
  }

  /** An ingredient without an expiry date is never expiring soon. */
  lemma NoDateNeverExpiring(ingredient: Ingredient, today: Day, daysThreshold: int)
    requires ingredient.expirationDate.None?
    ensures !IsExpiringSoon(ingredient, today, daysThreshold)
  {
  }

  /** Already-expired ingredients are not "expiring soon". */
  lemma ExpiredNeverExpiring(ingredient: Ingredient, today: Day, daysThreshold: int)
    requires ingredient.expirationDate.Some? && ingredient.expirationDate.value < today
    ensures !IsExpiringSoon(ingredient, today, daysThreshold)
  {
  }

  /** Widening the window keeps an expiring ingredient expiring. */
  lemma ThresholdMonotone(ingredient: Ingredient, today: Day, t: int, t': int)
    requires t <= t'
    requires IsExpiringSoon(ingredient, today, t)
    ensures IsExpiringSoon(ingredient, today, t')
  {
  }

  /** A negative threshold admits nothing. */
  lemma NegativeThresholdNeverExpiring(ingredient: Ingredient, today: Day, t: int)
    requires t < 0
    ensures !IsExpiringSoon(ingredient, today, t)
  {
  }

  /** Being expiring soon guarantees a day count is present (the null check
      the recommender makes after `isExpiringSoon` never fails). */
  lemma ExpiringHasDaysLeft(ingredient: Ingredient, today: Day, t: int)
    requires IsExpiringSoon(ingredient, today, t)
    ensures DaysUntilExpiration(ingredient, today).Some?
    ensures 0 <= DaysUntilExpiration(ingredient, today).value <= t
  {
  }
}
