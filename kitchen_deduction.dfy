/** The cooking transaction on the inventory: the ingredient-only
    feasibility gate with human-readable shortfalls, and the deduction of a
    recipe's required quantities from a copy of the kitchen. */
module KitchenDeduction {
  import opened Models
  import opened RecipeMatcher

  // ---------------------------------------------------------------------
  // Number rendering for the shortfall text
  // ---------------------------------------------------------------------

  /** Fraction digits rendered before the text is cut off. */
  const MaxFractionDigits: nat := 16

  function DigitChar(d: nat): char
    requires d < 10
  {
    "0123456789"[d]
  }

  /** Decimal digits of a natural number, without leading zeros. */
  function NatText(n: nat): string
    decreases n
  {
    if n < 10 then [DigitChar(n)] else NatText(n / 10) + [DigitChar(n % 10)]
  }

  /** Up to `digits` decimal digits of a fraction in [0, 1), stopping as soon
      as the remainder is exactly zero. */
  function FractionText(f: real, digits: nat): string
    requires 0.0 <= f < 1.0
    decreases digits
  {
    if digits == 0 || f == 0.0 then ""
    else
      var scaled := f * 10.0;
      var d := scaled.Floor;
      [DigitChar(d)] + FractionText(scaled - d as real, digits - 1)
  }

  /** The text a quantity takes inside a template string. */
  function NumberText(q: real): string {
    var magnitude := if q < 0.0 then -q else q;
    var whole := magnitude.Floor;
    var fraction := magnitude - whole as real;
    (if q < 0.0 then "-" else "")
      + NatText(whole)
      + (if fraction == 0.0 then "" else "." + FractionText(fraction, MaxFractionDigits))
  }

  // ---------------------------------------------------------------------
  // canCookRecipe
  // ---------------------------------------------------------------------

  /** What one required ingredient contributes to the shortfall list: its
      bare name when the kitchen has no entry of that name, the name with
      the needed and held amounts when the first entry holds too little,
      nothing otherwise. */
  function Shortfall(required: Ingredient, kitchen: seq<Ingredient>): seq<string> {
    match FirstMatch(kitchen, required.name)
    case None => [required.name]
    case Some(i) =>
      if kitchen[i].quantity < required.quantity then
        [ShortfallText(required.name, required.quantity, kitchen[i].quantity)]
      else []
  }

  /** The template `<name> (need <required>, have <held>)`. */
  function ShortfallText(name: string, need: real, have: real): string {
    name + " (need " + NumberText(need) + ", have " + NumberText(have) + ")"
  }

  /** All shortfalls, in recipe order. */
  function Shortfalls(reqs: seq<Ingredient>, kitchen: seq<Ingredient>): seq<string> {
    if reqs == [] then []
    else Shortfalls(reqs[..|reqs| - 1], kitchen) + Shortfall(reqs[|reqs| - 1], kitchen)
  }

  /** `canCookRecipe`: checks required ingredients only (appliances are not
      looked at) and reports every shortfall. */
  method CanCookRecipe(recipe: Recipe, kitchen: KitchenState) returns (canCook: bool, missingItems: seq<string>)
    ensures missingItems == Shortfalls(recipe.requiredIngredients, kitchen.ingredients)
    ensures canCook <==> missingItems == []
  {
    var reqs := recipe.requiredIngredients;
    missingItems := [];
    var i := 0;
    while i < |reqs|
      invariant 0 <= i <= |reqs|
      invariant missingItems == Shortfalls(reqs[..i], kitchen.ingredients)
    {
      assert reqs[..i + 1][..i] == reqs[..i];
      var requiredIng := reqs[i];
      ghost var step := Shortfall(requiredIng, kitchen.ingredients);
      assert Shortfalls(reqs[..i + 1], kitchen.ingredients) == missingItems + step;
      var found := FirstMatch(kitchen.ingredients, requiredIng.name);
      if found.None? {
        missingItems := missingItems + [requiredIng.name];
      } else {
        var kitchenIng := kitchen.ingredients[found.value];
        if kitchenIng.quantity < requiredIng.quantity {
          var text := ShortfallText(requiredIng.name, requiredIng.quantity, kitchenIng.quantity);
          assert step == [text];
          missingItems := missingItems + [text];
        } else {
          assert step == [];
        }
      }
      i := i + 1;
    }
    assert reqs[..i] == reqs;
    canCook := |missingItems| == 0;
  }

  /** The shortfall list and the matcher's missing-ingredient list come from
      the same test: same length, and each shortfall begins with the missing
      name at the same position. */
  lemma {:induction false} ShortfallsAlignWithMissing(reqs: seq<Ingredient>, kitchen: seq<Ingredient>)
    ensures |Shortfalls(reqs, kitchen)| == |MissingIngredients(reqs, kitchen)|
    ensures forall k :: 0 <= k < |Shortfalls(reqs, kitchen)| ==>
      MissingIngredients(reqs, kitchen)[k] <= Shortfalls(reqs, kitchen)[k]
  {
    if reqs != [] {
      var init := reqs[..|reqs| - 1];
      var last := reqs[|reqs| - 1];
      ShortfallsAlignWithMissing(init, kitchen);
      var s, m := Shortfalls(init, kitchen), MissingIngredients(init, kitchen);
      assert |Shortfall(last, kitchen)| == (if HasIngredient(last, kitchen) then 0 else 1);
      if !HasIngredient(last, kitchen) {
        assert last.name <= Shortfall(last, kitchen)[0];
      }
    }
  }

  /** `canCook` holds exactly when the matcher reports no missing
      ingredient (appliances aside). */
  lemma CanCookIffNoMissingIngredients(recipe: Recipe, kitchen: KitchenState)
    ensures Shortfalls(recipe.requiredIngredients, kitchen.ingredients) == []
        <==> Match(recipe, kitchen).missingIngredients == []
  {
    ShortfallsAlignWithMissing(recipe.requiredIngredients, kitchen.ingredients);
  }

  // ---------------------------------------------------------------------
  // applyRecipeToKitchen
  // ---------------------------------------------------------------------

  /** `x` is `y` with at most its quantity changed. */
  predicate SameExceptQuantity(x: Ingredient, y: Ingredient) {
    x == y.(quantity := x.quantity)
  }

  /** One step of the deduction: the first entry named like `required`
      loses the required quantity and is dropped when nothing is left; with
      no such entry the inventory is returned as it is. */
  function DeductOne(ings: seq<Ingredient>, required: Ingredient): seq<Ingredient> {
    match FirstMatch(ings, required.name)
    case None => ings
    case Some(i) =>
      var newQuantity := ings[i].quantity - required.quantity;
      if newQuantity <= 0.0 then ings[..i] + ings[i + 1..]
      else ings[i := ings[i].(quantity := newQuantity)]
  }

  /** What one step does to the list: nothing without a match; otherwise
      the first match either disappears, the entries after it moving up by
      one, or keeps its place and every field but a quantity that is now
      positive, the other entries staying as they were. */
  lemma DeductOneSpec(ings: seq<Ingredient>, required: Ingredient)
    ensures var r := DeductOne(ings, required);
      && (FirstMatch(ings, required.name).None? ==> r == ings)
      && (FirstMatch(ings, required.name).Some? ==>
        var i := FirstMatch(ings, required.name).value;
        var left := ings[i].quantity - required.quantity;
        if left <= 0.0 then
          && |r| == |ings| - 1
          && (forall k :: 0 <= k < i ==> r[k] == ings[k])
          && (forall k :: i <= k < |r| ==> r[k] == ings[k + 1])
        else
          && |r| == |ings|
          && r[i].quantity == left > 0.0
          && SameExceptQuantity(r[i], ings[i])
          && (forall k :: 0 <= k < |r| && k != i ==> r[k] == ings[k]))
  {
    match FirstMatch(ings, required.name)
    case None =>
    case Some(i) =>
      if ings[i].quantity - required.quantity <= 0.0 {
        RemoveAtSpec(ings, i);
      }
  }

  /** Splicing out position `i` moves every later entry up by one. */
  lemma RemoveAtSpec(ings: seq<Ingredient>, i: nat)
    requires i < |ings|
    ensures var r := ings[..i] + ings[i + 1..];
      && |r| == |ings| - 1
      && (forall k :: 0 <= k < i ==> r[k] == ings[k])
      && (forall k :: i <= k < |r| ==> r[k] == ings[k + 1])
  {
  }

  /** The inventory after deducting `reqs` one after another, in order. */
  function DeductAll(reqs: seq<Ingredient>, ings: seq<Ingredient>): seq<Ingredient> {
    if reqs == [] then ings
    else DeductOne(DeductAll(reqs[..|reqs| - 1], ings), reqs[|reqs| - 1])
  }

  /** The `forEach` callback of `applyRecipeToKitchen`: find the first
      match in the working list, then splice it out or overwrite it with the
      reduced quantity. */
  method DeductStep(ings: seq<Ingredient>, required: Ingredient) returns (r: seq<Ingredient>)
    ensures r == DeductOne(ings, required)
  {
    r := ings;
    var kitchenIndex := FirstMatch(r, required.name);
    if kitchenIndex.Some? {
      var k := kitchenIndex.value;
      var newQuantity := r[k].quantity - required.quantity;
      if newQuantity <= 0.0 {
        r := r[..k] + r[k + 1..];
      } else {
        r := r[k := r[k].(quantity := newQuantity)];
      }
    }
  }

  /** `applyRecipeToKitchen`: works on a copy of the ingredient list,
      splicing out or replacing the first match of each required
      ingredient; appliances are copied unchanged. */
  method ApplyRecipeToKitchen(recipe: Recipe, kitchen: KitchenState) returns (updated: KitchenState)
    ensures updated.ingredients == DeductAll(recipe.requiredIngredients, kitchen.ingredients)
    ensures updated.appliances == kitchen.appliances
  {
    var reqs := recipe.requiredIngredients;
    var updatedIngredients := kitchen.ingredients;
    var i := 0;
    while i < |reqs|
      invariant 0 <= i <= |reqs|
      invariant updatedIngredients == DeductAll(reqs[..i], kitchen.ingredients)
    {
      DeductAllStep(reqs, i, kitchen.ingredients);
      updatedIngredients := DeductStep(updatedIngredients, reqs[i]);
      i := i + 1;
    }
    assert reqs[..i] == reqs;
    updated := KitchenState(updatedIngredients, kitchen.appliances);
  }

  /** Deducting one more requirement is one more `DeductOne` step. */
  lemma DeductAllStep(reqs: seq<Ingredient>, i: nat, ings: seq<Ingredient>)
    requires i < |reqs|
    ensures DeductAll(reqs[..i + 1], ings) == DeductOne(DeductAll(reqs[..i], ings), reqs[i])
  {
    assert reqs[..i + 1][..i] == reqs[..i];
  }

  /** The inventory never grows, and loses at most one entry per
      requirement. */
  lemma {:induction false} DeductAllLength(reqs: seq<Ingredient>, ings: seq<Ingredient>)
    ensures |ings| - |reqs| <= |DeductAll(reqs, ings)| <= |ings|
  {
    if reqs != [] {
      DeductAllLength(reqs[..|reqs| - 1], ings);
      DeductOneSpec(DeductAll(reqs[..|reqs| - 1], ings), reqs[|reqs| - 1]);
    }
  }

  ghost predicate AllPositive(ings: seq<Ingredient>) {
    forall k :: 0 <= k < |ings| ==> ings[k].quantity > 0.0
  }

  /** An inventory at rest (every amount positive) stays at rest: entries
      that would reach zero are removed, never kept at zero. */
  lemma {:induction false} DeductAllKeepsPositive(reqs: seq<Ingredient>, ings: seq<Ingredient>)
    requires AllPositive(ings)
    ensures AllPositive(DeductAll(reqs, ings))
  {
    if reqs != [] {
      DeductAllKeepsPositive(reqs[..|reqs| - 1], ings);
      DeductOneSpec(DeductAll(reqs[..|reqs| - 1], ings), reqs[|reqs| - 1]);
    }
  }

  /** Every entry of the result is an entry of the input with, at most, a
      new quantity: ids, names, units, categories, storage and dates are
      untouched and nothing is invented. */
  lemma {:induction false} DeductAllOnlyQuantitiesChange(reqs: seq<Ingredient>, ings: seq<Ingredient>)
    ensures forall x :: x in DeductAll(reqs, ings) ==> exists y :: y in ings && SameExceptQuantity(x, y)
  {
    if reqs != [] {
      var before := DeductAll(reqs[..|reqs| - 1], ings);
      DeductAllOnlyQuantitiesChange(reqs[..|reqs| - 1], ings);
      var after := DeductOne(before, reqs[|reqs| - 1]);
      DeductOneSpec(before, reqs[|reqs| - 1]);
      forall x | x in after
        ensures exists y :: y in ings && SameExceptQuantity(x, y)
      {
        var k :| 0 <= k < |after| && after[k] == x;
        var z: Ingredient;
        if FirstMatch(before, reqs[|reqs| - 1].name).None? {
          z := before[k];
        } else {
          var i := FirstMatch(before, reqs[|reqs| - 1].name).value;
          z := if before[i].quantity - reqs[|reqs| - 1].quantity <= 0.0 then (if k < i then before[k] else before[k + 1]) else before[k];
        }
        assert z in before && SameExceptQuantity(x, z);
        var y :| y in ings && SameExceptQuantity(z, y);
        assert SameExceptQuantity(x, y);
      }
    }
  }

  /** `ing` is named like none of the requirements. */
  predicate Unrelated(ing: Ingredient, reqs: seq<Ingredient>) {
    forall r :: r in reqs ==> !SameName(ing.name, r.name)
  }

  /** The entries named like none of the requirements, in order. */
  function UnrelatedEntries(ings: seq<Ingredient>, reqs: seq<Ingredient>): seq<Ingredient> {
    if ings == [] then []
    else (if Unrelated(ings[0], reqs) then [ings[0]] else []) + UnrelatedEntries(ings[1..], reqs)
  }

  lemma {:induction false} UnrelatedEntriesConcat(a: seq<Ingredient>, b: seq<Ingredient>, reqs: seq<Ingredient>)
    ensures UnrelatedEntries(a + b, reqs) == UnrelatedEntries(a, reqs) + UnrelatedEntries(b, reqs)
  {
    if a == [] {
      assert a + b == b;
    } else {
      var x, rest := a[0], a[1..];
      assert a == [x] + rest;
      assert a + b == [x] + (rest + b);
      UnrelatedEntriesCons(x, rest + b, reqs);
      UnrelatedEntriesCons(x, rest, reqs);
      UnrelatedEntriesConcat(rest, b, reqs);
      var head := if Unrelated(x, reqs) then [x] else [];
      assert head + (UnrelatedEntries(rest, reqs) + UnrelatedEntries(b, reqs))
          == (head + UnrelatedEntries(rest, reqs)) + UnrelatedEntries(b, reqs);
    }
  }

  lemma UnrelatedEntriesCons(x: Ingredient, s: seq<Ingredient>, reqs: seq<Ingredient>)
    ensures UnrelatedEntries([x] + s, reqs) == (if Unrelated(x, reqs) then [x] else []) + UnrelatedEntries(s, reqs)
  {
    assert ([x] + s)[0] == x;
    assert ([x] + s)[1..] == s;
  }

  /** An entry named like a requirement does not count among the unrelated
      ones, wherever it stands. */
  lemma UnrelatedEntriesSkip(pre: seq<Ingredient>, x: Ingredient, post: seq<Ingredient>, reqs: seq<Ingredient>)
    requires !Unrelated(x, reqs)
    ensures UnrelatedEntries(pre + [x] + post, reqs) == UnrelatedEntries(pre, reqs) + UnrelatedEntries(post, reqs)
  {
    UnrelatedEntriesConcat(pre + [x], post, reqs);
    UnrelatedEntriesConcat(pre, [x], reqs);
    assert UnrelatedEntries([x], reqs) == [];
    assert UnrelatedEntries(pre, reqs) + [] == UnrelatedEntries(pre, reqs);
  }

  /** One deduction step for a requirement of `reqs` leaves the entries
      unrelated to `reqs` exactly as they were. */
  lemma DeductOneKeepsUnrelated(ings: seq<Ingredient>, required: Ingredient, reqs: seq<Ingredient>)
    requires required in reqs
    ensures UnrelatedEntries(DeductOne(ings, required), reqs) == UnrelatedEntries(ings, reqs)
  {
    match FirstMatch(ings, required.name)
    case None =>
    case Some(i) =>
      var pre, post := ings[..i], ings[i + 1..];
      assert ings == pre + [ings[i]] + post;
      UnrelatedEntriesSkip(pre, ings[i], post, reqs);
      var left := ings[i].quantity - required.quantity;
      if left <= 0.0 {
        UnrelatedEntriesConcat(pre, post, reqs);
      } else {
        var changed := ings[i].(quantity := left);
        assert DeductOne(ings, required) == pre + [changed] + post;
        UnrelatedEntriesSkip(pre, changed, post, reqs);
      }
  }

  lemma {:induction false} DeductPrefixKeepsUnrelated(steps: seq<Ingredient>, ings: seq<Ingredient>, reqs: seq<Ingredient>)
    requires forall k :: 0 <= k < |steps| ==> steps[k] in reqs
    ensures UnrelatedEntries(DeductAll(steps, ings), reqs) == UnrelatedEntries(ings, reqs)
  {
    if steps != [] {
      DeductPrefixKeepsUnrelated(steps[..|steps| - 1], ings, reqs);
      DeductOneKeepsUnrelated(DeductAll(steps[..|steps| - 1], ings), steps[|steps| - 1], reqs);
    }
  }

  /** Ingredients named like no required ingredient come through the
      deduction unchanged and in their original relative order. */
  lemma DeductAllKeepsUnrelated(reqs: seq<Ingredient>, ings: seq<Ingredient>)
    ensures UnrelatedEntries(DeductAll(reqs, ings), reqs) == UnrelatedEntries(ings, reqs)
  {
    DeductPrefixKeepsUnrelated(reqs, ings, reqs);
  }
}
