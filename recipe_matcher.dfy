/** Feasibility of one recipe against one kitchen: which required
    ingredients and appliances are missing, a score, and the derived
    label and category. */
module RecipeMatcher {
  import opened Models

  datatype MatchResult = MatchResult(
    feasibilityScore: int,
    missingIngredients: seq<string>,
    missingAppliances: seq<string>)

  datatype FeasibilityLabel = CanMakeNow | AlmostReady | MissingIngredientsLabel

  datatype FeasibilityCategory = CanMake | AlmostCanMake | MissingKeyItems

  const FullScore: int := 100
  const MissingIngredientPenalty: int := 15
  const MissingAppliancePenalty: int := 40

  /** An ingredient requirement is met by the FIRST kitchen entry with the
      same name, and only if that entry holds at least the required
      quantity; later entries with the same name are ignored. */
  function HasIngredient(required: Ingredient, kitchen: seq<Ingredient>): bool {
    match FirstMatch(kitchen, required.name)
    case None => false
    case Some(i) => kitchen[i].quantity >= required.quantity
  }

  /** `HasIngredient` in terms of the first-match position. */
  lemma HasIngredientSpec(required: Ingredient, kitchen: seq<Ingredient>)
    ensures HasIngredient(required, kitchen) <==>
      exists i :: IsFirstMatch(kitchen, required.name, i) && kitchen[i].quantity >= required.quantity
  {
    match FirstMatch(kitchen, required.name)
    case None =>
    case Some(i) =>
      forall j | IsFirstMatch(kitchen, required.name, j) ensures j == i {
        FirstMatchUnique(kitchen, required.name, i, j);
      }
  }

  /** An appliance requirement is met by any kitchen appliance of the same
      name; its type is irrelevant. */
  function HasAppliance(required: Appliance, kitchen: seq<Appliance>): (r: bool)
    ensures r <==> exists i :: 0 <= i < |kitchen| && SameName(kitchen[i].name, required.name)
  {
    if kitchen == [] then false
    else if SameName(kitchen[0].name, required.name) then true
    else
      var r := HasAppliance(required, kitchen[1..]);
      assert r ==> exists i :: 0 <= i < |kitchen| && SameName(kitchen[i].name, required.name) by {
        if r {
          var k :| 0 <= k < |kitchen[1..]| && SameName(kitchen[1..][k].name, required.name);
          assert SameName(kitchen[k + 1].name, required.name);
        }
      }
      assert (exists i :: 0 <= i < |kitchen| && SameName(kitchen[i].name, required.name)) ==> r by {
        if exists i :: 0 <= i < |kitchen| && SameName(kitchen[i].name, required.name) {
          var k :| 0 <= k < |kitchen| && SameName(kitchen[k].name, required.name);
          assert k != 0;
          assert SameName(kitchen[1..][k - 1].name, required.name);
        }
      }
      r
  }

  /** The names (as the recipe spells them) of the required ingredients
      the kitchen does not satisfy, in recipe order. */
  function MissingIngredients(reqs: seq<Ingredient>, kitchen: seq<Ingredient>): seq<string>
  {
    if reqs == [] then []
    else
      var last := reqs[|reqs| - 1];
      MissingIngredients(reqs[..|reqs| - 1], kitchen) + (if HasIngredient(last, kitchen) then [] else [last.name])
  }

  /** The names of the required appliances the kitchen lacks, in recipe order. */
  function MissingAppliances(reqs: seq<Appliance>, kitchen: seq<Appliance>): seq<string>
  {
    if reqs == [] then []
    else
      var last := reqs[|reqs| - 1];
      MissingAppliances(reqs[..|reqs| - 1], kitchen) + (if HasAppliance(last, kitchen) then [] else [last.name])
  }

  /** 100, less 15 per missing ingredient and 40 per missing appliance,
      never below 0. */
  function FeasibilityScore(missingIngredientCount: nat, missingApplianceCount: nat): (r: int)
    ensures 0 <= r <= FullScore
    ensures r == FullScore <==> missingIngredientCount == 0 && missingApplianceCount == 0
  {
    var raw := FullScore - MissingIngredientPenalty * missingIngredientCount - MissingAppliancePenalty * missingApplianceCount;
    if raw < 0 then 0 else raw
  }

  /** The match result `matchRecipe` computes. Optional ingredients play no part. */
  function Match(recipe: Recipe, kitchen: KitchenState): (m: MatchResult)
    ensures 0 <= m.feasibilityScore <= FullScore
    ensures m.feasibilityScore == FullScore <==> m.missingIngredients == [] && m.missingAppliances == []
  {
    var mi := MissingIngredients(recipe.requiredIngredients, kitchen.ingredients);
    var ma := MissingAppliances(recipe.requiredAppliances, kitchen.appliances);
    MatchResult(FeasibilityScore(|mi|, |ma|), mi, ma)
  }

  /** `matchRecipe`: two passes that push missing names and lower a running
      score, then clamp the score at 0. */
  method MatchRecipe(recipe: Recipe, kitchen: KitchenState) returns (m: MatchResult)
    ensures m == Match(recipe, kitchen)
  {
    var reqs := recipe.requiredIngredients;
    var apps := recipe.requiredAppliances;
    var missingIngredients: seq<string> := [];
    var missingAppliances: seq<string> := [];
    var score := FullScore;

    var i := 0;
    while i < |reqs|
      invariant 0 <= i <= |reqs|
      invariant missingIngredients == MissingIngredients(reqs[..i], kitchen.ingredients)
      invariant score == FullScore - MissingIngredientPenalty * |missingIngredients|
    {
      assert reqs[..i + 1][..i] == reqs[..i];
      if !HasIngredient(reqs[i], kitchen.ingredients) {
        missingIngredients := missingIngredients + [reqs[i].name];
        score := score - MissingIngredientPenalty;
      }
      i := i + 1;
    }
    assert reqs[..i] == reqs;

    var j := 0;
    while j < |apps|
      invariant 0 <= j <= |apps|
      invariant missingAppliances == MissingAppliances(apps[..j], kitchen.appliances)
      invariant score == FullScore - MissingIngredientPenalty * |missingIngredients| - MissingAppliancePenalty * |missingAppliances|
    {
      assert apps[..j + 1][..j] == apps[..j];
      if !HasAppliance(apps[j], kitchen.appliances) {
        missingAppliances := missingAppliances + [apps[j].name];
        score := score - MissingAppliancePenalty;
      }
      j := j + 1;
    }
    assert apps[..j] == apps;

    var feasibilityScore := if score < 0 then 0 else score;
    m := MatchResult(feasibilityScore, missingIngredients, missingAppliances);
  }

  /** Exactly the failing requirements are reported, by the recipe's name,
      one entry each. */
  lemma {:induction false} MissingIngredientsSpec(reqs: seq<Ingredient>, kitchen: seq<Ingredient>)
    ensures |MissingIngredients(reqs, kitchen)| <= |reqs|
    ensures forall i :: 0 <= i < |reqs| && !HasIngredient(reqs[i], kitchen) ==>
      reqs[i].name in MissingIngredients(reqs, kitchen)
    ensures forall n :: n in MissingIngredients(reqs, kitchen) ==>
      exists i :: 0 <= i < |reqs| && reqs[i].name == n && !HasIngredient(reqs[i], kitchen)
    ensures MissingIngredients(reqs, kitchen) == [] <==> forall i :: 0 <= i < |reqs| ==> HasIngredient(reqs[i], kitchen)
  {
    MissingIngredientsComplete(reqs, kitchen);
    MissingIngredientsSound(reqs, kitchen);
    MissingIngredientsLength(reqs, kitchen);
    if MissingIngredients(reqs, kitchen) != [] {
      assert MissingIngredients(reqs, kitchen)[0] in MissingIngredients(reqs, kitchen);
    }
  }

  /** The missing list has one entry per failing requirement, in recipe
      order: `idx[j]` is the position of the requirement entry `j` names. */
  lemma {:induction false} MissingIngredientsPositions(reqs: seq<Ingredient>, kitchen: seq<Ingredient>)
    returns (idx: seq<nat>)
    ensures |idx| == |MissingIngredients(reqs, kitchen)|
    ensures forall j :: 0 <= j < |idx| ==>
      idx[j] < |reqs| && MissingIngredients(reqs, kitchen)[j] == reqs[idx[j]].name
    ensures forall j, k :: 0 <= j < k < |idx| ==> idx[j] < idx[k]
    ensures forall i :: 0 <= i < |reqs| ==> (i in idx <==> !HasIngredient(reqs[i], kitchen))
  {
    if reqs == [] {
      idx := [];
    } else {
      var init, last := reqs[..|reqs| - 1], reqs[|reqs| - 1];
      var prev := MissingIngredientsPositions(init, kitchen);
      var rest := MissingIngredients(init, kitchen);
      var tail: seq<nat> := if HasIngredient(last, kitchen) then [] else [|init|];
      idx := prev + tail;
      PositionsSnoc(prev, |init|);
      var names := MissingIngredients(reqs, kitchen);
      assert names == rest + (if HasIngredient(last, kitchen) then [] else [last.name]);
      forall j | 0 <= j < |idx|
        ensures idx[j] < |reqs| && names[j] == reqs[idx[j]].name
      {
        if j < |prev| {
          assert idx[j] == prev[j] && names[j] == rest[j] && init[prev[j]] == reqs[prev[j]];
        }
      }
      forall i | 0 <= i < |reqs|
        ensures i in idx <==> !HasIngredient(reqs[i], kitchen)
      {
        if i < |init| {
          assert i !in tail;
          assert (i in idx <==> i in prev) && init[i] == reqs[i];
        } else {
          assert i == |init| && i !in prev && reqs[i] == last;
        }
      }
    }
  }

  /** The positions of the requirements the kitchen does not satisfy. */
  ghost function FailingPositions(reqs: seq<Ingredient>, kitchen: seq<Ingredient>): set<int> {
    set i | 0 <= i < |reqs| && !HasIngredient(reqs[i], kitchen)
  }

  /** The number of missing ingredients is the number of failing
      requirements, so the penalty is 15 per failing requirement. */
  lemma MissingIngredientsCount(reqs: seq<Ingredient>, kitchen: seq<Ingredient>)
    ensures |MissingIngredients(reqs, kitchen)| == |FailingPositions(reqs, kitchen)|
  {
    var idx := MissingIngredientsPositions(reqs, kitchen);
    IncreasingCard(idx);
    var t := set x: nat | x in idx;
    forall x | x in t
      ensures x in FailingPositions(reqs, kitchen)
    {
      var j :| 0 <= j < |idx| && idx[j] == x;
    }
    assert FailingPositions(reqs, kitchen) == t;
  }

  lemma {:induction false} MissingIngredientsLength(reqs: seq<Ingredient>, kitchen: seq<Ingredient>)
    ensures |MissingIngredients(reqs, kitchen)| <= |reqs|
  {
    if reqs != [] {
      MissingIngredientsLength(reqs[..|reqs| - 1], kitchen);
    }
  }

  /** Every failing requirement is reported. */
  lemma {:induction false} MissingIngredientsComplete(reqs: seq<Ingredient>, kitchen: seq<Ingredient>)
    ensures forall i :: 0 <= i < |reqs| && !HasIngredient(reqs[i], kitchen) ==>
      reqs[i].name in MissingIngredients(reqs, kitchen)
  {
    if reqs != [] {
      var init, last := reqs[..|reqs| - 1], reqs[|reqs| - 1];
      MissingIngredientsComplete(init, kitchen);
      var rest := MissingIngredients(init, kitchen);
      var tail: seq<string> := if HasIngredient(last, kitchen) then [] else [last.name];
      assert MissingIngredients(reqs, kitchen) == rest + tail;
      forall i | 0 <= i < |reqs| && !HasIngredient(reqs[i], kitchen)
        ensures reqs[i].name in rest + tail
      {
        if i < |init| {
          assert init[i] == reqs[i];
        }
      }
    }
  }

  /** Every reported name belongs to a failing requirement. */
  lemma {:induction false} MissingIngredientsSound(reqs: seq<Ingredient>, kitchen: seq<Ingredient>)
    ensures forall n :: n in MissingIngredients(reqs, kitchen) ==>
      exists i :: 0 <= i < |reqs| && reqs[i].name == n && !HasIngredient(reqs[i], kitchen)
  {
    if reqs != [] {
      var init, last := reqs[..|reqs| - 1], reqs[|reqs| - 1];
      MissingIngredientsSound(init, kitchen);
      var rest := MissingIngredients(init, kitchen);
      var tail: seq<string> := if HasIngredient(last, kitchen) then [] else [last.name];
      assert MissingIngredients(reqs, kitchen) == rest + tail;
      forall n | n in rest + tail
        ensures exists i :: 0 <= i < |reqs| && reqs[i].name == n && !HasIngredient(reqs[i], kitchen)
      {
        if n in rest {
          var i :| 0 <= i < |init| && init[i].name == n && !HasIngredient(init[i], kitchen);
          assert reqs[i] == init[i];
        } else {
          assert reqs[|reqs| - 1].name == n && !HasIngredient(reqs[|reqs| - 1], kitchen);
        }
      }
    }
  }

  /** Exactly the absent appliances are reported, one entry each. */
  lemma {:induction false} MissingAppliancesSpec(reqs: seq<Appliance>, kitchen: seq<Appliance>)
    ensures |MissingAppliances(reqs, kitchen)| <= |reqs|
    ensures forall i :: 0 <= i < |reqs| && !HasAppliance(reqs[i], kitchen) ==>
      reqs[i].name in MissingAppliances(reqs, kitchen)
    ensures forall n :: n in MissingAppliances(reqs, kitchen) ==>
      exists i :: 0 <= i < |reqs| && reqs[i].name == n && !HasAppliance(reqs[i], kitchen)
    ensures MissingAppliances(reqs, kitchen) == [] <==> forall i :: 0 <= i < |reqs| ==> HasAppliance(reqs[i], kitchen)
  {
    MissingAppliancesComplete(reqs, kitchen);
    MissingAppliancesSound(reqs, kitchen);
    MissingAppliancesLength(reqs, kitchen);
    if MissingAppliances(reqs, kitchen) != [] {
      assert MissingAppliances(reqs, kitchen)[0] in MissingAppliances(reqs, kitchen);
    }
  }

  /** The missing list has one entry per absent appliance, in recipe
      order: `idx[j]` is the position of the requirement entry `j` names. */
  lemma {:induction false} MissingAppliancesPositions(reqs: seq<Appliance>, kitchen: seq<Appliance>)
    returns (idx: seq<nat>)
    ensures |idx| == |MissingAppliances(reqs, kitchen)|
    ensures forall j :: 0 <= j < |idx| ==>
      idx[j] < |reqs| && MissingAppliances(reqs, kitchen)[j] == reqs[idx[j]].name
    ensures forall j, k :: 0 <= j < k < |idx| ==> idx[j] < idx[k]
    ensures forall i :: 0 <= i < |reqs| ==> (i in idx <==> !HasAppliance(reqs[i], kitchen))
  {
    if reqs == [] {
      idx := [];
    } else {
      var init, last := reqs[..|reqs| - 1], reqs[|reqs| - 1];
      var prev := MissingAppliancesPositions(init, kitchen);
      var rest := MissingAppliances(init, kitchen);
      var tail: seq<nat> := if HasAppliance(last, kitchen) then [] else [|init|];
      idx := prev + tail;
      PositionsSnoc(prev, |init|);
      var names := MissingAppliances(reqs, kitchen);
      assert names == rest + (if HasAppliance(last, kitchen) then [] else [last.name]);
      forall j | 0 <= j < |idx|
        ensures idx[j] < |reqs| && names[j] == reqs[idx[j]].name
      {
        if j < |prev| {
          assert idx[j] == prev[j] && names[j] == rest[j] && init[prev[j]] == reqs[prev[j]];
        }
      }
      forall i | 0 <= i < |reqs|
        ensures i in idx <==> !HasAppliance(reqs[i], kitchen)
      {
        if i < |init| {
          assert i !in tail;
          assert (i in idx <==> i in prev) && init[i] == reqs[i];
        } else {
          assert i == |init| && i !in prev && reqs[i] == last;
        }
      }
    }
  }

  /** The positions of the required appliances the kitchen lacks. */
  ghost function AbsentPositions(reqs: seq<Appliance>, kitchen: seq<Appliance>): set<int> {
    set i | 0 <= i < |reqs| && !HasAppliance(reqs[i], kitchen)
  }

  /** The number of missing appliances is the number of absent ones, so
      the penalty is 40 per absent appliance. */
  lemma MissingAppliancesCount(reqs: seq<Appliance>, kitchen: seq<Appliance>)
    ensures |MissingAppliances(reqs, kitchen)| == |AbsentPositions(reqs, kitchen)|
  {
    var idx := MissingAppliancesPositions(reqs, kitchen);
    IncreasingCard(idx);
    var t := set x: nat | x in idx;
    forall x | x in t
      ensures x in AbsentPositions(reqs, kitchen)
    {
      var j :| 0 <= j < |idx| && idx[j] == x;
    }
    assert AbsentPositions(reqs, kitchen) == t;
  }

  lemma {:induction false} MissingAppliancesLength(reqs: seq<Appliance>, kitchen: seq<Appliance>)
    ensures |MissingAppliances(reqs, kitchen)| <= |reqs|
  {
    if reqs != [] {
      MissingAppliancesLength(reqs[..|reqs| - 1], kitchen);
    }
  }

  /** Every failing appliance is reported. */
  lemma {:induction false} MissingAppliancesComplete(reqs: seq<Appliance>, kitchen: seq<Appliance>)
    ensures forall i :: 0 <= i < |reqs| && !HasAppliance(reqs[i], kitchen) ==>
      reqs[i].name in MissingAppliances(reqs, kitchen)
  {
    if reqs != [] {
      var init, last := reqs[..|reqs| - 1], reqs[|reqs| - 1];
      MissingAppliancesComplete(init, kitchen);
      var rest := MissingAppliances(init, kitchen);
      var tail: seq<string> := if HasAppliance(last, kitchen) then [] else [last.name];
      assert MissingAppliances(reqs, kitchen) == rest + tail;
      forall i | 0 <= i < |reqs| && !HasAppliance(reqs[i], kitchen)
        ensures reqs[i].name in rest + tail
      {
        if i < |init| {
          assert init[i] == reqs[i];
        }
      }
    }
  }

  /** Every reported name belongs to a failing appliance. */
  lemma {:induction false} MissingAppliancesSound(reqs: seq<Appliance>, kitchen: seq<Appliance>)
    ensures forall n :: n in MissingAppliances(reqs, kitchen) ==>
      exists i :: 0 <= i < |reqs| && reqs[i].name == n && !HasAppliance(reqs[i], kitchen)
  {
    if reqs != [] {
      var init, last := reqs[..|reqs| - 1], reqs[|reqs| - 1];
      MissingAppliancesSound(init, kitchen);
      var rest := MissingAppliances(init, kitchen);
      var tail: seq<string> := if HasAppliance(last, kitchen) then [] else [last.name];
      assert MissingAppliances(reqs, kitchen) == rest + tail;
      forall n | n in rest + tail
        ensures exists i :: 0 <= i < |reqs| && reqs[i].name == n && !HasAppliance(reqs[i], kitchen)
      {
        if n in rest {
          var i :| 0 <= i < |init| && init[i].name == n && !HasAppliance(init[i], kitchen);
          assert reqs[i] == init[i];
        } else {
          assert reqs[|reqs| - 1].name == n && !HasAppliance(reqs[|reqs| - 1], kitchen);
        }
      }
    }
  }

  /** A recipe that requires nothing can be made in any kitchen. */
  lemma EmptyRecipeScoresFull(recipe: Recipe, kitchen: KitchenState)
    requires recipe.requiredIngredients == [] && recipe.requiredAppliances == []
    ensures Match(recipe, kitchen) == MatchResult(FullScore, [], [])
  {
  }

  /** The optional ingredients are never read. */
  lemma OptionalIngredientsIgnored(recipe: Recipe, kitchen: KitchenState, optional: seq<Ingredient>)
    ensures Match(recipe.(optionalIngredients := optional), kitchen) == Match(recipe, kitchen)
  {
  }

  /** A satisfying first match stays the first match when entries are
      appended, so a requirement met in `a` is met in `a + b`; a duplicate
      appended later cannot rescue a requirement the first match fails. */
  lemma HasIngredientAppend(required: Ingredient, a: seq<Ingredient>, b: seq<Ingredient>)
    requires FirstMatch(a, required.name).Some?
    ensures HasIngredient(required, a + b) == HasIngredient(required, a)
  {
    FirstMatchAppend(a, b, required.name);
  }

  /** Appending stock never unsatisfies an ingredient requirement. */
  lemma HasIngredientGrow(required: Ingredient, a: seq<Ingredient>, b: seq<Ingredient>)
    requires HasIngredient(required, a)
    ensures HasIngredient(required, a + b)
  {
    HasIngredientAppend(required, a, b);
  }

  lemma {:induction false} MissingIngredientsShrink(reqs: seq<Ingredient>, a: seq<Ingredient>, b: seq<Ingredient>)
    ensures |MissingIngredients(reqs, a + b)| <= |MissingIngredients(reqs, a)|
  {
    if reqs != [] {
      MissingIngredientsShrink(reqs[..|reqs| - 1], a, b);
      if HasIngredient(reqs[|reqs| - 1], a) {
        HasIngredientGrow(reqs[|reqs| - 1], a, b);
      }
    }
  }

  lemma {:induction false} MissingAppliancesShrink(reqs: seq<Appliance>, a: seq<Appliance>, b: seq<Appliance>)
    ensures |MissingAppliances(reqs, a + b)| <= |MissingAppliances(reqs, a)|
  {
    if reqs != [] {
      MissingAppliancesShrink(reqs[..|reqs| - 1], a, b);
      var last := reqs[|reqs| - 1];
      if HasAppliance(last, a) {
        var k :| 0 <= k < |a| && SameName(a[k].name, last.name);
        assert (a + b)[k] == a[k];
      }
    }
  }

  /** Adding ingredients or appliances to a kitchen never lowers a recipe's
      feasibility score. */
  lemma MoreStockNeverLowersScore(recipe: Recipe, kitchen: KitchenState, moreIngredients: seq<Ingredient>, moreAppliances: seq<Appliance>)
    ensures Match(recipe, KitchenState(kitchen.ingredients + moreIngredients, kitchen.appliances + moreAppliances)).feasibilityScore
         >= Match(recipe, kitchen).feasibilityScore
  {
    MissingIngredientsShrink(recipe.requiredIngredients, kitchen.ingredients, moreIngredients);
    MissingAppliancesShrink(recipe.requiredAppliances, kitchen.appliances, moreAppliances);
  }

  /** `getFeasibilityLabel`. */
  function Label(m: MatchResult): FeasibilityLabel {
    var totalMissing := |m.missingIngredients| + |m.missingAppliances|;
    if m.feasibilityScore == FullScore then CanMakeNow
    else if totalMissing <= 2 then AlmostReady
    else MissingIngredientsLabel
  }

  /** `getFeasibilityCategory`. */
  function Category(m: MatchResult): FeasibilityCategory {
    var totalMissing := |m.missingIngredients| + |m.missingAppliances|;
    if m.feasibilityScore == FullScore then CanMake
    else if totalMissing <= 2 then AlmostCanMake
    else MissingKeyItems
  }

  /** The display text of a label. */
  function LabelText(l: FeasibilityLabel): string {
    match l
    case CanMakeNow => "Can Make Now"
    case AlmostReady => "Almost Ready"
    case MissingIngredientsLabel => "Missing Ingredients"
  }

  /** The grouping tag of a category. */
  function CategoryTag(c: FeasibilityCategory): string {
    match c
    case CanMake => "can-make"
    case AlmostCanMake => "almost-can-make"
    case MissingKeyItems => "missing-key-items"
  }

  /** The category that goes with a label. */
  function CategoryOfLabel(l: FeasibilityLabel): FeasibilityCategory {
    match l
    case CanMakeNow => CanMake
    case AlmostReady => AlmostCanMake
    case MissingIngredientsLabel => MissingKeyItems
  }

  /** Label and category always correspond one to one, and distinct labels
      have distinct texts and distinct category tags. */
  lemma LabelCategoryCorrespond(m: MatchResult, n: MatchResult)
    ensures Category(m) == CategoryOfLabel(Label(m))
    ensures Label(m) == Label(n) <==> Category(m) == Category(n)
    ensures Label(m) == Label(n) <==> LabelText(Label(m)) == LabelText(Label(n))
    ensures Category(m) == Category(n) <==> CategoryTag(Category(m)) == CategoryTag(Category(n))
  {
  }

  /** On a computed match the label is decided by the missing counts alone:
      nothing missing, one or two missing, three or more. */
  lemma LabelOfMatch(recipe: Recipe, kitchen: KitchenState)
    ensures var m := Match(recipe, kitchen);
      var total := |m.missingIngredients| + |m.missingAppliances|;
      && (Label(m) == CanMakeNow <==> total == 0)
      && (Label(m) == AlmostReady <==> 1 <= total <= 2)
      && (Label(m) == MissingIngredientsLabel <==> total >= 3)
  {
  }
}
