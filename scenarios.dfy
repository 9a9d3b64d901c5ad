/** Worked examples over a small kitchen like the seed data: Eggs (6),
    Butter (200 g), Flour (500 g), Sugar (300 g), an oven and a mixer. Day
    numbers are fixed: "today" is day 100. */
module Scenarios {
  import opened Models
  import opened ExpirationHelper
  import opened RecipeMatcher
  import opened KitchenDeduction
  import opened RecipeRecommender
  import opened ImageHelper

  const Today: Day := 100

  function Item(id: string, name: string, quantity: real, unit: string, expiry: Option<Day>): Ingredient {
    Ingredient(id, name, quantity, unit, Other, Pantry, expiry)
  }

  function Needs(name: string, ingredients: seq<Ingredient>, appliances: seq<Appliance>): Recipe {
    Recipe("r-" + name, name, ingredients, [], appliances, [])
  }

  /** Eggs 6 and Flour 500 g against a recipe needing Eggs 2 and Flour
      600 g: one ingredient short, so the score is 85. */
  lemma FlourShortfall()
    ensures var kitchen := KitchenState([Item("1", "Eggs", 6.0, "pieces", None), Item("2", "Flour", 500.0, "g", None)], []);
      var recipe := Needs("Cake", [Item("a", "Eggs", 2.0, "pieces", None), Item("b", "Flour", 600.0, "g", None)], []);
      Match(recipe, kitchen) == MatchResult(85, ["Flour"], [])
  {
    var eggs, flour := Item("1", "Eggs", 6.0, "pieces", None), Item("2", "Flour", 500.0, "g", None);
    var kitchen := [eggs, flour];
    var needEggs, needFlour := Item("a", "Eggs", 2.0, "pieces", None), Item("b", "Flour", 600.0, "g", None);
    var reqs := [needEggs, needFlour];
    assert FirstMatch(kitchen, "Eggs") == Some(0);
    assert !SameName("Eggs", "Flour");
    assert FirstMatch(kitchen, "Flour") == Some(1);
    assert reqs[..1] == [needEggs] && [needEggs][..0] == [];
    assert HasIngredient(needEggs, kitchen);
    assert !HasIngredient(needFlour, kitchen);
    assert MissingIngredients(reqs[..1], kitchen) == [];
    assert MissingIngredients(reqs, kitchen) == ["Flour"];
    assert FeasibilityScore(1, 0) == 85;
  }

  /** The same kitchen and recipe: the shortfall text gives both amounts. */
  lemma FlourShortfallText()
    ensures var kitchen := [Item("1", "Eggs", 6.0, "pieces", None), Item("2", "Flour", 500.0, "g", None)];
      var reqs := [Item("a", "Eggs", 2.0, "pieces", None), Item("b", "Flour", 600.0, "g", None)];
      Shortfalls(reqs, kitchen) == ["Flour (need 600, have 500)"]
  {
    var eggs, flour := Item("1", "Eggs", 6.0, "pieces", None), Item("2", "Flour", 500.0, "g", None);
    var kitchen := [eggs, flour];
    var needEggs, needFlour := Item("a", "Eggs", 2.0, "pieces", None), Item("b", "Flour", 600.0, "g", None);
    var reqs := [needEggs, needFlour];
    assert FirstMatch(kitchen, "Eggs") == Some(0);
    assert !SameName("Eggs", "Flour");
    assert FirstMatch(kitchen, "Flour") == Some(1);
    assert reqs[..1] == [needEggs] && [needEggs][..0] == [];
    assert Shortfalls(reqs[..1], kitchen) == [];
    WholeNumberTexts();
    var text := "Flour" + " (need " + "600" + ", have " + "500" + ")";
    assert text == "Flour (need 600, have 500)" by {
      assert |text| == 26;
      forall i | 0 <= i < 26 ensures text[i] == "Flour (need 600, have 500)"[i] { }
    }
    assert Shortfall(needFlour, kitchen) == [text];
  }

  /** Whole quantities print without a fraction part. */
  lemma WholeNumberTexts()
    ensures NumberText(600.0) == "600" && NumberText(500.0) == "500"
  {
    assert NatText(600) == "600" by {
      assert NatText(6) == "6";
      assert NatText(60) == "60";
    }
    assert NatText(500) == "500" by {
      assert NatText(5) == "5";
      assert NatText(50) == "50";
    }
  }

  /** Eggs expiring in 3 days, used by a recipe the kitchen can make:
      recommendation score 100 + 20, with the eggs listed as the reason. */
  lemma ExpiringEggsBonus()
    ensures var kitchen := KitchenState([Item("1", "Eggs", 6.0, "pieces", Some(Today + 3))], [Appliance("1", "Oven", "cooking")]);
      var recipe := Needs("Omelette", [Item("a", "eggs", 2.0, "pieces", None)], [Appliance("x", "oven", "cooking")]);
      var e := Scored(recipe, kitchen, Today);
      && e.matchResult == MatchResult(100, [], [])
      && e.recommendationScore == 120
      && e.expiringIngredients == [ExpiringIngredient("Eggs", 3)]
  {
    var eggs := Item("1", "Eggs", 6.0, "pieces", Some(Today + 3));
    var needEggs := Item("a", "eggs", 2.0, "pieces", None);
    var reqs := [needEggs];
    assert Lower("Eggs") == "eggs";
    assert Lower("eggs") == "eggs";
    assert Lower("Oven") == "oven";
    assert Lower("oven") == "oven";
    assert FirstMatch([eggs], "eggs") == Some(0);
    assert reqs[..0] == [];
    assert HasIngredient(needEggs, [eggs]);
    assert HasAppliance(Appliance("x", "oven", "cooking"), [Appliance("1", "Oven", "cooking")]);
    assert [Appliance("x", "oven", "cooking")][..0] == [];
    assert IsExpiringSoon(eggs, Today, DefaultDaysThreshold);
    var oven := Appliance("x", "oven", "cooking");
    var kitchen := KitchenState([eggs], [Appliance("1", "Oven", "cooking")]);
    assert MissingIngredients(reqs, kitchen.ingredients) == [];
    assert MissingAppliances([oven], kitchen.appliances) == [];
    var recipe := Needs("Omelette", reqs, [oven]);
    assert Match(recipe, kitchen) == MatchResult(100, [], []);
    assert ExpiringCount(reqs, kitchen.ingredients, Today) == 1;
    assert ExpiringEntry(needEggs, kitchen.ingredients, Today) == [ExpiringIngredient("Eggs", 3)];
    assert ExpiringUsed(reqs, kitchen.ingredients, Today) == [ExpiringIngredient("Eggs", 3)];
  }

  /** Cooking with exactly the 200 g of butter held removes the butter
      entry; the other entries pass through unchanged. */
  lemma ButterDepleted()
    ensures var butter := Item("3", "Butter", 200.0, "g", Some(Today + 5));
      var sugar := Item("4", "Sugar", 300.0, "g", None);
      DeductAll([Item("b", "butter", 200.0, "g", None)], [butter, sugar]) == [sugar]
  {
    var butter := Item("3", "Butter", 200.0, "g", Some(Today + 5));
    var sugar := Item("4", "Sugar", 300.0, "g", None);
    var need := Item("b", "butter", 200.0, "g", None);
    assert [need][..0] == [];
    assert Lower("Butter") == "butter" && Lower("butter") == "butter";
    assert FirstMatch([butter, sugar], "butter") == Some(0);
    assert [butter, sugar][..0] + [butter, sugar][1..] == [sugar];
  }

  /** Cooking with part of the flour leaves the entry with the rest, under
      the same id. */
  lemma FlourReduced()
    ensures var flour := Item("2", "Flour", 500.0, "g", None);
      DeductAll([Item("b", "Flour", 200.0, "g", None)], [flour]) == [flour.(quantity := 300.0)]
  {
    var flour := Item("2", "Flour", 500.0, "g", None);
    var need := Item("b", "Flour", 200.0, "g", None);
    assert [need][..0] == [];
    assert FirstMatch([flour], "Flour") == Some(0);
  }

  /** A capitalised appliance name gives its lower-case slug. */
  lemma SlugExample()
    ensures GenerateSlug("Oven") == "oven"
  {
    assert Lower("Oven") == "oven";
    assert CollapseRuns("oven") == "oven" by {
      assert CollapseRuns("n") == "n" by { assert "n"[1..] == []; }
      assert "oven"[1..] == "ven" && "ven"[1..] == "en" && "en"[1..] == "n";
    }
  }
}
