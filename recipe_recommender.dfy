/** Ranking of the recipe catalog: the feasibility score plus a bonus for
    every required ingredient whose kitchen entry expires soon, sorted,
    restricted to fully feasible recipes when there are any, and cut to a
    maximum count. */
module RecipeRecommender {
  import opened Models
  import opened ExpirationHelper
  import opened RecipeMatcher

  /** Points added per expiring-soon ingredient a recipe uses. */
  const ExpiringBonus: int := 20

  /** The default number of recommendations. */
  const DefaultMaxCount: nat := 5

  datatype ExpiringIngredient = ExpiringIngredient(name: string, daysLeft: int)

  datatype RecipeWithScore = RecipeWithScore(
    recipe: Recipe,
    matchResult: MatchResult,
    recommendationScore: int,
    expiringIngredients: seq<ExpiringIngredient>)

  // ---------------------------------------------------------------------
  // Scoring one recipe
  // ---------------------------------------------------------------------

  /** The first kitchen entry named like `required` exists and expires
      soon. Its quantity is irrelevant. */
  predicate UsesExpiring(required: Ingredient, kitchen: seq<Ingredient>, today: Day) {
    match FirstMatch(kitchen, required.name)
    case None => false
    case Some(i) => IsExpiringSoon(kitchen[i], today)
  }

  /** How many required ingredients use an expiring-soon entry. */
  function ExpiringCount(reqs: seq<Ingredient>, kitchen: seq<Ingredient>, today: Day): (n: nat)
    ensures n <= |reqs|
    ensures n == 0 <==> forall k :: 0 <= k < |reqs| ==> !UsesExpiring(reqs[k], kitchen, today)
  {
    if reqs == [] then 0
    else
      var init := reqs[..|reqs| - 1];
      assert forall k :: 0 <= k < |init| ==> init[k] == reqs[k];
      ExpiringCount(init, kitchen, today) + (if UsesExpiring(reqs[|reqs| - 1], kitchen, today) then 1 else 0)
  }

  /** The count is the number of required ingredients that use an
      expiring-soon entry: `idx` lists their positions in increasing order. */
  lemma {:induction false} ExpiringCountPositions(reqs: seq<Ingredient>, kitchen: seq<Ingredient>, today: Day)
    returns (idx: seq<nat>)
    ensures |idx| == ExpiringCount(reqs, kitchen, today)
    ensures forall j :: 0 <= j < |idx| ==> idx[j] < |reqs|
    ensures forall j, k :: 0 <= j < k < |idx| ==> idx[j] < idx[k]
    ensures forall i :: 0 <= i < |reqs| ==> (i in idx <==> UsesExpiring(reqs[i], kitchen, today))
  {
    if reqs == [] {
      idx := [];
    } else {
      var init, last := reqs[..|reqs| - 1], reqs[|reqs| - 1];
      var prev := ExpiringCountPositions(init, kitchen, today);
      var tail: seq<nat> := if UsesExpiring(last, kitchen, today) then [|init|] else [];
      idx := prev + tail;
      PositionsSnoc(prev, |init|);
      assert ExpiringCount(reqs, kitchen, today) == |prev| + |tail|;
      forall j | 0 <= j < |idx|
        ensures idx[j] < |reqs|
      {
        if j < |prev| {
          assert idx[j] == prev[j];
        }
      }
      forall i | 0 <= i < |reqs|
        ensures i in idx <==> UsesExpiring(reqs[i], kitchen, today)
      {
        if i < |init| {
          assert i !in tail;
          assert (i in idx <==> i in prev) && init[i] == reqs[i];
        } else {
          assert i == |init| && i !in prev && reqs[i] == last;
        }
      }
    }
  }

  /** The positions of the required ingredients that use an expiring-soon
      entry. */
  ghost function ExpiringPositions(reqs: seq<Ingredient>, kitchen: seq<Ingredient>, today: Day): set<int> {
    set k | 0 <= k < |reqs| && UsesExpiring(reqs[k], kitchen, today)
  }

  /** The count is the number of required ingredients that use an
      expiring-soon entry, so the bonus is 20 per such ingredient. */
  lemma ExpiringCountSize(reqs: seq<Ingredient>, kitchen: seq<Ingredient>, today: Day)
    ensures ExpiringCount(reqs, kitchen, today) == |ExpiringPositions(reqs, kitchen, today)|
  {
    var idx := ExpiringCountPositions(reqs, kitchen, today);
    IncreasingCard(idx);
    var t := set x: nat | x in idx;
    forall x | x in t
      ensures x in ExpiringPositions(reqs, kitchen, today)
    {
      var j :| 0 <= j < |idx| && idx[j] == x;
    }
    assert ExpiringPositions(reqs, kitchen, today) == t;
  }

  /** `calculateRecommendationScore`: never below the feasibility score,
      and at most one bonus per required ingredient above it. */
  function RecommendationScore(recipe: Recipe, matchResult: MatchResult, kitchen: KitchenState, today: Day): (r: int)
    ensures matchResult.feasibilityScore <= r <= matchResult.feasibilityScore + ExpiringBonus * |recipe.requiredIngredients|
    ensures r == matchResult.feasibilityScore <==>
      forall k :: 0 <= k < |recipe.requiredIngredients| ==> !UsesExpiring(recipe.requiredIngredients[k], kitchen.ingredients, today)
  {
    matchResult.feasibilityScore + ExpiringBonus * ExpiringCount(recipe.requiredIngredients, kitchen.ingredients, today)
  }

  /** What one required ingredient adds to the explanation list: the kitchen
      entry's own name and its days left, when it expires soon. */
  function ExpiringEntry(required: Ingredient, kitchen: seq<Ingredient>, today: Day): seq<ExpiringIngredient> {
    match FirstMatch(kitchen, required.name)
    case None => []
    case Some(i) =>
      if IsExpiringSoon(kitchen[i], today) then
        match DaysUntilExpiration(kitchen[i], today)
        case None => []
        case Some(daysLeft) => [ExpiringIngredient(kitchen[i].name, daysLeft)]
      else []
  }

  /** The explanation list, in recipe order. */
  function ExpiringUsed(reqs: seq<Ingredient>, kitchen: seq<Ingredient>, today: Day): seq<ExpiringIngredient> {
    if reqs == [] then []
    else ExpiringUsed(reqs[..|reqs| - 1], kitchen, today) + ExpiringEntry(reqs[|reqs| - 1], kitchen, today)
  }

  /** The explanation list has exactly one entry per bonus, and every entry
      is within the expiry window. */
  lemma {:induction false} ExpiringUsedMatchesCount(reqs: seq<Ingredient>, kitchen: seq<Ingredient>, today: Day)
    ensures |ExpiringUsed(reqs, kitchen, today)| == ExpiringCount(reqs, kitchen, today)
    ensures forall e :: e in ExpiringUsed(reqs, kitchen, today) ==> 0 <= e.daysLeft <= DefaultDaysThreshold
  {
    if reqs != [] {
      var last := reqs[|reqs| - 1];
      ExpiringUsedMatchesCount(reqs[..|reqs| - 1], kitchen, today);
      match FirstMatch(kitchen, last.name)
      case None =>
      case Some(i) =>
        if IsExpiringSoon(kitchen[i], today, DefaultDaysThreshold) {
          ExpiringHasDaysLeft(kitchen[i], today, DefaultDaysThreshold);
        }
    }
  }

  /** The entry `recipes.map` builds for one recipe. */
  function Scored(recipe: Recipe, kitchen: KitchenState, today: Day): RecipeWithScore {
    var m := Match(recipe, kitchen);
    RecipeWithScore(recipe, m, RecommendationScore(recipe, m, kitchen, today),
      ExpiringUsed(recipe.requiredIngredients, kitchen.ingredients, today))
  }

  /** In every entry the two scores and the explanation list agree:
      recommendation = feasibility + 20 per listed expiring ingredient. */
  lemma ScoredIsConsistent(recipe: Recipe, kitchen: KitchenState, today: Day)
    ensures var e := Scored(recipe, kitchen, today);
      && e.matchResult == Match(recipe, kitchen)
      && e.recommendationScore == e.matchResult.feasibilityScore + ExpiringBonus * |e.expiringIngredients|
  {
    ExpiringUsedMatchesCount(recipe.requiredIngredients, kitchen.ingredients, today);
  }

  /** The bonus needs presence only: a required ingredient whose first
      kitchen entry is too small but expires soon is reported missing and
      still earns its bonus. */
  lemma ShortButExpiringEarnsBonus(recipe: Recipe, kitchen: KitchenState, today: Day, k: nat)
    requires k < |recipe.requiredIngredients|
    requires var required := recipe.requiredIngredients[k];
      var found := FirstMatch(kitchen.ingredients, required.name);
      && found.Some?
      && kitchen.ingredients[found.value].quantity < required.quantity
      && IsExpiringSoon(kitchen.ingredients[found.value], today, DefaultDaysThreshold)
    ensures recipe.requiredIngredients[k].name in Match(recipe, kitchen).missingIngredients
    ensures UsesExpiring(recipe.requiredIngredients[k], kitchen.ingredients, today)
    ensures RecommendationScore(recipe, Match(recipe, kitchen), kitchen, today) >= Match(recipe, kitchen).feasibilityScore + ExpiringBonus
  {
    var reqs := recipe.requiredIngredients;
    assert !HasIngredient(reqs[k], kitchen.ingredients);
    MissingIngredientsComplete(reqs, kitchen.ingredients);
    assert UsesExpiring(reqs[k], kitchen.ingredients, today);
  }

  /** The `forEach` inside the `recipes.map` callback: collect, in recipe
      order, the expiring-soon kitchen entries the requirements use. */
  method CollectExpiring(reqs: seq<Ingredient>, kitchen: seq<Ingredient>, today: Day) returns (expiringIngredients: seq<ExpiringIngredient>)
    ensures expiringIngredients == ExpiringUsed(reqs, kitchen, today)
  {
    expiringIngredients := [];
    var i := 0;
    while i < |reqs|
      invariant 0 <= i <= |reqs|
      invariant expiringIngredients == ExpiringUsed(reqs[..i], kitchen, today)
    {
      assert reqs[..i + 1][..i] == reqs[..i];
      ghost var step := ExpiringEntry(reqs[i], kitchen, today);
      assert ExpiringUsed(reqs[..i + 1], kitchen, today) == expiringIngredients + step;
      var found := FirstMatch(kitchen, reqs[i].name);
      if found.Some? && IsExpiringSoon(kitchen[found.value], today) {
        var kitchenIng := kitchen[found.value];
        var daysLeft := DaysUntilExpiration(kitchenIng, today);
        if daysLeft.Some? {
          assert step == [ExpiringIngredient(kitchenIng.name, daysLeft.value)];
          expiringIngredients := expiringIngredients + [ExpiringIngredient(kitchenIng.name, daysLeft.value)];
        }
      } else {
        assert step == [];
      }
      i := i + 1;
    }
    assert reqs[..i] == reqs;
  }

  /** The callback of `recipes.map`: match, score, and collect the expiring
      ingredients. */
  method ScoreRecipe(recipe: Recipe, kitchen: KitchenState, today: Day) returns (entry: RecipeWithScore)
    ensures entry == Scored(recipe, kitchen, today)
  {
    var matchResult := MatchRecipe(recipe, kitchen);
    var recommendationScore := RecommendationScore(recipe, matchResult, kitchen, today);
    var expiringIngredients := CollectExpiring(recipe.requiredIngredients, kitchen.ingredients, today);
    entry := RecipeWithScore(recipe, matchResult, recommendationScore, expiringIngredients);
  }

  /** Every recipe of the catalog, scored, in catalog order. */
  function ScoreAll(recipes: seq<Recipe>, kitchen: KitchenState, today: Day): seq<RecipeWithScore> {
    seq(|recipes|, k requires 0 <= k < |recipes| => Scored(recipes[k], kitchen, today))
  }

  lemma ScoreAllSnoc(recipes: seq<Recipe>, recipe: Recipe, kitchen: KitchenState, today: Day)
    ensures ScoreAll(recipes + [recipe], kitchen, today) == ScoreAll(recipes, kitchen, today) + [Scored(recipe, kitchen, today)]
  {
    var lhs, rhs := ScoreAll(recipes + [recipe], kitchen, today), ScoreAll(recipes, kitchen, today) + [Scored(recipe, kitchen, today)];
    forall k | 0 <= k < |lhs| ensures lhs[k] == rhs[k] {
      if k < |recipes| {
        assert (recipes + [recipe])[k] == recipes[k];
      }
    }
  }

  // ---------------------------------------------------------------------
  // Ordering
  // ---------------------------------------------------------------------

  /** `x` may stand before `y`: higher recommendation score, or equal
      recommendation score and at least the feasibility score. */
  predicate RanksAtLeast(x: RecipeWithScore, y: RecipeWithScore) {
    || x.recommendationScore > y.recommendationScore
    || (x.recommendationScore == y.recommendationScore
        && x.matchResult.feasibilityScore >= y.matchResult.feasibilityScore)
  }

  /** The sort comparator says `x` must come before `y`. */
  predicate Outranks(x: RecipeWithScore, y: RecipeWithScore) {
    !RanksAtLeast(y, x)
  }

  /** The comparator handed to `sort`: negative when `a` goes first,
      positive when `b` goes first, zero when the two tie. */
  function Compare(a: RecipeWithScore, b: RecipeWithScore): int {
    if b.recommendationScore != a.recommendationScore then b.recommendationScore - a.recommendationScore
    else b.matchResult.feasibilityScore - a.matchResult.feasibilityScore
  }

  /** The two ranking predicates are the comparator's verdicts: `RanksAtLeast`
      is "not after", `Outranks` is "strictly before". The ranking is a total
      preorder, so a ranked order exists for every list. */
  lemma CompareAgrees(a: RecipeWithScore, b: RecipeWithScore, c: RecipeWithScore)
    ensures RanksAtLeast(a, b) <==> Compare(a, b) <= 0
    ensures Outranks(a, b) <==> Compare(a, b) < 0
    ensures Compare(a, b) == 0 <==> RanksAtLeast(a, b) && RanksAtLeast(b, a)
    ensures RanksAtLeast(a, a)
    ensures RanksAtLeast(a, b) || RanksAtLeast(b, a)
    ensures RanksAtLeast(a, b) && RanksAtLeast(b, c) ==> RanksAtLeast(a, c)
  {
  }

  ghost predicate SortedByRank(s: seq<RecipeWithScore>) {
    forall m, n :: 0 <= m < n < |s| ==> RanksAtLeast(s[m], s[n])
  }

  /** `scoredRecipes.sort(...)`, in place: descending recommendation score,
      ties descending feasibility score. */
  method SortByRank(a: array<RecipeWithScore>)
    modifies a
    ensures SortedByRank(a[..])
    ensures multiset(a[..]) == multiset(old(a[..]))
  {
    var i := 0;
    while i < a.Length
      invariant 0 <= i <= a.Length
      invariant forall m, n :: 0 <= m < n < i ==> RanksAtLeast(a[m], a[n])
      invariant multiset(a[..]) == multiset(old(a[..]))
    {
      SinkLast(a, i);
      i := i + 1;
    }
  }

  /** One insertion step: `a[i]` moves left past every entry it outranks,
      so that `a[..i + 1]` is ranked. */
  method SinkLast(a: array<RecipeWithScore>, i: nat)
    requires i < a.Length
    requires forall m, n :: 0 <= m < n < i ==> RanksAtLeast(a[m], a[n])
    modifies a
    ensures forall m, n :: 0 <= m < n <= i ==> RanksAtLeast(a[m], a[n])
    ensures multiset(a[..]) == multiset(old(a[..]))
    ensures a[i + 1..] == old(a[i + 1..])
  {
    var j := i;
    while j > 0 && Outranks(a[j], a[j - 1])
      invariant 0 <= j <= i
      invariant a[i + 1..] == old(a[i + 1..])
      invariant forall m, n :: 0 <= m < n <= i && m != j && n != j ==> RanksAtLeast(a[m], a[n])
      invariant forall n :: j < n <= i ==> Outranks(a[j], a[n])
      invariant multiset(a[..]) == multiset(old(a[..]))
    {
      a[j - 1], a[j] := a[j], a[j - 1];
      j := j - 1;
    }
  }

  // ---------------------------------------------------------------------
  // Filter and cut
  // ---------------------------------------------------------------------

  predicate CanMakeNowEntry(e: RecipeWithScore) {
    e.matchResult.feasibilityScore == FullScore
  }

  /** `scoredRecipes.filter(...)`: the fully feasible entries, in order. */
  function CanMakeOnly(s: seq<RecipeWithScore>): seq<RecipeWithScore> {
    if s == [] then []
    else (if CanMakeNowEntry(s[0]) then [s[0]] else []) + CanMakeOnly(s[1..])
  }

  /** The filter keeps exactly the fully feasible entries and never
      lengthens the list. */
  lemma {:induction false} CanMakeOnlyMembers(s: seq<RecipeWithScore>)
    ensures |CanMakeOnly(s)| <= |s|
    ensures forall e :: e in CanMakeOnly(s) <==> e in s && CanMakeNowEntry(e)
  {
    if s != [] {
      CanMakeOnlyMembers(s[1..]);
      assert s == [s[0]] + s[1..];
    }
  }

  /** The filter keeps every fully feasible entry as often as it occurs and
      drops every other one. */
  lemma {:induction false} CanMakeOnlyMultiset(s: seq<RecipeWithScore>)
    ensures multiset(CanMakeOnly(s)) + multiset(NotCanMake(s)) == multiset(s)
  {
    if s != [] {
      var head, rest := s[0], s[1..];
      CanMakeOnlyMultiset(rest);
      assert s == [head] + rest;
      assert multiset(s) == multiset([head]) + multiset(rest);
      if CanMakeNowEntry(head) {
        assert CanMakeOnly(s) == [head] + CanMakeOnly(rest);
        assert NotCanMake(s) == NotCanMake(rest);
      } else {
        assert CanMakeOnly(s) == CanMakeOnly(rest);
        assert NotCanMake(s) == [head] + NotCanMake(rest);
      }
    }
  }

  /** The complement of the filter. */
  function NotCanMake(s: seq<RecipeWithScore>): (r: seq<RecipeWithScore>)
    ensures forall e :: e in r ==> !CanMakeNowEntry(e)
  {
    if s == [] then []
    else (if CanMakeNowEntry(s[0]) then [] else [s[0]]) + NotCanMake(s[1..])
  }

  /** `slice(0, n)` for n >= 0. */
  function Take(s: seq<RecipeWithScore>, n: nat): (r: seq<RecipeWithScore>)
    ensures |r| == if n < |s| then n else |s|
    ensures r <= s
  {
    s[..if n < |s| then n else |s|]
  }

  /** The restriction to fully feasible entries when there are any, then
      the first `maxCount`. */
  function Select(ranked: seq<RecipeWithScore>, maxCount: nat): seq<RecipeWithScore> {
    var canMake := CanMakeOnly(ranked);
    if |canMake| > 0 then Take(canMake, maxCount) else Take(ranked, maxCount)
  }

  lemma SortedTail(s: seq<RecipeWithScore>)
    requires SortedByRank(s) && s != []
    ensures SortedByRank(s[1..])
    ensures forall x :: x in s[1..] ==> RanksAtLeast(s[0], x)
  {
    var rest := s[1..];
    forall m, n | 0 <= m < n < |rest| ensures RanksAtLeast(rest[m], rest[n]) {
      assert rest[m] == s[m + 1] && rest[n] == s[n + 1];
    }
    forall x | x in rest ensures RanksAtLeast(s[0], x) {
      var k :| 0 <= k < |rest| && rest[k] == x;
      assert s[k + 1] == x;
    }
  }

  lemma SortedCons(x: RecipeWithScore, s: seq<RecipeWithScore>)
    requires SortedByRank(s)
    requires forall y :: y in s ==> RanksAtLeast(x, y)
    ensures SortedByRank([x] + s)
  {
    var t := [x] + s;
    forall m, n | 0 <= m < n < |t| ensures RanksAtLeast(t[m], t[n]) {
      assert t[n] == s[n - 1];
      if m > 0 {
        assert t[m] == s[m - 1];
      }
    }
  }

  /** Filtering keeps the order. */
  lemma {:induction false} CanMakeOnlySorted(s: seq<RecipeWithScore>)
    requires SortedByRank(s)
    ensures SortedByRank(CanMakeOnly(s))
  {
    if s != [] {
      SortedTail(s);
      CanMakeOnlySorted(s[1..]);
      CanMakeOnlyMembers(s[1..]);
      if CanMakeNowEntry(s[0]) {
        SortedCons(s[0], CanMakeOnly(s[1..]));
      }
    }
  }

  /** Permuted inputs have equally many fully feasible entries. */
  lemma {:induction false} CanMakeCountPermutation(s: seq<RecipeWithScore>, t: seq<RecipeWithScore>)
    requires multiset(s) == multiset(t)
    ensures |CanMakeOnly(s)| == |CanMakeOnly(t)|
  {
    CanMakeOnlyMultiset(s);
    CanMakeOnlyMultiset(t);
    NotCanMakeMultiset(s, t);
    assert multiset(CanMakeOnly(s)) == multiset(s) - multiset(NotCanMake(s));
    assert multiset(CanMakeOnly(t)) == multiset(t) - multiset(NotCanMake(t));
    assert |multiset(CanMakeOnly(s))| == |CanMakeOnly(s)|;
    assert |multiset(CanMakeOnly(t))| == |CanMakeOnly(t)|;
  }

  lemma {:induction false} NotCanMakeMultiset(s: seq<RecipeWithScore>, t: seq<RecipeWithScore>)
    requires multiset(s) == multiset(t)
    ensures multiset(NotCanMake(s)) == multiset(NotCanMake(t))
  {
    NotCanMakeCounts(s);
    NotCanMakeCounts(t);
  }

  lemma {:induction false} NotCanMakeCounts(s: seq<RecipeWithScore>)
    ensures forall x :: multiset(NotCanMake(s))[x] == if CanMakeNowEntry(x) then 0 else multiset(s)[x]
  {
    if s != [] {
      NotCanMakeCounts(s[1..]);
      assert s == [s[0]] + s[1..];
    }
  }

  /** A prefix of a list is a sub-multiset of it and keeps its order. */
  lemma PrefixFacts(r: seq<RecipeWithScore>, s: seq<RecipeWithScore>)
    requires r <= s
    ensures multiset(r) <= multiset(s)
    ensures SortedByRank(s) ==> SortedByRank(r)
  {
    assert s == r + s[|r|..];
  }

  /** What the final filter-and-cut guarantees over a ranked list. */
  lemma SelectSpec(ranked: seq<RecipeWithScore>, maxCount: nat)
    requires SortedByRank(ranked)
    ensures var r := Select(ranked, maxCount);
      && SortedByRank(r)
      && multiset(r) <= multiset(ranked)
      && ((exists e :: e in ranked && CanMakeNowEntry(e)) ==>
            (forall e :: e in r ==> CanMakeNowEntry(e))
            && |r| == (if maxCount < |CanMakeOnly(ranked)| then maxCount else |CanMakeOnly(ranked)|))
      && ((forall e :: e in ranked ==> !CanMakeNowEntry(e)) ==>
            r <= ranked && |r| == (if maxCount < |ranked| then maxCount else |ranked|))
  {
    var canMake := CanMakeOnly(ranked);
    var r := Select(ranked, maxCount);
    if |canMake| > 0 {
      CanMakeOnlySorted(ranked);
      CanMakeOnlyMembers(ranked);
      CanMakeOnlyMultiset(ranked);
      PrefixFacts(r, canMake);
      assert multiset(canMake) <= multiset(ranked);
      assert canMake[0] in canMake;
    } else {
      PrefixFacts(r, ranked);
      CanMakeOnlyMembers(ranked);
      assert forall e :: e in ranked ==> !CanMakeNowEntry(e);
    }
  }

  // ---------------------------------------------------------------------
  // getRecommendedRecipes
  // ---------------------------------------------------------------------

  /** `recipes.map(...)`: one scored entry per recipe, in catalog order. */
  method ScoreRecipes(recipes: seq<Recipe>, kitchen: KitchenState, today: Day) returns (scoredRecipes: seq<RecipeWithScore>)
    ensures scoredRecipes == ScoreAll(recipes, kitchen, today)
  {
    scoredRecipes := [];
    var i := 0;
    while i < |recipes|
      invariant 0 <= i <= |recipes|
      invariant scoredRecipes == ScoreAll(recipes[..i], kitchen, today)
    {
      var entry := ScoreRecipe(recipes[i], kitchen, today);
      ScoreAllSnoc(recipes[..i], recipes[i], kitchen, today);
      assert recipes[..i + 1] == recipes[..i] + [recipes[i]];
      scoredRecipes := scoredRecipes + [entry];
      i := i + 1;
    }
    assert recipes[..i] == recipes;
  }

  /** The first half of `getRecommendedRecipes`: score every recipe, copy
      the entries into an array and sort it in place. */
  method RankRecipes(recipes: seq<Recipe>, kitchen: KitchenState, today: Day) returns (ranked: seq<RecipeWithScore>)
    ensures multiset(ranked) == multiset(ScoreAll(recipes, kitchen, today))
    ensures SortedByRank(ranked)
  {
    var scoredRecipes := ScoreRecipes(recipes, kitchen, today);
    var a := new RecipeWithScore[|scoredRecipes|](k requires 0 <= k < |scoredRecipes| => scoredRecipes[k]);
    assert a[..] == scoredRecipes;
    SortByRank(a);
    ranked := a[..];
  }

  /** Entries of a ranking of the catalog are scored catalog recipes. */
  lemma RankedEntriesAreScored(recipes: seq<Recipe>, kitchen: KitchenState, today: Day, ranked: seq<RecipeWithScore>, e: RecipeWithScore)
    requires multiset(ranked) == multiset(ScoreAll(recipes, kitchen, today))
    requires e in ranked
    ensures e.recipe in recipes && e == Scored(e.recipe, kitchen, today)
  {
    var all := ScoreAll(recipes, kitchen, today);
    assert multiset(ranked)[e] > 0;
    assert e in all;
    var k :| 0 <= k < |all| && all[k] == e;
  }

  /** A ranking of the catalog holds a fully feasible entry exactly when
      some recipe of the catalog scores 100. */
  lemma RankedHasCanMake(recipes: seq<Recipe>, kitchen: KitchenState, today: Day, ranked: seq<RecipeWithScore>)
    requires multiset(ranked) == multiset(ScoreAll(recipes, kitchen, today))
    ensures (exists e :: e in ranked && CanMakeNowEntry(e)) <==>
            (exists k :: 0 <= k < |recipes| && Match(recipes[k], kitchen).feasibilityScore == FullScore)
  {
    var all := ScoreAll(recipes, kitchen, today);
    if exists k :: 0 <= k < |recipes| && Match(recipes[k], kitchen).feasibilityScore == FullScore {
      var k :| 0 <= k < |recipes| && Match(recipes[k], kitchen).feasibilityScore == FullScore;
      assert CanMakeNowEntry(all[k]);
      assert multiset(ranked)[all[k]] > 0;
    }
    if exists e :: e in ranked && CanMakeNowEntry(e) {
      var e :| e in ranked && CanMakeNowEntry(e);
      RankedEntriesAreScored(recipes, kitchen, today, ranked, e);
      var k :| 0 <= k < |recipes| && recipes[k] == e.recipe;
    }
  }

  /** `getRecommendedRecipes`: rank, keep only the fully feasible entries if
      any exist, and return the first `maxCount`. `ranked` is the sorted
      list before the filter. */
  method GetRecommendedRecipes(recipes: seq<Recipe>, kitchen: KitchenState, today: Day, maxCount: int := DefaultMaxCount)
    returns (result: seq<RecipeWithScore>, ghost ranked: seq<RecipeWithScore>)
    requires maxCount >= 0
    ensures multiset(ranked) == multiset(ScoreAll(recipes, kitchen, today)) && SortedByRank(ranked)
    ensures result == Select(ranked, maxCount)
    ensures SortedByRank(result)
    ensures forall e :: e in result ==> e.recipe in recipes && e == Scored(e.recipe, kitchen, today)
    ensures (exists k :: 0 <= k < |recipes| && Match(recipes[k], kitchen).feasibilityScore == FullScore) ==>
      && (forall e :: e in result ==> e.matchResult.feasibilityScore == FullScore)
      && var candidates := |CanMakeOnly(ScoreAll(recipes, kitchen, today))|;
         |result| == if maxCount < candidates then maxCount else candidates
    ensures (forall k :: 0 <= k < |recipes| ==> Match(recipes[k], kitchen).feasibilityScore < FullScore) ==>
      && result <= ranked
      && |result| == if maxCount < |recipes| then maxCount else |recipes|
  {
    var scoredRecipes := RankRecipes(recipes, kitchen, today);
    ranked := scoredRecipes;

    var canMakeRecipes := CanMakeOnly(scoredRecipes);
    if |canMakeRecipes| > 0 {
      result := Take(canMakeRecipes, maxCount);
    } else {
      result := Take(scoredRecipes, maxCount);
    }

    ghost var all := ScoreAll(recipes, kitchen, today);
    SelectSpec(scoredRecipes, maxCount);
    CanMakeCountPermutation(scoredRecipes, all);
    RankedHasCanMake(recipes, kitchen, today, scoredRecipes);
    forall e | e in result ensures e.recipe in recipes && e == Scored(e.recipe, kitchen, today) {
      assert multiset(result)[e] > 0;
      RankedEntriesAreScored(recipes, kitchen, today, scoredRecipes, e);
    }
    assert |scoredRecipes| == |recipes| by {
      assert |multiset(scoredRecipes)| == |multiset(all)|;
    }
  }
}
