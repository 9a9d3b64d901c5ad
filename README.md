# Recipe feasibility engine — a Dafny model

This project models the recipe-feasibility engine of a kitchen-inventory app.
The app keeps a household's ingredients and appliances and tells the user which
recipes they can cook. The model covers six parts:

- **Feasibility matcher** (`recipe_matcher.dfy`). It scores one recipe against
  one kitchen and lists the missing ingredients and appliances. It also derives
  a label and a category from the score.
- **Kitchen deduction** (`kitchen_deduction.dfy`). `canCookRecipe` lists
  human-readable shortfalls. `applyRecipeToKitchen` subtracts the recipe's
  required quantities from a copy of the inventory.
- **Recommender** (`recipe_recommender.dfy`). It scores every recipe, sorts the
  scores in place, keeps only the fully feasible recipes when there are any, and
  returns the first `maxCount`.
- **Expiration oracle** (`expiration_helper.dfy`): days left until expiry, and
  whether an ingredient is expiring soon.
- **Slug builder** (`image_helper.dfy`): `generateSlug` and `getItemImageUrl`.
- **Low-stock predicate** (`stock_helper.dfy`).

`models.dfy` holds the records (ingredient, appliance, recipe, kitchen state).
It also holds the lower-casing and the first-match lookup. Every `find` and
`findIndex` in the source uses that lookup. `scenarios.dfy` works through
examples over a kitchen like the seed data.

Modelling choices:

- Quantities are exact `real`s.
- Dates are integer day numbers. "Today" is a parameter.
- Lower-casing is ASCII.
- The appliance record's `type` field is called `kind`, because `type` is a
  Dafny keyword.
- An absent expiry date and an empty one are both `None`.
- The `forEach` loops and the `map` over recipes are Dafny `method`s with loop
  invariants. Each is proved equal to a specification function: `MatchRecipe`
  to `Match`, `CanCookRecipe` to `Shortfalls`, `ApplyRecipeToKitchen` to
  `DeductAll` (its callback `DeductStep` to `DeductOne`), `CollectExpiring`
  to `ExpiringUsed`, `ScoreRecipe` to `Scored` and `ScoreRecipes` to
  `ScoreAll`. The source's properties are proved about
  those functions as lemmas.
- The two `filter` calls have no loop of their own. They are recursive
  functions: `ExpiringCount` counts and `CanMakeOnly` filters.
- `scoredRecipes.sort` is an in-place insertion sort on an `array`
  (`SortByRank`, called by `RankRecipes`). It is proved to leave a ranked
  permutation of its input, not one particular order among ties.
  `GetRecommendedRecipes` returns `Select` of that ranking, and `Select`'s
  properties are lemmas.
- The default arguments (threshold 5 in `isExpiringSoon`, `maxCount` 5) are
  Dafny default parameter values: `DefaultDaysThreshold` and `DefaultMaxCount`.
- The ingredient list that `applyRecipeToKitchen` splices is a local `seq`
  that the loop reassigns.

Two behaviours of the code that a reader might not expect, both modelled as
written:

- An ingredient requirement looks only at the **first** kitchen entry with a
  matching name (`find`). A later entry with the same name and enough quantity
  does not help.
- The expiring-ingredient list shows the **kitchen** entry's spelling of the
  name, not the recipe's.

The app has no undo code, no cook-orchestration code and no code that moves
depleted items to the shopping list, so none of these is in the model.

## Model

| member | source | states |
|---|---|---|
| `Models.FirstMatch` | src/utils/kitchenDeduction.ts:19-21 | Returns the position of the first entry whose lower-cased name matches, and `None` exactly when no entry matches. |
| `Models.FirstMatchAppend` | src/utils/recipeMatcher.ts:20-22 | Entries appended after a match do not move the first match. Without a match in the front part, the result is the first match in the appended part, shifted. |
| `Models.Lower` | src/utils/recipeMatcher.ts:21 | Definition of `toLowerCase` on ASCII. `ImageHelper.LowerOfSlug` states that it fixes slug characters. |
| `Models.SameName` | src/utils/recipeMatcher.ts:21 | Definition of the case-insensitive name comparison. `Models.FirstMatch` states the search that uses it. |
| `ExpirationHelper.DaysUntilExpiration` | src/utils/expirationHelper.ts:9-26 | `None` exactly when there is no date. Otherwise today plus the result is the expiry day: same day gives 0, past days are negative. |
| `ExpirationHelper.ExpiringSoonWindow` | src/utils/expirationHelper.ts:35-47 | Expiring soon iff there is a date and today ≤ expiry ≤ today + threshold. |
| `ExpirationHelper.IsExpiringSoon` | src/utils/expirationHelper.ts:35-47 | Definition with threshold 5 by default. `ExpiringSoonWindow` and the lemmas below state its meaning. |
| `ExpirationHelper.NoDateNeverExpiring` | src/utils/expirationHelper.ts:39-43 | With no date, an ingredient is never expiring soon. |
| `ExpirationHelper.ExpiredNeverExpiring` | src/utils/expirationHelper.ts:46 | An already-expired ingredient is never expiring soon. |
| `ExpirationHelper.ThresholdMonotone` | src/utils/expirationHelper.ts:46 | If the predicate holds at threshold t, it holds at every t' ≥ t. |
| `ExpirationHelper.NegativeThresholdNeverExpiring` | src/utils/expirationHelper.ts:46 | With a negative threshold the predicate is always false. |
| `ExpirationHelper.ExpiringHasDaysLeft` | src/utils/recipeRecommender.ts:72-74 | Expiring soon guarantees a day count exists and lies in [0, threshold], so the recommender's null check never fails. |
| `RecipeMatcher.HasIngredientSpec` | src/utils/recipeMatcher.ts:19-24 | Satisfied iff the first name-matching kitchen entry holds at least the required quantity. |
| `RecipeMatcher.HasIngredient` | src/utils/recipeMatcher.ts:19-24 | Definition. `HasIngredientSpec` states its meaning. |
| `RecipeMatcher.HasAppliance` | src/utils/recipeMatcher.ts:29-33 | Satisfied iff some kitchen appliance has the same lower-cased name. Type and position are irrelevant. |
| `RecipeMatcher.FeasibilityScore` | src/utils/recipeMatcher.ts:47-69 | The score lies in [0, 100]. It is 100 iff both missing counts are 0. |
| `RecipeMatcher.Match` | src/utils/recipeMatcher.ts:41-76 | The score is in [0, 100], and it is 100 iff both missing lists are empty. |
| `RecipeMatcher.MatchRecipe` | src/utils/recipeMatcher.ts:41-76 | The two push-and-decrement loops with the final clamp compute exactly `Match`: max(0, 100 − 15·missing ingredients − 40·missing appliances), with the missing lists. |
| `RecipeMatcher.MissingIngredients` | src/utils/recipeMatcher.ts:50-55 | Definition of the missing-ingredient list. `MissingIngredientsSpec`, `MissingIngredientsPositions` and `MissingIngredientsCount` state its meaning. |
| `RecipeMatcher.MissingAppliances` | src/utils/recipeMatcher.ts:58-63 | Definition of the missing-appliance list. `MissingAppliancesSpec`, `MissingAppliancesPositions` and `MissingAppliancesCount` state its meaning. |
| `RecipeMatcher.MissingIngredientsSpec` | src/utils/recipeMatcher.ts:50-55 | Every unsatisfied requirement's recipe name is listed. Every listed name belongs to an unsatisfied requirement. The list is empty iff all requirements are satisfied. Count and order are in `MissingIngredientsPositions`. |
| `RecipeMatcher.MissingAppliancesSpec` | src/utils/recipeMatcher.ts:58-63 | The same facts for appliances. Count and order are in `MissingAppliancesPositions`. |
| `RecipeMatcher.MissingIngredientsPositions` | src/utils/recipeMatcher.ts:50-55 | Returns the positions behind the list. They are strictly increasing, entry j is the name of requirement idx[j], and a position is present iff that requirement is unmet. So the list has one entry per unmet requirement, in recipe order. |
| `RecipeMatcher.MissingAppliancesPositions` | src/utils/recipeMatcher.ts:58-63 | The same for appliances: one entry per absent appliance, in recipe order. |
| `RecipeMatcher.MissingIngredientsCount` | src/utils/recipeMatcher.ts:50-55 | The list's length is the number of unmet requirement positions, the count that the −15 deduction uses. |
| `RecipeMatcher.MissingAppliancesCount` | src/utils/recipeMatcher.ts:58-63 | The list's length is the number of absent appliance positions, the count that the −40 deduction uses. |
| `RecipeMatcher.EmptyRecipeScoresFull` | src/utils/recipeMatcher.ts:47-75 | A recipe with no requirements gets score 100 and empty lists. |
| `RecipeMatcher.OptionalIngredientsIgnored` | src/utils/recipeMatcher.ts:65-66 | Replacing the optional ingredients never changes the match result. |
| `RecipeMatcher.HasIngredientAppend` | src/utils/recipeMatcher.ts:19-24 | Once some entry matches, appended entries (including a duplicate with enough quantity) never change whether the requirement is met. |
| `RecipeMatcher.HasIngredientGrow` | src/utils/recipeMatcher.ts:19-24 | A requirement met by a kitchen stays met after entries are appended. |
| `RecipeMatcher.MissingIngredientsShrink` | src/utils/recipeMatcher.ts:50-55 | Appending kitchen ingredients never lengthens the missing-ingredient list. |
| `RecipeMatcher.MissingAppliancesShrink` | src/utils/recipeMatcher.ts:58-63 | Appending appliances never lengthens the missing-appliance list. |
| `RecipeMatcher.MoreStockNeverLowersScore` | src/utils/recipeMatcher.ts:47-69 | Adding ingredients or appliances to a kitchen never lowers a recipe's score. |
| `RecipeMatcher.LabelCategoryCorrespond` | src/utils/recipeMatcher.ts:81-106 | The category is always the one that goes with the label. Equal labels go with equal categories. Distinct labels have distinct texts and tags. |
| `RecipeMatcher.LabelOfMatch` | src/utils/recipeMatcher.ts:81-91 | On a computed match: "Can Make Now" iff nothing is missing, "Almost Ready" iff 1 or 2 items are missing, "Missing Ingredients" iff 3 or more are missing. |
| `RecipeMatcher.Label` | src/utils/recipeMatcher.ts:81-91 | Definition. `LabelOfMatch` and `LabelCategoryCorrespond` state its properties. |
| `RecipeMatcher.Category` | src/utils/recipeMatcher.ts:96-106 | Definition. `LabelCategoryCorrespond` states that it goes with the label. |
| `RecipeMatcher.LabelText` | src/utils/recipeMatcher.ts:85-89 | Definition of the three label strings. `LabelCategoryCorrespond` states that distinct labels have distinct texts. |
| `RecipeMatcher.CategoryTag` | src/utils/recipeMatcher.ts:100-104 | Definition of the three category strings. `LabelCategoryCorrespond` states that distinct categories have distinct tags. |
| `KitchenDeduction.CanCookRecipe` | src/utils/kitchenDeduction.ts:53-78 | The loop over requirements produces exactly `Shortfalls`: the bare name when absent, "name (need X, have Y)" when short, in recipe order. `canCook` holds iff the list is empty. |
| `KitchenDeduction.ShortfallsAlignWithMissing` | src/utils/kitchenDeduction.ts:59-72 | The shortfall list has the matcher's missing-ingredient list's length. Each shortfall starts with the missing name at the same position. |
| `KitchenDeduction.CanCookIffNoMissingIngredients` | src/utils/kitchenDeduction.ts:74-77 | `canCook` iff the matcher reports no missing ingredient. |
| `KitchenDeduction.Shortfall` | src/utils/kitchenDeduction.ts:60-71 | Definition for one requirement. `ShortfallsAlignWithMissing` states its relation to the matcher. |
| `KitchenDeduction.ShortfallText` | src/utils/kitchenDeduction.ts:70 | Definition of the "name (need X, have Y)" template. `ShortfallsAlignWithMissing` states that it starts with the name, and `Scenarios.FlourShortfallText` works through one case. |
| `KitchenDeduction.Shortfalls` | src/utils/kitchenDeduction.ts:59-72 | Definition for all requirements in order. `CanCookRecipe` and `ShortfallsAlignWithMissing` state its properties. |
| `KitchenDeduction.NumberText` | src/utils/kitchenDeduction.ts:70 | Definition of the number rendering. `Scenarios.WholeNumberTexts` works through whole numbers. |
| `KitchenDeduction.DeductOneSpec` | src/utils/kitchenDeduction.ts:19-40 | With no match, nothing changes. If the first match would reach ≤ 0, it is removed and the others shift up in order. Otherwise only that entry changes: it gets quantity q − r > 0 and keeps all its other fields. |
| `KitchenDeduction.DeductOne` | src/utils/kitchenDeduction.ts:18-40 | Definition for one requirement. `DeductOneSpec` states its meaning. |
| `KitchenDeduction.DeductAll` | src/utils/kitchenDeduction.ts:17-41 | Definition for all requirements in order. The `DeductAll` lemmas below state its properties. |
| `KitchenDeduction.DeductStep` | src/utils/kitchenDeduction.ts:18-40 | The `forEach` callback: `findIndex`, then splice or overwrite. It yields exactly one `DeductOne` step, whose effect `DeductOneSpec` states. |
| `KitchenDeduction.ApplyRecipeToKitchen` | src/utils/kitchenDeduction.ts:10-48 | The loop over the copied list, one `DeductStep` per requirement, yields `DeductAll` of the required ingredients in order. Appliances are unchanged. |
| `KitchenDeduction.DeductAllLength` | src/utils/kitchenDeduction.ts:14-47 | The ingredient count never grows, and it shrinks by at most the number of requirements. |
| `KitchenDeduction.DeductAllKeepsPositive` | src/utils/kitchenDeduction.ts:31-39 | If every quantity is positive before, every quantity is positive after. An entry already at zero that no requirement names passes through unchanged; no entry that a deduction step touches is kept at zero or below (`DeductOneSpec`). |
| `KitchenDeduction.DeductAllOnlyQuantitiesChange` | src/utils/kitchenDeduction.ts:36-39 | Every resulting entry is an input entry with at most its quantity changed. |
| `KitchenDeduction.DeductOneKeepsUnrelated` | src/utils/kitchenDeduction.ts:19-40 | One step leaves the entries that match no required name exactly as they were, in order. |
| `KitchenDeduction.DeductAllKeepsUnrelated` | src/utils/kitchenDeduction.ts:17-41 | Ingredients matching no required name come through unchanged and in their original relative order. |
| `RecipeRecommender.ExpiringCount` | src/utils/recipeRecommender.ts:36-41 | The count is at most the number of requirements. It is 0 iff no requirement's first match is expiring soon. The exact count is in `ExpiringCountPositions` and `ExpiringCountSize`. |
| `RecipeRecommender.ExpiringCountPositions` | src/utils/recipeRecommender.ts:36-41 | Returns strictly increasing requirement positions, as many as the count. A position is present iff that requirement's first match is expiring soon. |
| `RecipeRecommender.ExpiringCountSize` | src/utils/recipeRecommender.ts:36-45 | The count is the size of the set of requirement positions using an expiring-soon entry, so the bonus is 20 per such requirement. |
| `RecipeRecommender.UsesExpiring` | src/utils/recipeRecommender.ts:37-40 | Definition of the filter condition. `ExpiringCountPositions` states the count built from it. |
| `RecipeRecommender.ExpiringEntry` | src/utils/recipeRecommender.ts:69-80 | Definition for one requirement. `ExpiringUsedMatchesCount` states its properties. |
| `RecipeRecommender.ExpiringUsed` | src/utils/recipeRecommender.ts:66-81 | Definition for all requirements in order. `ExpiringUsedMatchesCount` and `CollectExpiring` state its properties. |
| `RecipeRecommender.RecommendationScore` | src/utils/recipeRecommender.ts:28-48 | The score is at least the feasibility score, and at most 20 above it per required ingredient. It equals the feasibility score iff no requirement uses an expiring-soon entry. |
| `RecipeRecommender.ExpiringUsedMatchesCount` | src/utils/recipeRecommender.ts:66-81 | The explanation list has exactly one entry per bonus, each with days left in [0, 5]. |
| `RecipeRecommender.ScoredIsConsistent` | src/utils/recipeRecommender.ts:62-89 | In every entry, matchResult is the matcher's, and recommendationScore = feasibilityScore + 20·|expiringIngredients|. |
| `RecipeRecommender.Scored` | src/utils/recipeRecommender.ts:63-88 | Definition of one scored entry. `ScoredIsConsistent` states its properties. |
| `RecipeRecommender.ScoreAll` | src/utils/recipeRecommender.ts:62-89 | Definition of the scored catalog. `ScoreAllSnoc` and `ScoreRecipes` state its properties. |
| `RecipeRecommender.ShortButExpiringEarnsBonus` | src/utils/recipeRecommender.ts:36-45 | In any recipe, a requirement at any position whose first kitchen match is expiring soon but too small is listed missing, still counts as expiring, and lifts the score at least 20 above the feasibility score. |
| `RecipeRecommender.CollectExpiring` | src/utils/recipeRecommender.ts:66-81 | The `forEach` loop yields exactly `ExpiringUsed`. For each requirement in order, it records the first matching kitchen entry's name and days left when that entry is expiring soon. |
| `RecipeRecommender.ScoreRecipe` | src/utils/recipeRecommender.ts:62-89 | The map callback with its collection loop yields exactly `Scored`. |
| `RecipeRecommender.ScoreAllSnoc` | src/utils/recipeRecommender.ts:62 | One scored entry per recipe, in catalog order: adding a recipe at the end adds its entry at the end. |
| `RecipeRecommender.ScoreRecipes` | src/utils/recipeRecommender.ts:62-89 | The loop over recipes yields exactly `ScoreAll`. |
| `RecipeRecommender.RanksAtLeast` | src/utils/recipeRecommender.ts:92-97 | Definition of "may stand before". `CompareAgrees` states that it is the comparator's "not after" verdict. |
| `RecipeRecommender.Outranks` | src/utils/recipeRecommender.ts:92-97 | Definition of "must stand before". `CompareAgrees` states that it is the comparator's "strictly before" verdict. |
| `RecipeRecommender.Compare` | src/utils/recipeRecommender.ts:93-96 | Definition of the comparator: recommendation score descending, then feasibility score descending. `CompareAgrees` states its relation to the ranking. |
| `RecipeRecommender.CompareAgrees` | src/utils/recipeRecommender.ts:92-97 | `RanksAtLeast` holds iff the comparator is ≤ 0, `Outranks` iff it is < 0, and a tie iff both entries rank at least each other. The ranking is reflexive, total and transitive. |
| `RecipeRecommender.SortByRank` | src/utils/recipeRecommender.ts:92-97 | The in-place sort leaves the array ordered by recommendation score descending, ties by feasibility score descending. The result is a permutation of the input. |
| `RecipeRecommender.CanMakeOnlyMembers` | src/utils/recipeRecommender.ts:101-103 | Keeps exactly the score-100 entries of the list and never lengthens it. |
| `RecipeRecommender.CanMakeNowEntry` | src/utils/recipeRecommender.ts:102 | Definition of the filter test, feasibility score 100. `CanMakeOnlyMembers` states the filter built from it. |
| `RecipeRecommender.CanMakeOnly` | src/utils/recipeRecommender.ts:101-103 | Definition of the filter. `CanMakeOnlyMembers`, `CanMakeOnlyMultiset` and `CanMakeOnlySorted` state its properties. |
| `RecipeRecommender.SinkLast` | src/utils/recipeRecommender.ts:92-97 | One insertion step extends the ranked prefix by one entry, keeps the multiset of entries, and leaves the entries after position i untouched. |
| `RecipeRecommender.CanMakeOnlyMultiset` | src/utils/recipeRecommender.ts:101-103 | The kept entries plus the dropped entries form the whole list, counting repeats. |
| `RecipeRecommender.CanMakeOnlySorted` | src/utils/recipeRecommender.ts:101-103 | Filtering a ranked list leaves it ranked. |
| `RecipeRecommender.CanMakeCountPermutation` | src/utils/recipeRecommender.ts:101-105 | The number of fully feasible entries does not depend on the order. |
| `RecipeRecommender.Take` | src/utils/recipeRecommender.ts:107 | `slice(0, n)` for n ≥ 0: a prefix of length min(n, length). |
| `RecipeRecommender.SelectSpec` | src/utils/recipeRecommender.ts:99-111 | The filter and cut keep the ranking and take only list entries. If any entry scores 100, all results score 100 and there are min(maxCount, #score-100) of them. Otherwise the result is a prefix of the ranking of length min(maxCount, n). |
| `RecipeRecommender.Select` | src/utils/recipeRecommender.ts:99-111 | Definition of the filter and cut. `SelectSpec` states its properties. |
| `RecipeRecommender.RankRecipes` | src/utils/recipeRecommender.ts:62-97 | The scored list, sorted in place, is a ranked permutation of `ScoreAll`. |
| `RecipeRecommender.RankedEntriesAreScored` | src/utils/recipeRecommender.ts:62-89 | Every ranked entry is `Scored` of one of the catalog's recipes. |
| `RecipeRecommender.RankedHasCanMake` | src/utils/recipeRecommender.ts:101-105 | A ranking holds a score-100 entry iff some catalog recipe scores 100. |
| `RecipeRecommender.GetRecommendedRecipes` | src/utils/recipeRecommender.ts:56-112 | Output is ranked. Each entry's matchResult and scores are those of its own recipe. If any recipe scores 100, only score-100 entries are returned, min(maxCount, #score-100) of them. Otherwise the output is the first min(maxCount, #recipes) of the ranking. |
| `ImageHelper.SkipNonAlnum` | src/utils/imageHelper.ts:7 | The result is no longer than the input, is empty or starts with a character in [a-z0-9], and keeps the alphanumerics. |
| `ImageHelper.SkipNonAlnumSuffix` | src/utils/imageHelper.ts:7 | The result is a suffix of the input, and everything dropped before it lies outside [a-z0-9]: exactly the leading run is removed. |
| `ImageHelper.Run` | src/utils/imageHelper.ts:7 | The longest prefix made of [a-z0-9]: it is a prefix, all alphanumeric, and the next character (if any) is not. |
| `ImageHelper.WordsAreWords` | src/utils/imageHelper.ts:7 | Every word is a nonempty run of [a-z0-9]. |
| `ImageHelper.GenerateSlug` | src/utils/imageHelper.ts:4-9 | Output uses only [a-z0-9-], has no "--", and neither starts nor ends with '-'. It keeps the lower-cased input's alphanumerics in order, and it is "" iff there are none. It equals the [a-z0-9] words of the lower-cased name joined by single hyphens. |
| `ImageHelper.GetItemImageUrl` | src/utils/imageHelper.ts:14-17 | The URL is the picsum prefix + slug + "/120/120". The slug can be read back from it and contains no '/'. |
| `ImageHelper.CollapseRunsShape` | src/utils/imageHelper.ts:7 | The collapse step yields [a-z0-9-] with single hyphens and keeps the alphanumerics. |
| `ImageHelper.CollapseRunsWords` | src/utils/imageHelper.ts:7 | The collapse is the words joined by single hyphens. It has one extra hyphen at the start when the input starts with a run outside [a-z0-9]. It has one at the end when the input ends with such a run after at least one word. An input with no words collapses to "-" or "". |
| `ImageHelper.SlugWords` | src/utils/imageHelper.ts:7-8 | Collapsing and then trimming is the words joined by single hyphens. |
| `ImageHelper.TrimShape` | src/utils/imageHelper.ts:8 | The trim keeps those facts and leaves no hyphen at either end. |
| `ImageHelper.CollapseRuns` | src/utils/imageHelper.ts:7 | Definition. `CollapseRunsShape` and `CollapseRunsWords` state its properties. |
| `ImageHelper.TrimLeadingHyphens` | src/utils/imageHelper.ts:8 | Definition. `TrimLeadingIsSuffix` states its meaning. |
| `ImageHelper.TrimTrailingHyphens` | src/utils/imageHelper.ts:8 | Definition. `TrimTrailingIsPrefix` states its meaning. |
| `ImageHelper.TrimLeadingIsSuffix` | src/utils/imageHelper.ts:8 | `^-+` removes exactly the leading hyphens. |
| `ImageHelper.TrimTrailingIsPrefix` | src/utils/imageHelper.ts:8 | `-+$` removes exactly the trailing hyphens. |
| `ImageHelper.CollapseRunsOfSlug` | src/utils/imageHelper.ts:7 | A string of [a-z0-9] with single hyphens is left unchanged by the collapse. |
| `ImageHelper.LowerOfSlug` | src/utils/imageHelper.ts:6 | Lower-casing leaves slug characters unchanged. |
| `ImageHelper.SlugIdempotent` | src/utils/imageHelper.ts:4-9 | slug(slug(x)) = slug(x). |
| `StockHelper.LowStockBoundary` | src/utils/stockHelper.ts:7-9 | Low stock iff quantity ≤ 1. Both 0 and 1 are low; anything above 1 is not. |
| `StockHelper.IsLowStock` | src/utils/stockHelper.ts:7-9 | Definition. `LowStockBoundary` states its meaning. |
| `StockHelper.LowStockOnlyQuantity` | src/utils/stockHelper.ts:7-9 | Only the quantity matters, never name, unit or expiry. |
| `StockHelper.LowStockMonotone` | src/utils/stockHelper.ts:8 | If q is low, any smaller quantity is low. |
| `Scenarios.FlourShortfall` | src/utils/recipeMatcher.ts:47-69 | Eggs 6 and Flour 500 against Eggs 2 and Flour 600 give score 85 and missing ["Flour"]. |
| `Scenarios.FlourShortfallText` | src/utils/kitchenDeduction.ts:59-72 | The same kitchen and recipe give the single shortfall "Flour (need 600, have 500)". |
| `Scenarios.WholeNumberTexts` | src/utils/kitchenDeduction.ts:70 | Whole quantities 600 and 500 print as "600" and "500". |
| `Scenarios.ExpiringEggsBonus` | src/utils/recipeRecommender.ts:62-89 | Eggs expiring in 3 days, in a recipe the kitchen can make (names matched case-insensitively), give score 120 and list [Eggs, 3]. |
| `Scenarios.ButterDepleted` | src/utils/kitchenDeduction.ts:31-33 | Using all 200 g of butter removes its entry and keeps the others. |
| `Scenarios.FlourReduced` | src/utils/kitchenDeduction.ts:34-39 | Using 200 of 500 g of flour leaves the same entry with 300. |
| `Scenarios.SlugExample` | src/utils/imageHelper.ts:4-9 | "Oven" becomes "oven". |

## Left out

- Date parsing, time zones, the clock and the `Math.ceil` over milliseconds
  (src/utils/expirationHelper.ts:14-23). Dates are integer day numbers, and the
  current day is a parameter. An invalid date (NaN) is not modelled.
- Floating-point arithmetic on quantities. Quantities are exact reals, so
  `q - r` never rounds.
- JavaScript number-to-string conversion in the shortfall text. `NumberText`
  renders integers exactly. It renders a fraction with up to 16 digits, cut
  off rather than rounded. It never uses exponent notation, so very large and
  very small numbers print differently from JavaScript.
- Unicode `toLowerCase`. Lower-casing is ASCII, so non-ASCII capitals are
  left as they are. Names that differ only in such a letter ("JALAPEÑO" and
  "jalapeño") match under JavaScript but not in the model. A non-ASCII letter
  that lower-cases into [a-z] (the Kelvin sign, for one) also gives a
  different slug.
- `SortByRank`: its contract does not state that it is stable (that is, that
  equal-ranked entries keep their catalog order). It states the ordering and
  the permutation.
- `GetRecommendedRecipes`: requires maxCount ≥ 0. `slice` with a negative
  count trims from the end, and the app has no caller of `getRecommendedRecipes`
  that could pass one.
- "The input kitchen is not mutated" holds by value semantics: records and
  sequences are values in the model. Aliasing of the original objects is not
  represented.
- Persistence (src/utils/storage.ts) and the React pages and components are
  not part of this model. That includes the shopping-list duplicate check, the
  grouping by category and the home-page sort.
