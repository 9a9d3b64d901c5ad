/** Records of the kitchen inventory and the recipe catalog, and the
    case-insensitive name lookup that the matcher, the deduction engine and
    the recommender all perform with `find` / `findIndex`. */
module Models {

  datatype Option<+T> = None | Some(value: T)

  datatype IngredientCategory =
    | Produce
    | MeatAndSeafood
    | DairyAndEggs
    | Bakery
    | PantryStaples
    | SpicesAndSeasonings
    | SaucesAndCondiments
    | Snacks
    | FrozenFoods
    | Beverages
    | Other

  datatype StorageLocation = Fridge | Freezer | Pantry

  /** A calendar day, numbered from a fixed epoch; time of day plays no part. */
  type Day = int

  /** An inventory (or recipe) ingredient. `expirationDate` is `None` when the
      record carries no date or an empty one. */
  datatype Ingredient = Ingredient(
    id: string,
    name: string,
    quantity: real,
    unit: string,
    category: IngredientCategory,
    storageLocation: StorageLocation,
    expirationDate: Option<Day>)

  /** An appliance; `kind` is the record's free-text `type` field. */
  datatype Appliance = Appliance(id: string, name: string, kind: string)

  datatype Recipe = Recipe(
    id: string,
    name: string,
    requiredIngredients: seq<Ingredient>,
    optionalIngredients: seq<Ingredient>,
    requiredAppliances: seq<Appliance>,
    steps: seq<string>)

  datatype KitchenState = KitchenState(ingredients: seq<Ingredient>, appliances: seq<Appliance>)

  /** ASCII lower-casing of one character. */
  function LowerChar(c: char): char {
    if 'A' <= c <= 'Z' then (c as int + 32) as char else c
  }

  function Lower(s: string): string {
    seq(|s|, i requires 0 <= i < |s| => LowerChar(s[i]))
  }

  /** The matching rule used everywhere: equal after lower-casing. */
  predicate SameName(a: string, b: string) {
    Lower(a) == Lower(b)
  }

  /** `i` is the position that `find` / `findIndex` picks: the first entry
      whose name matches. */
  ghost predicate IsFirstMatch(ings: seq<Ingredient>, name: string, i: int) {
    && 0 <= i < |ings|
    && SameName(ings[i].name, name)
    && forall j :: 0 <= j < i ==> !SameName(ings[j].name, name)
  }

  /** `findIndex` by case-insensitive name: the first matching position, or
      `None` when nothing matches. */
  function FirstMatch(ings: seq<Ingredient>, name: string): (r: Option<nat>)
    ensures r.Some? ==> IsFirstMatch(ings, name, r.value)
    ensures r.None? <==> forall j :: 0 <= j < |ings| ==> !SameName(ings[j].name, name)
  {
    if ings == [] then None
    else if SameName(ings[0].name, name) then Some(0)
    else match FirstMatch(ings[1..], name)
      case None => None
      case Some(k) =>
        assert forall j :: 1 <= j <= k ==> ings[j] == ings[1..][j - 1];
        Some(k + 1)
  }

  /** There is only one first match. */
  lemma FirstMatchUnique(ings: seq<Ingredient>, name: string, i: int, j: int)
    requires IsFirstMatch(ings, name, i) && IsFirstMatch(ings, name, j)
    ensures i == j
  {
  }

  /** Entries appended after a matching entry are never looked at. */
  lemma {:induction false} FirstMatchAppend(a: seq<Ingredient>, b: seq<Ingredient>, name: string)
    ensures FirstMatch(a, name).Some? ==> FirstMatch(a + b, name) == FirstMatch(a, name)
    ensures FirstMatch(a, name).None? ==>
      match FirstMatch(b, name)
      case None => FirstMatch(a + b, name).None?
      case Some(k) => FirstMatch(a + b, name) == Some(|a| + k)
  {
    match FirstMatch(a, name)
    case Some(i) => FirstMatchAppendHit(a, b, name, i);
    case None => FirstMatchAppendMiss(a, b, name);
  }

  lemma FirstMatchAppendHit(a: seq<Ingredient>, b: seq<Ingredient>, name: string, i: nat)
    requires FirstMatch(a, name) == Some(i)
    ensures FirstMatch(a + b, name) == Some(i)
  {
    var ab := a + b;
    assert ab[i] == a[i];
    assert forall j :: 0 <= j < i ==> ab[j] == a[j];
    assert IsFirstMatch(ab, name, i);
    FirstMatchUnique(ab, name, i, FirstMatch(ab, name).value);
  }

  lemma FirstMatchAppendMiss(a: seq<Ingredient>, b: seq<Ingredient>, name: string)
    requires FirstMatch(a, name).None?
    ensures match FirstMatch(b, name)
      case None => FirstMatch(a + b, name).None?
      case Some(k) => FirstMatch(a + b, name) == Some(|a| + k)
  {
    match FirstMatch(b, name)
    case None => NoMatchInBoth(a, b, name);
    case Some(k) => FirstMatchInSecond(a, b, name, k);
  }

  lemma NoMatchInBoth(a: seq<Ingredient>, b: seq<Ingredient>, name: string)
    requires FirstMatch(a, name).None? && FirstMatch(b, name).None?
    ensures FirstMatch(a + b, name).None?
  {
    var ab := a + b;
    forall j | 0 <= j < |ab| ensures !SameName(ab[j].name, name) {
      if j < |a| {
        assert ab[j] == a[j];
      } else {
        assert ab[j] == b[j - |a|];
      }
    }
  }

  lemma FirstMatchInSecond(a: seq<Ingredient>, b: seq<Ingredient>, name: string, k: nat)
    requires FirstMatch(a, name).None? && FirstMatch(b, name) == Some(k)
    ensures FirstMatch(a + b, name) == Some(|a| + k)
  {
    var ab := a + b;
    forall j | 0 <= j < |a| + k ensures !SameName(ab[j].name, name) {
      if j < |a| {
        assert ab[j] == a[j];
      } else {
        assert ab[j] == b[j - |a|];
      }
    }
    assert ab[|a| + k] == b[k];
    assert IsFirstMatch(ab, name, |a| + k);
    FirstMatchUnique(ab, name, |a| + k, FirstMatch(ab, name).value);
  }

  // ---------------------------------------------------------------------
  // Position lists
  // ---------------------------------------------------------------------

  /** Appending a position larger than all earlier ones keeps a position
      list increasing and adds just that position. */
  lemma PositionsSnoc(prev: seq<nat>, n: nat)
    requires forall j :: 0 <= j < |prev| ==> prev[j] < n
    requires forall j, k :: 0 <= j < k < |prev| ==> prev[j] < prev[k]
    ensures forall j, k :: 0 <= j < k < |prev| + 1 ==> (prev + [n])[j] < (prev + [n])[k]
    ensures forall i :: i in prev + [n] <==> i in prev || i == n
    ensures n !in prev
  {
  }

  /** An increasing position list holds as many positions as it has
      entries. */
  lemma {:induction false} IncreasingCard(idx: seq<nat>)
    requires forall j, k :: 0 <= j < k < |idx| ==> idx[j] < idx[k]
    ensures |set x: nat | x in idx| == |idx|
  {
    if idx != [] {
      var n := |idx| - 1;
      var init, last := idx[..n], idx[n];
      assert idx == init + [last];
      assert forall j :: 0 <= j < n ==> init[j] == idx[j];
      IncreasingCard(init);
      SetOfSnoc(init, last);
      assert last !in init;
    }
  }

  lemma SetOfSnoc(s: seq<nat>, y: nat)
    ensures (set x: nat | x in s + [y]) == (set x: nat | x in s) + {y}
  {
  }
}
