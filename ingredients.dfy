/** Ingredient amounts and the arithmetic the solver and the ranker apply to
    them: what is left of a recipe once a candidate's produce is subtracted,
    how much is left in all, and what a team produces beyond a recipe.

    The helpers of this module stand for functions of the repository's
    set-cover-utils and ingredient-calculate modules, whose bodies are not
    part of this model; each is given the definition its name and its use in
    set-cover.ts call for, and the contract the solver relies on. */
module Ingredients {

  /** Amounts are non-negative (the source uses JavaScript numbers). */
  type Amount = r: real | r >= 0.0

  datatype Ingredient = Ingredient(name: string)

  /** An amount of one ingredient, as in a recipe or a candidate's produce. */
  datatype IngredientSet = IngredientSet(amount: Amount, ingredient: Ingredient)

  /** The memo-key form of an ingredient requirement: the ingredient by name. */
  datatype SimplifiedIngredientSet = SimplifiedIngredientSet(amount: Amount, ingredient: string)

  /** How much of the ingredient called `name` a list of ingredient sets holds in all. */
  function AmountOf(drop: seq<IngredientSet>, name: string): (r: real)
    ensures r >= 0.0
    ensures drop == [] ==> r == 0.0
  {
    if drop == [] then 0.0
    else (if drop[0].ingredient.name == name then drop[0].amount else 0.0) + AmountOf(drop[1..], name)
  }

  /** sumOfSimplifiedIngredients: the total amount still required. */
  function SumOfSimplifiedIngredients(s: seq<SimplifiedIngredientSet>): (r: real)
    ensures r >= 0.0
  {
    if s == [] then 0.0 else s[0].amount + SumOfSimplifiedIngredients(s[1..])
  }

  predicate AllPositive(s: seq<SimplifiedIngredientSet>) {
    forall e :: e in s ==> e.amount > 0.0
  }

  /** The part of requirement `req` that `produce` does not meet; 0 when met. */
  function Shortfall(req: SimplifiedIngredientSet, produce: seq<IngredientSet>): real {
    req.amount - AmountOf(produce, req.ingredient)
  }

  /** calculateRemainingSimplifiedIngredients: each requirement reduced by
      what `produce` supplies of it, dropping the ones fully met. */
  function CalculateRemainingSimplifiedIngredients(
    meal: seq<SimplifiedIngredientSet>, produce: seq<IngredientSet>
  ): (r: seq<SimplifiedIngredientSet>)
    ensures AllPositive(r)
    ensures |r| <= |meal|
  {
    if meal == [] then []
    else
      var d := Shortfall(meal[0], produce);
      (if d > 0.0 then [SimplifiedIngredientSet(d, meal[0].ingredient)] else [])
      + CalculateRemainingSimplifiedIngredients(meal[1..], produce)
  }

  /** Every requirement `produce` leaves unmet stays in the remainder, reduced
      by exactly what `produce` supplies. */
  lemma {:induction false} RemainderKeepsUnmet(
    meal: seq<SimplifiedIngredientSet>, produce: seq<IngredientSet>, req: SimplifiedIngredientSet
  )
    requires req in meal && Shortfall(req, produce) > 0.0
    ensures SimplifiedIngredientSet(Shortfall(req, produce), req.ingredient)
              in CalculateRemainingSimplifiedIngredients(meal, produce)
  {
    if meal[0] != req {
      RemainderKeepsUnmet(meal[1..], produce, req);
    }
  }

  /** Nothing is left exactly when `produce` meets every requirement of `meal`. */
  lemma {:induction false} RemainderEmptyIffMet(meal: seq<SimplifiedIngredientSet>, produce: seq<IngredientSet>)
    ensures CalculateRemainingSimplifiedIngredients(meal, produce) == [] <==>
      forall req :: req in meal ==> Shortfall(req, produce) <= 0.0
  {
    if meal != [] {
      RemainderEmptyIffMet(meal[1..], produce);
      assert meal[0] in meal;
      assert forall req :: req in meal[1..] ==> req in meal;
      assert forall req :: req in meal ==> req == meal[0] || req in meal[1..];
    }
  }

  /** Every entry of the remainder is a requirement of `meal` that `produce`
      leaves unmet, reduced by what `produce` supplies: the converse of
      RemainderKeepsUnmet. */
  lemma {:induction false} RemainderEntriesUnmet(
    meal: seq<SimplifiedIngredientSet>, produce: seq<IngredientSet>, e: SimplifiedIngredientSet
  )
    requires e in CalculateRemainingSimplifiedIngredients(meal, produce)
    ensures exists req :: (req in meal && Shortfall(req, produce) > 0.0 &&
                           e == SimplifiedIngredientSet(Shortfall(req, produce), req.ingredient))
  {
    var d := Shortfall(meal[0], produce);
    if d > 0.0 && e == SimplifiedIngredientSet(d, meal[0].ingredient) {
      assert meal[0] in meal;
    } else {
      RemainderEntriesUnmet(meal[1..], produce, e);
      var req :| req in meal[1..] && Shortfall(req, produce) > 0.0 &&
        e == SimplifiedIngredientSet(Shortfall(req, produce), req.ingredient);
      assert req in meal;
    }
  }

  /** A remainder of positive amounts sums to zero exactly when it is empty:
      the solver's `sumr > 0` test is a test for "something is left". */
  lemma {:induction false} SumPositiveIffNonEmpty(s: seq<SimplifiedIngredientSet>)
    requires AllPositive(s)
    ensures SumOfSimplifiedIngredients(s) > 0.0 <==> s != []
  {
    if s != [] {
      assert s[0] in s;
      assert AllPositive(s[1..]) by {
        forall e | e in s[1..] ensures e.amount > 0.0 { assert e in s; }
      }
      SumPositiveIffNonEmpty(s[1..]);
    }
  }

  // ---------------------------------------------------------------------
  // Surplus: what a team produces beyond a recipe

  function Names(drop: seq<IngredientSet>): (r: set<string>)
    ensures forall e :: e in drop ==> e.ingredient.name in r
  {
    if drop == [] then {} else {drop[0].ingredient.name} + Names(drop[1..])
  }

  /** No ingredient appears twice. */
  predicate DistinctIngredients(drop: seq<IngredientSet>) {
    drop == [] || (drop[0].ingredient.name !in Names(drop[1..]) && DistinctIngredients(drop[1..]))
  }

  /** Adds `x` into `acc`, onto the entry for the same ingredient if there is one. */
  function AddToDrop(x: IngredientSet, acc: seq<IngredientSet>): (r: seq<IngredientSet>)
    ensures forall name ::
      AmountOf(r, name) == AmountOf(acc, name) + (if x.ingredient.name == name then x.amount else 0.0)
    ensures Names(r) == Names(acc) + {x.ingredient.name}
    ensures DistinctIngredients(acc) ==> DistinctIngredients(r)
  {
    if acc == [] then [x]
    else if acc[0].ingredient.name == x.ingredient.name then
      [IngredientSet(acc[0].amount + x.amount, acc[0].ingredient)] + acc[1..]
    else [acc[0]] + AddToDrop(x, acc[1..])
  }

  /** combineSameIngredientsInDrop: one entry per ingredient, amounts added up. */
  function CombineSameIngredientsInDrop(drop: seq<IngredientSet>): (r: seq<IngredientSet>)
    ensures forall name :: AmountOf(r, name) == AmountOf(drop, name)
    ensures DistinctIngredients(r)
  {
    if drop == [] then [] else AddToDrop(drop[0], CombineSameIngredientsInDrop(drop[1..]))
  }

  /** calculateRemainingIngredients: each produced ingredient reduced by what
      `required` asks of it, dropping those used up. */
  function CalculateRemainingIngredients(
    produced: seq<IngredientSet>, required: seq<IngredientSet>
  ): (r: seq<IngredientSet>)
    ensures forall e :: e in r ==> e.amount > 0.0
    ensures forall e :: e in r ==> e.ingredient.name in Names(produced)
  {
    if produced == [] then []
    else
      var d := produced[0].amount - AmountOf(required, produced[0].ingredient.name);
      (if d > 0.0 then [IngredientSet(d, produced[0].ingredient)] else [])
      + CalculateRemainingIngredients(produced[1..], required)
  }

  /** An entry produced beyond what is required keeps its excess in the result. */
  lemma {:induction false} ExcessKept(produced: seq<IngredientSet>, required: seq<IngredientSet>, e: IngredientSet)
    requires e in produced && e.amount - AmountOf(required, e.ingredient.name) > 0.0
    ensures IngredientSet(e.amount - AmountOf(required, e.ingredient.name), e.ingredient)
              in CalculateRemainingIngredients(produced, required)
  {
    if produced[0] != e {
      ExcessKept(produced[1..], required, e);
    }
  }

  /** In a list without repeated ingredients an entry holds the whole amount. */
  lemma {:induction false} DistinctEntryIsTotal(drop: seq<IngredientSet>, e: IngredientSet)
    requires DistinctIngredients(drop) && e in drop
    ensures AmountOf(drop, e.ingredient.name) == e.amount
  {
    if drop[0] != e {
      DistinctEntryIsTotal(drop[1..], e);
    } else {
      NameAbsentAmountZero(drop[1..], e.ingredient.name);
    }
  }

  lemma {:induction false} NameAbsentAmountZero(drop: seq<IngredientSet>, name: string)
    requires name !in Names(drop)
    ensures AmountOf(drop, name) == 0.0
  {
    if drop != [] {
      NameAbsentAmountZero(drop[1..], name);
    }
  }

  /** The surplus of a combined produce: every entry is the amount of its
      ingredient produced beyond the amount required, and is positive. */
  lemma {:induction false} SurplusIsExcess(
    produced: seq<IngredientSet>, required: seq<IngredientSet>, e: IngredientSet
  )
    requires DistinctIngredients(produced)
    requires e in CalculateRemainingIngredients(produced, required)
    ensures e.amount == AmountOf(produced, e.ingredient.name) - AmountOf(required, e.ingredient.name)
    ensures e.amount > 0.0
  {
    var d := produced[0].amount - AmountOf(required, produced[0].ingredient.name);
    var rest := CalculateRemainingIngredients(produced[1..], required);
    if d > 0.0 && e == IngredientSet(d, produced[0].ingredient) {
      DistinctEntryIsTotal(produced, produced[0]);
      assert produced[0] in produced;
    } else {
      assert e in rest;
      SurplusIsExcess(produced[1..], required, e);
      assert e.ingredient.name in Names(produced[1..]);
      assert e.ingredient.name != produced[0].ingredient.name;
    }
  }

  /** An ingredient listed in `drop` has an entry of that name. */
  lemma {:induction false} NamedEntry(drop: seq<IngredientSet>, name: string)
    requires name in Names(drop)
    ensures exists e :: e in drop && e.ingredient.name == name
  {
    if drop[0].ingredient.name != name {
      NamedEntry(drop[1..], name);
      var e :| e in drop[1..] && e.ingredient.name == name;
      assert e in drop;
    } else {
      assert drop[0] in drop;
    }
  }

  /** The surplus of a combined produce is complete: every ingredient
      produced beyond what is required has its entry, holding the excess. */
  lemma SurplusComplete(produced: seq<IngredientSet>, required: seq<IngredientSet>, name: string)
    requires DistinctIngredients(produced)
    requires AmountOf(produced, name) > AmountOf(required, name)
    ensures IngredientSet(AmountOf(produced, name) - AmountOf(required, name), Ingredient(name))
              in CalculateRemainingIngredients(produced, required)
  {
    if name !in Names(produced) {
      NameAbsentAmountZero(produced, name);
    }
    NamedEntry(produced, name);
    var e :| e in produced && e.ingredient.name == name;
    DistinctEntryIsTotal(produced, e);
    ExcessKept(produced, required, e);
  }

  /** A team's surplus split into the recipe's own ingredients and the rest. */
  datatype Surplus = Surplus(total: seq<IngredientSet>, relevant: seq<IngredientSet>, extra: seq<IngredientSet>)

  function FilterByRecipe(drop: seq<IngredientSet>, recipeNames: set<string>, inRecipe: bool): (r: seq<IngredientSet>)
    ensures forall e :: e in r <==> e in drop && (e.ingredient.name in recipeNames) == inRecipe
  {
    if drop == [] then []
    else
      (if (drop[0].ingredient.name in recipeNames) == inRecipe then [drop[0]] else [])
      + FilterByRecipe(drop[1..], recipeNames, inRecipe)
  }

  /** extractRelevantSurplus: keeps the whole surplus and splits it into the
      entries for recipe ingredients and the filler entries outside it. */
  function ExtractRelevantSurplus(recipe: seq<IngredientSet>, total: seq<IngredientSet>): (r: Surplus)
    ensures r.total == total
    ensures forall e :: e in r.relevant <==> e in total && e.ingredient.name in Names(recipe)
    ensures forall e :: e in r.extra <==> e in total && e.ingredient.name !in Names(recipe)
  {
    Surplus(total, FilterByRecipe(total, Names(recipe), true), FilterByRecipe(total, Names(recipe), false))
  }

  /** Total amount of a list of ingredient sets. */
  function TotalAmount(drop: seq<IngredientSet>): (r: real)
    ensures r >= 0.0
  {
    if drop == [] then 0.0 else drop[0].amount + TotalAmount(drop[1..])
  }
}
