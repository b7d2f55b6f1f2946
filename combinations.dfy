/** Candidate team members (a Pokémon with its ingredient loadout and the
    produce already computed for it), teams, and what it means for a team to
    cover a list of ingredient requirements. */
module Combinations {
  import opened Ingredients
  import opened Sorting

  /** A Pokémon together with the ingredients it is set to gather. */
  datatype PokemonCombination = PokemonCombination(pokemon: string, ingredientList: seq<string>)

  /** CustomPokemonCombinationWithProduce: a candidate and its ingredient
      produce (the source's `detailedProduce.produce.ingredients`). */
  datatype CombinationWithProduce =
    CombinationWithProduce(pokemonCombination: PokemonCombination, produce: seq<IngredientSet>)

  type Team = seq<CombinationWithProduce>

  function Join(parts: seq<string>, sep: string): string {
    if parts == [] then ""
    else if |parts| == 1 then parts[0]
    else parts[0] + sep + Join(parts[1..], sep)
  }

  /** hashPokemonCombination: a string identity for a Pokémon combination. */
  function HashPokemonCombination(pc: PokemonCombination): string {
    pc.pokemon + ":" + Join(pc.ingredientList, ",")
  }

  function MemberHash(member: CombinationWithProduce): string {
    HashPokemonCombination(member.pokemonCombination)
  }

  /** The members' hashes, in team order. */
  function Hashes(team: Team): (r: seq<string>)
    ensures |r| == |team|
  {
    Map(team, MemberHash)
  }

  /** The comparator the ranker sorts team members by. */
  predicate ByHash(a: CombinationWithProduce, b: CombinationWithProduce) {
    StrLeq(MemberHash(a), MemberHash(b))
  }

  lemma ByHashIsTotalPreorder()
    ensures TotalPreorder(ByHash)
  {
    forall a, b ensures ByHash(a, b) || ByHash(b, a) {
      StrLeqTotal(MemberHash(a), MemberHash(b));
    }
    forall a, b, c | ByHash(a, b) && ByHash(b, c) ensures ByHash(a, c) {
      StrLeqTransitive(MemberHash(a), MemberHash(b), MemberHash(c));
    }
  }

  /** Once each is sorted by hash, two teams with the same members have the
      same hash sequence, whatever order the members came in. */
  lemma SortedPermutationsHashEqual(a: Team, b: Team)
    requires SortedBy(a, ByHash) && SortedBy(b, ByHash)
    requires multiset(a) == multiset(b)
    ensures Hashes(a) == Hashes(b)
  {
    MapOfPermutation(a, b, MemberHash);
    SortedStringsUnique(Hashes(a), Hashes(b));
  }

  // ---------------------------------------------------------------------
  // Coverage

  /** How much of ingredient `name` the whole team produces. */
  function Produced(team: Team, name: string): (r: real)
    ensures r >= 0.0
  {
    if team == [] then 0.0
    else Produced(team[..|team| - 1], name) + AmountOf(team[|team| - 1].produce, name)
  }

  /** The team meets every requirement in `reqs`. */
  predicate Covers(team: Team, reqs: seq<SimplifiedIngredientSet>) {
    forall req :: req in reqs ==> Produced(team, req.ingredient) >= req.amount
  }

  lemma {:induction false} ProducedAppend(u: Team, v: Team, name: string)
    ensures Produced(u + v, name) == Produced(u, name) + Produced(v, name)
  {
    if v == [] {
      assert u + v == u;
    } else {
      assert (u + v)[..|u + v| - 1] == u + v[..|v| - 1];
      ProducedAppend(u, v[..|v| - 1], name);
    }
  }

  /** Production does not depend on the order of the members. */
  lemma {:induction false} ProducedOfPermutation(a: Team, b: Team, name: string)
    requires multiset(a) == multiset(b)
    ensures Produced(a, name) == Produced(b, name)
    decreases |a|
  {
    if a == [] {
      assert |multiset(b)| == |b|;
    } else {
      var n := |a| - 1;
      var x := a[n];
      assert x in multiset(b);
      var j :| 0 <= j < |b| && b[j] == x;
      var b' := b[..j] + b[j + 1..];
      assert a == a[..n] + [x];
      assert b == b[..j] + [x] + b[j + 1..];
      assert multiset(a[..n]) == multiset(a) - multiset{x};
      assert multiset(b') == multiset(b) - multiset{x};
      ProducedOfPermutation(a[..n], b', name);
      ProducedAppend(b[..j] + [x], b[j + 1..], name);
      ProducedAppend(b[..j], [x], name);
      ProducedAppend(b[..j], b[j + 1..], name);
      assert [x][..0] == [];
    }
  }

  lemma CoversPermutation(a: Team, b: Team, reqs: seq<SimplifiedIngredientSet>)
    requires multiset(a) == multiset(b) && Covers(a, reqs)
    ensures Covers(b, reqs)
  {
    forall req | req in reqs ensures Produced(b, req.ingredient) >= req.amount {
      ProducedOfPermutation(a, b, req.ingredient);
    }
  }

  /** A sub-team that covers what `poke` leaves of `meal`, with `poke` added
      at the end, covers `meal`. */
  lemma CoverExtends(sub: Team, poke: CombinationWithProduce, meal: seq<SimplifiedIngredientSet>)
    requires Covers(sub, CalculateRemainingSimplifiedIngredients(meal, poke.produce))
    ensures Covers(sub + [poke], meal)
  {
    forall req | req in meal ensures Produced(sub + [poke], req.ingredient) >= req.amount {
      assert (sub + [poke])[..|sub|] == sub;
      if Shortfall(req, poke.produce) > 0.0 {
        RemainderKeepsUnmet(meal, poke.produce, req);
      }
    }
  }

  /** A candidate that leaves nothing of `meal` covers it on its own. */
  lemma SingleCovers(poke: CombinationWithProduce, meal: seq<SimplifiedIngredientSet>)
    requires CalculateRemainingSimplifiedIngredients(meal, poke.produce) == []
    ensures Covers([poke], meal)
  {
    forall req | req in meal ensures Produced([poke], req.ingredient) >= req.amount {
      assert [poke][..0] == [];
      if Shortfall(req, poke.produce) > 0.0 {
        RemainderKeepsUnmet(meal, poke.produce, req);
      }
    }
  }

  /** A candidate that covers `meal` on its own leaves nothing of it: the
      converse of SingleCovers. */
  lemma CoveredLeavesNothing(poke: CombinationWithProduce, meal: seq<SimplifiedIngredientSet>)
    requires Covers([poke], meal)
    ensures CalculateRemainingSimplifiedIngredients(meal, poke.produce) == []
  {
    forall req | req in meal ensures Shortfall(req, poke.produce) <= 0.0 {
      assert [poke][..0] == [];
      assert Produced([poke], req.ingredient) == AmountOf(poke.produce, req.ingredient);
    }
    RemainderEmptyIffMet(meal, poke.produce);
  }
}
