/** Post-processing of the solver's raw teams (the ranking half of
    set-cover.ts): a surplus and an `exhaustive` flag per team, ordering by
    least filler, members sorted by hash, and removal of duplicate teams. */
module TeamRanking {
  import opened Ingredients
  import opened Sorting
  import opened Combinations

  /** OptimalTeamSolution: a team, what it produces beyond the recipe, and
      whether the search that found it ran to completion. */
  datatype OptimalTeamSolution = OptimalTeamSolution(team: Team, surplus: Surplus, exhaustive: bool)

  /** The identity removeDuplicateTeams compares teams by: the members'
      hashes joined with '|'. */
  function TeamKey(team: Team): string {
    Join(Hashes(team), "|")
  }

  function KeyOf(solution: OptimalTeamSolution): string {
    TeamKey(solution.team)
  }

  /** The keys of every solution in `s`. */
  function KeysOf(s: seq<OptimalTeamSolution>): (r: set<string>)
    ensures forall i :: 0 <= i < |s| ==> KeyOf(s[i]) in r
  {
    if s == [] then {} else KeysOf(s[..|s| - 1]) + {KeyOf(s[|s| - 1])}
  }

  lemma {:induction false} KeysOfMember(s: seq<OptimalTeamSolution>, k: string)
    requires k in KeysOf(s)
    ensures exists i :: 0 <= i < |s| && KeyOf(s[i]) == k
  {
    if k != KeyOf(s[|s| - 1]) {
      KeysOfMember(s[..|s| - 1], k);
    }
  }

  lemma KeysOfAppend(s: seq<OptimalTeamSolution>, x: OptimalTeamSolution)
    ensures KeysOf(s + [x]) == KeysOf(s) + {KeyOf(x)}
  {
    assert (s + [x])[..|s|] == s;
  }

  predicate DistinctKeys(s: seq<OptimalTeamSolution>) {
    forall i, j :: 0 <= i < j < |s| ==> KeyOf(s[i]) != KeyOf(s[j])
  }

  /** No solution before position `i` has the key of `s[i]`. */
  predicate FirstOfKey(s: seq<OptimalTeamSolution>, i: int)
    requires 0 <= i < |s|
  {
    forall j :: 0 <= j < i ==> KeyOf(s[j]) != KeyOf(s[i])
  }

  /** `a` is `b` with some elements left out, the rest in the same order. */
  predicate IsSubsequence<T(==)>(a: seq<T>, b: seq<T>)
    decreases |b|
  {
    a == [] ||
    (b != [] &&
     ((a[|a| - 1] == b[|b| - 1] && IsSubsequence(a[..|a| - 1], b[..|b| - 1]))
      || IsSubsequence(a, b[..|b| - 1])))
  }

  /** The filter of removeDuplicateTeams, left to right: a solution is kept
      when no solution kept before it has the same key. */
  function Dedup(s: seq<OptimalTeamSolution>): (r: seq<OptimalTeamSolution>)
    ensures |r| <= |s|
    ensures forall x :: x in r ==> x in s
  {
    if s == [] then []
    else
      var d := Dedup(s[..|s| - 1]);
      if KeyOf(s[|s| - 1]) in KeysOf(d) then d else d + [s[|s| - 1]]
  }

  lemma {:induction false} DedupSubsequence(s: seq<OptimalTeamSolution>)
    ensures IsSubsequence(Dedup(s), s)
  {
    if s != [] {
      var init, d := s[..|s| - 1], Dedup(s[..|s| - 1]);
      DedupSubsequence(init);
      if KeyOf(s[|s| - 1]) !in KeysOf(d) {
        assert (d + [s[|s| - 1]])[..|d|] == d;
      }
    }
  }

  /** No two kept solutions share a key, and every key of the input survives. */
  lemma {:induction false} DedupDistinct(s: seq<OptimalTeamSolution>)
    ensures DistinctKeys(Dedup(s))
    ensures KeysOf(Dedup(s)) == KeysOf(s)
  {
    if s != [] {
      var init, last := s[..|s| - 1], s[|s| - 1];
      var d := Dedup(init);
      DedupDistinct(init);
      if KeyOf(last) !in KeysOf(d) {
        KeysOfAppend(d, last);
      }
    }
  }

  /** The first solution with each key is the one kept. */
  lemma {:induction false} DedupKeepsFirst(s: seq<OptimalTeamSolution>, i: int)
    requires 0 <= i < |s| && FirstOfKey(s, i)
    ensures s[i] in Dedup(s)
  {
    var init, last := s[..|s| - 1], s[|s| - 1];
    var d := Dedup(init);
    if i < |s| - 1 {
      assert FirstOfKey(init, i);
      DedupKeepsFirst(init, i);
    } else {
      DedupDistinct(init);
      if KeyOf(last) in KeysOf(d) {
        KeysOfMember(init, KeyOf(last));
        assert false;
      }
    }
  }

  lemma {:induction false} DedupOfDistinct(s: seq<OptimalTeamSolution>)
    requires DistinctKeys(s)
    ensures Dedup(s) == s
  {
    if s != [] {
      var init, last := s[..|s| - 1], s[|s| - 1];
      DedupOfDistinct(init);
      if KeyOf(last) in KeysOf(init) {
        KeysOfMember(init, KeyOf(last));
        assert false;
      }
    }
  }

  /** Removing duplicates twice is removing them once. */
  lemma DedupIdempotent(s: seq<OptimalTeamSolution>)
    ensures Dedup(Dedup(s)) == Dedup(s)
  {
    DedupDistinct(s);
    DedupOfDistinct(Dedup(s));
  }

  /** removeDuplicateTeams: keeps the first solution of each team key, in order. */
  method RemoveDuplicateTeams(optimalTeamSolutions: seq<OptimalTeamSolution>)
    returns (r: seq<OptimalTeamSolution>)
    ensures r == Dedup(optimalTeamSolutions)
    ensures DistinctKeys(r)
    ensures IsSubsequence(r, optimalTeamSolutions)
  {
    var uniqueTeamHashes: set<string> := {};
    r := [];
    for i := 0 to |optimalTeamSolutions|
      invariant r == Dedup(optimalTeamSolutions[..i])
      invariant uniqueTeamHashes == KeysOf(r)
    {
      var solution := optimalTeamSolutions[i];
      ghost var prefix := optimalTeamSolutions[..i + 1];
      assert prefix[..i] == optimalTeamSolutions[..i] && prefix[i] == solution;
      var teamHash := TeamKey(solution.team);
      if teamHash !in uniqueTeamHashes {
        KeysOfAppend(r, solution);
        uniqueTeamHashes := uniqueTeamHashes + {teamHash};
        r := r + [solution];
      }
    }
    assert optimalTeamSolutions[..|optimalTeamSolutions|] == optimalTeamSolutions;
    DedupDistinct(optimalTeamSolutions);
    DedupSubsequence(optimalTeamSolutions);
  }

  // ---------------------------------------------------------------------
  // Sorting members by hash, then deduplicating

  function SortMembers(solution: OptimalTeamSolution): OptimalTeamSolution {
    solution.(team := SortBy(solution.team, ByHash))
  }

  function SortAllMembers(solutions: seq<OptimalTeamSolution>): (r: seq<OptimalTeamSolution>)
    ensures |r| == |solutions|
  {
    seq(|solutions|, i requires 0 <= i < |solutions| => SortMembers(solutions[i]))
  }

  /** What processOptimalTeamSolutions computes: every team's members sorted
      by hash, then duplicates removed. */
  function Rank(solutions: seq<OptimalTeamSolution>): seq<OptimalTeamSolution> {
    Dedup(SortAllMembers(solutions))
  }

  /** Ranking drops duplicates but never every solution. */
  lemma RankKeepsSome(solutions: seq<OptimalTeamSolution>)
    ensures Rank(solutions) != [] <==> solutions != []
  {
    var sorted := SortAllMembers(solutions);
    if solutions != [] {
      DedupDistinct(sorted);
      assert KeyOf(sorted[0]) in KeysOf(Dedup(sorted));
    }
  }

  lemma SortMembersSorted(solution: OptimalTeamSolution)
    ensures SortedBy(SortMembers(solution).team, ByHash)
    ensures multiset(SortMembers(solution).team) == multiset(solution.team)
  {
    ByHashIsTotalPreorder();
    SortBySorted(solution.team, ByHash);
  }

  /** Two ranked teams that are sorted by hash and hold the same members
      have the same key, so deduplication cannot keep both. */
  lemma PermutationsShareKey(a: Team, b: Team)
    requires SortedBy(a, ByHash) && SortedBy(b, ByHash) && multiset(a) == multiset(b)
    ensures TeamKey(a) == TeamKey(b)
  {
    SortedPermutationsHashEqual(a, b);
  }

  /** `x` is one of `solutions` with its members possibly reordered. */
  predicate SourcedFrom(x: OptimalTeamSolution, solutions: seq<OptimalTeamSolution>) {
    exists y :: y in solutions &&
      (x.surplus == y.surplus && x.exhaustive == y.exhaustive && multiset(x.team) == multiset(y.team))
  }

  /** processOptimalTeamSolutions: sorts each team's members by hash, then
      removes duplicate teams. */
  method ProcessOptimalTeamSolutions(optimalTeamSolutions: seq<OptimalTeamSolution>)
    returns (r: seq<OptimalTeamSolution>)
    ensures r == Rank(optimalTeamSolutions)
    ensures forall x :: x in r ==> SortedBy(x.team, ByHash)
    ensures forall x :: x in r ==> SourcedFrom(x, optimalTeamSolutions)
    ensures DistinctKeys(r)
    ensures forall i, j :: 0 <= i < j < |r| ==> multiset(r[i].team) != multiset(r[j].team)
  {
    var sorted := optimalTeamSolutions;
    for i := 0 to |sorted|
      invariant |sorted| == |optimalTeamSolutions|
      invariant forall k :: 0 <= k < i ==> sorted[k] == SortMembers(optimalTeamSolutions[k])
      invariant forall k :: i <= k < |sorted| ==> sorted[k] == optimalTeamSolutions[k]
    {
      sorted := sorted[i := SortMembers(sorted[i])];
    }
    assert sorted == SortAllMembers(optimalTeamSolutions);
    r := RemoveDuplicateTeams(sorted);
    RankedTeamsSorted(optimalTeamSolutions);
    RankedTeamsDiffer(optimalTeamSolutions);
  }

  /** Every ranked solution is an input solution with its members sorted by hash. */
  lemma RankedTeamsSorted(solutions: seq<OptimalTeamSolution>)
    ensures forall x :: x in Rank(solutions) ==> SortedBy(x.team, ByHash) && SourcedFrom(x, solutions)
  {
    var sorted := SortAllMembers(solutions);
    forall x | x in Rank(solutions)
      ensures SortedBy(x.team, ByHash) && SourcedFrom(x, solutions)
    {
      var k :| 0 <= k < |sorted| && sorted[k] == x;
      SortMembersSorted(solutions[k]);
      assert solutions[k] in solutions;
    }
  }

  /** No two ranked solutions hold the same members, in whatever order. */
  lemma RankedTeamsDiffer(solutions: seq<OptimalTeamSolution>)
    ensures var r := Rank(solutions);
      forall i, j :: 0 <= i < j < |r| ==> multiset(r[i].team) != multiset(r[j].team)
  {
    var r := Rank(solutions);
    RankedTeamsSorted(solutions);
    DedupDistinct(SortAllMembers(solutions));
    forall i, j | 0 <= i < j < |r| ensures multiset(r[i].team) != multiset(r[j].team) {
      if multiset(r[i].team) == multiset(r[j].team) {
        assert r[i] in r && r[j] in r;
        PermutationsShareKey(r[i].team, r[j].team);
        assert false;
      }
    }
  }

  /** Ranking an already ranked list changes nothing. */
  lemma RankIdempotent(solutions: seq<OptimalTeamSolution>)
    ensures Rank(Rank(solutions)) == Rank(solutions)
  {
    var ranked := Rank(solutions);
    forall k | 0 <= k < |ranked| ensures SortMembers(ranked[k]) == ranked[k] {
      assert ranked[k] in SortAllMembers(solutions);
      var i :| 0 <= i < |solutions| && SortAllMembers(solutions)[i] == ranked[k];
      SortMembersSorted(solutions[i]);
      SortByOfSorted(ranked[k].team, ByHash);
    }
    assert SortAllMembers(ranked) == ranked;
    DedupIdempotent(SortAllMembers(solutions));
  }

  // ---------------------------------------------------------------------
  // Surplus and ordering by filler

  /** Everything a team produces, member after member (the source's flatMap). */
  function TeamProduce(team: Team): (r: seq<IngredientSet>)
    ensures forall name :: AmountOf(r, name) == Produced(team, name)
  {
    if team == [] then []
    else
      var init := team[..|team| - 1];
      AmountOfAppend(TeamProduce(init), team[|team| - 1].produce);
      TeamProduce(init) + team[|team| - 1].produce
  }

  lemma {:induction false} AmountOfAppend(a: seq<IngredientSet>, b: seq<IngredientSet>)
    ensures forall name :: AmountOf(a + b, name) == AmountOf(a, name) + AmountOf(b, name)
  {
    if a != [] {
      assert (a + b)[1..] == a[1..] + b;
      AmountOfAppend(a[1..], b);
    } else {
      assert a + b == b;
    }
  }

  /** The detail record built for one team: the surplus of its combined
      produce over the recipe, split into recipe and filler ingredients. */
  function TeamWithDetails(team: Team, recipe: seq<IngredientSet>, exhaustive: bool): (r: OptimalTeamSolution)
    ensures r.team == team && r.exhaustive == exhaustive
  {
    var total := CalculateRemainingIngredients(CombineSameIngredientsInDrop(TeamProduce(team)), recipe);
    OptimalTeamSolution(team, ExtractRelevantSurplus(recipe, total), exhaustive)
  }

  /** The surplus of a detail record holds exactly the ingredients the team
      produces beyond the recipe, each with the excess. */
  lemma TeamSurplusIsExcess(team: Team, recipe: seq<IngredientSet>, exhaustive: bool)
    ensures ExactSurplus(team, recipe, TeamWithDetails(team, recipe, exhaustive).surplus.total)
  {
    CombinedSurplusIsExcess(team, recipe);
    assert TeamWithDetails(team, recipe, exhaustive).surplus.total
        == CalculateRemainingIngredients(CombineSameIngredientsInDrop(TeamProduce(team)), recipe);
  }

  /** `total` holds exactly the ingredients `team` produces beyond `recipe`,
      each with the excess. */
  ghost predicate ExactSurplus(team: Team, recipe: seq<IngredientSet>, total: seq<IngredientSet>) {
    && (forall e :: e in total ==>
          e.amount == Produced(team, e.ingredient.name) - AmountOf(recipe, e.ingredient.name) > 0.0)
    && (forall name :: Produced(team, name) > AmountOf(recipe, name) ==>
          IngredientSet(Produced(team, name) - AmountOf(recipe, name), Ingredient(name)) in total)
  }

  lemma CombinedSurplusIsExcess(team: Team, recipe: seq<IngredientSet>)
    ensures ExactSurplus(team, recipe,
                         CalculateRemainingIngredients(CombineSameIngredientsInDrop(TeamProduce(team)), recipe))
  {
    var combined := CombineSameIngredientsInDrop(TeamProduce(team));
    CombinedSurplusEntries(team, recipe, combined);
    assert forall name :: AmountOf(combined, name) == Produced(team, name);
    CombinedSurplusComplete(team, recipe, combined);
  }

  lemma CombinedSurplusEntries(team: Team, recipe: seq<IngredientSet>, combined: seq<IngredientSet>)
    requires combined == CombineSameIngredientsInDrop(TeamProduce(team))
    ensures forall e :: e in CalculateRemainingIngredients(combined, recipe) ==>
      e.amount == Produced(team, e.ingredient.name) - AmountOf(recipe, e.ingredient.name) > 0.0
  {
    forall e | e in CalculateRemainingIngredients(combined, recipe)
      ensures e.amount == Produced(team, e.ingredient.name) - AmountOf(recipe, e.ingredient.name) > 0.0
    {
      SurplusIsExcess(combined, recipe, e);
    }
  }

  lemma CombinedSurplusComplete(team: Team, recipe: seq<IngredientSet>, combined: seq<IngredientSet>)
    requires DistinctIngredients(combined)
    requires forall name :: AmountOf(combined, name) == Produced(team, name)
    ensures forall name :: Produced(team, name) > AmountOf(recipe, name) ==>
      IngredientSet(Produced(team, name) - AmountOf(recipe, name), Ingredient(name))
        in CalculateRemainingIngredients(combined, recipe)
  {
    forall name | Produced(team, name) > AmountOf(recipe, name)
      ensures IngredientSet(Produced(team, name) - AmountOf(recipe, name), Ingredient(name))
                in CalculateRemainingIngredients(combined, recipe)
    {
      SurplusComplete(combined, recipe, name);
    }
  }

  /** Filler first: less surplus outside the recipe ranks first, then less
      surplus of the recipe's own ingredients. */
  predicate ByFiller(a: OptimalTeamSolution, b: OptimalTeamSolution) {
    var fa, fb := TotalAmount(a.surplus.extra), TotalAmount(b.surplus.extra);
    fa < fb || (fa == fb && TotalAmount(a.surplus.relevant) <= TotalAmount(b.surplus.relevant))
  }

  lemma ByFillerIsTotalPreorder()
    ensures TotalPreorder(ByFiller)
  {
  }

  /** Removing duplicates keeps any order the solutions were in. */
  lemma {:induction false} DedupSorted(s: seq<OptimalTeamSolution>, leq: (OptimalTeamSolution, OptimalTeamSolution) -> bool)
    requires SortedBy(s, leq)
    ensures SortedBy(Dedup(s), leq)
  {
    if s != [] {
      var init, last := s[..|s| - 1], s[|s| - 1];
      var d := Dedup(init);
      DedupSorted(init, leq);
      if KeyOf(last) !in KeysOf(d) {
        forall x | x in d ensures leq(x, last) {
          var k :| 0 <= k < |init| && init[k] == x;
        }
        SortedSnoc(d, last, leq);
      }
    }
  }

  lemma SortedSnoc<T>(s: seq<T>, x: T, leq: (T, T) -> bool)
    requires SortedBy(s, leq) && forall y :: y in s ==> leq(y, x)
    ensures SortedBy(s + [x], leq)
  {
    forall i, j | 0 <= i < j < |s| + 1 ensures leq((s + [x])[i], (s + [x])[j]) {
      assert (s + [x])[i] == s[i];
      if j == |s| {
        assert s[i] in s;
      }
    }
  }

  /** Ranking keeps the order by least filler: sorting members leaves every
      surplus as it is, and removing duplicates keeps the order. */
  lemma RankKeepsFillerOrder(solutions: seq<OptimalTeamSolution>)
    requires SortedBy(solutions, ByFiller)
    ensures SortedBy(Rank(solutions), ByFiller)
  {
    var sorted := SortAllMembers(solutions);
    assert SortedBy(sorted, ByFiller) by {
      forall i, j | 0 <= i < j < |sorted| ensures ByFiller(sorted[i], sorted[j]) {
        assert sorted[i].surplus == solutions[i].surplus && sorted[j].surplus == solutions[j].surplus;
      }
    }
    DedupSorted(sorted, ByFiller);
  }

  /** sortByMinimumFiller: a sort by least filler. */
  function SortByMinimumFiller(solutions: seq<OptimalTeamSolution>): (r: seq<OptimalTeamSolution>)
    ensures multiset(r) == multiset(solutions)
    ensures SortedBy(r, ByFiller)
  {
    ByFillerIsTotalPreorder();
    SortBySorted(solutions, ByFiller);
    SortBy(solutions, ByFiller)
  }
}
