/** The memoised set-cover search of set-cover.ts: the smallest teams whose
    combined produce covers a recipe within a team-size budget.

    The memo is keyed by the MemoizedParameters record itself rather than by
    its string encoding, and the wall clock is a logical clock that advances
    by one unit at every timeout check. */
module SetCoverSolver {
  import opened Ingredients
  import opened Sorting
  import opened Combinations
  import opened TeamRanking
  import opened Wrappers

  /** MemoizedParameters: what is left of the recipe and how many places are left. */
  datatype Params = Params(remainingIngredients: seq<SimplifiedIngredientSet>, spotsLeftInTeam: int)

  /** `teams` is a valid answer for `p`: every team has the same size, between
      1 and the budget, and covers what is left of the recipe. */
  predicate Solves(teams: seq<Team>, p: Params) {
    forall t :: t in teams ==>
      && 1 <= |t| <= p.spotsLeftInTeam
      && |t| == |teams[0]|
      && Covers(t, p.remainingIngredients)
  }

  /** Every cached answer is a valid answer for its key. */
  ghost predicate MemoSound(memo: map<Params, seq<Team>>) {
    forall p :: p in memo ==> Solves(memo[p], p)
  }

  /** The recipe in memo-key form: each ingredient by name. */
  function Simplify(recipe: seq<IngredientSet>): (r: seq<SimplifiedIngredientSet>)
    ensures |r| == |recipe|
    ensures forall k :: 0 <= k < |r| ==>
      r[k].amount == recipe[k].amount && r[k].ingredient == recipe[k].ingredient.name
  {
    seq(|recipe|, k requires 0 <= k < |recipe| =>
      SimplifiedIngredientSet(recipe[k].amount, recipe[k].ingredient.name))
  }

  // ---------------------------------------------------------------------
  // Candidates for the first unmet ingredient

  /** One entry of `remainders`: the total left, what is left, and the candidate. */
  datatype Remainder = Remainder(sum: real, remainder: seq<SimplifiedIngredientSet>, poke: CombinationWithProduce)

  function RemainderFor(meal: seq<SimplifiedIngredientSet>, poke: CombinationWithProduce): Remainder {
    var remainder := CalculateRemainingSimplifiedIngredients(meal, poke.produce);
    Remainder(SumOfSimplifiedIngredients(remainder), remainder, poke)
  }

  function PokeOf(entry: Remainder): CombinationWithProduce {
    entry.poke
  }

  /** The candidates the reverse index lists for an ingredient; none when it lists nothing. */
  function Candidates(reverseIndex: map<string, seq<CombinationWithProduce>>, ingredient: string)
    : (r: seq<CombinationWithProduce>)
    ensures ingredient !in reverseIndex ==> r == []
    ensures ingredient in reverseIndex ==> r == reverseIndex[ingredient]
  {
    if ingredient in reverseIndex then reverseIndex[ingredient] else []
  }

  /** What is left of `meal` after each candidate, one entry per candidate in index order. */
  method BuildRemainders(meal: seq<SimplifiedIngredientSet>, candidates: seq<CombinationWithProduce>)
    returns (remainders: seq<Remainder>)
    ensures |remainders| == |candidates|
    ensures forall k :: 0 <= k < |candidates| ==> remainders[k] == RemainderFor(meal, candidates[k])
    ensures forall e :: e in remainders ==> e.poke in candidates && e.sum >= 0.0
  {
    remainders := [];
    for i := 0 to |candidates|
      invariant |remainders| == i
      invariant forall k :: 0 <= k < i ==> remainders[k] == RemainderFor(meal, candidates[k])
    {
      var remainder := CalculateRemainingSimplifiedIngredients(meal, candidates[i].produce);
      var sum := SumOfSimplifiedIngredients(remainder);
      remainders := remainders + [Remainder(sum, remainder, candidates[i])];
    }
  }

  /** The comparator `a[0] - b[0]`: fewer ingredients left first. */
  predicate BySum(a: Remainder, b: Remainder) {
    a.sum <= b.sum
  }

  /** The sort of `remainders` by what is left: same entries, non-decreasing sums. */
  function SortByRemainingSum(remainders: seq<Remainder>): (r: seq<Remainder>)
    ensures multiset(r) == multiset(remainders)
    ensures forall i, j :: 0 <= i < j < |r| ==> r[i].sum <= r[j].sum
  {
    assert TotalPreorder(BySum);
    SortBySorted(remainders, BySum);
    SortBy(remainders, BySum)
  }

  /** A candidate that covers `meal` on its own shows up among the ranked
      remainders as one with nothing left. */
  lemma CoveringCandidateRanked(remainders: seq<Remainder>, meal: seq<SimplifiedIngredientSet>,
                                candidates: seq<CombinationWithProduce>)
    requires forall e :: e in remainders ==> e == RemainderFor(meal, e.poke)
    requires multiset(Map(remainders, PokeOf)) == multiset(candidates)
    ensures (exists c :: c in candidates && Covers([c], meal)) ==>
      exists e :: e in remainders && e.sum == 0.0
  {
    if c :| c in candidates && Covers([c], meal) {
      CoveredLeavesNothing(c, meal);
      assert c in multiset(Map(remainders, PokeOf));
      var k :| 0 <= k < |remainders| && Map(remainders, PokeOf)[k] == c;
      assert remainders[k] in remainders;
    }
  }

  // ---------------------------------------------------------------------
  // The fold over the sorted candidates

  /** The running best of the fold: its team size and the teams of that size. */
  datatype Best = Best(maxTeamSize: int, teams: seq<Team>)

  predicate Uniform(teams: seq<Team>, size: int) {
    forall t :: t in teams ==> |t| == size
  }

  /** Each sub-team with `poke` added at the end (the default `.sort()` that
      follows leaves the list as it is; see README). */
  function Extend(subTeams: seq<Team>, poke: CombinationWithProduce): (r: seq<Team>)
    ensures |r| == |subTeams|
    ensures forall k :: 0 <= k < |r| ==> r[k] == subTeams[k] + [poke]
  {
    seq(|subTeams|, k requires 0 <= k < |subTeams| => subTeams[k] + [poke])
  }

  /** The fold step for a candidate that leaves a remainder, once its
      sub-search returned the non-empty `subTeams`: a strictly smaller
      extended team replaces the best, one of equal size is appended, a larger
      one is ignored. */
  function MergeSubTeams(best: Best, subTeams: seq<Team>, poke: CombinationWithProduce): (r: Best)
    requires subTeams != []
    ensures r.maxTeamSize <= best.maxTeamSize
    ensures |subTeams[0]| + 1 < best.maxTeamSize ==>
      r.maxTeamSize == |subTeams[0]| + 1 && r.teams == Extend(subTeams, poke)
    ensures |subTeams[0]| + 1 == best.maxTeamSize ==>
      r.maxTeamSize == best.maxTeamSize && r.teams == best.teams + Extend(subTeams, poke)
    ensures |subTeams[0]| + 1 > best.maxTeamSize ==> r == best
    ensures Uniform(best.teams, best.maxTeamSize) && Uniform(subTeams, |subTeams[0]|) ==>
      Uniform(r.teams, r.maxTeamSize)
    ensures forall t :: t in r.teams ==>
      t in best.teams || exists s :: s in subTeams && t == s + [poke]
  {
    var subTeamSize := |subTeams[0]|;
    if subTeamSize + 1 < best.maxTeamSize then
      Best(subTeamSize + 1, Extend(subTeams, poke))
    else if subTeamSize + 1 == best.maxTeamSize then
      Best(best.maxTeamSize, best.teams + Extend(subTeams, poke))
    else
      best
  }

  /** The fold step for a candidate that covers everything on its own: it
      becomes the only best team when the best is larger than one, and joins
      the best teams when they already have size one. */
  function MergeSingle(best: Best, poke: CombinationWithProduce): (r: Best)
    ensures r.maxTeamSize <= best.maxTeamSize
    ensures best.maxTeamSize > 1 ==> r == Best(1, [[poke]])
    ensures best.maxTeamSize == 1 ==> r == Best(1, best.teams + [[poke]])
    ensures best.maxTeamSize < 1 ==> r == best
    ensures Uniform(best.teams, best.maxTeamSize) ==> Uniform(r.teams, r.maxTeamSize)
    ensures forall t :: t in r.teams ==> t in best.teams || t == [poke]
  {
    if best.maxTeamSize > 1 then Best(1, [[poke]])
    else if best.maxTeamSize == 1 then Best(1, best.teams + [[poke]])
    else best
  }

  /** Merging the answer of a sub-search keeps every best team a cover of
      the meal and keeps the best size within the budget. */
  lemma MergeSubTeamsCovers(best: Best, subTeams: seq<Team>, poke: CombinationWithProduce,
                            meal: seq<SimplifiedIngredientSet>)
    requires subTeams != []
    requires Solves(subTeams, Params(CalculateRemainingSimplifiedIngredients(meal, poke.produce), best.maxTeamSize - 1))
    requires Uniform(best.teams, best.maxTeamSize)
    requires forall t :: t in best.teams ==> Covers(t, meal)
    ensures var r := MergeSubTeams(best, subTeams, poke);
      && Uniform(r.teams, r.maxTeamSize)
      && (r.teams != [] ==> 1 <= r.maxTeamSize)
      && forall t :: t in r.teams ==> Covers(t, meal)
  {
    var r := MergeSubTeams(best, subTeams, poke);
    assert subTeams[0] in subTeams;
    forall t | t in r.teams ensures Covers(t, meal) {
      if t !in best.teams {
        var s :| s in subTeams && t == s + [poke];
        CoverExtends(s, poke, meal);
      }
    }
  }

  /** The fold recurses on a candidate exactly when it leaves something and
      more than one place is left in the running best. */
  predicate Recursed(best: Best, entry: Remainder) {
    entry.sum > 0.0 && best.maxTeamSize > 1
  }

  /** The memo key of that recursive call: the candidate's remainder with one
      place fewer than the running best. */
  function SubKey(best: Best, entry: Remainder): Params {
    Params(entry.remainder, best.maxTeamSize - 1)
  }

  /** One round of the fold (set-cover.ts:97-153), given `sub`, the answer of
      the recursive call when there is one. */
  function FoldStep(best: Best, entry: Remainder, sub: seq<Team>): Best {
    if entry.sum > 0.0 then
      if best.maxTeamSize > 1 && sub != [] then MergeSubTeams(best, sub, entry.poke) else best
    else
      MergeSingle(best, entry.poke)
  }

  /** Round `k` took `before` to `after`, and `sub` is a valid answer for the
      key of its recursive call, or empty when there was none. */
  predicate FoldedAt(entry: Remainder, sub: seq<Team>, before: Best, after: Best) {
    && after == FoldStep(before, entry, sub)
    && (if Recursed(before, entry) then Solves(sub, SubKey(before, entry)) else sub == [])
  }

  /** `bests` traces the fold over the first `|subs|` ranked candidates,
      starting from the full budget and no teams; `subs[k]` is what round `k`
      got back from its recursive call. */
  predicate FoldTrace(remainders: seq<Remainder>, subs: seq<seq<Team>>, bests: seq<Best>, spots: int) {
    && |subs| <= |remainders|
    && |bests| == |subs| + 1
    && bests[0] == Best(spots, [])
    && forall k :: 0 <= k < |subs| ==> FoldedAt(remainders[k], subs[k], bests[k], bests[k + 1])
  }

  /** Along the trace the best size never exceeds the budget, the teams all
      have the best size, and the best is still the starting one until a team
      is found. */
  lemma {:induction false} FoldTraceShape(remainders: seq<Remainder>, subs: seq<seq<Team>>, bests: seq<Best>,
                                          spots: int, i: nat)
    requires FoldTrace(remainders, subs, bests, spots) && i <= |subs|
    ensures bests[i].maxTeamSize <= spots
    ensures Uniform(bests[i].teams, bests[i].maxTeamSize)
    ensures bests[i].teams == [] ==> bests[i].maxTeamSize == spots
    ensures bests[i].teams != [] ==> bests[i].maxTeamSize >= 1
  {
    if i > 0 {
      FoldTraceShape(remainders, subs, bests, spots, i - 1);
      var b, e, s := bests[i - 1], remainders[i - 1], subs[i - 1];
      assert FoldedAt(e, s, b, bests[i]);
      if e.sum > 0.0 && b.maxTeamSize > 1 && s != [] {
        assert s[0] in s;
      }
    }
  }

  /** Once the best holds a team, later rounds keep some team and never let
      the best size grow. */
  lemma {:induction false} FoldKeepsTeams(remainders: seq<Remainder>, subs: seq<seq<Team>>, bests: seq<Best>,
                                          spots: int, i: nat, j: nat)
    requires FoldTrace(remainders, subs, bests, spots) && i <= j <= |subs|
    requires bests[i].teams != []
    ensures bests[j].teams != [] && bests[j].maxTeamSize <= bests[i].maxTeamSize
  {
    if i < j {
      FoldKeepsTeams(remainders, subs, bests, spots, i, j - 1);
      assert FoldedAt(remainders[j - 1], subs[j - 1], bests[j - 1], bests[j]);
    }
  }

  /** Every non-empty answer a recursive call returns is used: the fold ends
      with some team, none larger than that sub-team plus the candidate. */
  lemma FoldUsesSubAnswer(remainders: seq<Remainder>, subs: seq<seq<Team>>, bests: seq<Best>,
                          spots: int, k: nat)
    requires FoldTrace(remainders, subs, bests, spots) && k < |subs|
    requires subs[k] != []
    ensures bests[|subs|].teams != []
    ensures forall t :: t in bests[|subs|].teams ==> |t| <= |subs[k][0]| + 1
  {
    var b, e, s := bests[k], remainders[k], subs[k];
    assert FoldedAt(e, s, b, bests[k + 1]);
    FoldTraceShape(remainders, subs, bests, spots, k);
    assert s[0] in s;
    FoldKeepsTeams(remainders, subs, bests, spots, k + 1, |subs|);
    FoldTraceShape(remainders, subs, bests, spots, |subs|);
  }

  /** A candidate that leaves nothing makes the fold end with teams of one. */
  lemma FoldUsesSingle(remainders: seq<Remainder>, subs: seq<seq<Team>>, bests: seq<Best>,
                       spots: int, k: nat)
    requires FoldTrace(remainders, subs, bests, spots) && k < |subs|
    requires remainders[k].sum <= 0.0 && spots >= 1
    ensures bests[|subs|].teams != []
    ensures forall t :: t in bests[|subs|].teams ==> |t| == 1
  {
    assert FoldedAt(remainders[k], subs[k], bests[k], bests[k + 1]);
    FoldTraceShape(remainders, subs, bests, spots, k);
    FoldKeepsTeams(remainders, subs, bests, spots, k + 1, |subs|);
    FoldTraceShape(remainders, subs, bests, spots, |subs|);
  }

  /** What the whole fold guarantees: every non-empty sub-answer and every
      candidate that leaves nothing is reflected in the final teams. */
  lemma FoldOutcome(remainders: seq<Remainder>, subs: seq<seq<Team>>, bests: seq<Best>, spots: int)
    requires FoldTrace(remainders, subs, bests, spots) && |subs| == |remainders|
    ensures forall k :: 0 <= k < |subs| && subs[k] != [] ==>
      bests[|subs|].teams != [] && forall t :: t in bests[|subs|].teams ==> |t| <= |subs[k][0]| + 1
    ensures spots >= 1 && (exists e :: e in remainders && e.sum == 0.0) ==>
      bests[|subs|].teams != [] && forall t :: t in bests[|subs|].teams ==> |t| == 1
  {
    if e :| e in remainders && e.sum == 0.0 && spots >= 1 {
      var k :| 0 <= k < |remainders| && remainders[k] == e;
      FoldUsesSingle(remainders, subs, bests, spots, k);
    }
    forall k | 0 <= k < |subs| && subs[k] != []
      ensures bests[|subs|].teams != [] && forall t :: t in bests[|subs|].teams ==> |t| <= |subs[k][0]| + 1
    {
      FoldUsesSubAnswer(remainders, subs, bests, spots, k);
    }
  }

  /** The candidates `candidates`, each with what it leaves of `meal`, in
      order of what they leave. */
  predicate RankedFor(remainders: seq<Remainder>, meal: seq<SimplifiedIngredientSet>,
                      candidates: seq<CombinationWithProduce>)
  {
    && (forall e :: e in remainders ==> e == RemainderFor(meal, e.poke))
    && multiset(Map(remainders, PokeOf)) == multiset(candidates)
    && (forall i, j :: 0 <= i < j < |remainders| ==> remainders[i].sum <= remainders[j].sum)
  }

  /** `teams` is the outcome of the fold for `p`: over the ranked candidates
      for its first ingredient, from the full budget, with the sub-answers
      `subs`. */
  predicate FoldedFor(p: Params, candidates: seq<CombinationWithProduce>, ranked: seq<Remainder>,
                      subs: seq<seq<Team>>, bests: seq<Best>, teams: seq<Team>)
  {
    && RankedFor(ranked, p.remainingIngredients, candidates)
    && |subs| == |ranked|
    && FoldTrace(ranked, subs, bests, p.spotsLeftInTeam)
    && teams == bests[|ranked|].teams
  }

  /** Caching the answer for `p` itself leaves the sub-answers cached: their
      keys have fewer places than `p`. */
  lemma CachedUnderOtherKey(remainders: seq<Remainder>, subs: seq<seq<Team>>, bests: seq<Best>, spots: int,
                            memo: map<Params, seq<Team>>, timedOut: bool, p: Params, teams: seq<Team>)
    requires FoldTrace(remainders, subs, bests, spots) && p.spotsLeftInTeam == spots
    requires SubAnswersCached(remainders, subs, bests, memo, timedOut)
    ensures SubAnswersCached(remainders, subs, bests, memo[p := teams], timedOut)
  {
    forall k | 0 <= k < |subs| && Recursed(bests[k], remainders[k])
      ensures SubKey(bests[k], remainders[k]) != p
    {
      FoldTraceShape(remainders, subs, bests, spots, k);
    }
  }

  /** Without a timeout the memo only gains entries: none is dropped or
      changed. */
  predicate MemoExtends(before: map<Params, seq<Team>>, after: map<Params, seq<Team>>) {
    forall q :: q in before ==> q in after && after[q] == before[q]
  }

  /** The key of every recursive call of the trace is in the memo and, without
      a timeout, still holds the answer that call returned. */
  predicate SubAnswersCached(remainders: seq<Remainder>, subs: seq<seq<Team>>, bests: seq<Best>,
                             memo: map<Params, seq<Team>>, timedOut: bool)
    requires |subs| <= |remainders| && |bests| > |subs|
  {
    forall k :: 0 <= k < |subs| && Recursed(bests[k], remainders[k]) ==>
      SubKey(bests[k], remainders[k]) in memo && (!timedOut ==> memo[SubKey(bests[k], remainders[k])] == subs[k])
  }

  /** One more round extends the trace. */
  lemma TraceSnoc(remainders: seq<Remainder>, subs: seq<seq<Team>>, bests: seq<Best>, spots: int,
                  sub: seq<Team>, next: Best)
    requires FoldTrace(remainders, subs, bests, spots) && |subs| < |remainders|
    requires FoldedAt(remainders[|subs|], sub, bests[|subs|], next)
    ensures FoldTrace(remainders, subs + [sub], bests + [next], spots)
  {
    var subs', bests' := subs + [sub], bests + [next];
    forall k | 0 <= k < |subs'|
      ensures FoldedAt(remainders[k], subs'[k], bests'[k], bests'[k + 1])
    {
      if k < |subs| {
        assert FoldedAt(remainders[k], subs[k], bests[k], bests[k + 1]);
      }
    }
  }

  /** One more round whose recursive answer is cached keeps every earlier
      cached answer, as long as no timeout has fired. */
  lemma CachedSnoc(remainders: seq<Remainder>, subs: seq<seq<Team>>, bests: seq<Best>,
                   memo0: map<Params, seq<Team>>, fired0: bool, memo1: map<Params, seq<Team>>, fired1: bool,
                   sub: seq<Team>, next: Best)
    requires |subs| < |remainders| && |bests| == |subs| + 1
    requires SubAnswersCached(remainders, subs, bests, memo0, fired0)
    requires memo0.Keys <= memo1.Keys && (!fired1 ==> MemoExtends(memo0, memo1)) && (fired0 ==> fired1)
    requires Recursed(bests[|subs|], remainders[|subs|]) ==>
      SubKey(bests[|subs|], remainders[|subs|]) in memo1 && memo1[SubKey(bests[|subs|], remainders[|subs|])] == sub
    ensures SubAnswersCached(remainders, subs + [sub], bests + [next], memo1, fired1)
  {
    var subs', bests' := subs + [sub], bests + [next];
    forall k | 0 <= k < |subs'| && Recursed(bests'[k], remainders[k])
      ensures SubKey(bests'[k], remainders[k]) in memo1
      ensures !fired1 ==> memo1[SubKey(bests'[k], remainders[k])] == subs'[k]
    {
      if k < |subs| {
        assert bests'[k] == bests[k] && subs'[k] == subs[k];
      }
    }
  }

  // ---------------------------------------------------------------------
  // Completeness: the teams the search is bound to find

  /** Some chain of at most `n` candidates covers `meal`: a candidate the
      index lists for the first ingredient, then one for the first
      ingredient it leaves unmet, and so on until nothing is left. */
  ghost predicate CoverableWithin(reverseIndex: map<string, seq<CombinationWithProduce>>,
                                  meal: seq<SimplifiedIngredientSet>, n: nat)
    decreases n
  {
    && meal != [] && n >= 1
    && exists c :: c in Candidates(reverseIndex, meal[0].ingredient) &&
         var rest := RemainderFor(meal, c).remainder;
         rest == [] || CoverableWithin(reverseIndex, rest, n - 1)
  }

  /** The team such a chain makes: its candidates, last one first. */
  ghost function ChainTeam(reverseIndex: map<string, seq<CombinationWithProduce>>,
                           meal: seq<SimplifiedIngredientSet>, n: nat): (t: Team)
    requires CoverableWithin(reverseIndex, meal, n)
    decreases n
    ensures 1 <= |t| <= n
  {
    var c :| c in Candidates(reverseIndex, meal[0].ingredient) &&
      var rest := RemainderFor(meal, c).remainder;
      rest == [] || CoverableWithin(reverseIndex, rest, n - 1);
    var rest := RemainderFor(meal, c).remainder;
    if rest == [] then [c] else ChainTeam(reverseIndex, rest, n - 1) + [c]
  }

  /** Such a chain is a team of at most `n` members that covers `meal`. */
  lemma {:induction false} ChainTeamCovers(reverseIndex: map<string, seq<CombinationWithProduce>>,
                                           meal: seq<SimplifiedIngredientSet>, n: nat)
    requires CoverableWithin(reverseIndex, meal, n)
    decreases n
    ensures Covers(ChainTeam(reverseIndex, meal, n), meal)
  {
    var t := ChainTeam(reverseIndex, meal, n);
    var c := t[|t| - 1];
    var rest := RemainderFor(meal, c).remainder;
    if rest == [] {
      assert t == [c];
      SingleCovers(c, meal);
    } else {
      var u := ChainTeam(reverseIndex, rest, n - 1);
      assert t == u + [c];
      ChainTeamCovers(reverseIndex, rest, n - 1);
      CoverExtends(u, c, meal);
    }
  }

  /** `teams` is complete for `p`: whenever a chain of at most `n` candidates,
      `n` within the budget, covers what is left, some team is found and none
      has more than `n` members. */
  ghost predicate CompleteFor(reverseIndex: map<string, seq<CombinationWithProduce>>, p: Params, teams: seq<Team>) {
    forall n: nat :: 1 <= n <= p.spotsLeftInTeam && CoverableWithin(reverseIndex, p.remainingIngredients, n) ==>
      teams != [] && forall t :: t in teams ==> |t| <= n
  }

  /** Every cached answer is complete for its key. */
  ghost predicate MemoComplete(reverseIndex: map<string, seq<CombinationWithProduce>>, memo: map<Params, seq<Team>>) {
    forall q :: q in memo ==> CompleteFor(reverseIndex, q, memo[q])
  }

  lemma MemoCompleteUpdate(reverseIndex: map<string, seq<CombinationWithProduce>>, memo: map<Params, seq<Team>>,
                           p: Params, teams: seq<Team>)
    requires MemoComplete(reverseIndex, memo) && CompleteFor(reverseIndex, p, teams)
    ensures MemoComplete(reverseIndex, memo[p := teams])
  {
  }

  /** The fold finds what a chain finds: when every cached answer is complete
      and each round's sub-answer is still the cached one, the fold's answer
      is complete for `p`. The chain's first candidate is among the ranked
      ones; if it covers alone the fold ends with teams of one, otherwise its
      round either finds the best already small enough or recurses on a key
      for which the chain's rest is within the budget. */
  lemma FoldComplete(reverseIndex: map<string, seq<CombinationWithProduce>>, p: Params, ranked: seq<Remainder>,
                     subs: seq<seq<Team>>, bests: seq<Best>, teams: seq<Team>, memo: map<Params, seq<Team>>)
    requires p.remainingIngredients != []
    requires FoldedFor(p, Candidates(reverseIndex, p.remainingIngredients[0].ingredient), ranked, subs, bests, teams)
    requires SubAnswersCached(ranked, subs, bests, memo, false)
    requires MemoComplete(reverseIndex, memo)
    ensures CompleteFor(reverseIndex, p, teams)
  {
    var meal, spots := p.remainingIngredients, p.spotsLeftInTeam;
    var candidates := Candidates(reverseIndex, meal[0].ingredient);
    forall n: nat | 1 <= n <= spots && CoverableWithin(reverseIndex, meal, n)
      ensures teams != [] && forall t :: t in teams ==> |t| <= n
    {
      var c :| c in candidates &&
        var rest := RemainderFor(meal, c).remainder;
        rest == [] || CoverableWithin(reverseIndex, rest, n - 1);
      assert c in multiset(Map(ranked, PokeOf));
      var k :| 0 <= k < |ranked| && Map(ranked, PokeOf)[k] == c;
      assert ranked[k] in ranked;
      var e := ranked[k];
      assert e == RemainderFor(meal, c);
      FoldTraceShape(ranked, subs, bests, spots, k);
      if e.remainder == [] {
        FoldUsesSingle(ranked, subs, bests, spots, k);
      } else {
        SumPositiveIffNonEmpty(e.remainder);
        var b := bests[k];
        if b.teams != [] && b.maxTeamSize <= n {
          FoldKeepsTeams(ranked, subs, bests, spots, k, |subs|);
          FoldTraceShape(ranked, subs, bests, spots, |subs|);
        } else {
          assert Recursed(b, e);
          var key := SubKey(b, e);
          assert key in memo && memo[key] == subs[k];
          assert CompleteFor(reverseIndex, key, memo[key]);
          assert 1 <= n - 1 <= key.spotsLeftInTeam;
          assert subs[k] != [];
          assert subs[k][0] in subs[k];
          FoldUsesSubAnswer(ranked, subs, bests, spots, k);
        }
      }
    }
  }

  /** What calculateDetailsAndSortBySumSurplus ranks: the detail record of
      every solution, all with the same `exhaustive` flag. */
  function Details(solutions: seq<Team>, recipe: seq<IngredientSet>, exhaustive: bool)
    : (r: seq<OptimalTeamSolution>)
    ensures |r| == |solutions|
    ensures forall k :: 0 <= k < |r| ==> r[k] == TeamWithDetails(solutions[k], recipe, exhaustive)
  {
    seq(|solutions|, k requires 0 <= k < |solutions| => TeamWithDetails(solutions[k], recipe, exhaustive))
  }

  /** `x` is the detail record of one of `solutions`, its members possibly reordered. */
  predicate DetailOf(x: OptimalTeamSolution, solutions: seq<Team>, recipe: seq<IngredientSet>, exhaustive: bool) {
    exists k :: 0 <= k < |solutions| &&
      (multiset(x.team) == multiset(solutions[k]) &&
       x.surplus == TeamWithDetails(solutions[k], recipe, exhaustive).surplus)
  }

  /** A ranked detail record of a valid answer is itself a valid team: it
      covers the recipe and has the answer's size. */
  lemma DetailIsSolution(x: OptimalTeamSolution, solutions: seq<Team>, recipe: seq<IngredientSet>,
                         exhaustive: bool, p: Params)
    requires Solves(solutions, p)
    requires DetailOf(x, solutions, recipe, exhaustive)
    ensures Covers(x.team, p.remainingIngredients)
    ensures 1 <= |x.team| <= p.spotsLeftInTeam && |x.team| == |solutions[0]|
  {
    var k :| 0 <= k < |solutions| && multiset(x.team) == multiset(solutions[k]);
    assert solutions[k] in solutions;
    CoversPermutation(solutions[k], x.team, p.remainingIngredients);
    assert |multiset(x.team)| == |x.team| && |multiset(solutions[k])| == |solutions[k]|;
  }


  /** Every ranked detail record carries the given flag and is the detail
      record of one of `solutions`. */
  lemma RankedDetailsAreDetails(solutions: seq<Team>, recipe: seq<IngredientSet>, exhaustive: bool)
    ensures forall x :: x in Rank(SortByMinimumFiller(Details(solutions, recipe, exhaustive))) ==>
      x.exhaustive == exhaustive && DetailOf(x, solutions, recipe, exhaustive)
  {
    var details := Details(solutions, recipe, exhaustive);
    var sorted := SortByMinimumFiller(details);
    RankedTeamsSorted(sorted);
    forall x | x in Rank(sorted)
      ensures x.exhaustive == exhaustive && DetailOf(x, solutions, recipe, exhaustive)
    {
      assert SourcedFrom(x, sorted);
      var y :| y in sorted &&
        x.surplus == y.surplus && x.exhaustive == y.exhaustive && multiset(x.team) == multiset(y.team);
      assert y in multiset(details);
      var k :| 0 <= k < |details| && details[k] == y;
    }
  }

  // ---------------------------------------------------------------------
  // The solver

  class SetCover {
    const reverseIndex: map<string, seq<CombinationWithProduce>>
    var memo: map<Params, seq<Team>>
    var startTime: int
    var timeout: int
    /** The logical clock standing for Date.now(). */
    var now: int
    /** Some timeout check fired since the current search started. */
    ghost var fired: bool
    /** Some timeout check has fired since construction, or the memo handed
        to the constructor was not complete; never cleared. */
    ghost var stale: bool

    ghost predicate Valid()
      reads this
    {
      && MemoSound(memo)
      && (fired ==> now - startTime > timeout)
      && (fired ==> stale)
      && (!stale ==> MemoComplete(reverseIndex, memo))
    }

    constructor(reverseIndex: map<string, seq<CombinationWithProduce>>, memo: map<Params, seq<Team>>)
      requires MemoSound(memo)
      ensures Valid()
      ensures this.reverseIndex == reverseIndex && this.memo == memo
      ensures timeout == 10000 && startTime == now && !fired
      ensures stale == !MemoComplete(reverseIndex, memo)
    {
      this.reverseIndex := reverseIndex;
      this.memo := memo;
      now := 0;
      startTime := 0;
      timeout := 10000;
      fired := false;
      stale := !MemoComplete(reverseIndex, memo);
    }

    /** checkTimeout: reads the clock, which has moved on by one unit. */
    method CheckTimeout() returns (late: bool)
      requires Valid()
      modifies this`now, this`fired, this`stale
      ensures Valid()
      ensures now == old(now) + 1
      ensures late <==> now - startTime > timeout
      ensures fired == (old(fired) || late)
      ensures stale == (old(stale) || late)
    {
      now := now + 1;
      late := now - startTime > timeout;
      if late {
        fired := true;
        stale := true;
      }
    }

    /** solveRecipe: every team it returns has the same size, within the
        budget, and covers what is left of the recipe; the answer of a call
        that gets past the base cases is cached under its parameters. */
    method SolveRecipe(p: Params)
      returns (teams: seq<Team>, ghost ranked: seq<Remainder>, ghost subs: seq<seq<Team>>, ghost bests: seq<Best>)
      requires Valid()
      modifies this`memo, this`now, this`fired, this`stale
      decreases if p.spotsLeftInTeam > 0 then p.spotsLeftInTeam else 0, 5
      ensures Valid()
      ensures Solves(teams, p)
      ensures old(memo).Keys <= memo.Keys
      ensures now > old(now) && (old(fired) ==> fired)
      ensures stale == (old(stale) || fired)
      ensures old(now) + 1 - startTime > timeout ==> teams == [] && memo == old(memo) && fired
      ensures !fired ==> MemoExtends(old(memo), memo)
      ensures old(now) + 1 - startTime <= timeout && p in old(memo) ==>
        teams == old(memo)[p] && memo == old(memo)
      ensures (old(now) + 1 - startTime <= timeout && p !in old(memo) &&
               (p.spotsLeftInTeam == 0 || p.remainingIngredients == [])) ==>
                teams == [] && memo == old(memo)
      ensures (old(now) + 1 - startTime <= timeout && p !in old(memo) &&
               p.spotsLeftInTeam != 0 && p.remainingIngredients != []) ==>
                && p in memo && memo[p] == teams
                && FoldedFor(p, Candidates(reverseIndex, p.remainingIngredients[0].ingredient), ranked, subs, bests, teams)
                && SubAnswersCached(ranked, subs, bests, memo, fired)
                && forall k :: 0 <= k < |subs| && subs[k] != [] ==>
                     teams != [] && forall t :: t in teams ==> |t| <= |subs[k][0]| + 1
      ensures (old(now) + 1 - startTime <= timeout && p !in old(memo) &&
               p.spotsLeftInTeam >= 1 && p.remainingIngredients != [] &&
               exists c :: c in Candidates(reverseIndex, p.remainingIngredients[0].ingredient) &&
                           Covers([c], p.remainingIngredients)) ==>
                teams != [] && forall t :: t in teams ==> |t| == 1
      ensures !stale ==> CompleteFor(reverseIndex, p, teams)
    {
      ranked, subs, bests := [], [], [];
      var late := CheckTimeout();
      if late {
        return [], ranked, subs, bests;
      }
      if p in memo {
        return memo[p], ranked, subs, bests;
      }
      if p.spotsLeftInTeam == 0 || |p.remainingIngredients| == 0 {
        return [], ranked, subs, bests;
      }
      teams, ranked, subs, bests := SolveFresh(p);
    }

    /** The part of solveRecipe past the timeout, memo and base-case checks:
        rank the candidates for the first ingredient, fold over them, and
        cache the answer under `p`. */
    method SolveFresh(p: Params)
      returns (teams: seq<Team>, ghost ranked: seq<Remainder>, ghost subs: seq<seq<Team>>, ghost bests: seq<Best>)
      requires Valid()
      requires p !in memo && p.spotsLeftInTeam != 0 && p.remainingIngredients != []
      modifies this`memo, this`now, this`fired, this`stale
      decreases if p.spotsLeftInTeam > 0 then p.spotsLeftInTeam else 0, 4
      ensures Valid()
      ensures Solves(teams, p)
      ensures old(memo).Keys <= memo.Keys
      ensures now >= old(now) && (old(fired) ==> fired)
      ensures stale == (old(stale) || fired)
      ensures !fired ==> MemoExtends(old(memo), memo)
      ensures p in memo && memo[p] == teams
      ensures FoldedFor(p, Candidates(reverseIndex, p.remainingIngredients[0].ingredient), ranked, subs, bests, teams)
      ensures SubAnswersCached(ranked, subs, bests, memo, fired)
      ensures forall k :: 0 <= k < |subs| && subs[k] != [] ==>
        teams != [] && forall t :: t in teams ==> |t| <= |subs[k][0]| + 1
      ensures (p.spotsLeftInTeam >= 1 &&
               exists c :: c in Candidates(reverseIndex, p.remainingIngredients[0].ingredient) &&
                           Covers([c], p.remainingIngredients)) ==>
                teams != [] && forall t :: t in teams ==> |t| == 1
      ensures !stale ==> CompleteFor(reverseIndex, p, teams)
    {
      var spotsLeftInTeam, mealIngredients := p.spotsLeftInTeam, p.remainingIngredients;
      var remainders := RankCandidates(mealIngredients);
      CoveringCandidateRanked(remainders, mealIngredients, Candidates(reverseIndex, mealIngredients[0].ingredient));
      teams, subs, bests := FoldCandidates(remainders, mealIngredients, spotsLeftInTeam);
      ranked := remainders;
      CachedUnderOtherKey(ranked, subs, bests, spotsLeftInTeam, memo, fired, p, teams);
      if !stale {
        FoldComplete(reverseIndex, p, ranked, subs, bests, teams, memo);
        MemoCompleteUpdate(reverseIndex, memo, p, teams);
      }
      memo := memo[p := teams];
    }

    /** The candidates the reverse index lists for the first ingredient of
        `meal`, each with what it leaves of `meal`, fewest left first. */
    method RankCandidates(meal: seq<SimplifiedIngredientSet>) returns (remainders: seq<Remainder>)
      requires meal != []
      ensures forall e :: e in remainders ==>
        e == RemainderFor(meal, e.poke) && e.poke in Candidates(reverseIndex, meal[0].ingredient)
      ensures multiset(Map(remainders, PokeOf)) == multiset(Candidates(reverseIndex, meal[0].ingredient))
      ensures forall i, j :: 0 <= i < j < |remainders| ==> remainders[i].sum <= remainders[j].sum
    {
      var firstIngredient := meal[0];
      var pokemonWithIngredient := Candidates(reverseIndex, firstIngredient.ingredient);
      var unsorted := BuildRemainders(meal, pokemonWithIngredient);
      remainders := SortByRemainingSum(unsorted);
      forall e | e in remainders
        ensures e == RemainderFor(meal, e.poke) && e.poke in pokemonWithIngredient
      {
        assert e in multiset(unsorted);
      }
      MapOfPermutation(remainders, unsorted, PokeOf);
      assert Map(unsorted, PokeOf) == pokemonWithIngredient;
    }

    /** The fold of solveRecipe over the ranked candidates: starting from the
        full budget and no teams, each candidate either replaces, joins or
        leaves the running best. The result is a valid answer for `meal`. */
    method FoldCandidates(remainders: seq<Remainder>, meal: seq<SimplifiedIngredientSet>, spotsLeftInTeam: int)
      returns (teams: seq<Team>, ghost subs: seq<seq<Team>>, ghost bests: seq<Best>)
      requires Valid()
      requires forall e :: e in remainders ==> e == RemainderFor(meal, e.poke)
      modifies this`memo, this`now, this`fired, this`stale
      decreases if spotsLeftInTeam > 0 then spotsLeftInTeam else 0, 3
      ensures Valid()
      ensures Solves(teams, Params(meal, spotsLeftInTeam))
      ensures |subs| == |remainders| && FoldTrace(remainders, subs, bests, spotsLeftInTeam)
      ensures teams == bests[|remainders|].teams
      ensures SubAnswersCached(remainders, subs, bests, memo, fired)
      ensures forall k :: 0 <= k < |subs| && subs[k] != [] ==>
        teams != [] && forall t :: t in teams ==> |t| <= |subs[k][0]| + 1
      ensures spotsLeftInTeam >= 1 && (exists e :: e in remainders && e.sum == 0.0) ==>
        teams != [] && forall t :: t in teams ==> |t| == 1
      ensures old(memo).Keys <= memo.Keys
      ensures !fired ==> MemoExtends(old(memo), memo)
      ensures now >= old(now) && (old(fired) ==> fired)
      ensures stale == (old(stale) || fired)
    {
      var maxTeamSize := spotsLeftInTeam;
      teams := [];
      subs, bests := [], [Best(maxTeamSize, teams)];
      for i := 0 to |remainders|
        invariant Valid()
        invariant |subs| == i && FoldTrace(remainders, subs, bests, spotsLeftInTeam)
        invariant bests[i] == Best(maxTeamSize, teams)
        invariant SubAnswersCached(remainders, subs, bests, memo, fired)
        invariant old(memo).Keys <= memo.Keys
        invariant !fired ==> MemoExtends(old(memo), memo)
        invariant now >= old(now) && (old(fired) ==> fired)
        invariant stale == (old(stale) || fired)
        invariant maxTeamSize <= spotsLeftInTeam
        invariant Uniform(teams, maxTeamSize)
        invariant teams != [] ==> 1 <= maxTeamSize
        invariant forall t :: t in teams ==> Covers(t, meal)
      {
        assert remainders[i] in remainders;
        var best, sub := FoldPass(remainders, meal, spotsLeftInTeam, i, Best(maxTeamSize, teams), subs, bests);
        maxTeamSize, teams := best.maxTeamSize, best.teams;
        subs, bests := subs + [sub], bests + [best];
      }
      if teams != [] {
        assert teams[0] in teams;
      }
      FoldOutcome(remainders, subs, bests, spotsLeftInTeam);
    }

    /** The round of the fold for the next ranked candidate, extending the
        trace `subs`/`bests` of the rounds before it. */
    method FoldPass(remainders: seq<Remainder>, meal: seq<SimplifiedIngredientSet>, spotsLeftInTeam: int,
                    i: nat, best: Best, ghost subs: seq<seq<Team>>, ghost bests: seq<Best>)
      returns (next: Best, ghost sub: seq<Team>)
      requires Valid()
      requires i == |subs| < |remainders| && FoldTrace(remainders, subs, bests, spotsLeftInTeam) && bests[i] == best
      requires remainders[i] == RemainderFor(meal, remainders[i].poke)
      requires SubAnswersCached(remainders, subs, bests, memo, fired)
      requires Uniform(best.teams, best.maxTeamSize) && (best.teams != [] ==> 1 <= best.maxTeamSize)
      requires forall t :: t in best.teams ==> Covers(t, meal)
      modifies this`memo, this`now, this`fired, this`stale
      decreases if best.maxTeamSize > 0 then best.maxTeamSize else 0, 2
      ensures Valid()
      ensures FoldTrace(remainders, subs + [sub], bests + [next], spotsLeftInTeam)
      ensures SubAnswersCached(remainders, subs + [sub], bests + [next], memo, fired)
      ensures old(memo).Keys <= memo.Keys
      ensures !fired ==> MemoExtends(old(memo), memo)
      ensures now >= old(now) && (old(fired) ==> fired)
      ensures stale == (old(stale) || fired)
      ensures next.maxTeamSize <= best.maxTeamSize
      ensures Uniform(next.teams, next.maxTeamSize) && (next.teams != [] ==> 1 <= next.maxTeamSize)
      ensures forall t :: t in next.teams ==> Covers(t, meal)
    {
      ghost var memo0, fired0 := memo, fired;
      next, sub := FoldRound(best, remainders[i], meal);
      TraceSnoc(remainders, subs, bests, spotsLeftInTeam, sub, next);
      CachedSnoc(remainders, subs, bests, memo0, fired0, memo, fired, sub, next);
    }

    /** One round of the fold: the candidate `entry` recurses on what it
        leaves (set-cover.ts:103-136), is skipped at the team limit, or covers
        everything on its own (set-cover.ts:141-152). */
    method FoldRound(best: Best, entry: Remainder, meal: seq<SimplifiedIngredientSet>)
      returns (next: Best, ghost sub: seq<Team>)
      requires Valid()
      requires entry == RemainderFor(meal, entry.poke)
      requires Uniform(best.teams, best.maxTeamSize) && (best.teams != [] ==> 1 <= best.maxTeamSize)
      requires forall t :: t in best.teams ==> Covers(t, meal)
      modifies this`memo, this`now, this`fired, this`stale
      decreases if best.maxTeamSize > 0 then best.maxTeamSize else 0, 1
      ensures Valid()
      ensures FoldedAt(entry, sub, best, next)
      ensures Recursed(best, entry) ==> SubKey(best, entry) in memo && memo[SubKey(best, entry)] == sub
      ensures old(memo).Keys <= memo.Keys
      ensures !fired ==> MemoExtends(old(memo), memo)
      ensures now >= old(now) && (old(fired) ==> fired)
      ensures stale == (old(stale) || fired)
      ensures next.maxTeamSize <= best.maxTeamSize
      ensures Uniform(next.teams, next.maxTeamSize) && (next.teams != [] ==> 1 <= next.maxTeamSize)
      ensures forall t :: t in next.teams ==> Covers(t, meal)
    {
      var sumr, remainder, poke := entry.sum, entry.remainder, entry.poke;
      SumPositiveIffNonEmpty(remainder);
      next, sub := best, [];
      if sumr > 0.0 {
        if best.maxTeamSize > 1 {
          next, sub := SolveWithCandidate(best, entry, meal);
        } else {
          // hit the team limit: the best stays as it is
        }
      } else {
        SingleCovers(poke, meal);
        next := MergeSingle(best, poke);
      }
    }

    /** The fold step for a candidate that leaves a remainder while more than
        one place is left: solves the remainder with one place fewer, caches
        that answer under its key, and merges it into the running best. */
    method SolveWithCandidate(best: Best, entry: Remainder, meal: seq<SimplifiedIngredientSet>)
      returns (next: Best, ghost sub: seq<Team>)
      requires Valid()
      requires best.maxTeamSize > 1
      requires entry == RemainderFor(meal, entry.poke)
      requires Uniform(best.teams, best.maxTeamSize)
      requires forall t :: t in best.teams ==> Covers(t, meal)
      modifies this`memo, this`now, this`fired, this`stale
      decreases best.maxTeamSize, 0
      ensures Valid()
      ensures old(memo).Keys <= memo.Keys
      ensures Params(entry.remainder, best.maxTeamSize - 1) in memo
      ensures var subTeams := memo[Params(entry.remainder, best.maxTeamSize - 1)];
        && (subTeams == [] ==> next == best)
        && (subTeams != [] ==> next == MergeSubTeams(best, subTeams, entry.poke))
      ensures sub == memo[Params(entry.remainder, best.maxTeamSize - 1)]
      ensures Solves(sub, Params(entry.remainder, best.maxTeamSize - 1))
      ensures !stale ==> CompleteFor(reverseIndex, Params(entry.remainder, best.maxTeamSize - 1), sub)
      ensures !fired ==> MemoExtends(old(memo), memo)
      ensures now > old(now) && (old(fired) ==> fired)
      ensures stale == (old(stale) || fired)
      ensures 1 <= next.maxTeamSize <= best.maxTeamSize
      ensures Uniform(next.teams, next.maxTeamSize) && (next.teams != [] ==> 1 <= next.maxTeamSize)
      ensures forall t :: t in next.teams ==> Covers(t, meal)
    {
      var key := Params(entry.remainder, best.maxTeamSize - 1);
      var subTeams := SolveAndCache(key);
      sub := subTeams;
      if |subTeams| == 0 {
        return best, sub;
      }
      MergeSubTeamsCovers(best, subTeams, entry.poke, meal);
      assert subTeams[0] in subTeams;
      next := MergeSubTeams(best, subTeams, entry.poke);
    }

    /** The recursive call of the fold and the memo write after it
        (set-cover.ts:108-111): the answer for `key` is cached under `key`,
        and without a timeout no other entry changes. */
    method SolveAndCache(key: Params) returns (subTeams: seq<Team>)
      requires Valid()
      modifies this`memo, this`now, this`fired, this`stale
      decreases if key.spotsLeftInTeam > 0 then key.spotsLeftInTeam else 0, 6
      ensures Valid()
      ensures Solves(subTeams, key)
      ensures key in memo && memo[key] == subTeams
      ensures !stale ==> CompleteFor(reverseIndex, key, subTeams)
      ensures old(memo).Keys <= memo.Keys
      ensures !fired ==> MemoExtends(old(memo), memo)
      ensures now > old(now) && (old(fired) ==> fired)
      ensures stale == (old(stale) || fired)
    {
      ghost var ranked, subs, bests;
      subTeams, ranked, subs, bests := SolveRecipe(key);
      if !stale {
        MemoCompleteUpdate(reverseIndex, memo, key, subTeams);
      }
      memo := memo[key := subTeams];
    }

    /** calculateDetailsAndSortBySumSurplus: nothing for missing solutions;
        otherwise one timeout check decides `exhaustive` for every entry, and
        the detailed teams are sorted by least filler and then ranked. */
    method CalculateDetailsAndSortBySumSurplus(solutions: Option<seq<Team>>, recipe: seq<IngredientSet>)
      returns (r: seq<OptimalTeamSolution>)
      requires Valid()
      modifies this`now, this`fired, this`stale
      ensures Valid()
      ensures solutions.None? ==> r == [] && now == old(now) && fired == old(fired)
      ensures stale == (old(stale) || fired)
      ensures solutions.Some? ==>
                && now == old(now) + 1
                && r == Rank(SortByMinimumFiller(Details(solutions.value, recipe, !fired)))
                && fired == (old(fired) || now - startTime > timeout)
      ensures forall x :: x in r ==> x.exhaustive == !fired && SortedBy(x.team, ByHash)
      ensures forall x :: x in r ==> DetailOf(x, solutions.value, recipe, !fired)
      ensures DistinctKeys(r)
      ensures forall i, j :: 0 <= i < j < |r| ==> multiset(r[i].team) != multiset(r[j].team)
    {
      if solutions.None? {
        return [];
      }
      var late := CheckTimeout();
      var exhaustive := !late;

      var teamsWithDetails: seq<OptimalTeamSolution> := [];
      for i := 0 to |solutions.value|
        invariant |teamsWithDetails| == i
        invariant forall k :: 0 <= k < i ==>
          teamsWithDetails[k] == TeamWithDetails(solutions.value[k], recipe, exhaustive)
      {
        var team := solutions.value[i];
        teamsWithDetails := teamsWithDetails + [TeamWithDetails(team, recipe, exhaustive)];
      }
      assert teamsWithDetails == Details(solutions.value, recipe, exhaustive);

      var sortedByFiller := SortByMinimumFiller(teamsWithDetails);
      r := ProcessOptimalTeamSolutions(sortedByFiller);
      RankedDetailsAreDetails(solutions.value, recipe, exhaustive);
    }

    /** Starts a search: restarts the clock, sets the timeout and looks the
        parameters up in the memo before solving. */
    method StartSearch(recipe: seq<IngredientSet>, maxTeamSize: Option<int>, timeout: Option<int>)
      returns (spotsLeftInTeam: int, solutions: seq<Team>)
      requires Valid()
      modifies this`memo, this`now, this`fired, this`stale, this`startTime, this`timeout
      ensures Valid()
      ensures spotsLeftInTeam == (if maxTeamSize.Some? then maxTeamSize.value else 5)
      ensures this.timeout == (if timeout.Some? then timeout.value else old(this.timeout))
      ensures old(memo).Keys <= memo.Keys
      ensures startTime == old(now)
      ensures Solves(solutions, Params(Simplify(recipe), spotsLeftInTeam))
      ensures Params(Simplify(recipe), spotsLeftInTeam) in old(memo) ==>
        solutions == old(memo)[Params(Simplify(recipe), spotsLeftInTeam)] && !fired
      ensures stale == (old(stale) || fired)
      ensures !stale ==> CompleteFor(reverseIndex, Params(Simplify(recipe), spotsLeftInTeam), solutions)
    {
      startTime := now;
      this.timeout := if timeout.Some? then timeout.value else this.timeout;
      fired := false;
      spotsLeftInTeam := if maxTeamSize.Some? then maxTeamSize.value else 5;
      var params := Params(Simplify(recipe), spotsLeftInTeam);
      if params in memo {
        solutions := memo[params];
      } else {
        ghost var ranked, subs, bests;
        solutions, ranked, subs, bests := SolveRecipe(params);
      }
    }

    /** findOptimalCombinationFor: the ranked optimal teams for a recipe.
        Every team covers the recipe, all have one size within the budget (5
        by default), members are sorted by hash, no team appears twice, and
        `exhaustive` says whether no timeout check fired during the search. */
    method FindOptimalCombinationFor(recipe: seq<IngredientSet>, maxTeamSize: Option<int>, timeout: Option<int>)
      returns (r: seq<OptimalTeamSolution>, ghost solutions: seq<Team>)
      requires Valid()
      modifies this`memo, this`now, this`fired, this`stale, this`startTime, this`timeout
      ensures Valid()
      ensures this.timeout == (if timeout.Some? then timeout.value else old(this.timeout))
      ensures old(memo).Keys <= memo.Keys
      ensures Solves(solutions, Params(Simplify(recipe), if maxTeamSize.Some? then maxTeamSize.value else 5))
      ensures r == Rank(SortByMinimumFiller(Details(solutions, recipe, !fired)))
      ensures forall x :: x in r ==> DetailOf(x, solutions, recipe, !fired)
      ensures SortedBy(r, ByFiller)
      ensures forall x :: x in r ==>
        && Covers(x.team, Simplify(recipe))
        && 1 <= |x.team| <= (if maxTeamSize.Some? then maxTeamSize.value else 5)
        && |x.team| == |r[0].team|
        && x.exhaustive == !fired
        && SortedBy(x.team, ByHash)
      ensures DistinctKeys(r)
      ensures forall i, j :: 0 <= i < j < |r| ==> multiset(r[i].team) != multiset(r[j].team)
      ensures stale == (old(stale) || fired)
      ensures !stale ==> forall n: nat ::
        (1 <= n <= (if maxTeamSize.Some? then maxTeamSize.value else 5) &&
         CoverableWithin(reverseIndex, Simplify(recipe), n)) ==>
          r != [] && forall x :: x in r ==> |x.team| <= n
    {
      var spotsLeftInTeam, found := StartSearch(recipe, maxTeamSize, timeout);
      solutions := found;
      ghost var params := Params(Simplify(recipe), spotsLeftInTeam);
      r := CalculateDetailsAndSortBySumSurplus(Some(found), recipe);
      RankKeepsFillerOrder(SortByMinimumFiller(Details(solutions, recipe, !fired)));
      forall x | x in r
        ensures Covers(x.team, Simplify(recipe))
        ensures 1 <= |x.team| <= spotsLeftInTeam && |x.team| == |r[0].team|
      {
        assert r[0] in r;
        DetailIsSolution(x, solutions, recipe, !fired, params);
        DetailIsSolution(r[0], solutions, recipe, !fired, params);
      }
      if !stale {
        RankedWithinChain(reverseIndex, params, solutions, recipe, !fired, r);
      }
    }

    /** calculateMinTeamSizeFor: the size of the solutions found, or one more
        than the budget (5 by default) when there are none. */
    method CalculateMinTeamSizeFor(recipe: seq<IngredientSet>, maxTeamSize: Option<int>, timeout: Option<int>)
      returns (size: int, ghost solutions: seq<Team>)
      requires Valid()
      modifies this`memo, this`now, this`fired, this`stale, this`startTime, this`timeout
      ensures Valid()
      ensures old(memo).Keys <= memo.Keys
      ensures this.timeout == (if timeout.Some? then timeout.value else old(this.timeout))
      ensures Solves(solutions, Params(Simplify(recipe), if maxTeamSize.Some? then maxTeamSize.value else 5))
      ensures size <= (if maxTeamSize.Some? then maxTeamSize.value else 5) <==> solutions != []
      ensures solutions == [] ==> size == (if maxTeamSize.Some? then maxTeamSize.value else 5) + 1
      ensures forall t :: t in solutions ==> |t| == size && Covers(t, Simplify(recipe))
      ensures stale == (old(stale) || fired)
      ensures !stale ==> forall n: nat ::
        (1 <= n <= (if maxTeamSize.Some? then maxTeamSize.value else 5) &&
         CoverableWithin(reverseIndex, Simplify(recipe), n)) ==> size <= n
    {
      var spotsLeftInTeam, found := StartSearch(recipe, maxTeamSize, timeout);
      solutions := found;
      size := TeamSizeOrSentinel(found, spotsLeftInTeam);
      MinTeamSizeWithinBudget(solutions, Params(Simplify(recipe), spotsLeftInTeam));
      if solutions != [] {
        assert solutions[0] in solutions;
      }
    }
  }

  /** Some team was found exactly when some ranked solution is reported. */
  lemma RankedDetailsKeepSome(solutions: seq<Team>, recipe: seq<IngredientSet>, exhaustive: bool)
    ensures Rank(SortByMinimumFiller(Details(solutions, recipe, exhaustive))) != [] <==> solutions != []
  {
    var details := Details(solutions, recipe, exhaustive);
    if solutions != [] {
      assert details[0] in multiset(SortByMinimumFiller(details));
    }
    assert |multiset(SortByMinimumFiller(details))| == |multiset(details)|;
    RankKeepsSome(SortByMinimumFiller(details));
  }

  /** A complete answer ranks to at least one team, and to teams no larger
      than any chain of candidates that covers the recipe. */
  lemma RankedWithinChain(reverseIndex: map<string, seq<CombinationWithProduce>>, p: Params,
                          solutions: seq<Team>, recipe: seq<IngredientSet>, exhaustive: bool,
                          r: seq<OptimalTeamSolution>)
    requires Solves(solutions, p) && CompleteFor(reverseIndex, p, solutions)
    requires r == Rank(SortByMinimumFiller(Details(solutions, recipe, exhaustive)))
    requires forall x :: x in r ==> DetailOf(x, solutions, recipe, exhaustive)
    ensures forall n: nat ::
      (1 <= n <= p.spotsLeftInTeam && CoverableWithin(reverseIndex, p.remainingIngredients, n)) ==>
        r != [] && forall x :: x in r ==> |x.team| <= n
  {
    RankedDetailsKeepSome(solutions, recipe, exhaustive);
    forall n: nat, x | 1 <= n <= p.spotsLeftInTeam && CoverableWithin(reverseIndex, p.remainingIngredients, n) && x in r
      ensures |x.team| <= n
    {
      DetailIsSolution(x, solutions, recipe, exhaustive, p);
      assert solutions[0] in solutions;
    }
  }

  /** The final expression of calculateMinTeamSizeFor. */
  function TeamSizeOrSentinel(solutions: seq<Team>, spotsLeftInTeam: int): int {
    if |solutions| > 0 then |solutions[0]| else spotsLeftInTeam + 1
  }

  /** For a valid answer the reported size is within the budget exactly when
      some team was found, and is then the size of every team found. */
  lemma MinTeamSizeWithinBudget(solutions: seq<Team>, p: Params)
    requires Solves(solutions, p)
    ensures TeamSizeOrSentinel(solutions, p.spotsLeftInTeam) <= p.spotsLeftInTeam <==> solutions != []
    ensures forall t :: t in solutions ==> |t| == TeamSizeOrSentinel(solutions, p.spotsLeftInTeam)
  {
    if solutions != [] {
      assert solutions[0] in solutions;
    }
  }
}
