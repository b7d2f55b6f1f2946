# SleepAPI set cover and team simulator, modelled in Dafny

This project models two backend components of SleepAPI, a Pokémon Sleep calculator.

**The set-cover solver** (`SetCover`) finds every smallest team of Pokémon whose combined ingredient produce covers a recipe within a team-size budget. Its search:

- is recursive and memoised;
- tries the candidates for the recipe's first unmet ingredient, those leaving the least behind first;
- keeps the teams of the smallest size found;
- is bounded by a cooperative timeout.

It then ranks the answer:

- every team gets its surplus over the recipe and an `exhaustive` flag;
- teams are sorted by least filler;
- each team's members are sorted by hash;
- duplicate teams are removed.

**The team simulator** (`TeamSimulator`) steps a team through one day in 5-minute ticks:

- the members start the day and their morning team skills are broadcast;
- at each day tick, a meal is cooked once its meal time is reached, every member makes a day help, and any team skill it triggers is broadcast;
- every member's energy decays every second tick;
- the inventory is collected once;
- the night ticks then run up to minute 1440 with night helps only.

Modules:

| file | module | holds |
|---|---|---|
| `wrappers.dfy` | `Wrappers` | the `Option` datatype for optional parameters and results |
| `ingredients.dfy` | `Ingredients` | amounts, what a candidate leaves of a recipe, what a team produces beyond it |
| `sorting.dfy` | `Sorting` | insertion sort by a comparator; lexicographic string order |
| `combinations.dfy` | `Combinations` | candidates, teams, member hashes, coverage of a recipe |
| `team_ranking.dfy` | `TeamRanking` | detail records, filler order, member sorting, duplicate removal |
| `set_cover.dfy` | `SetCoverSolver` | the `SetCover` class: memo, clock, search and the two entry points |
| `team_simulator.dfy` | `TeamSimulation` | the `TeamSimulator` class: day loop, night loop, cooking, skills, decay |

**How the solver is modelled.** The solver's state is a class:

- the memo is a `map` keyed by the memo parameters;
- the clock is a logical `now` that each timeout check advances by one;
- the ghost flag `fired` records whether a check fired since the search started;
- the ghost flag `stale` records whether a check has ever fired on this solver, or the memo it was built with was incomplete; it is never cleared.

The search is split along the source's own structure:

- `SolveRecipe`: the timeout, memo and base-case checks;
- `SolveFresh`: the rest of a search that is not cut short;
- `RankCandidates`: lines 76-94;
- `FoldCandidates`: the loop at lines 96-154, with one round per candidate (`FoldPass`, `FoldRound`);
- `SolveWithCandidate` and `SolveAndCache`: the recursive branch at lines 103-136.

The fold's decision rules are the functions `MergeSubTeams` and `MergeSingle`; `FoldStep` is one round of the fold as a function of the sub-search answer. Each fold returns a ghost trace: the sub-answer of each round (`subs`) and the running best before and after it (`bests`). `FoldTrace` states that each round applied `FoldStep` to the sub-search answer for its key, and `SubAnswersCached` that each such answer is the one cached under its key. The class invariant says every cached answer is valid for its key. `exhaustive` is proved equal to "no timeout check fired during this search".

**Completeness.** `CoverableWithin(reverseIndex, meal, n)` says that some chain of at most `n` candidates covers the meal, each link picked, as the search picks it, among the candidates for the first unmet ingredient of what the previous links left. `ChainTeamCovers` shows that such a chain is a covering team of at most `n` members. `CompleteFor(reverseIndex, p, teams)` says that whenever such a chain fits within the budget of `p`, the answer is non-empty and none of its teams is larger than the chain. The class invariant adds that, unless `stale`, every cached answer is complete. Every search entry point then ensures that its answer is complete unless `stale`. With `n = 1` this says that when a single candidate covers the recipe, every team returned has one member.

**How the simulator is modelled.** The simulator's state is also a class.

- Each member's state is a record of counters: what was done to that member (days started, helps, decays, meals, collections) plus the helps and energy team skills gave it.
- The skills a member triggers come from two oracle functions fixed at construction.
- Ghost logs record:
  - which minutes each loop visited;
  - when meals were cooked;
  - when skills were broadcast;
  - when the inventory was collected.
- The functions `Grid`, `CounterAfter`, `RoundsAfter` and `SundayFlags` give the closed forms of these logs.
- The functions `MorningSkills`, `DaySkills` and `DayTickSkills` list the skills the oracles trigger, in the order the loops meet them; `Granted` sums their helps and energy.

## Model

Source paths: `set-cover.ts` is `backend/src/services/set-cover/set-cover.ts`; `team-simulator.ts` is `backend/src/services/simulation-service/team-simulator/team-simulator.ts`.

| member | source | states |
|---|---|---|
| Ingredients.RemainderKeepsUnmet | backend/src/services/set-cover/set-cover.ts:85-89 | a requirement the candidate does not meet stays in the remainder, reduced by exactly what the candidate produces of it |
| Ingredients.RemainderEntriesUnmet | backend/src/services/set-cover/set-cover.ts:85-89 | every entry of what a candidate leaves is a requirement it does not meet, reduced by exactly what it produces of it |
| Ingredients.RemainderEmptyIffMet | backend/src/services/set-cover/set-cover.ts:85-89 | a candidate leaves nothing of the recipe exactly when it meets every requirement |
| Ingredients.SumPositiveIffNonEmpty | backend/src/services/set-cover/set-cover.ts:90-99 | the solver's `sumr > 0` test holds exactly when something of the recipe is left |
| Ingredients.CombineSameIngredientsInDrop | backend/src/services/set-cover/set-cover.ts:179-180 | the combined produce has one entry per ingredient and the same amount of every ingredient as the raw produce |
| Ingredients.SurplusIsExcess | backend/src/services/set-cover/set-cover.ts:180 | every surplus entry is the amount produced beyond the amount required, and is positive |
| Ingredients.ExcessKept | backend/src/services/set-cover/set-cover.ts:180 | a produced entry beyond what the recipe asks of its ingredient keeps that excess in the surplus |
| Ingredients.SurplusComplete | backend/src/services/set-cover/set-cover.ts:179-180 | for combined produce, every ingredient produced beyond the recipe has a surplus entry holding exactly the excess |
| Ingredients.ExtractRelevantSurplus | backend/src/services/set-cover/set-cover.ts:181 | the surplus is kept whole and split exactly into recipe ingredients and filler ingredients |
| Sorting.SortBySorted | backend/src/services/set-cover/set-cover.ts:196-200 | the sort returns an ordered permutation of its input |
| Sorting.SortByOfSorted | backend/src/services/set-cover/set-cover.ts:196-200 | sorting an already ordered list leaves it unchanged |
| Sorting.MapOfPermutation | backend/src/services/set-cover/set-cover.ts:208 | the hashes of a reordered team are the same hashes, counted with multiplicity |
| Sorting.StrLeqTotal | backend/src/services/set-cover/set-cover.ts:198 | the member-hash order (localeCompare) is total |
| Sorting.StrLeqTransitive | backend/src/services/set-cover/set-cover.ts:198 | the member-hash order is transitive |
| Sorting.StrLeqAntisymmetric | backend/src/services/set-cover/set-cover.ts:198 | two hashes ordered both ways are equal |
| Sorting.SortedStringsUnique | backend/src/services/set-cover/set-cover.ts:197-198 | two ordered hash lists holding the same hashes are identical |
| Combinations.ByHashIsTotalPreorder | backend/src/services/set-cover/set-cover.ts:197-199 | the member comparator is total and transitive, so sorting by it is well defined |
| Combinations.SortedPermutationsHashEqual | backend/src/services/set-cover/set-cover.ts:196-208 | two teams with the same members, each sorted by hash, have the same hash sequence |
| Combinations.ProducedOfPermutation | backend/src/services/set-cover/set-cover.ts:179 | what a team produces does not depend on the order of its members |
| Combinations.CoversPermutation | backend/src/services/set-cover/set-cover.ts:196-200 | reordering a team's members keeps it a cover of the recipe |
| Combinations.CoverExtends | backend/src/services/set-cover/set-cover.ts:125-136 | a sub-team covering what a candidate leaves, with the candidate appended, covers the whole recipe |
| Combinations.SingleCovers | backend/src/services/set-cover/set-cover.ts:141-152 | a candidate that leaves nothing covers the recipe alone |
| Combinations.CoveredLeavesNothing | backend/src/services/set-cover/set-cover.ts:85-89 | a candidate that covers the recipe alone leaves nothing of it |
| TeamRanking.Dedup | backend/src/services/set-cover/set-cover.ts:205-216 | the left-to-right filter keeps no more solutions than it is given, all of them from the input |
| TeamRanking.DedupSubsequence | backend/src/services/set-cover/set-cover.ts:205-216 | the kept solutions are an order-preserving subsequence of the input |
| TeamRanking.DedupDistinct | backend/src/services/set-cover/set-cover.ts:205-216 | no two kept solutions share a team key, and every key of the input survives |
| TeamRanking.DedupKeepsFirst | backend/src/services/set-cover/set-cover.ts:205-216 | the first solution with each key is the one kept |
| TeamRanking.DedupOfDistinct | backend/src/services/set-cover/set-cover.ts:205-216 | a list without repeated keys is kept whole |
| TeamRanking.DedupIdempotent | backend/src/services/set-cover/set-cover.ts:205-216 | removing duplicates twice is removing them once |
| TeamRanking.RemoveDuplicateTeams | backend/src/services/set-cover/set-cover.ts:205-216 | the loop with its set of seen keys computes `Dedup`: distinct keys, an order-preserving subsequence |
| TeamRanking.SortMembersSorted | backend/src/services/set-cover/set-cover.ts:196-200 | sorting a team's members orders them by hash and keeps the same members |
| TeamRanking.PermutationsShareKey | backend/src/services/set-cover/set-cover.ts:196-208 | two hash-sorted teams with the same members have the same key, so only one of them can survive |
| TeamRanking.ProcessOptimalTeamSolutions | backend/src/services/set-cover/set-cover.ts:195-203 | the result is `Rank` of the input: every team hash-sorted and sourced from an input solution, distinct keys, no two teams with the same members |
| TeamRanking.RankedTeamsSorted | backend/src/services/set-cover/set-cover.ts:195-203 | every ranked solution is an input solution with its members sorted by hash |
| TeamRanking.RankedTeamsDiffer | backend/src/services/set-cover/set-cover.ts:195-216 | no two ranked solutions hold the same members in any order |
| TeamRanking.RankIdempotent | backend/src/services/set-cover/set-cover.ts:195-203 | ranking a ranked list changes nothing |
| TeamRanking.TeamProduce | backend/src/services/set-cover/set-cover.ts:179 | the flattened produce holds, of every ingredient, what the team produces of it |
| TeamRanking.TeamSurplusIsExcess | backend/src/services/set-cover/set-cover.ts:179-186 | the detail record's total surplus holds, for every ingredient, exactly what the team produces beyond the recipe, and nothing else |
| TeamRanking.ByFillerIsTotalPreorder | backend/src/services/set-cover/set-cover.ts:191 | the filler order is total and transitive |
| TeamRanking.SortByMinimumFiller | backend/src/services/set-cover/set-cover.ts:191 | a permutation of the records ordered by least filler |
| TeamRanking.DedupSorted | backend/src/services/set-cover/set-cover.ts:205-216 | removing duplicates keeps an ordered list ordered |
| TeamRanking.RankKeepsFillerOrder | backend/src/services/set-cover/set-cover.ts:191-216 | ranking a list ordered by least filler keeps it ordered by least filler |
| SetCoverSolver.BuildRemainders | backend/src/services/set-cover/set-cover.ts:82-92 | one entry per candidate in index order: what it leaves of the recipe and the total left |
| SetCoverSolver.SortByRemainingSum | backend/src/services/set-cover/set-cover.ts:94 | the same entries with the totals left in non-decreasing order |
| SetCoverSolver.CoveringCandidateRanked | backend/src/services/set-cover/set-cover.ts:76-99 | if a candidate for the first ingredient covers the recipe alone, the ranked remainders hold an entry with sum 0 |
| SetCoverSolver.MergeSubTeams | backend/src/services/set-cover/set-cover.ts:123-136 | a strictly smaller extended team replaces the best, an equal one is appended, a larger one is ignored; the size never grows and stays uniform |
| SetCoverSolver.MergeSingle | backend/src/services/set-cover/set-cover.ts:141-152 | a self-sufficient candidate replaces a best larger than one, joins a best of size one, and otherwise changes nothing |
| SetCoverSolver.MergeSubTeamsCovers | backend/src/services/set-cover/set-cover.ts:123-136 | after a merge every best team still covers the recipe, and all have one size of at least 1 |
| SetCoverSolver.FoldTraceShape | backend/src/services/set-cover/set-cover.ts:96-154 | at every point of a fold all teams of the running best share its size, which is at most the budget, equals the budget while there is no team, and is at least 1 once there is one |
| SetCoverSolver.FoldKeepsTeams | backend/src/services/set-cover/set-cover.ts:96-154 | once the fold holds a team it never goes back to none, and its team size never grows |
| SetCoverSolver.FoldUsesSubAnswer | backend/src/services/set-cover/set-cover.ts:103-136 | a round whose sub-search found teams leaves the fold's final answer non-empty, with no team larger than those sub-teams plus the candidate |
| SetCoverSolver.FoldUsesSingle | backend/src/services/set-cover/set-cover.ts:141-152 | a candidate that leaves nothing, with a place free, makes the fold's final answer non-empty and made of teams of one |
| SetCoverSolver.ChainTeamCovers | backend/src/services/set-cover/set-cover.ts:96-136 | a chain of at most n candidates, each picked for the first unmet ingredient of what the previous links left, is a team of 1 to n members that covers the meal |
| SetCoverSolver.FoldComplete | backend/src/services/set-cover/set-cover.ts:96-154 | a fold over the candidates of the first ingredient whose sub-answers are complete cached answers is itself complete: for every covering chain within the budget the answer is non-empty and no team in it is larger |
| SetCoverSolver.RankedWithinChain | backend/src/services/set-cover/set-cover.ts:218-240 | ranking the detail records of a complete answer keeps at least one team, and no ranked team is larger than a covering chain within the budget |
| TeamRanking.RankKeepsSome | backend/src/services/set-cover/set-cover.ts:195-216 | ranking removes duplicates but keeps at least one solution exactly when it is given one |
| SetCoverSolver.FoldOutcome | backend/src/services/set-cover/set-cover.ts:96-154 | over a complete fold, the sub-answer bound holds for every round, and a candidate that leaves nothing forces teams of one |
| SetCoverSolver.DetailIsSolution | backend/src/services/set-cover/set-cover.ts:218-239 | a ranked record of a valid answer covers the recipe and has the answer's size, within the budget |
| SetCoverSolver.RankedDetailsAreDetails | backend/src/services/set-cover/set-cover.ts:175-192 | every ranked record carries the flag and is the detail record of one of the solutions, members reordered |
| SetCoverSolver.SetCover.constructor | backend/src/services/set-cover/set-cover.ts:44-56 | stores the reverse index and the memo; the timeout is 10000; the solver starts `stale` exactly when the given memo holds an incomplete answer |
| SetCoverSolver.SetCover.CheckTimeout | backend/src/services/set-cover/set-cover.ts:160-165 | late exactly when the elapsed time exceeds the timeout; a late check is remembered for the search and makes the solver `stale` |
| SetCoverSolver.SetCover.SolveRecipe | backend/src/services/set-cover/set-cover.ts:58-158 | every returned team has one common size between 1 and the budget and covers the remainder; timeout gives [], a memo hit gives the cached answer, zero places or nothing left gives []; otherwise the answer is cached under its parameters and is the fold of the ranked candidates of the first ingredient, each round applying the merge rules to the sub-search answer cached for its key; any non-empty sub-answer makes the answer non-empty with teams no larger than that sub-answer's teams plus one; when a candidate covers the recipe alone the answer is made of teams of one; unless `stale`, the answer is complete: non-empty, with teams no larger than any chain of candidates that covers the remainder within the budget |
| SetCoverSolver.SetCover.RankCandidates | backend/src/services/set-cover/set-cover.ts:76-94 | exactly the index's candidates for the first ingredient, each with what it leaves, fewest left first |
| SetCoverSolver.SetCover.FoldCandidates | backend/src/services/set-cover/set-cover.ts:96-154 | the fold returns a valid answer for the recipe within the budget, and its trace shows every round applying the merge rules to the sub-search answer for its key, each cached unless a timeout fired; any non-empty sub-answer makes the answer non-empty with teams no larger than that sub-answer's teams plus one; if some candidate leaves nothing and a place is free, every team has one member; the memo only grows |
| SetCoverSolver.SetCover.SolveWithCandidate | backend/src/services/set-cover/set-cover.ts:103-136 | the sub-search answer is a valid answer for the key (remainder, size - 1) and is cached under it; an empty sub-answer leaves the best unchanged, otherwise the new best is the merge of the sub-teams with the candidate appended; the size stays between 1 and the old size, uniform and covering; unless `stale`, the sub-answer is complete for its key |
| SetCoverSolver.SetCover.SolveFresh | backend/src/services/set-cover/set-cover.ts:76-157 | a search that is not cut short ranks the candidates, folds them, caches the answer under its parameters and returns it; the answer is the fold of the ranked candidates with each sub-answer cached, and it obeys the sub-answer bound and the teams-of-one rule; unless `stale`, the answer is complete |
| SetCoverSolver.SetCover.FoldPass | backend/src/services/set-cover/set-cover.ts:96-154 | one round of the loop extends the fold's trace by the round for the next ranked candidate, with its sub-answer cached |
| SetCoverSolver.SetCover.FoldRound | backend/src/services/set-cover/set-cover.ts:98-153 | one round: a candidate that leaves something recurses when the team limit allows, and the new best is `FoldStep` of the sub-search answer, which is valid for its key and cached under it; at the team limit the best is unchanged; a candidate that leaves nothing is merged by `MergeSingle` |
| SetCoverSolver.SetCover.SolveAndCache | backend/src/services/set-cover/set-cover.ts:110-111 | the recursive call returns a valid answer for the key, and that answer is what the memo holds under the key afterwards; unless a timeout check has fired, the answer is complete for the key |
| SetCoverSolver.SetCover.CalculateDetailsAndSortBySumSurplus | backend/src/services/set-cover/set-cover.ts:167-193 | missing solutions give []; otherwise one timeout check sets every record's `exhaustive`, and the result ranks the filler-sorted records: hash-sorted, from the solutions, distinct, no two teams with the same members |
| SetCoverSolver.SetCover.StartSearch | backend/src/services/set-cover/set-cover.ts:223-237 | restarts the clock, applies the default budget 5 and the optional timeout, returns a memo hit or a fresh valid answer, and keeps every memo entry; unless `stale`, the answer is complete: non-empty with teams no larger than any covering chain of candidates within the budget |
| SetCoverSolver.SetCover.FindOptimalCombinationFor | backend/src/services/set-cover/set-cover.ts:218-240 | the result is the ranking of the filler-sorted detail records of a valid answer: each record is one solution's detail record with its surplus, the records are ordered by least filler, every result covers the recipe, all have one size within the budget, members are hash-sorted, no team repeats, `exhaustive` holds exactly when no timeout check fired, and the memo keeps every entry; unless `stale`, the result is non-empty and no team in it is larger than any chain of candidates that covers the recipe within the budget, so teams of one when a single candidate covers it |
| SetCoverSolver.SetCover.CalculateMinTeamSizeFor | backend/src/services/set-cover/set-cover.ts:242-260 | the size of every team found, within the budget exactly when one was found, and budget + 1 otherwise; the memo keeps every entry; unless `stale`, the size is at most the length of any covering chain of candidates within the budget, so 1 when a single candidate covers the recipe |
| SetCoverSolver.MinTeamSizeWithinBudget | backend/src/services/set-cover/set-cover.ts:259 | for a valid answer the reported size is within the budget exactly when some team was found, and is then every team's size |
| TeamSimulation.SkillEffect | backend/src/services/simulation-service/team-simulator/team-simulator.ts:151-161 | a skill adds its helps if it has any, else its energy if it has any, never both; a skill with neither changes nothing |
| TeamSimulation.BroadcastAll | backend/src/services/simulation-service/team-simulator/team-simulator.ts:151-161 | a broadcast applies the skill to every member and changes none of their event counters |
| TeamSimulation.GrantedSnoc | backend/src/services/simulation-service/team-simulator/team-simulator.ts:151-161 | one more skill adds its own helps and energy to the totals granted |
| TeamSimulation.GrantedAppend | backend/src/services/simulation-service/team-simulator/team-simulator.ts:117-121 | the totals granted by two runs of skills are the sums of their totals |
| TeamSimulation.GrantedThenBroadcast | backend/src/services/simulation-service/team-simulator/team-simulator.ts:119-121 | broadcasting one more skill after a run of skills grants the totals of the longer run |
| TeamSimulation.HelpedThenBroadcast | backend/src/services/simulation-service/team-simulator/team-simulator.ts:85-90 | a broadcast after the helps of the first members adds that skill to what the helped members were granted |
| TeamSimulation.DayTickSnoc | backend/src/services/simulation-service/team-simulator/team-simulator.ts:82-94 | the skills of one more day tick are those of the earlier ticks followed by that tick's own |
| TeamSimulation.TicksCoverDay | backend/src/services/simulation-service/team-simulator/team-simulator.ts:80-106 | for a night start within the day, the day and night loops together visit every multiple of 5 from 0 to 1440 once, in order: 289 ticks |
| TeamSimulation.MealsCookedSoFar | backend/src/services/simulation-service/team-simulator/team-simulator.ts:129-138 | with meal times at least one tick apart and none before wake-up, after the first n day ticks every cooked meal's time has been reached and the next meal's time has not |
| TeamSimulation.MealsCookedOnTime | backend/src/services/simulation-service/team-simulator/team-simulator.ts:129-138 | under the same spacing, after n day ticks a meal has been cooked if and only if its time is at or before the last tick |
| TeamSimulation.DecayCadence | backend/src/services/simulation-service/team-simulator/team-simulator.ts:141-149 | after n >= 1 ticks the counter is (n-1) mod 2 and (n-1) div 2 decays happened: the first on the third tick, then every second |
| TeamSimulation.CounterStaysBinary | backend/src/services/simulation-service/team-simulator/team-simulator.ts:141-149 | after at least one tick the decay counter is 0 or 1 |
| TeamSimulation.FullDayDecays | backend/src/services/simulation-service/team-simulator/team-simulator.ts:37 | over a full day of 289 ticks the energy decays 144 times and the counter ends at 0 |
| TeamSimulation.CookStep | backend/src/services/simulation-service/team-simulator/team-simulator.ts:129-139 | a cook at a tick, or no cook, keeps the meal log in meal-time order |
| TeamSimulation.DayTickStep | backend/src/services/simulation-service/team-simulator/team-simulator.ts:82-94 | after a day tick, cooks and broadcasts still happen only at day ticks |
| TeamSimulation.DayTickTally | backend/src/services/simulation-service/team-simulator/team-simulator.ts:83-92 | a day tick is one day help per member plus the cook and the decay it made |
| TeamSimulation.DayTickAccumulates | backend/src/services/simulation-service/team-simulator/team-simulator.ts:82-94 | one more day tick adds one day help, its meals, its decay and its skills to the running tally of the day |
| TeamSimulation.StartedThenTallied | backend/src/services/simulation-service/team-simulator/team-simulator.ts:78-106 | the started day adds exactly one start to each member's count of what happened during the day |
| TeamSimulation.TalliedThenCollected | backend/src/services/simulation-service/team-simulator/team-simulator.ts:96 | the collection between the loops adds exactly one collection per member |
| TeamSimulation.StartedThenBroadcast | backend/src/services/simulation-service/team-simulator/team-simulator.ts:117-122 | broadcasting morning skills does not undo or repeat a member's day start |
| TeamSimulation.TeamSimulator.constructor | backend/src/services/simulation-service/team-simulator/team-simulator.ts:39-75 | run 0, no meals cooked, decay counter -1, one fresh state per member, an empty pot for the camp setting |
| TeamSimulation.TeamSimulator.Results | backend/src/services/simulation-service/team-simulator/team-simulator.ts:109-114 | one result per member, in member order, whose state is that member's state; the member results and the cooking result all carry the same run, the current one, and the cooking result carries the cooked meals |
| TeamSimulation.TeamSimulator.ActivateTeamSkill | backend/src/services/simulation-service/team-simulator/team-simulator.ts:151-161 | every member receives the skill's effect; the broadcast is logged |
| TeamSimulation.TeamSimulator.MaybeDegradeEnergy | backend/src/services/simulation-service/team-simulator/team-simulator.ts:141-149 | the counter is incremented and reset to 0 on reaching 2, when every member's energy decays once; helps and energy received are untouched |
| TeamSimulation.TeamSimulator.CollectInventory | backend/src/services/simulation-service/team-simulator/team-simulator.ts:163-167 | every member's inventory is collected once |
| TeamSimulation.TeamSimulator.AttemptCooking | backend/src/services/simulation-service/team-simulator/team-simulator.ts:129-139 | once the next meal time is reached, and only while meal times remain, every member updates its bag and recovers, and one meal is cooked with the run's Sunday flag; otherwise nothing changes |
| TeamSimulation.TeamSimulator.BroadcastMorningSkills | backend/src/services/simulation-service/team-simulator/team-simulator.ts:119-121 | every member receives the summed helps and energy of all the given skills (`Granted`), no event counter changes, and one morning broadcast is logged per skill |
| TeamSimulation.TeamSimulator.Init | backend/src/services/simulation-service/team-simulator/team-simulator.ts:116-127 | every member starts the day once and receives the helps and energy of all the team's morning skills (`MorningSkills`), one morning broadcast is logged per skill, the counters are reset to -1 and 0, and the run advances by one |
| TeamSimulation.TeamSimulator.StartMemberDay | backend/src/services/simulation-service/team-simulator/team-simulator.ts:117-121 | the next member starts the day once and its morning skills are broadcast: the members so far have been granted the morning skills of one more member |
| TeamSimulation.TeamSimulator.Simulate | backend/src/services/simulation-service/team-simulator/team-simulator.ts:77-107 | the day loop visits the multiples of 5 up to the night start and the night loop those after it up to 1440, 289 ticks in all for a night start within the day; one collection between them; cooks and broadcasts only at day ticks, in meal-time order, with the run's Sunday flag, and the number of meals cooked is exactly `MealsCooked` of the meal times over the day ticks; each member gets one start, one help per tick, the decays of the counter's closed form, and the helps and energy of every morning skill and every skill triggered by a day help; one broadcast per such skill |
| TeamSimulation.TeamSimulator.DayAndNight | backend/src/services/simulation-service/team-simulator/team-simulator.ts:80-106 | the day loop, the collection and the night loop: the full grid of ticks, one collection, every day skill broadcast and granted, and exactly `MealsCooked` of the day ticks cooked |
| TeamSimulation.TeamSimulator.CollectThenNight | backend/src/services/simulation-service/team-simulator/team-simulator.ts:96-106 | after the day loop, one collection per member at the day-night boundary, then the night grid with its night helps and decays |
| TeamSimulation.TeamSimulator.RunDay | backend/src/services/simulation-service/team-simulator/team-simulator.ts:80-94 | the day loop visits the multiples of 5 up to the night start, with one day help per member per tick, cooks in meal-time order and exactly `MealsCooked` of the ticks visited, decays by the counter's closed form, and every skill triggered by a day help (`DayTickSkills`) broadcast at its tick |
| TeamSimulation.TeamSimulator.DayStep | backend/src/services/simulation-service/team-simulator/team-simulator.ts:82-94 | one pass of the day loop extends its invariant: one more tick logged, the cook count still `MealsCooked` of the ticks, and its skills added to the granted totals |
| TeamSimulation.TeamSimulator.DayPass | backend/src/services/simulation-service/team-simulator/team-simulator.ts:82-94 | one pass of the day loop also extends the list of day skills to the ticks visited |
| TeamSimulation.TeamSimulator.DayTick | backend/src/services/simulation-service/team-simulator/team-simulator.ts:83-93 | one day tick: a meal is cooked exactly when one remains and its time has been reached; one day help per member, one step of the decay counter, and each skill the members trigger at this minute (`DaySkills`) broadcast and applied to every member |
| TeamSimulation.TeamSimulator.RunNight | backend/src/services/simulation-service/team-simulator/team-simulator.ts:98-106 | the night loop visits the multiples of 5 after the night start up to 1440, with one night help per member per tick and decays by the counter's closed form |
| TeamSimulation.TeamSimulator.DayHelps | backend/src/services/simulation-service/team-simulator/team-simulator.ts:85-90 | every member makes one day help, and each skill triggered (`DaySkills`) is applied to every member and logged as a broadcast at this tick |
| TeamSimulation.TeamSimulator.HelpAndBroadcast | backend/src/services/simulation-service/team-simulator/team-simulator.ts:86-89 | the next member makes one day help and its skill, if any, is broadcast to all members and logged at this tick |
| TeamSimulation.TeamSimulator.NightHelps | backend/src/services/simulation-service/team-simulator/team-simulator.ts:100-102 | every member makes one night help |

## Left out

- The clock: `Date.now()` is a logical clock that advances by one at each timeout check. Timing is then deterministic, but which searches time out in practice is not modelled.
- Memo keys: the memo is keyed by the parameter record instead of its string encoding, which assumes that decoding an encoded key gives back the same record. The helpers `createMemoKey` and `parseMemoKey` are not part of this model.
- The memo handed to the constructor is required to hold only valid answers. The source assumes this without checking it; an unrelated memo would break every coverage guarantee.
- The helpers of set-cover-utils and ingredient-calculate are not part of this model. Each is given the plain definition its name and its use call for: `calculateRemainingSimplifiedIngredients`, `sumOfSimplifiedIngredients`, `calculateRemainingIngredients`, `combineSameIngredientsInDrop`, `extractRelevantSurplus` and `sortByMinimumFiller`. `sortByMinimumFiller` is read as a sort by total filler surplus, then total recipe surplus. `calculateRemainingSimplifiedIngredients` is called at set-cover.ts:88 with a third argument `true`; the model reads that flag as dropping every requirement the produce meets, so the remainder holds only the unmet entries.
- `hashPokemonCombination` is not part of this model. It is given a plain definition: the name, then the ingredient names.
- `localeCompare` is modelled as lexicographic order on code points; locale collation is not modelled.
- The default `.sort()` at set-cover.ts lines 130 and 135 is modelled as the identity. It compares elements as strings; every element there is an array of the same number of plain objects, so all elements compare equal, and the sort is stable.
- The `!subTeams` guard at set-cover.ts lines 113-117 is left out. The recursive call always returns an array, so the guard can never fire.
- In-place sorting and aliasing are not modelled. `processOptimalTeamSolutions` sorts the teams in place, and the teams are shared with the memo, so the source also reorders the memo's cached teams. The model sorts copies.
- SetCoverSolver.SetCover.FindOptimalCombinationFor: minimality is proved against chains of candidates (`CoverableWithin`), and only while the solver is not `stale`. It is not proved against every covering combination: that would need the reverse index to list, for each ingredient, every combination producing it, and the model leaves the reverse index unconstrained. Nor does `exhaustive` reflect memo entries left by an earlier search that timed out; `stale` is what records that.
- Stale empty answers: a sub-search that times out returns `[]`, and line 111 caches it. A later search then reads that `[]` as "no team". The model keeps this behaviour; an empty answer is valid under the memo invariant.
- Member and cooking internals: `MemberState` and `CookingState` are reduced to counters of what the driver did to them. Production, energy, inventory contents and the skill logic are not modelled. The skills a member triggers come from two oracle functions of the run, the member and the minute. Their classes are not part of this model.
- The constructor's `timeIntervals`, day and night periods, `TimeUtils` and `getDefaultMealTimes` are not modelled. The constructor takes the night start and the meal times directly, in minutes since wake-up.
- Tick count: a day is 1440 minutes; the day and night loops visit every multiple of 5 from 0 to 1440 inclusive, which is 289 ticks.
- Search structure: the search's recursion runs through `SolveRecipe`, `SolveFresh`, `FoldCandidates`, `FoldPass`, `FoldRound`, `SolveWithCandidate` and `SolveAndCache`, in the source's order of operations.
- Sorting.SortBy: the result is proved to be an ordered permutation of the input; that equivalent elements keep their order, as with JavaScript's sort, is not proved.
- Loop structure: `simulate`'s two loops are methods of their own (`RunDay`, `RunNight`), joined by `DayAndNight` and `CollectThenNight`. The day loop's body is `DayPass`, `DayStep` and `DayTick`. The member loops are `DayHelps`, `NightHelps` and `BroadcastMorningSkills`, and their bodies are `HelpAndBroadcast` and `StartMemberDay`. The order of operations is unchanged.
- Numbers: JavaScript numbers are modelled as unbounded integers and reals. Floating-point rounding is not modelled.
