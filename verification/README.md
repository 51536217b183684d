# AMP: a verified model of its tournaments, escrow and matchmaking

AMP runs wagered matches and tournaments: a web engine builds and drives brackets, a relayer re-derives who
is paid, three contracts hold the money, and a queue finds opponents. This project models those four parts in
Dafny and proves what they promise, for every input and every run. `dafny verify dfyconfig.toml` checks all of it.

**Tournament engine and relayer.** `Bracket.dfy` defines a bracket by recursion: who stands at each position
given a set of recorded results. The mutable `Tournament` class of the web engine (`Tournament.dfy`) and the
array-based relayer (`Relayer.dfy`) run their fixed-point loops and are proved to end exactly at that bracket
(`Propagation.dfy`). On it rest the replay theorem (`Confluence.dfy`), the placement theorems (`Knockout.dfy`,
`Placement.dfy`), the agreement of the two engines (`Parity.dfy`) and when there is a match to play
(`Progress.dfy`). Round robin (`RoundRobin.dfy`) is proved by modular arithmetic over the rotating circle, Swiss
(`Swiss.dfy`, `SwissRun.dfy`) by an invariant over whole runs.

**Escrow.** `RegistrySpec.dfy`, `SettlementSpec.dfy` and `CupSpec.dfy` give every transaction as a function from
state to state or error; the classes in `RegistryContract.dfy`, `SettlementContract.dfy` and `CupContract.dfy` update
their mappings in place and are proved to do exactly that and to stay well formed and solvent. `EscrowSteps.dfy`,
`EscrowRuns.dfy`, `EscrowSafety.dfy`, `EscrowRelease.dfy`, `EscrowCredits.dfy`, `EscrowHashes.dfy`, `EscrowUnregistered.dfy`
and `CupRuns.dfy` prove safety over every sequence of transactions. `EscrowTerms.dfy` and `CupTerms.dfy` say who may
call what, and what it changes, in terms of the stored fields; `EscrowVerdicts.dfy` follows an outcome from the result
handed in to the accounts that are paid, and `EscrowLaws.dfy` every match back to the calls it came from. Transactions are atomic (`nonReentrant`), a revert
changes nothing, and the environment is explicit: the zero address sends nothing, a token delivers at most what was
sent and takes off at most what was asked, the native coin moves exactly, the recovered signer is an input, anybody
may give tokens away, and the registry points at the modelled settlement contract.

**Matchmaking.** `Rules.dfy` evaluates a pair of tickets, `Pairing.dfy` searches a sorted bucket, `MatchQueue.dfy` is
the queue class, `QueueIndex.dfy` its side index, `StakeTiers.dfy` the stamped bucket ids, `ServiceRules.dfy` the rules
the service queues by and `QueueService.dfy` the service. Ratings and scores are reals and the clock is a parameter, read once per call.

## What the code does not do

Seven expectations fail as stated; each has a counterexample and its exact condition.

- `createMatch` accepts a game id that is not registered yet. A native stake placed there is later read as a stake
  in whatever token the game is registered with. A successful `createMatch` leaves the registry solvent over every
  continuation if and only if the game is registered or no coins come with the call
  (`EscrowUnregistered.SafeIffRegistered`; `EscrowUnregistered.EarlyStakeBreaks` shows the failing family).
- `advance` is public and applies a closed round's results again each time it is called once the last Swiss round
  is over. The tallies stay right if and only if every result of that round was void (`SwissRun.SecondApplication`,
  carried by the contract of `TournamentEngine.Tournament.Advance`; `Progress.AdvanceCountsTwice` is the smallest run).
- The two engines do not agree on a void final. The web's bracket is complete and gives an order; the relayer refuses.
  That is their only disagreement on results both accept (`Parity.EnginesAgree`, `Parity.VoidFinalDisagrees`).
- An incomplete tournament need not have a match to play. Void results can close off a bracket for good, and a Swiss
  round is empty once everybody has met (`Progress.VoidClosesBracket` and `Progress.EmptySwissRound` are small runs).
  `Progress.HasMatchToPlay` says exactly when. Then every result is refused (`Progress.NothingToRecord`), `advance`
  changes nothing in the bracket (`Progress.AdvanceKeepsBracket`) and leaves the empty Swiss round for another empty
  one, until the last (`Progress.LeaveEmptyRound`).
- A stored hash result can be older than the match it decides, because untouched slots can be joined and results are
  never cleared (`EscrowHashes.EarlyResultDecides`). From a creation on, every decision weighs a result handed in
  since, if and only if nobody has one stored under the id, or the game is judged by verifiers, or its token delivered
  nothing so that nobody can join (`EscrowHashes.CreatedIffNoneStored`).
- A studio rate and a protocol rate, each within its limit, can sum to more than 8%. Every verdict then reverts, a
  cancellation included, until a rate is lowered or the match expires. A verdict settles if and only if the sum is at
  most 8% and the outcome is not NONE (`EscrowRelease.VerdictSettles`, `EscrowRelease.RatesCanBlock`).
- `waits` holds a set of times, so two entries that joined one bucket at the same time share one element. When one
  of them leaves, the index still covers the queue if and only if no other entry had the same time
  (`QueueIndex.RemoveKeepsCover`, `QueueIndex.TiedTimeIsLost`).

Three details follow the code where its comments say less. Every fee has a recipient in every reachable state, so
the owner's fee pot never fills (`EscrowCredits.FeePotStaysEmpty`). A pair that passes the rules with score 0 is not
matched, so ratings exactly one window apart wait (`ServiceRules.ServicePairs`). Backfill forgives a pair as soon as the
first hard rule it misses is about skill, even if it misses others after it (`Rules.VerdictMeans`).

## Model

| member | source | states |
|---|---|---|
| Seeding.NextPow2 | web/src/lib/engine/seeding.ts:26-30 | the result is the least power of two that holds `n` seats |
| Seeding.BitReverse | web/src/lib/engine/seeding.ts:4-13 | the shift-and-or loop computes the mirror image of the low `k` bits |
| Seeding.ReverseInvolution | web/src/lib/engine/seeding.ts:4-13 | bit reversal is its own inverse on `k` bits |
| Seeding.SeedSlots | web/src/lib/engine/seeding.ts:16-23 | the slot list is a permutation of the seats, and is its own inverse |
| Seeding.TopSeedsSpread | web/src/lib/engine/seeding.ts:16-23 | any two of the top `2^j` seeds lie in different blocks of `size / 2^j` slots |
| SingleElim.PlaceSeeds | web/src/lib/engine/singleElim.ts:16-23 | each rank lands in the slot that mirrors it, and a slot beyond the field stays empty |
| SingleElim.AllocateIds | web/src/lib/engine/singleElim.ts:25-35 | ids are round-major: round `r`, match `i` gets its closed-form position |
| SingleElim.BuildSingleElim | web/src/lib/engine/singleElim.ts:5-66 | the nested loops build exactly the blank bracket of the seeded field, sides, ids and pointers included |
| SingleElim.FieldFillsMatches | web/src/lib/engine/singleElim.ts:16-46 | for every field of two or more, every first-round match has its A side filled, so no match is empty |
| Knockout.TopSeedsMeetLate | web/src/lib/engine/singleElim.ts:16-46 | two of the top `2^j` seeds never face each other before the last `j` rounds, whatever the results |
| Propagation.BracketFinished | web/src/lib/engine/tournament.ts:157-175 | in the recursive bracket every winner stands in its target slot and every later slot is fed |
| Propagation.GrowsShrinksHoles | web/src/lib/engine/tournament.ts:140-179 | a pass that only fills and changes something leaves strictly fewer holes, so the loop ends |
| Propagation.Fixpoint | web/src/lib/engine/tournament.ts:140-179 | a partial bracket with no pending bye and no pending winner is the whole recursive bracket |
| Propagation.RecordIsPartial | web/src/lib/engine/tournament.ts:107-117 | writing one accepted outcome gives a partial form of the next recursive bracket |
| TournamentEngine.Tournament.CompleteByes | web/src/lib/engine/tournament.ts:144-155 | the bye pass fills only what the final bracket has, reports whether it changed anything, and leaves no pending bye |
| TournamentEngine.Tournament.CollectUpdates | web/src/lib/engine/tournament.ts:157-169 | every collected update is a winner on its way to its own empty slot; none collected means every winner has arrived |
| TournamentEngine.Tournament.ApplyUpdates | web/src/lib/engine/tournament.ts:170-175 | updates only fill slots, and change something exactly when there are any |
| TournamentEngine.Tournament.AdvanceSingleElim | web/src/lib/engine/tournament.ts:140-179 | the loop terminates, never overwrites a slot or outcome, and ends with each slot holding the recursive winner of its feeder |
| TournamentEngine.FinalDecidedMeans | web/src/lib/engine/tournament.ts:236-239 | the completeness test of a bracket asks exactly whether the final is decided |
| Knockout.ChampionDecidesAll | web/src/lib/engine/tournament.ts:236-239 | a champion implies that every match is decided with A or B |
| Knockout.FinalDecidesAll | web/src/lib/engine/tournament.ts:236-239 | a decided final, even a void one, implies that every match is decided |
| Knockout.ChampionIffFinalDecisive | web/src/lib/engine/tournament.ts:96-103 | there is a champion exactly when the final is decided with A or B |
| TournamentEngine.Tournament.New | web/src/lib/engine/tournament.ts:33-63 | refuses short fields, repeated ids and zero Swiss rounds in that order, and otherwise returns a valid tournament in round 0, not complete, with no result recorded and no match decided but byes |
| TournamentEngine.Tournament.IdsUnique | web/src/lib/engine/tournament.ts:65-72 | the seen-set loop decides whether ids are distinct |
| TournamentEngine.Tournament.Record | web/src/lib/engine/tournament.ts:107-117 | a result is accepted iff the match exists, is undecided and has both players, and it is not a draw of a bracket; each refusal says which of these failed, in the source's order, with no change; otherwise the outcome is written, the Swiss round moves on exactly if that decides it and another is left, and the invariant holds again |
| TournamentEngine.Tournament.Advance | web/src/lib/engine/tournament.ts:119-138 | keeps the invariant; leaves the current Swiss round for the next exactly when it is decided (or empty) and not the last; tallies stay exact, and a repeated call keeps them exact iff the last round gave nobody anything |
| TournamentEngine.Tournament.RecomputeComplete | web/src/lib/engine/tournament.ts:236-249 | the some, every and counting loops decide: the final of the recorded results is decided; every fixture is; every match is and the last Swiss round is on |
| TournamentEngine.CountsAgree | web/src/lib/engine/tournament.ts:242-248 | when every match has two players, playable count equals decided count exactly when all are decided |
| TournamentEngine.Tournament.Pending | web/src/lib/engine/tournament.ts:86-90 | the ready matches and no others, in ascending id order |
| TournamentEngine.Tournament.IdsInOrder | web/src/lib/engine/tournament.ts:80-83 | insertion order of the match map is ascending id order, in all three formats |
| TournamentEngine.Tournament.ChampionId | web/src/lib/engine/tournament.ts:96-103 | the first decided match that feeds no other gives the champion |
| TournamentEngine.Tournament.SingleElimOrder | web/src/lib/engine/tournament.ts:288-317 | the tables and the sort give the placement order of `Placement.WinnerIds` |
| TournamentEngine.Tournament.Standings | web/src/lib/engine/tournament.ts:253-280 | the rows are a permutation of the full recount and are ordered by wins, then fewer losses, then id |
| TournamentEngine.Tournament.Winners | web/src/lib/engine/tournament.ts:282-286 | placement order for brackets; otherwise a permutation of the entrants, each with a record no worse than the next one's |
| TournamentEngine.RankedMeans | web/src/lib/engine/tournament.ts:282-286 | in that order more wins stand first, then fewer losses, then the smaller id |
| TournamentEngine.OutcomeCounts | web/src/lib/engine/tournament.ts:253-280 | one recorded outcome adds one win and one loss, or a draw for both players, or nothing when void, and changes nobody else's row |
| Placement.ChampionOfBracket | web/src/lib/engine/tournament.ts:96-103 | the searched champion is the recursive one |
| Placement.EveryoneElseLostOnce | web/src/lib/engine/tournament.ts:288-303 | in a completed run the champion lost no match and everyone else exactly one |
| Placement.ResultsRecorded | web/src/lib/engine/tournament.ts:107-117 | a completed run of `n` entrants recorded exactly `n - 1` results |
| Placement.ElimIsLossRound | web/src/lib/engine/tournament.ts:295-302 | the elimination round used for sorting is the round of the one match lost |
| Placement.WinnersArePlacement | web/src/lib/engine/tournament.ts:288-317 | `winners()` is a permutation of the field, champion first, elimination rounds non-increasing, ties by seed |
| Placement.FavouritesFinishInSeedOrder | web/src/lib/engine/tournament.ts:288-317 | if the better seed wins every recorded match, `winners()` is the field in ascending seed order, byes or not |
| Placement.FavouriteChampion | web/src/lib/engine/singleElim.ts:10-53 | if favourites win, the top seed is champion |
| Bracket.ArrivesMonotone | relayer/src/bracket.rs:243-266 | more results never change a position that is already filled |
| Bracket.ArrivesLocal | relayer/src/bracket.rs:243-266 | a position depends only on results with smaller ids |
| Confluence.ReplayAscending | relayer/src/bracket.rs:243-266 | a set of results some run accepts is accepted in ascending id order |
| Confluence.ReplayConfluence | relayer/src/bracket.rs:243-266 | results accepted in play order are accepted by ascending id and reach the same bracket, as does every accepted reordering |
| Confluence.PlayOrderAccepted | web/src/app/api/tournament/[id]/finalize/route.ts:42-45 | play order is accepted exactly when the sorted results are and every result comes after its feeders |
| Relayer.BuildBracket | relayer/src/bracket.rs:93-165 | refuses fewer than two players, otherwise fills the vector with the blank bracket of the field |
| Relayer.AdvanceSingleElim | relayer/src/bracket.rs:169-228 | the in-place loop ends at the recursive bracket |
| Relayer.RecordResult | relayer/src/bracket.rs:247-266 | unknown, resolved, unready and drawn results are refused in that order; otherwise the vector becomes the bracket with the result added |
| Relayer.ResultErrorMeans | relayer/src/bracket.rs:247-266 | which of the four errors a result meets, or none, said of the match it names in the recursive bracket |
| Relayer.ReplayResults | relayer/src/bracket.rs:243-266 | the sorted replay computes the recursive replay |
| Relayer.ReplayedIsReplay | relayer/src/bracket.rs:247-266 | the relayer's refusals are exactly the web engine's |
| Relayer.DeriveSingleElimWinners | relayer/src/bracket.rs:233-332 | the whole derivation, for any iteration order of its hash map, equals its specification |
| Parity.RecordAll | web/src/app/api/tournament/[id]/finalize/route.ts:42-45 | recording in play order accepts exactly what the recursive replay accepts and reaches its results |
| Parity.FinalizeOrder | web/src/app/api/tournament/[id]/finalize/route.ts:40-48 | the web route rejects, reports an incomplete bracket, or returns the placement order, as the recursive bracket says |
| Parity.CompletenessAgrees | relayer/src/bracket.rs:268-279 | on accepted results the final is decided iff every match is resolved; there is a champion iff the final went to A or B; a decided final without a champion is exactly a void one |
| Parity.OrderIgnoresKeyOrder | relayer/src/bracket.rs:302-319 | with distinct seeds the order does not depend on the hash map's key order |
| Parity.DerivationAgrees | relayer/src/bracket.rs:268-332 | from the same results the relayer succeeds iff there is a champion, then pays the wallets of `winners()` in order, and refuses a decided final exactly when it is void |
| Parity.DerivationErrors | relayer/src/bracket.rs:269-282 | from accepted results the derivation fails only for an open final (unresolved) or a void one (no winner) |
| Parity.EnginesAgree | relayer/src/bracket.rs:233-332 | for every field and every accepted play-order sequence: same bracket, success iff champion, same paid order, and the one disagreement is a void final |
| Parity.VoidFinalDisagrees | relayer/src/bracket.rs:276-279 | two players and one void result: the final is decided, so the web returns an order, and the relayer refuses |
| RoundRobin.MeetsExactlyOnce | web/src/lib/engine/roundRobin.ts:18-39 | two circle positions face each other in exactly one round, found by halving modulo an odd number |
| RoundRobin.EveryPairMeetsOnce | web/src/lib/engine/roundRobin.ts:8-41 | over the schedule each unordered pair of entrants meets exactly once |
| RoundRobin.ScheduleOncePerRound | web/src/lib/engine/roundRobin.ts:18-39 | nobody plays twice in a round or against themselves |
| RoundRobin.ScheduleLength | web/src/lib/engine/roundRobin.ts:8-41 | the schedule has n(n-1)/2 fixtures, odd fields included |
| RoundRobin.Rotate | web/src/lib/engine/roundRobin.ts:36-38 | pop and splice advance the circle by one rotation |
| RoundRobin.PlayRound | web/src/lib/engine/roundRobin.ts:19-35 | one round lists exactly its fixtures, skipping the dummy |
| RoundRobin.BuildRoundRobin | web/src/lib/engine/roundRobin.ts:4-42 | the loops list the schedule, with ids and slots |
| RoundRobin.BuiltRoundRobin | web/src/lib/engine/roundRobin.ts:4-42 | of the built matches, any two entrants meet in exactly one and there are n(n-1)/2 |
| RoundRobin.BuiltOncePerRound | web/src/lib/engine/roundRobin.ts:4-42 | in the built list nobody plays twice in a round or against themselves, and the rounds are as many as promised |
| Swiss.PairingOrderIsPermutation | web/src/lib/engine/swiss.ts:25-36 | the pairing order holds every entry exactly once |
| Swiss.PairingOrderIsRanking | web/src/lib/engine/swiss.ts:25-36 | whoever stands earlier has the higher score, then the better seed, then the smaller id |
| Swiss.PairingOrderIsByPoints | web/src/lib/engine/swiss.ts:25-36 | the same in points, two for a win and one for a draw |
| Swiss.GreedyPairs | web/src/lib/engine/swiss.ts:42-61 | the greedy walk makes only fresh pairs and leaves no two entries that have not met |
| Swiss.MarkPlayedExactly | web/src/lib/engine/swiss.ts:57-58 | exactly this round's opponents are added to the played sets |
| Swiss.PairSwissRound | web/src/lib/engine/swiss.ts:21-63 | the nested loops compute the greedy pairs, their ids and the new played sets |
| Swiss.PairsAreBestFree | web/src/lib/engine/swiss.ts:42-61 | when a pair is made, everyone ranked above the chosen opponent is the chooser, already paired, or already met |
| SwissRun.PairingKeepsInv | web/src/lib/engine/tournament.ts:181-196 | pairing a round keeps: no rematch, nobody twice in a round, played sets exact, idle entrants have met |
| SwissRun.RecordKeepsInv | web/src/lib/engine/tournament.ts:107-117 | recording a result keeps the Swiss invariant |
| SwissRun.PlayedSymmetric | web/src/lib/engine/swiss.ts:57-58 | the played relation stays symmetric in every run |
| SwissRun.ApplyKeepsTallies | web/src/lib/engine/tournament.ts:205-234 | applying a closed round makes the tallies exact for one more round |
| SwissRun.SecondApplication | web/src/lib/engine/tournament.ts:119-138 | applying the same round twice keeps the tallies exact iff all its results were void |
| TournamentEngine.Tournament.ApplySwissResults | web/src/lib/engine/tournament.ts:205-234 | each entry's wins, draws and losses grow by what the round's decided matches are worth to it |
| TournamentEngine.Tournament.PairNextRound | web/src/lib/engine/tournament.ts:181-196 | the appended matches are the greedy pairs in order, with fresh ids; each pair holds the best-ranked free opponent not yet met; tallies untouched, invariant kept |
| TournamentEngine.TalliesMatchStandings | web/src/lib/engine/tournament.ts:253-280 | whenever a round closes, the incremental tallies equal the full recount |
| Progress.AdvanceCountsTwice | web/src/lib/engine/tournament.ts:119-138 | two entrants, one Swiss round, one win recorded: one more `advance` leaves the tallies wrong |
| Progress.NothingToRecord | web/src/lib/engine/tournament.ts:107-117 | some result is accepted iff some match is ready; with none ready every result is refused |
| Progress.RecordCounts | web/src/lib/engine/tournament.ts:107-117 | in round robin and Swiss every outcome of a ready match is accepted, draws included, and the recount of every entrant shows exactly that outcome |
| Progress.VoidClosesBracket | web/src/lib/engine/tournament.ts:140-179 | four players, match 1 void and match 2 won: valid, not complete, nothing to play |
| Progress.AdvanceKeepsBracket | web/src/lib/engine/tournament.ts:119-138 | `advance` changes nothing in a valid bracket, so a closed-off one stays so |
| Progress.EmptySwissRound | web/src/lib/engine/tournament.ts:181-196 | two players, three Swiss rounds, one win: the second round is empty, the tournament not complete, nothing to play |
| Progress.LeaveEmptyRound | web/src/lib/engine/tournament.ts:119-138 | one `advance` leaves an empty Swiss round for the next, which is empty too, and completes the tournament iff that is the last |
| Progress.HasMatchToPlay | web/src/lib/engine/tournament.ts:86-90 | while not complete: round robin always has a match to play; a bracket iff some undecided match has no void match at or below it, so always without void results; Swiss iff some two entrants had not met before the current round |
| Progress.BracketProgress | web/src/lib/engine/tournament.ts:140-179 | a bracket has a ready match iff some undecided match has no void match at or below it |
| Progress.RoundEmptyMeans | web/src/lib/engine/tournament.ts:181-196 | a Swiss round has no match iff every two entrants had met before it |
| RegistryContract.AMPRegistry.RegisterGame | contracts/src/AMPRegistry.sol:69-95 | errors in order; otherwise the next id is taken and the verifier loop fills its set |
| EscrowSteps.StudioFeeKeeps | contracts/src/AMPRegistry.sol:100-108 | a studio fee change keeps the invariant, its cap and recipient included, and changes what is owed in no token |
| EscrowSteps.TimeoutKeeps | contracts/src/AMPRegistry.sol:110-115 | a timeout change keeps the invariant, the thirty-day bound included, and changes what is owed in no token |
| RegistryContract.AMPRegistry.UpdateGameVerifiers | contracts/src/AMPRegistry.sol:117-124 | clearing then adding leaves exactly the new verifiers listed, and the registry stays well formed and solvent |
| RegistryContract.AMPRegistry.CreateMatch | contracts/src/AMPRegistry.sol:130-162 | every error with no change; otherwise the measured deposit is the stake; the registry stays solvent if the game is registered or no coins come |
| RegistryContract.AMPRegistry.JoinMatch | contracts/src/AMPRegistry.sol:164-190 | every error with no change; otherwise the measured second stake, and READY; the registry stays solvent |
| RegistryContract.AMPRegistry.CancelMatch | contracts/src/AMPRegistry.sol:192-206 | player A alone closes an open match and is credited its stake |
| RegistryContract.AMPRegistry.ExpireMatch | contracts/src/AMPRegistry.sol:208-231 | after the timeout, three times it when disputed, each player is credited its own stake, paused or not; the registry stays solvent |
| RegistryContract.AMPRegistry.SettleMatch | contracts/src/AMPRegistry.sol:271-312 | only the settlement contract; the two fee slots and the recipient loop create exactly the specified credits; solvent as long as they do not exceed the stake released |
| RegistryContract.AMPRegistry.Withdraw | contracts/src/AMPRegistry.sol:248-261 | a failed transfer changes nothing; otherwise the credit is zeroed and paid; the registry stays solvent |
| RegistryContract.AMPRegistry.WithdrawFees | contracts/src/AMPRegistry.sol:233-246 | the owner alone empties the fee pot of a token |
| EscrowTerms.RegisterTerms | contracts/src/AMPRegistry.sol:69-95 | anyone registers a game with at most ten verifiers, and an arbiter if hashes decide; the caller is its admin, with one hour's timeout and no fee |
| EscrowTerms.CreateTerms | contracts/src/AMPRegistry.sol:130-162 | accepted iff unpaused, the id free, and at least the least stake in the game's currency alone; creator, time and measured stake are recorded and nothing else moves |
| EscrowTerms.JoinTerms | contracts/src/AMPRegistry.sol:164-190 | accepted iff unpaused, open, another account, and exactly the stake in coins, or no coins and something delivered by the token |
| EscrowTerms.CancelTerms | contracts/src/AMPRegistry.sol:192-206 | accepted iff unpaused and open, from its creator; that account's credit alone rises, by its stake |
| EscrowTerms.ExpireTerms | contracts/src/AMPRegistry.sol:208-231 | accepted, paused or not, iff one timeout has passed on an open or ready match, three on a disputed one; account by account who is credited what |
| EscrowTerms.WithdrawTerms | contracts/src/AMPRegistry.sol:248-262 | accepted iff there is a credit and the transfer goes through; that credit becomes zero and no other changes |
| EscrowLaws.AlwaysEven | contracts/src/AMPRegistry.sol:164-190 | in every reachable state a native match that is ready or disputed holds the same stake twice |
| EscrowLaws.EveryMatchHasOrigins | contracts/src/AMPRegistry.sol:130-190 | in every reachable state a match was created by a call of the run with its creator, game, time and stake, and its second player joined in a later one with that stake |
| SettlementContract.AMPSettlement.SubmitAsyncResult | contracts/src/AMPSettlement.sol:97-134 | errors in order; otherwise the settlement is written and the pool split, or everything reverts; both contracts stay well formed and solvent |
| SettlementContract.AMPSettlement.SubmitHashResult | contracts/src/AMPSettlement.sol:136-184 | a first result is noted, a matching one settles, a different one disputes; both contracts stay well formed and solvent |
| SettlementContract.AMPSettlement.ResolveDispute | contracts/src/AMPSettlement.sol:186-210 | the arbiter alone settles a disputed match |
| EscrowVerdicts.VerdictPays | contracts/src/AMPSettlement.sol:97-293 | whichever entry point settles a match, every account's credit rises by exactly what the outcome handed in earns it, spelled out per outcome, and outcome, hash and time are stored; a call that does not settle credits nobody |
| EscrowTerms.HashNoted | contracts/src/AMPSettlement.sol:136-162 | a player's result on a ready match is written down, and nothing else happens, iff the opponent has none stored |
| EscrowRuns.LimitsHold | contracts/src/AMPSettlement.sol:85-89 | in every reachable state studio and protocol rates are within 5%, timeouts within thirty days, a charged studio fee has a recipient, and the verifier set is the game's list |
| EscrowRelease.VerdictSettles | contracts/src/AMPSettlement.sol:228-292 | a listed verifier's result, an agreeing hash result or an arbiter's ruling settles iff the outcome is not NONE and the two rates sum to at most 8% |
| EscrowRelease.RatesCanBlock | contracts/src/AMPSettlement.sol:251-254 | from any fresh deployment a run with both rates at 5% reaches a ready match on which every verdict reverts |
| SettlementSpec.SplitConserves | contracts/src/AMPSettlement.sol:240-291 | for every stake pair, fee setting and outcome: shares and fees make up the pool, players keep at least 92%, a draw is even to one unit, a cancellation returns each own stake, other fees are their rate of the pool rounded down, NONE and rates over 8% are refused |
| EscrowAccounts.SettleMatchAccounts | contracts/src/AMPRegistry.sol:271-312 | `settleMatch` changes what is owed by exactly the credits it makes minus the stake it releases |
| EscrowCredits.PayoutReaches | contracts/src/AMPSettlement.sol:262-291 | account by account: the players get their shares, the studio and the protocol their fees, nobody else anything, in the match's token only |
| EscrowCredits.CancelReaches | contracts/src/AMPRegistry.sol:192-206 | a cancellation credits player A its own stake and nobody else |
| EscrowCredits.FeePotStaysEmpty | contracts/src/AMPRegistry.sol:233-246 | in every run the owner's fee pot is empty, so `withdrawFees` always reverts |
| EscrowSteps.RegisterKeeps | contracts/src/AMPRegistry.sol:69-95 | registering a game never reinterprets an existing stake |
| EscrowSteps.PayoutKeeps | contracts/src/AMPSettlement.sol:227-292 | a payout turns exactly the match's two stakes into credits |
| EscrowRuns.StepKeeps | contracts/src/AMPRegistry.sol:69-312 | every transaction of both contracts keeps the invariant and changes the surplus of every token by its windfall alone |
| EscrowRuns.SafeStep | contracts/src/AMPRegistry.sol:69-312 | any admissible transaction keeps a well-formed, solvent system so, whether it succeeds or reverts |
| EscrowSafety.SettleSafe | contracts/src/AMPRegistry.sol:271-312 | `settleMatch` keeps the registry solvent when it credits no more than the stake it releases |
| EscrowRuns.BooksBalance | contracts/src/AMPRegistry.sol:130-312 | after any run the balance of a token is what is owed in it plus gifts and units transfers left behind |
| EscrowRuns.AlwaysSolvent | contracts/src/AMPRegistry.sol:130-312 | in every reachable state the balance of each token covers all credits, fees and live stakes in it |
| EscrowUnregistered.SafeIffRegistered | contracts/src/AMPRegistry.sol:130-162 | a successful `createMatch` is safe over every continuation iff its game is registered or it brings no coins |
| EscrowUnregistered.EarlyStakeBreaks | contracts/src/AMPRegistry.sol:80-91 | on a fresh deployment any native stake on any game id is accepted and some continuation is insolvent |
| EscrowRelease.ExactlyOnce | contracts/src/AMPRegistry.sol:192-312 | over any run, credits made for a match total zero while it is live and exactly its deposits once it is settled or expired |
| EscrowRelease.TerminalIsFinal | contracts/src/AMPRegistry.sol:192-312 | a created match that is settled or expired never changes again |
| EscrowRelease.OnlyTheEntitledRelease | contracts/src/AMPSettlement.sol:97-210 | a match leaves READY only by a listed verifier, a player's submission weighed against the other's stored result (settled iff they agree) or expiry, and DISPUTED only by the arbiter or expiry after three timeouts |
| EscrowHashes.StoredAfterRun | contracts/src/AMPSettlement.sol:136-184 | the result stored for an account after any run is the last one it handed in during the run, or else the one stored before |
| EscrowHashes.WhoseResultDecides | contracts/src/AMPSettlement.sol:136-184 | a deciding submission weighs the opponent's last result since the creation, or else the one stored then; agreement settles, disagreement disputes |
| EscrowHashes.OwnIffNoneStored | contracts/src/AMPSettlement.sol:136-184 | from any state with the match open, paused or not, every later decision weighs a result handed in since, iff nobody has one stored under the id or hash results can never decide the match |
| EscrowHashes.CreatedIffNoneStored | contracts/src/AMPRegistry.sol:130-162 | the same right after `createMatch`, iff nobody has a result stored under the id, or the registered game has verifiers, or its token delivered nothing |
| EscrowHashes.EarlyResultStays | contracts/src/AMPRegistry.sol:164-190 | join an untouched slot, hand in a result, let another create the match: it is open with that result already stored |
| EscrowHashes.EarlyResultDecides | contracts/src/AMPSettlement.sol:136-184 | the joiner joins that match too and hands in nothing more: the creator's first submission settles it with the older result, or disputes it |
| EscrowRelease.NeverStuck | contracts/src/AMPRegistry.sol:208-231 | from 90 days after creation anyone can expire a live match, paused or not, crediting each player exactly the recorded stake |
| EscrowRelease.NeverStuckInAnyRun | contracts/src/AMPRegistry.sol:208-261 | in every reachable state such a player can also withdraw the credit, which the balance covers |
| CupContract.CheckPayout | contracts/src/AMPTournamentCup.sol:150-155 | the loop accepts exactly the share lists in range that sum to 10000, with the right error otherwise |
| CupContract.AllPlacementsClaimed | contracts/src/AMPTournamentCup.sol:257-263 | the breaking loop decides whether every placement is claimed |
| CupContract.AMPTournamentCup.CreateTournament | contracts/src/AMPTournamentCup.sol:138-158 | errors in order; otherwise the next cup is funded with the value sent |
| CupContract.AMPTournamentCup.CreateTournamentERC20 | contracts/src/AMPTournamentCup.sol:161-188 | errors in order; otherwise the next cup is funded with what arrived |
| CupContract.AMPTournamentCup.CancelTournament | contracts/src/AMPTournamentCup.sol:192-204 | the sponsor before the deadline, anyone after it; the whole pool goes back or nothing changes; every token stays covered |
| CupContract.AMPTournamentCup.FinalizeTournament | contracts/src/AMPTournamentCup.sol:210-235 | only the cup's verifier, in time, with one non-zero winner per placement |
| CupContract.AMPTournamentCup.ClaimPrize | contracts/src/AMPTournamentCup.sol:243-273 | payout and fee leave together, the placement is marked, and the last claim completes the cup; every token stays covered |
| CupTerms.CreateTerms | contracts/src/AMPTournamentCup.sol:129-151 | accepted iff unpaused, funded, with a verifier, a deadline to come and one to sixteen shares that make up the whole; the new cup has exactly these terms |
| CupTerms.CancelTerms | contracts/src/AMPTournamentCup.sol:189-204 | accepted iff open, from the sponsor or after the deadline, and the pool can be sent |
| CupTerms.FinalizeTerms | contracts/src/AMPTournamentCup.sol:210-235 | accepted iff unpaused, open, up to the deadline, signed by the cup's verifier, one non-zero winner per placement; the winners are kept in the signed order |
| CupTerms.ClaimTerms | contracts/src/AMPTournamentCup.sol:243-273 | accepted iff unpaused, finalized, from the winner of that placement, unclaimed, and both transfers go through; complete iff it was the last |
| CupTerms.PrizeTerms | contracts/src/AMPTournamentCup.sol:251-253 | prize and fee are their rates rounded down, together the share, and the winner keeps at least 95% of it |
| CupTerms.TermsStayInRun | contracts/src/AMPTournamentCup.sol:277-300 | in every run a created cup keeps sponsor, token, pool, shares, verifier and times, and its winners once attested |
| CupTerms.WinnersAreAttested | contracts/src/AMPTournamentCup.sol:210-235 | in every reachable state the winners of a cup are a list that some call of the run brought with its verifier's signature |
| CupTerms.PrizeGoesToWinner | contracts/src/AMPTournamentCup.sol:243-273 | in every run a prize goes out only in a call by the account at the claimed placement of the signed list |
| CupAccounts.PoolCovers | contracts/src/AMPTournamentCup.sol:252-254 | shares never exceed the pool and fall short of it by fewer units than there are placements |
| CupRuns.StepKeeps | contracts/src/AMPTournamentCup.sol:138-298 | every transaction keeps the invariant and changes the surplus of every token by its windfall alone |
| CupRuns.SafeStep | contracts/src/AMPTournamentCup.sol:138-273 | any admissible transaction keeps the cups well formed and every token covered |
| CupRuns.BooksBalance | contracts/src/AMPTournamentCup.sol:138-273 | in every reachable state the balance of a token covers what is kept for all cups in it, exactly up to windfalls |
| CupRuns.CupCovered | contracts/src/AMPTournamentCup.sol:243-273 | what is kept covers everything still due; after finalization COMPLETE iff all claimed; on COMPLETE the rest is fewer units than placements, whatever the fees were |
| CupRuns.NeverBoth | contracts/src/AMPTournamentCup.sol:192-273 | over any run a cup is refunded whole and pays no prize, or refunds nothing and prizes plus what is kept make up the pool |
| Rules.EvaluateRules | amp-match-core/src/rules.rs:36-111 | the loop with its break computes the fold over the rules |
| Rules.ComputeEffectiveSkillDiff | amp-match-core/src/rules.rs:113-125 | the first decaying skill rule widens the window, otherwise the base applies |
| Rules.PingIsSymmetric | amp-match-core/src/rules.rs:378-391 | estimated ping does not depend on the direction |
| Rules.EvaluateIsSymmetric | amp-match-core/src/rules.rs:36-111 | the verdict and score of a pair do not depend on which ticket is the anchor |
| Rules.VerdictMeans | amp-match-core/src/rules.rs:75-105 | a pair passes iff it meets every hard rule or, with backfill active, the first one it misses is about skill; scores lie in 0..1 |
| Rules.SkillMeans | amp-match-core/src/rules.rs:181-194 | the skill rule passes iff the distance is within the window; its score is the part of the window the distance leaves |
| Rules.LatencyMeans | amp-match-core/src/rules.rs:196-215 | passes iff the estimated ping is within all three limits or regions may be overridden; the score is the part of the least limit that is left |
| Rules.WindowMeans | amp-match-core/src/rules.rs:113-135 | the window is the base, plus the first widening rule's rate of it for every minute waited |
| Rules.ScoreIsAverage | amp-match-core/src/rules.rs:36-111 | a pair that meets every hard rule scores the weighted average of its rules, kept between 0 and 1 |
| Rules.BackfillMeans | amp-match-core/src/rules.rs:351-375 | backfill cuts only the tolerated parts of a score, each to its share but never below its floor |
| Rules.NewSortedMeans | amp-match-core/src/types.rs:57-64 | sorting permutes the rules, puts hard ones first, and keeps which pairs meet every hard rule |
| QueueEntries.FindPosition | amp-match-core/src/queue.rs:72-82 | bisection finds a position that keeps the bucket sorted |
| QueueEntries.OneEntryPerPlayer | amp-match-core/src/queue.rs:61-66 | a player has at most one entry in the whole queue |
| QueueEntries.CountIsExact | amp-match-core/src/queue.rs:39-59 | the kept count is the number of queued entries |
| Pairing.ScanPartners | amp-match-core/src/queue.rs:144-162 | the scan with its early break finds the first best-scoring partner of an anchor, or none |
| Pairing.FindPair | amp-match-core/src/queue.rs:138-191 | nothing is found iff brute force over unordered pairs finds nothing; otherwise the lowest anchor's first best partner |
| Pairing.PairableIsSymmetric | amp-match-core/src/queue.rs:147-161 | whether two entries may be paired, and their score, is symmetric |
| MatchQueues.MatchQueue.Push | amp-match-core/src/queue.rs:65-86 | the queue holds the new entry and everyone else's, buckets stay sorted and the count exact |
| MatchQueues.MatchQueue.RemovePlayer | amp-match-core/src/queue.rs:90-100 | exactly the player's entry goes, and the reply says whether there was one |
| MatchQueues.MatchQueue.ContainsPlayer | amp-match-core/src/queue.rs:102-106 | true exactly when some queued entry is the player's |
| MatchQueues.MatchQueue.DrainAll | amp-match-core/src/queue.rs:108-115 | every entry comes out once and the queue is empty |
| MatchQueues.MatchQueue.TryMatchBucket | amp-match-core/src/queue.rs:120-191 | none iff the cap is reached or brute force finds no pair; otherwise the lowest anchor's first best partner leaves the bucket with it; under the service's rules that is the lowest anchor whose next entry is near, with that entry, its closest later one |
| ServiceRules.ServicePairs | amp-server/src/queue.rs:143-154 | under the service's rules two players are paired iff they are at most a window apart and, when it is at least 1, strictly less |
| ServiceRules.WindowWidens | amp-server/src/queue.rs:136-140 | a longer wait never narrows the window, which stays under the cap |
| ServiceRules.WindowGrows | amp-server/src/queue.rs:136-140 | the window is the base plus the rate for every second waited, until it meets the cap |
| ServiceRules.ScoreFalls | amp-match-core/src/rules.rs:181-194 | under the service's rules the score strictly falls as the rating distance grows |
| ServiceRules.BestIsClosest | amp-match-core/src/queue.rs:146-165 | the best-scoring partner is the closest-rated later entry of another player, first on ties |
| ServiceRules.FirstBestIsNeighbours | amp-match-core/src/queue.rs:120-191 | in a bucket of the queue the pair taken is a pair of neighbours: the lowest anchor whose next entry is near |
| StakeTiers.StakeIdInjective | amp-server/src/queue.rs:89-92 | a stamped id determines its ruleset and stake when catalog ids do not contain the mark |
| StakeTiers.SameBucketSameStake | amp-server/src/queue.rs:86-92 | entries that share a bucket have equal positive stakes or none |
| StakeTiers.StakedBuckets | amp-server/src/queue.rs:82-95 | staked entries of one game meet in a bucket iff ruleset and stake are the same |
| StakeTiers.DecimalSpells | amp-server/src/queue.rs:82-95 | the text of a stake spells that stake in digits, without leading zeros |
| QueueIndex.RemoveKeepsCover | amp-server/src/queue.rs:110-121 | dropping an entry keeps every queued time in the index iff nobody in the bucket shares its time |
| QueueIndex.TiedTimeIsLost | amp-server/src/queue.rs:49-49 | two entries that joined a bucket at one time: when one leaves, the other's time is gone |
| QueueIndex.WaitsAreQueuedTimes | amp-server/src/queue.rs:46-52 | with the cover, the index of a bucket is exactly its queued times |
| QueueServices.QueueService.Join | amp-server/src/queue.rs:84-108 | the stamped entry replaces the player's earlier one in queue and index; the index stays exact unless times tie; stake tiers are kept |
| QueueServices.QueueService.Leave | amp-server/src/queue.rs:110-121 | the player's entry leaves queue and index; the index stays exact iff the player's time was unshared |
| QueueServices.QueueService.Depth | amp-server/src/queue.rs:194-196 | the depth is the number of queued entries |
| QueueServices.KeysInOrder | amp-server/src/queue.rs:163-164 | the bucket keys, all of them, in lexicographic order |
| QueueServices.QueueService.Tick | amp-server/src/queue.rs:159-192 | entries before are those still queued plus those paired, nobody is paired twice, partners share a bucket, the cap holds, and unless it is reached no indexed bucket has a pair left at its window; each pair, when taken, was within the window that a queued wait of its bucket opened (the longest, while waits are distinct), with nobody queued there rated strictly between the two and nobody rated below them near anyone |
| QueueServices.PairsShareStakes | amp-server/src/queue.rs:84-108 | partners returned by a tick are different players with equal positive stakes or none |
| QueueServices.QueueService.TakeStale | amp-server/src/queue.rs:202-238 | exactly the entries past the threshold in buckets the index flags come out, each once; with an exact index no stale entry stays |

## Left out

- `amp-match-core/src/glicko2.rs`: rating updates with exp, ln and sqrt.
- HTTP, WebSocket, Postgres, PayPal and Next.js code, the React pages, and lost updates between concurrent saves.
- The receiving end of outgoing transfers: a transfer is the units that leave, and the account it goes to (the caller, the owner, the sponsor or the treasury) has no balance of its own here.
- Signature recovery and the EIP-712 encodings: the recovered signer is an input.
- Ownership transfer, the timelock, `setSettlement` and who may pause: the owner and the settlement address are fixed, and pausing is an environment step.
- Integer widths: amounts and times are unbounded, so reverts of checked arithmetic near 2^256, the `uint64` cast of the timestamp and JavaScript's 32-bit shifts beyond 2^30 entrants are not modelled. Credits and fees are bounded by the balance in every reachable state, so additions to them stay as small as the balance does.
- f32 rounding and NaN: ratings, weights and scores are reals.
- The mapping of outcome strings in the web routes, which reads "Void" as "A"; both engines are compared on the same outcomes.
- The route's truncation of the winners to the number of paid placements.
- Fields without behaviour here: rule names and ids, `mmr_uncertainty`, parameters of rule kinds that always pass, the wallet carried inside the relayer's entrants. The relayer's matches store the slot number, which its Rust struct does not have.
- Generic types: entrant ids are integers and the queue holds server entries.
- Hash map iteration order: an arbitrary order where the code iterates a map, a parameter in the relayer's derivation.
- Update in place of single match and entry objects: the web engine's match map and Swiss entries are sequences of values that the class reassigns.
- `status_for`, `bucket_keys`, `getTournament`, `domainSeparator` and event emission: reading and logging only.
- RegistryContract.AMPRegistry.CreateMatch: the tokens' behaviour is an input, so a token that changes the contract's balance outside its transfers is not modelled.
