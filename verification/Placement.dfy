/**
 The paid order: champion first, then everybody else by elimination round (latest first) and
 seed. Both engines sort the same keys; this module says what that order is and proves it.
 */
module Placement {
  import opened Wrappers
  import opened EngineTypes
  import opened Seeding
  import opened Sets
  import opened Sorting
  import opened Bracket
  import opened SingleElim
  import opened Knockout

  // ---------- the order, as a function of a bracket ----------

  function Ids(es: seq<Entrant>): (ids: seq<int>)
    ensures |ids| == |es| && forall i :: 0 <= i < |es| ==> ids[i] == es[i].id
  {
    if es == [] then [] else [es[0].id] + Ids(es[1..])
  }

  function SeedMap(es: seq<Entrant>): map<int, int> {
    if es == [] then map[]
    else SeedMap(es[..|es| - 1])[es[|es| - 1].id := es[|es| - 1].seed]
  }

  predicate LosesAt(ms: seq<BracketMatch>, j: int, id: int) {
    0 <= j < |ms| && MatchLoser(ms[j]).Some? && MatchLoser(ms[j]).value.id == id
  }

  /** Elimination rounds after the first `n` matches; a later loss overwrites an earlier one. */
  function ElimRounds(ms: seq<BracketMatch>, n: nat): map<int, nat>
    requires n <= |ms|
  {
    if n == 0 then map[]
    else
      var before := ElimRounds(ms, n - 1);
      match MatchLoser(ms[n - 1])
      case None => before
      case Some(e) => before[e.id := ms[n - 1].round]
  }

  function ElimOf(elim: map<int, nat>, id: int): nat {
    if id in elim then elim[id] else 0
  }

  function SeedOf(seeds: map<int, int>, id: int): int {
    if id in seeds then seeds[id] else 0
  }

  predicate PlacesBefore(elim: map<int, nat>, seeds: map<int, int>, x: int, y: int) {
    || ElimOf(elim, x) > ElimOf(elim, y)
    || (ElimOf(elim, x) == ElimOf(elim, y) && SeedOf(seeds, x) <= SeedOf(seeds, y))
  }

  function PlaceOrder(elim: map<int, nat>, seeds: map<int, int>): (int, int) -> bool {
    (x, y) => PlacesBefore(elim, seeds, x, y)
  }

  /** `keys` without the champion. */
  function Others(keys: seq<int>, champ: Option<int>): seq<int> {
    if keys == [] then []
    else
      var rest := Others(keys[..|keys| - 1], champ);
      if Some(keys[|keys| - 1]) == champ then rest else rest + [keys[|keys| - 1]]
  }

  function OrderIds(keys: seq<int>, champ: Option<int>, elim: map<int, nat>, seeds: map<int, int>): seq<int> {
    (if champ.Some? then [champ.value] else []) + SortBy(Others(keys, champ), PlaceOrder(elim, seeds))
  }

  /** The first match by id that is decided and feeds no other, if somebody won it. */
  function ChampionOf(ms: seq<BracketMatch>): Option<int> {
    if ms == [] then None
    else if ms[0].winnerTo.None? && ms[0].outcome.Some?
    then
      var w := MatchWinner(ms[0]);
      if w.Some? then Some(w.value.id) else None
    else ChampionOf(ms[1..])
  }

  /** `winners()` of a single-elimination tournament. */
  function WinnerIds(es: seq<Entrant>, ms: seq<BracketMatch>): seq<int> {
    OrderIds(Ids(es), ChampionOf(ms), ElimRounds(ms, |ms|), SeedMap(es))
  }

  // ---------- small facts about the pieces ----------

  lemma {:induction false} PlaceOrderTotal(elim: map<int, nat>, seeds: map<int, int>)
    ensures TotalPreorder(PlaceOrder(elim, seeds))
  {
  }

  lemma {:induction false} SeedMapAt(es: seq<Entrant>, i: nat)
    requires DistinctIds(es) && i < |es|
    ensures es[i].id in SeedMap(es) && SeedMap(es)[es[i].id] == es[i].seed
    decreases |es|
  {
    var n := |es| - 1;
    if i < n {
      SeedMapAt(es[..n], i);
    }
  }

  /** Filtering drops the champion and nothing else. */
  lemma {:induction false} OthersCount(keys: seq<int>, champ: Option<int>, x: int)
    ensures multiset(Others(keys, champ))[x] == if Some(x) == champ then 0 else multiset(keys)[x]
    decreases |keys|
  {
    if keys != [] {
      var n := |keys| - 1;
      OthersCount(keys[..n], champ, x);
      assert keys == keys[..n] + [keys[n]];
    }
  }

  lemma {:induction false} OthersPermute(keys: seq<int>, other: seq<int>, champ: Option<int>)
    requires multiset(keys) == multiset(other)
    ensures multiset(Others(keys, champ)) == multiset(Others(other, champ))
  {
    forall x ensures multiset(Others(keys, champ))[x] == multiset(Others(other, champ))[x] {
      OthersCount(keys, champ, x);
      OthersCount(other, champ, x);
    }
  }

  lemma {:induction false} OthersPlusChampion(keys: seq<int>, c: int)
    requires NoDup(keys) && c in keys
    ensures multiset([c] + Others(keys, Some(c))) == multiset(keys)
  {
    forall x ensures multiset([c] + Others(keys, Some(c)))[x] == multiset(keys)[x] {
      OthersCount(keys, Some(c), x);
      NoDupCount(keys, x);
      assert c in multiset(keys);
    }
  }

  lemma {:induction false} ElimRoundsUnique(ms: seq<BracketMatch>, n: nat, id: int, j: int)
    requires n <= |ms|
    requires forall x :: LosesAt(ms, x, id) <==> x == j && 0 <= j < |ms|
    ensures id in ElimRounds(ms, n) <==> 0 <= j < n
    ensures 0 <= j < n ==> ElimRounds(ms, n)[id] == ms[j].round
  {
    if n > 0 {
      ElimRoundsUnique(ms, n - 1, id, j);
      assert LosesAt(ms, n - 1, id) <==> n - 1 == j;
    }
  }

  lemma {:induction false} ChampionOfLast(ms: seq<BracketMatch>)
    requires |ms| > 0
    requires forall j :: 0 <= j < |ms| ==> (ms[j].winnerTo.None? <==> j == |ms| - 1)
    ensures ChampionOf(ms) == (var w := MatchWinner(ms[|ms| - 1]); if w.Some? then Some(w.value.id) else None)
    decreases |ms|
  {
    if |ms| > 1 {
      assert ms[1..][|ms| - 2] == ms[|ms| - 1];
      ChampionOfLast(ms[1..]);
    }
  }

  /** The final is the last match, and it alone feeds no other. */
  lemma {:induction false} FinalIsLast(sh: Sheet, res: map<int, Outcome>, j: nat)
    requires SheetShape(sh) && j < Pow2(sh.k) - 1
    ensures MatchAt(sh, res, j).winnerTo.None? <==> j == Pow2(sh.k) - 2
    ensures j == Pow2(sh.k) - 2 ==> Locate(sh.k, j) == (sh.k - 1, 0)
  {
    LocateIndex(sh.k, sh.k - 1, 0);
    assert Index(sh.k, sh.k - 1, 0) == Pow2(sh.k) - 2;
    hide Arrives, OutcomeAt;
  }

  /** The web engine's champion is the recursive one. */
  lemma {:induction false} ChampionOfBracket(sh: Sheet, res: map<int, Outcome>)
    requires SheetShape(sh)
    ensures ChampionOf(BracketOf(sh, res))
      == (if Champion(sh, res).Some? then Some(Champion(sh, res).value.id) else None)
  {
    hide Arrives, OutcomeAt, Pow2, BracketOf, Index, ChampionOf, MatchWinner;
    var ms := BracketOf(sh, res);
    Pow2Doubles(sh.k);
    var last := Pow2(sh.k) - 2;
    forall j | 0 <= j < |ms| ensures ms[j].winnerTo.None? <==> j == |ms| - 1 {
      FinalIsLast(sh, res, j);
    }
    FinalIsLast(sh, res, last);
    WinnerArrives(sh, res, sh.k - 1, 0);
    ChampionOfLast(ms);
  }

  // ---------- losses ----------

  /** Position of the match that seat `p` lost. */
  function LossIndex(sh: Sheet, res: map<int, Outcome>, p: nat): (j: int)
    requires SheetShape(sh) && p < Pow2(sh.k)
  {
    var x := ExitRound(sh, res, p, sh.k);
    if x < sh.k then Index(sh.k, x, Shr(p, x + 1)) else -1
  }

  lemma {:induction false} LossAtExit(sh: Sheet, res: map<int, Outcome>, p: nat)
    requires SheetShape(sh) && Accepted(sh, res) && Champion(sh, res).Some?
    requires p < Pow2(sh.k) && sh.slots[p].Some? && !StillIn(sh, res, sh.k, p)
    ensures LosesAt(BracketOf(sh, res), LossIndex(sh, res, p), sh.slots[p].value.id)
  {
    hide Arrives, OutcomeAt, StillIn;
    var x := ExitRound(sh, res, p, sh.k);
    ExitIsLoss(sh, res, p);
    BracketAt(sh, res, x, Shr(p, x + 1));
    hide BracketOf, MatchAt, MatchOf;
  }

  lemma {:induction false} LossOnlyAtExit(sh: Sheet, res: map<int, Outcome>, p: nat, j: int)
    requires SheetShape(sh) && DistinctSeats(sh) && p < Pow2(sh.k) && sh.slots[p].Some?
    requires LosesAt(BracketOf(sh, res), j, sh.slots[p].value.id)
    ensures j == LossIndex(sh, res, p) && !StillIn(sh, res, sh.k, p)
  {
    hide Arrives, OutcomeAt, StillIn;
    var (r, i) := Locate(sh.k, j);
    LossIsExit(sh, res, r, i, p);
  }

  /** Seat `p` lost exactly the match of its exit round; the champion's seat lost none. */
  lemma {:induction false} LossExactly(sh: Sheet, res: map<int, Outcome>, p: nat, j: int)
    requires SheetShape(sh) && DistinctSeats(sh) && Accepted(sh, res) && Champion(sh, res).Some?
    requires p < Pow2(sh.k) && sh.slots[p].Some?
    ensures var ms := BracketOf(sh, res);
      LosesAt(ms, j, sh.slots[p].value.id) <==> j == LossIndex(sh, res, p) && 0 <= j < |ms|
    ensures 0 <= LossIndex(sh, res, p) < |BracketOf(sh, res)| <==> !StillIn(sh, res, sh.k, p)
  {
    var ms, id := BracketOf(sh, res), sh.slots[p].value.id;
    hide Arrives, StillIn, BracketOf, MatchAt, SheetShape;
    if !StillIn(sh, res, sh.k, p) {
      LossAtExit(sh, res, p);
    }
    if LosesAt(ms, j, id) {
      LossOnlyAtExit(sh, res, p, j);
    }
  }

  lemma {:induction false} ChampionSeat(sh: Sheet, res: map<int, Outcome>, p: nat)
    requires SheetShape(sh) && DistinctSeats(sh) && Champion(sh, res).Some?
    requires p < Pow2(sh.k) && sh.slots[p].Some?
    ensures StillIn(sh, res, sh.k, p) <==> sh.slots[p].value.id == Champion(sh, res).value.id
  {
    ShrBound(p, sh.k, sh.k);
    hide Arrives;
    if sh.slots[p].value.id == Champion(sh, res).value.id {
      SeatOf(sh, res, sh.k, 0, p);
    }
  }

  ghost predicate CompleteRun(es: seq<Entrant>, res: map<int, Outcome>) {
    && |es| >= 2 && DistinctIds(es)
    && Accepted(SheetOf(es), res) && Champion(SheetOf(es), res).Some?
  }

  /** Every entrant but the champion lost exactly one match; the champion lost none. */
  lemma {:induction false} EveryoneElseLostOnce(es: seq<Entrant>, res: map<int, Outcome>, e: Entrant) returns (j: int)
    requires CompleteRun(es, res) && e in es
    ensures var ms := BracketOf(SheetOf(es), res);
      && (forall x :: LosesAt(ms, x, e.id) <==> x == j && 0 <= j < |ms|)
      && (0 <= j < |ms| <==> e.id != Champion(SheetOf(es), res).value.id)
  {
    var sh := SheetOf(es);
    FieldSeats(es);
    var p := EntrantSeat(es, e);
    hide SheetOf, Arrives, ExitRound;
    j := LossIndex(sh, res, p);
    forall x ensures LosesAt(BracketOf(sh, res), x, e.id) <==> x == j && 0 <= j < |BracketOf(sh, res)| {
      LossExactly(sh, res, p, x);
    }
    LossExactly(sh, res, p, j);
    ChampionSeat(sh, res, p);
  }

  // ---------- the order is a placement of the whole field ----------

  lemma {:induction false} ArrivalInField(es: seq<Entrant>, res: map<int, Outcome>, r: nat, q: nat)
    requires r <= SheetOf(es).k && q < Pow2(SheetOf(es).k - r) && Arrives(SheetOf(es), res, r, q).Some?
    ensures Arrives(SheetOf(es), res, r, q).value in es
  {
    var p := Origin(SheetOf(es), res, r, q);
    SeatInField(es, p);
  }

  lemma {:induction false} IdsNoDup(es: seq<Entrant>)
    requires DistinctIds(es)
    ensures NoDup(Ids(es))
  {
  }

  /**
   `winners()` of a completed run is a permutation of the entrants, champion first, then
   elimination rounds non-increasing and, within a round, seeds non-decreasing.
   */
  lemma {:induction false} WinnersArePlacement(es: seq<Entrant>, res: map<int, Outcome>)
    requires CompleteRun(es, res)
    ensures var ms := BracketOf(SheetOf(es), res); var w := WinnerIds(es, ms);
      && multiset(w) == multiset(Ids(es))
      && |w| > 0 && w[0] == Champion(SheetOf(es), res).value.id
      && (forall i, j :: 0 < i < j < |w| ==> PlacesBefore(ElimRounds(ms, |ms|), SeedMap(es), w[i], w[j]))
  {
    var sh := SheetOf(es);
    var ms := BracketOf(sh, res);
    var elim, seeds, champ := ElimRounds(ms, |ms|), SeedMap(es), Champion(sh, res).value;
    ChampionOfBracket(sh, res);
    ArrivalInField(es, res, sh.k, 0);
    hide Arrives, BracketOf, SheetOf, Champion, ElimRounds, SeedMap, Accepted;
    var c :| 0 <= c < |es| && es[c] == champ;
    assert Ids(es)[c] == champ.id;
    IdsNoDup(es);
    OrderIdsPlaces(Ids(es), champ.id, elim, seeds);
    hide CompleteRun, OrderIds, PlacesBefore;
  }

  lemma {:induction false} OrderIdsPlaces(keys: seq<int>, champ: int, elim: map<int, nat>, seeds: map<int, int>)
    requires NoDup(keys) && champ in keys
    ensures var w := OrderIds(keys, Some(champ), elim, seeds);
      && multiset(w) == multiset(keys) && |w| > 0 && w[0] == champ
      && (forall i, j :: 0 < i < j < |w| ==> PlacesBefore(elim, seeds, w[i], w[j]))
  {
    OthersPlusChampion(keys, champ);
    PlaceOrderTotal(elim, seeds);
    var rest := SortBy(Others(keys, Some(champ)), PlaceOrder(elim, seeds));
    SortSorted(Others(keys, Some(champ)), PlaceOrder(elim, seeds));
    hide SortBy, Others;
    var w := [champ] + rest;
    forall i, j | 0 < i < j < |w| ensures PlacesBefore(elim, seeds, w[i], w[j]) {
      assert PlaceOrder(elim, seeds)(rest[i - 1], rest[j - 1]);
    }
  }

  lemma {:induction false} SameEntrant(es: seq<Entrant>, x: Entrant, y: Entrant)
    requires DistinctIds(es) && x in es && y in es && x.id == y.id
    ensures x == y
  {
  }

  lemma {:induction false} LoserInField(es: seq<Entrant>, res: map<int, Outcome>, j: nat)
    requires j < |BracketOf(SheetOf(es), res)|
    ensures var l := MatchLoser(BracketOf(SheetOf(es), res)[j]); l.Some? ==> l.value in es
  {
    var sh := SheetOf(es);
    hide SheetOf, Arrives, OutcomeAt, BracketOf;
    var (r, i) := Locate(sh.k, j);
    hide Locate;
    if Arrives(sh, res, r, 2 * i).Some? { ArrivalInField(es, res, r, 2 * i); }
    if Arrives(sh, res, r, 2 * i + 1).Some? { ArrivalInField(es, res, r, 2 * i + 1); }
  }

  /** The elimination round the order sorts by is the round of the one match lost. */
  lemma {:induction false} ElimIsLossRound(es: seq<Entrant>, res: map<int, Outcome>, e: Entrant) returns (j: int)
    requires CompleteRun(es, res) && e in es && e.id != Champion(SheetOf(es), res).value.id
    ensures var ms := BracketOf(SheetOf(es), res);
      && 0 <= j < |ms| && MatchLoser(ms[j]) == Some(e)
      && e.id in ElimRounds(ms, |ms|) && ElimRounds(ms, |ms|)[e.id] == ms[j].round
  {
    var ms := BracketOf(SheetOf(es), res);
    hide Arrives, SheetOf, BracketOf, Accepted;
    j := EveryoneElseLostOnce(es, res, e);
    LoserInField(es, res, j);
    assert LosesAt(ms, j, e.id);
    SameEntrant(es, e, MatchLoser(ms[j]).value);
    hide CompleteRun;
    ElimRoundsUnique(ms, |ms|, e.id, j);
  }

  // ---------- n - 1 results ----------

  function LoserId(ms: seq<BracketMatch>, id: int): int {
    if 1 <= id <= |ms| && MatchLoser(ms[id - 1]).Some? then MatchLoser(ms[id - 1]).value.id else 0
  }

  /** Every recorded match of a completed run has a loser, who is an entrant. */
  lemma {:induction false} RecordedHasLoser(es: seq<Entrant>, res: map<int, Outcome>, id: int) returns (e: Entrant)
    requires CompleteRun(es, res) && id in res
    ensures LosesAt(BracketOf(SheetOf(es), res), id - 1, e.id) && e in es
  {
    hide *;
    var sh := SheetOf(es);
    RunParts(es, res);
    AcceptedInRange(sh, res, id);
    var (r, i) := Locate(sh.k, id - 1);
    RecordedKnown(sh, res, r, i);
    ChampionDecidesAll(sh, res, r, i);
    RowDoubles(sh.k, r);
    var q := if OutcomeAt(sh, res, r, i) == Some(WinA) then 2 * i + 1 else 2 * i;
    DecisiveHasLoser(sh, res, r, i);
    ArrivalInField(es, res, r, q);
    e := Arrives(sh, res, r, q).value;
    BracketAt(sh, res, r, i);
    LosesAtBy(BracketOf(sh, res), id - 1, e);
  }

  lemma {:induction false} AcceptedInRange(sh: Sheet, res: map<int, Outcome>, id: int)
    requires SheetShape(sh) && Accepted(sh, res) && id in res
    ensures 1 <= id < Pow2(sh.k) && Index(sh.k, Locate(sh.k, id - 1).0, Locate(sh.k, id - 1).1) == id - 1
  {
    hide Pow2, Index, Locate, MatchAt;
    assert BothKnown(sh, res, id);
  }

  /** The loser of a decisive match is the side that did not win. */
  lemma {:induction false} DecisiveHasLoser(sh: Sheet, res: map<int, Outcome>, r: nat, i: nat)
    requires SheetShape(sh) && r < sh.k && i < Pow2(sh.k - r - 1) && Decisive(OutcomeAt(sh, res, r, i))
    ensures 2 * i + 1 < Pow2(sh.k - r)
    ensures MatchLoser(MatchOf(sh, res, r, i))
      == Arrives(sh, res, r, if OutcomeAt(sh, res, r, i) == Some(WinA) then 2 * i + 1 else 2 * i)
  {
    hide Pow2, Index, OutcomeAt, Arrives, TargetOf;
    RowDoubles(sh.k, r);
  }

  lemma {:induction false} LosesAtBy(ms: seq<BracketMatch>, j: int, e: Entrant)
    requires 0 <= j < |ms| && MatchLoser(ms[j]) == Some(e)
    ensures LosesAt(ms, j, e.id)
  {
    hide MatchLoser;
  }

  /** A match somebody lost was recorded: byes have no loser. */
  lemma {:induction false} LossWasRecorded(sh: Sheet, res: map<int, Outcome>, j: nat)
    requires SheetShape(sh) && Accepted(sh, res) && Champion(sh, res).Some?
    requires j < Pow2(sh.k) - 1 && MatchLoser(MatchAt(sh, res, j)).Some?
    ensures j + 1 in res
  {
    hide Arrives, OutcomeAt, Pow2, Index, Accepted, Champion, MatchOf;
    var (r, i) := Locate(sh.k, j);
    ChampionFillsAll(sh, res, r + 1, i);
    WinnerArrives(sh, res, r, i);
    assert BothKnown(sh, res, j + 1);
    hide Locate;
    OutcomeWhenBothKnown(sh, res, j + 1);
  }

  lemma {:induction false} LoserIdInjective(es: seq<Entrant>, res: map<int, Outcome>, x: int, y: int)
    requires CompleteRun(es, res) && x in res && y in res
    requires var ms := BracketOf(SheetOf(es), res); LoserId(ms, x) == LoserId(ms, y)
    ensures x == y
  {
    hide SheetOf, BracketOf, Arrives, Accepted;
    var ex := RecordedHasLoser(es, res, x);
    var ey := RecordedHasLoser(es, res, y);
    var j := EveryoneElseLostOnce(es, res, ex);
    assert LosesAt(BracketOf(SheetOf(es), res), y - 1, ex.id);
  }

  lemma {:induction false} LosersAreTheOthers(es: seq<Entrant>, res: map<int, Outcome>)
    requires CompleteRun(es, res)
    ensures var ms := BracketOf(SheetOf(es), res);
      Image(res.Keys, id => LoserId(ms, id)) == (set x | x in Ids(es)) - {Champion(SheetOf(es), res).value.id}
  {
    var sh := SheetOf(es);
    var ms := BracketOf(sh, res);
    var champ := Champion(sh, res).value.id;
    var losers := Image(res.Keys, id => LoserId(ms, id));
    hide SheetOf, Arrives, Accepted, BracketOf, Champion, CompleteRun, Ids, LosesAt;
    forall x | x in losers ensures x in Ids(es) && x != champ {
      var id :| id in res && x == LoserId(ms, id);
      LoserIsAnother(es, res, id);
    }
    forall x | x in Ids(es) && x != champ ensures x in losers {
      var id := OtherIsLoser(es, res, x);
    }
  }

  lemma {:induction false} LoserIsAnother(es: seq<Entrant>, res: map<int, Outcome>, id: int)
    requires CompleteRun(es, res) && id in res
    ensures var x := LoserId(BracketOf(SheetOf(es), res), id);
      x in Ids(es) && x != Champion(SheetOf(es), res).value.id
  {
    var ms := BracketOf(SheetOf(es), res);
    hide SheetOf, BracketOf, Champion, CompleteRun, MatchLoser;
    var e := RecordedHasLoser(es, res, id);
    var j := EveryoneElseLostOnce(es, res, e);
    var c :| 0 <= c < |es| && es[c] == e;
    assert LosesAt(ms, id - 1, e.id) && Ids(es)[c] == e.id;
  }

  lemma {:induction false} OtherIsLoser(es: seq<Entrant>, res: map<int, Outcome>, x: int) returns (id: int)
    requires CompleteRun(es, res) && x in Ids(es) && x != Champion(SheetOf(es), res).value.id
    ensures id in res && LoserId(BracketOf(SheetOf(es), res), id) == x
  {
    hide *;
    var c :| 0 <= c < |es| && Ids(es)[c] == x;
    var j := EveryoneElseLostOnce(es, res, es[c]);
    RunParts(es, res);
    LossAtRecorded(SheetOf(es), res, j, x);
    id := j + 1;
  }

  lemma {:induction false} RunParts(es: seq<Entrant>, res: map<int, Outcome>)
    requires CompleteRun(es, res)
    ensures |es| >= 2 && DistinctIds(es) && Accepted(SheetOf(es), res) && Champion(SheetOf(es), res).Some?
  {
    hide DistinctIds, Accepted, SheetOf, Champion;
  }

  lemma {:induction false} LossAtRecorded(sh: Sheet, res: map<int, Outcome>, j: int, x: int)
    requires SheetShape(sh) && Accepted(sh, res) && Champion(sh, res).Some? && LosesAt(BracketOf(sh, res), j, x)
    ensures j + 1 in res && LoserId(BracketOf(sh, res), j + 1) == x
  {
    hide BracketOf, Accepted, Champion, MatchLoser, MatchAt, Pow2;
    LossWasRecorded(sh, res, j);
  }

  /** A completed run recorded exactly `n - 1` results. */
  lemma {:induction false} ResultsRecorded(es: seq<Entrant>, res: map<int, Outcome>)
    requires CompleteRun(es, res)
    ensures |res| == |es| - 1
  {
    var sh := SheetOf(es);
    var ms := BracketOf(sh, res);
    var champ := Champion(sh, res).value;
    ArrivalInField(es, res, sh.k, 0);
    hide SheetOf, BracketOf, Arrives, Accepted;
    forall x, y | x in res.Keys && y in res.Keys && LoserId(ms, x) == LoserId(ms, y) ensures x == y {
      LoserIdInjective(es, res, x, y);
    }
    ImageSize(res.Keys, id => LoserId(ms, id));
    LosersAreTheOthers(es, res);
    IdsNoDup(es);
    SetOfNoDup(Ids(es));
    var c :| 0 <= c < |es| && es[c] == champ;
    assert Ids(es)[c] == champ.id;
    assert champ.id in (set x | x in Ids(es));
  }

  // ---------- favourites ----------

  /** Every recorded match went to the better (smaller) seed. */
  ghost predicate FavouritesWin(sh: Sheet, res: map<int, Outcome>)
    requires SheetShape(sh)
  {
    forall id {:trigger BothKnown(sh, res, id)} :: id in res && BothKnown(sh, res, id) ==>
      var m := MatchAt(sh, res, id - 1);
      res[id] == if m.a.value.seed <= m.b.value.seed then WinA else WinB
  }

  /** If both sides are known and A is the better seed, A goes through. */
  lemma {:induction false} FavouriteAdvances(sh: Sheet, res: map<int, Outcome>, r: nat, i: nat)
    requires SheetShape(sh) && FavouritesWin(sh, res) && r < sh.k && i < Pow2(sh.k - r - 1)
    requires Arrives(sh, res, r + 1, i).Some? && Arrives(sh, res, r, 2 * i).Some?
    requires Arrives(sh, res, r, 2 * i + 1).Some? ==>
      Arrives(sh, res, r, 2 * i).value.seed < Arrives(sh, res, r, 2 * i + 1).value.seed
    ensures OutcomeAt(sh, res, r, i) == Some(WinA)
  {
    hide Pow2, Index;
    RowDoubles(sh.k, r);
    var id := Index(sh.k, r, i) + 1;
    assert OutcomeAt(sh, res, r, i) == Some(WinA)
        || (OutcomeAt(sh, res, r, i) == Some(WinB) && Arrives(sh, res, r, 2 * i + 1).Some?);
    hide Arrives, OutcomeAt;
    if Arrives(sh, res, r, 2 * i + 1).Some? {
      DecidedByRecord(sh, res, r, i);
      KnownAt(sh, res, r, i);
      LocateIndex(sh.k, r, i);
      hide Locate;
      assert BothKnown(sh, res, id);
    }
  }

  lemma {:induction false} ReverseEven(k: nat, p: nat)
    requires k > 0
    ensures Reverse(k, 2 * p) == Reverse(k - 1, p)
    ensures Reverse(k, 2 * p + 1) == Pow2(k - 1) + Reverse(k - 1, p)
  {
    assert (2 * p) / 2 == p && (2 * p + 1) / 2 == p;
  }

  /** Position `p` of round `r` holds the rank that mirrors `p`, if the field is that large. */
  ghost predicate AtRank(sh: Sheet, ordered: seq<Entrant>, res: map<int, Outcome>, r: nat, p: nat)
    requires SheetShape(sh) && r <= sh.k && p < Pow2(sh.k - r)
  {
    var q := Reverse(sh.k - r, p);
    Arrives(sh, res, r, p) == if q < |ordered| then Some(ordered[q]) else None
  }

  ghost predicate AscendingSeeds(ordered: seq<Entrant>) {
    forall i, j :: 0 <= i < j < |ordered| ==> ordered[i].seed < ordered[j].seed
  }

  lemma {:induction false} FavouriteStep(sh: Sheet, ordered: seq<Entrant>, res: map<int, Outcome>, r: nat, p: nat)
    requires SheetShape(sh) && FavouritesWin(sh, res) && AscendingSeeds(ordered)
    requires r < sh.k && p < Pow2(sh.k - r - 1) && Arrives(sh, res, r + 1, p).Some?
    requires AtRank(sh, ordered, res, r, 2 * p) && AtRank(sh, ordered, res, r, 2 * p + 1)
    requires Pow2(sh.k - r - 1) <= |ordered|
    ensures OutcomeAt(sh, res, r, p) == Some(WinA) && AtRank(sh, ordered, res, r + 1, p)
  {
    ReverseEven(sh.k - r, p);
    assert Arrives(sh, res, r, 2 * p) == Some(ordered[Reverse(sh.k - r - 1, p)]);
    FavouriteAdvances(sh, res, r, p);
  }

  ghost predicate Seeded(sh: Sheet, ordered: seq<Entrant>) {
    && SheetShape(sh) && AscendingSeeds(ordered) && Pow2(sh.k - 1) <= |ordered|
    && forall x :: 0 <= x < Pow2(sh.k) ==> sh.slots[x] == Placed(sh.k, ordered, x)
  }

  lemma {:induction false} FavouriteSeat(sh: Sheet, ordered: seq<Entrant>, res: map<int, Outcome>, p: nat)
    requires Seeded(sh, ordered) && p < Pow2(sh.k)
    ensures AtRank(sh, ordered, res, 0, p)
  {
  }

  /** When favourites win, every position of every round holds the rank that mirrors it. */
  lemma {:induction false} FavouriteArrives(sh: Sheet, ordered: seq<Entrant>, res: map<int, Outcome>, r: nat, p: nat)
    requires Seeded(sh, ordered) && Accepted(sh, res) && Champion(sh, res).Some? && FavouritesWin(sh, res)
    requires r <= sh.k && p < Pow2(sh.k - r)
    ensures AtRank(sh, ordered, res, r, p)
    ensures r > 0 ==> OutcomeAt(sh, res, r - 1, p) == Some(WinA)
    decreases r
  {
    hide AtRank, FavouritesWin, Placed, Accepted, Arrives, OutcomeAt;
    if r == 0 {
      FavouriteSeat(sh, ordered, res, p);
    } else {
      FavouriteArrives(sh, ordered, res, r - 1, 2 * p);
      FavouriteArrives(sh, ordered, res, r - 1, 2 * p + 1);
      ChampionFillsAll(sh, res, r, p);
      Pow2Grows(sh.k - r, sh.k - 1);
      FavouriteStep(sh, ordered, res, r - 1, p);
    }
  }

  /** When favourites win, match `(r, i)` is lost by the rank `2^(k-r-1)` below its winner. */
  lemma {:induction false} FavouriteLoser(sh: Sheet, ordered: seq<Entrant>, res: map<int, Outcome>, r: nat, i: nat)
    requires Seeded(sh, ordered) && Accepted(sh, res) && Champion(sh, res).Some? && FavouritesWin(sh, res)
    requires r < sh.k && i < Pow2(sh.k - r - 1)
    ensures var q := Pow2(sh.k - r - 1) + Reverse(sh.k - r - 1, i);
      MatchLoser(MatchOf(sh, res, r, i)) == if q < |ordered| then Some(ordered[q]) else None
  {
    hide Arrives, OutcomeAt, FavouritesWin, Accepted, Placed, Reverse, Index, TargetOf, Champion, AscendingSeeds;
    FavouriteArrives(sh, ordered, res, r, 2 * i + 1);
    FavouriteArrives(sh, ordered, res, r + 1, i);
    ReverseEven(sh.k - r, i);
  }

  ghost predicate FavouriteRun(es: seq<Entrant>, res: map<int, Outcome>) {
    CompleteRun(es, res) && DistinctSeeds(es) && FavouritesWin(SheetOf(es), res)
  }

  lemma {:induction false} FieldSeeded(es: seq<Entrant>)
    requires |es| >= 2 && DistinctSeeds(es)
    ensures Seeded(SheetOf(es), BySeed(es))
  {
    OrderedDistinctSeeds(es);
    hide BySeed, Reverse;
  }

  lemma {:induction false} FavouriteLoserRank(sh: Sheet, ordered: seq<Entrant>, res: map<int, Outcome>, r: nat, i: nat,
      q: nat)
    requires Seeded(sh, ordered) && Accepted(sh, res) && Champion(sh, res).Some? && FavouritesWin(sh, res)
    requires r < sh.k && i < Pow2(sh.k - r - 1) && q < |ordered|
    requires MatchLoser(MatchOf(sh, res, r, i)).Some?
      && MatchLoser(MatchOf(sh, res, r, i)).value.seed == ordered[q].seed
    ensures Pow2(sh.k - r - 1) <= q < Pow2(sh.k - r)
  {
    hide Arrives, OutcomeAt, FavouritesWin, Accepted, Placed, MatchOf;
    FavouriteLoser(sh, ordered, res, r, i);
  }

  /** The match an entrant lost, by round and slot. */
  lemma {:induction false} LostMatch(es: seq<Entrant>, res: map<int, Outcome>, e: Entrant) returns (r: nat, i: nat)
    requires CompleteRun(es, res) && e in es && e.id != Champion(SheetOf(es), res).value.id
    ensures r < SheetOf(es).k && i < Pow2(SheetOf(es).k - r - 1)
    ensures MatchLoser(MatchOf(SheetOf(es), res, r, i)) == Some(e)
    ensures var ms := BracketOf(SheetOf(es), res); ElimOf(ElimRounds(ms, |ms|), e.id) == r
  {
    var sh := SheetOf(es);
    hide SheetOf, Arrives, OutcomeAt, CompleteRun, ElimRounds;
    var j := ElimIsLossRound(es, res, e);
    var ri := Locate(sh.k, j);
    r, i := ri.0, ri.1;
    hide Locate;
  }

  lemma {:induction false} FavouriteParts(es: seq<Entrant>, res: map<int, Outcome>)
    requires FavouriteRun(es, res)
    ensures CompleteRun(es, res) && DistinctSeeds(es) && FavouritesWin(SheetOf(es), res)
  {
    hide CompleteRun, DistinctSeeds, FavouritesWin, SheetOf;
  }

  lemma {:induction false} RankInField(es: seq<Entrant>, q: nat)
    requires q < |es|
    ensures |BySeed(es)| == |es| && BySeed(es)[q] in es
  {
    SortedField(es);
    SameElements(es, BySeed(es));
    assert BySeed(es)[q] in BySeed(es);
    hide BySeed, SortBy;
  }

  /** When favourites win, a rank `q > 0` goes out in the round whose losers have its bit length. */
  lemma {:induction false} FavouriteElimRound(es: seq<Entrant>, res: map<int, Outcome>, q: nat) returns (r: nat)
    requires FavouriteRun(es, res) && q < |es| && BySeed(es)[q].id != Champion(SheetOf(es), res).value.id
    ensures r < SheetOf(es).k && Pow2(SheetOf(es).k - r - 1) <= q < Pow2(SheetOf(es).k - r)
    ensures var ms := BracketOf(SheetOf(es), res); ElimOf(ElimRounds(ms, |ms|), BySeed(es)[q].id) == r
  {
    hide *;
    FavouriteParts(es, res);
    RankInField(es, q);
    RunParts(es, res);
    FieldSeeded(es);
    var i;
    r, i := LostMatch(es, res, BySeed(es)[q]);
    FavouriteLoserRank(SheetOf(es), BySeed(es), res, r, i, q);
  }

  /** When favourites win, the champion is the top seed. */
  lemma {:induction false} FavouriteChampion(es: seq<Entrant>, res: map<int, Outcome>)
    requires FavouriteRun(es, res)
    ensures Champion(SheetOf(es), res) == Some(BySeed(es)[0])
  {
    var sh := SheetOf(es);
    FieldSeeded(es);
    hide SheetOf, Arrives, BySeed;
    FavouriteArrives(sh, BySeed(es), res, sh.k, 0);
  }

  lemma {:induction false} SeedOfRank(es: seq<Entrant>, q: nat)
    requires DistinctIds(es) && q < |es|
    ensures SeedOf(SeedMap(es), BySeed(es)[q].id) == BySeed(es)[q].seed
  {
    SameElements(es, BySeed(es));
    hide BySeed;
    assert BySeed(es)[q] in es;
    var x :| 0 <= x < |es| && es[x] == BySeed(es)[q];
    SeedMapAt(es, x);
  }

  lemma {:induction false} FavouriteOrderStep(es: seq<Entrant>, res: map<int, Outcome>, i: nat, j: nat)
    requires FavouriteRun(es, res) && 0 < i < j < |es|
    ensures var ms := BracketOf(SheetOf(es), res);
      PlacesBefore(ElimRounds(ms, |ms|), SeedMap(es), BySeed(es)[i].id, BySeed(es)[j].id)
  {
    hide SheetOf, BracketOf, BySeed, Arrives, FavouritesWin, Accepted, Pow2, FavouriteRun, ElimRounds, SeedMap,
      CompleteRun, DistinctIds, DistinctSeeds, Champion;
    FavouriteParts(es, res);
    RunParts(es, res);
    SortedField(es);
    FavouriteNotChampion(es, res, i);
    FavouriteNotChampion(es, res, j);
    var ri := FavouriteElimRound(es, res, i);
    var rj := FavouriteElimRound(es, res, j);
    LowerRankLaterExit(SheetOf(es).k, ri, rj, i, j);
    SeedOfRank(es, i);
    SeedOfRank(es, j);
    OrderedDistinctSeeds(es);
  }

  lemma {:induction false} FavouriteNotChampion(es: seq<Entrant>, res: map<int, Outcome>, q: nat)
    requires FavouriteRun(es, res) && 0 < q < |es|
    ensures BySeed(es)[q].id != Champion(SheetOf(es), res).value.id
  {
    FavouriteChampion(es, res);
    OrderedDistinct(es);
    hide SheetOf, Champion, BySeed;
  }

  lemma {:induction false} LowerRankLaterExit(k: nat, ri: nat, rj: nat, i: nat, j: nat)
    requires ri < k && rj < k && Pow2(k - ri - 1) <= i < j < Pow2(k - rj)
    ensures ri >= rj
  {
    if ri < rj { Pow2Grows(k - rj, k - ri - 1); }
  }

  lemma {:induction false} InsertIds(x: Entrant, s: seq<Entrant>)
    ensures multiset(Ids(Insert(x, s, SeedLe))) == multiset{x.id} + multiset(Ids(s))
    decreases |s|
  {
    if |s| == 0 || SeedLe(x, s[0]) {
      assert Ids([x] + s) == [x.id] + Ids(s);
    } else {
      InsertIds(x, s[1..]);
      assert Ids([s[0]] + Insert(x, s[1..], SeedLe)) == [s[0].id] + Ids(Insert(x, s[1..], SeedLe));
      assert Ids(s) == [s[0].id] + Ids(s[1..]);
    }
  }

  lemma {:induction false} SortedIds(es: seq<Entrant>)
    ensures multiset(Ids(BySeed(es))) == multiset(Ids(es))
    decreases |es|
  {
    if |es| > 0 {
      SortedIds(es[1..]);
      InsertIds(es[0], BySeed(es[1..]));
      assert Ids(es) == [es[0].id] + Ids(es[1..]);
    }
  }

  lemma {:induction false} TailIsOthers(ids: seq<int>, keys: seq<int>)
    requires |ids| > 0 && multiset(ids) == multiset(keys) && NoDup(keys)
    ensures multiset(ids[1..]) == multiset(Others(keys, Some(ids[0])))
    ensures forall x :: x in ids[1..] ==> x in keys
  {
    var c := ids[0];
    SameElements(ids, keys);
    OthersPlusChampion(keys, c);
    hide Others;
    SameTails([c] + Others(keys, Some(c)), ids);
    assert ([c] + Others(keys, Some(c)))[1..] == Others(keys, Some(c));
  }

  lemma {:induction false} ChampionFirst(es: seq<Entrant>, ms: seq<BracketMatch>, champ: int)
    requires ChampionOf(ms) == Some(champ)
    ensures WinnerIds(es, ms)
      == [champ] + SortBy(Others(Ids(es), Some(champ)), PlaceOrder(ElimRounds(ms, |ms|), SeedMap(es)))
  {
    hide ElimRounds, SeedMap, ChampionOf, PlaceOrder, Others, Ids, SortBy;
  }

  /** An ordered permutation of the field, champion first, is `winners()`. */
  lemma {:induction false} WinnersUnique(es: seq<Entrant>, ms: seq<BracketMatch>, ids: seq<int>)
    requires DistinctIds(es) && DistinctSeeds(es) && multiset(ids) == multiset(Ids(es))
    requires |ids| > 0 && ChampionOf(ms) == Some(ids[0])
    requires SortedBy(ids[1..], PlaceOrder(ElimRounds(ms, |ms|), SeedMap(es)))
    ensures WinnerIds(es, ms) == ids
  {
    hide *;
    var elim, seeds := ElimRounds(ms, |ms|), SeedMap(es);
    var rest := Others(Ids(es), Some(ids[0]));
    IdsNoDup(es);
    TailIsOthers(ids, Ids(es));
    PlaceOrderTotal(elim, seeds);
    SortSorted(rest, PlaceOrder(elim, seeds));
    NoSeedTies(es, elim, ids[1..]);
    SortedUnique(ids[1..], SortBy(rest, PlaceOrder(elim, seeds)), PlaceOrder(elim, seeds));
    ChampionFirst(es, ms, ids[0]);
    assert ids == [ids[0]] + ids[1..];
  }

  lemma {:induction false} FavouritesSorted(es: seq<Entrant>, res: map<int, Outcome>)
    requires FavouriteRun(es, res)
    ensures var ms := BracketOf(SheetOf(es), res);
      SortedBy(Ids(BySeed(es))[1..], PlaceOrder(ElimRounds(ms, |ms|), SeedMap(es)))
  {
    hide *;
    var ms, ids := BracketOf(SheetOf(es), res), Ids(BySeed(es));
    FavouriteParts(es, res);
    RunParts(es, res);
    SortedField(es);
    forall i, j | 0 <= i < j < |ids[1..]|
      ensures PlacesBefore(ElimRounds(ms, |ms|), SeedMap(es), ids[1..][i], ids[1..][j]) {
      FavouriteOrderStep(es, res, i + 1, j + 1);
    }
    SortedByPlace(ids[1..], ElimRounds(ms, |ms|), SeedMap(es));
  }

  lemma {:induction false} SortedByPlace(ids: seq<int>, elim: map<int, nat>, seeds: map<int, int>)
    requires forall i, j :: 0 <= i < j < |ids| ==> PlacesBefore(elim, seeds, ids[i], ids[j])
    ensures SortedBy(ids, PlaceOrder(elim, seeds))
  {
    hide PlacesBefore;
  }

  /** If the better seed wins every match, `winners()` is the field in seed order, byes or not. */
  lemma {:induction false} FavouritesFinishInSeedOrder(es: seq<Entrant>, res: map<int, Outcome>)
    requires FavouriteRun(es, res)
    ensures WinnerIds(es, BracketOf(SheetOf(es), res)) == Ids(BySeed(es))
  {
    ChampionOfBracket(SheetOf(es), res);
    FavouriteChampion(es, res);
    SortedIds(es);
    hide SheetOf, BracketOf, Champion, BySeed, FavouritesWin, Accepted, WinnerIds, ChampionOf;
    FavouritesSorted(es, res);
    WinnersUnique(es, BracketOf(SheetOf(es), res), Ids(BySeed(es)));
  }

  /** Distinct seeds leave no ties in the order. */
  lemma {:induction false} NoSeedTies(es: seq<Entrant>, elim: map<int, nat>, ids: seq<int>)
    requires DistinctIds(es) && DistinctSeeds(es) && forall x :: x in ids ==> x in Ids(es)
    ensures NoTies(ids, PlaceOrder(elim, SeedMap(es)))
  {
    forall i, j | 0 <= i < |ids| && 0 <= j < |ids| && SeedOf(SeedMap(es), ids[i]) == SeedOf(SeedMap(es), ids[j])
      ensures ids[i] == ids[j]
    {
      assert ids[i] in Ids(es) && ids[j] in Ids(es);
      var a :| 0 <= a < |es| && Ids(es)[a] == ids[i];
      var b :| 0 <= b < |es| && Ids(es)[b] == ids[j];
      SeedMapAt(es, a);
      SeedMapAt(es, b);
    }
  }
}
