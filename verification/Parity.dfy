/**
 The two engines agree: the web replays results in play order through the `Tournament` class
 (web/src/app/api/tournament/[id]/finalize/route.ts), the relayer by ascending match id.
 */
module Parity {
  import opened Wrappers
  import opened EngineTypes
  import opened Sorting
  import opened Seeding
  import opened Bracket
  import opened Confluence
  import opened Knockout
  import opened SingleElim
  import opened Placement
  import Engine = TournamentEngine
  import opened Relayer

  datatype FinalizeError = Rejected(error: Engine.TournamentError) | NotComplete

  /** Records every result in play order, stopping at the first refusal. */
  method RecordAll(t: Engine.Tournament, results: seq<ResultRow>) returns (r: Result<(), Engine.TournamentError>)
    requires t.Valid() && t.format == Engine.SingleElimination && t.results == map[]
    modifies t
    ensures t.Valid()
    ensures match Replay(SheetOf(t.entrants), map[], results)
      case None => r.Err?
      case Some(res) => r.Ok? && t.results == res
  {
    hide *;
    ghost var sh := SheetOf(t.entrants);
    var i := 0;
    assert results[0..] == results;
    while i < |results|
      invariant 0 <= i <= |results| && t.Valid()
      invariant Replay(sh, map[], results) == Replay(sh, t.results, results[i..])
    {
      ReplayNext(t, results, i);
      var rec := t.Record(results[i].matchId, results[i].outcome);
      if rec.Err? { return rec; }
      i := i + 1;
    }
    ReplayEnd(t, results);
    r := Ok(());
  }

  /** What replaying the rest of the results comes to: refused with the class, or one result further. */
  lemma {:induction false} ReplayNext(t: Engine.Tournament, rs: seq<ResultRow>, i: nat)
    requires t.Valid() && t.format == Engine.SingleElimination && i < |rs|
    ensures Replay(SheetOf(t.entrants), t.results, rs[i..]) ==
      if t.Refusal(rs[i].matchId, rs[i].outcome).None?
      then Replay(SheetOf(t.entrants), t.results[rs[i].matchId := rs[i].outcome], rs[i + 1..]) else None
  {
    hide Recordable, t.Valid, t.Refusal, SheetOf, Locate, Index, Pow2;
    RecordIsReplay(t, rs[i]);
    assert rs[i..][0] == rs[i] && rs[i..][1..] == rs[i + 1..];
  }

  lemma {:induction false} ReplayEnd(t: Engine.Tournament, rs: seq<ResultRow>)
    ensures Replay(SheetOf(t.entrants), t.results, rs[|rs|..]) == Some(t.results)
  {
    hide Recordable, SheetOf;
    assert rs[|rs|..] == [];
  }

  /** The web side: construct, record every result in play order, and read the winners. */
  method FinalizeOrder(entrants: seq<Entrant>, results: seq<ResultRow>) returns (r: Result<seq<int>, FinalizeError>)
    ensures |entrants| < 2 || !DistinctIds(entrants) ==> r.Err?
    ensures |entrants| >= 2 && DistinctIds(entrants) ==>
      match Replay(SheetOf(entrants), map[], results)
      case None => r.Err? && r.error.Rejected?
      case Some(res) =>
        r == if FinalOutcome(SheetOf(entrants), res).None? then Err(NotComplete)
             else Ok(WinnerIds(entrants, BracketOf(SheetOf(entrants), res)))
  {
    hide DistinctIds, SheetOf, BracketOf, Accepted, Replay;
    var created := Engine.Tournament.New(Engine.SingleElimination, entrants);
    if created.Err? { return Err(Rejected(created.error)); }
    var t := created.value;
    var recorded := RecordAll(t, results);
    if recorded.Err? { return Err(Rejected(recorded.error)); }
    if !t.complete { return Err(NotComplete); }
    var order := t.Winners();
    r := Ok(order);
  }

  /** The class refuses a result exactly when the recursive replay does. */
  lemma {:induction false} RecordIsReplay(t: Engine.Tournament, row: ResultRow)
    requires t.Valid() && t.format == Engine.SingleElimination
    ensures t.Refusal(row.matchId, row.outcome).None?
       <==> Recordable(SheetOf(t.entrants), t.results, row.matchId) && row.outcome != Draw
  {
    hide Locate, Index, Pow2, Accepted, SheetOf, Arrives, OutcomeAt, FinalOutcome;
    if 1 <= row.matchId <= |t.matches| {
      Engine.ReadyIsRecordable(SheetOf(t.entrants), t.results, row.matchId);
    }
    hide MatchAt;
  }

  // ---------- completeness ----------

  lemma {:induction false} FinalDecidesEvery(sh: Sheet, res: map<int, Outcome>)
    requires SheetShape(sh) && Accepted(sh, res) && FinalOutcome(sh, res).Some?
    ensures AllDecided(BracketOf(sh, res))
  {
    hide Pow2, Index, BracketOf, Arrives, OutcomeAt, Accepted, FinalOutcome;
    var ms := BracketOf(sh, res);
    forall j | 0 <= j < |ms| ensures ms[j].outcome.Some? {
      var (r, i) := Locate(sh.k, j);
      FinalDecidesAll(sh, res, r, i);
    }
  }

  lemma {:induction false} DecidedHasFinal(sh: Sheet, res: map<int, Outcome>)
    requires SheetShape(sh) && AllDecided(BracketOf(sh, res))
    ensures FinalOutcome(sh, res).Some?
  {
    hide Pow2, BracketOf, Arrives, OutcomeAt;
    BracketAt(sh, res, sh.k - 1, 0);
    assert BracketOf(sh, res)[Index(sh.k, sh.k - 1, 0)].outcome.Some?;
  }

  /**
   On accepted results the web's test (the final is decided) and the relayer's first test (every match is
   resolved) agree. The relayer also wants a winner of the final, which is missing exactly when it is void.
   */
  lemma {:induction false} CompletenessAgrees(sh: Sheet, res: map<int, Outcome>)
    requires SheetShape(sh) && Accepted(sh, res)
    ensures FinalOutcome(sh, res).Some? <==> AllDecided(BracketOf(sh, res))
    ensures Champion(sh, res).Some? <==> Decisive(FinalOutcome(sh, res))
    ensures FinalOutcome(sh, res).Some? && Champion(sh, res).None? <==> FinalOutcome(sh, res) == Some(Void)
  {
    hide BracketOf, Arrives, Accepted, AllDecided;
    ChampionIffFinalDecisive(sh, res);
    if FinalOutcome(sh, res).Some? { FinalDecidesEvery(sh, res); }
    if AllDecided(BracketOf(sh, res)) { DecidedHasFinal(sh, res); }
    var final := FinalOutcome(sh, res);
    assert final.Some? ==> final.value == WinA || final.value == WinB || final.value == Draw || final.value == Void;
  }

  // ---------- wallets ----------

  /** The wallet of the player with this id, as the web looks it up: the first such row. */
  function WalletOf(players: seq<PlayerRow>, id: int): Option<string> {
    if players == [] then None
    else if players[0].id == id then Some(players[0].wallet)
    else WalletOf(players[1..], id)
  }

  lemma {:induction false} WalletOfAt(players: seq<PlayerRow>, i: nat)
    requires DistinctIds(EntrantsOf(players)) && i < |players|
    ensures WalletOf(players, players[i].id) == Some(players[i].wallet)
    decreases |players|
  {
    var es := EntrantsOf(players);
    if i > 0 {
      assert es[0].id != es[i].id;
      assert EntrantsOf(players[1..]) == es[1..];
      forall x, y | 0 <= x < y < |es[1..]| ensures es[1..][x].id != es[1..][y].id {
        assert es[x + 1].id != es[y + 1].id;
      }
      WalletOfAt(players[1..], i - 1);
    }
  }

  lemma {:induction false} WalletMapAt(players: seq<PlayerRow>, i: nat)
    requires DistinctIds(EntrantsOf(players)) && i < |players|
    ensures players[i].id in WalletMap(players) && WalletMap(players)[players[i].id] == players[i].wallet
    decreases |players|
  {
    var n := |players| - 1;
    var es, front := EntrantsOf(players), EntrantsOf(players[..n]);
    if i < n {
      forall x, y | 0 <= x < y < n ensures front[x].id != front[y].id {
        assert es[x].id != es[y].id;
      }
      WalletMapAt(players[..n], i);
      assert es[i].id != es[n].id;
    }
  }

  /** `wallets` are the wallets of `ids`, one by one. */
  ghost predicate PaysOut(players: seq<PlayerRow>, ids: seq<int>, wallets: seq<string>) {
    |wallets| == |ids| && forall i :: 0 <= i < |ids| ==> WalletOf(players, ids[i]) == Some(wallets[i])
  }

  lemma {:induction false} WalletFound(players: seq<PlayerRow>, id: int)
    requires DistinctIds(EntrantsOf(players)) && id in Ids(EntrantsOf(players))
    ensures id in WalletMap(players) && WalletOf(players, id) == Some(WalletMap(players)[id])
  {
    var es := EntrantsOf(players);
    var i :| 0 <= i < |es| && Ids(es)[i] == id;
    WalletMapAt(players, i);
    WalletOfAt(players, i);
  }

  lemma {:induction false} WalletsFound(players: seq<PlayerRow>, ids: seq<int>)
    requires DistinctIds(EntrantsOf(players)) && forall i :: 0 <= i < |ids| ==> ids[i] in Ids(EntrantsOf(players))
    ensures WalletsOf(WalletMap(players), ids).Ok? && PaysOut(players, ids, WalletsOf(WalletMap(players), ids).value)
    decreases |ids|
  {
    hide WalletMap, WalletOf, EntrantsOf, DistinctIds, Ids;
    if ids != [] {
      var n := |ids| - 1;
      WalletsFound(players, ids[..n]);
      WalletFound(players, ids[n]);
    }
  }

  // ---------- parity ----------

  /** With distinct seeds the order does not depend on the order of the hash map's keys. */
  lemma {:induction false} OrderIgnoresKeyOrder(es: seq<Entrant>, keys: seq<int>, champ: Option<int>,
      elim: map<int, nat>)
    requires DistinctIds(es) && DistinctSeeds(es) && NoDup(keys) && forall id :: id in keys <==> id in Ids(es)
    ensures OrderIds(keys, champ, elim, SeedMap(es)) == OrderIds(Ids(es), champ, elim, SeedMap(es))
  {
    IdsNoDup(es);
    SamePermutation(keys, Ids(es));
    var others := Others(keys, champ);
    OthersPermute(keys, Ids(es), champ);
    forall i | 0 <= i < |others| ensures others[i] in Ids(es) {
      assert others[i] in multiset(others);
      OthersCount(keys, champ, others[i]);
      assert others[i] in multiset(keys);
    }
    hide Others, NoDup;
    NoSeedTies(es, elim, others);
    PlaceOrderTotal(elim, SeedMap(es));
    hide PlaceOrder, SeedMap, DistinctIds, DistinctSeeds;
    SortOrderInsensitive(others, Others(Ids(es), champ), PlaceOrder(elim, SeedMap(es)));
  }

  lemma {:induction false} OrderPays(players: seq<PlayerRow>, ms: seq<BracketMatch>, keys: seq<int>, champ: int)
    requires DistinctIds(EntrantsOf(players)) && DistinctSeeds(EntrantsOf(players)) && KeyOrder(keys, players)
    requires ChampionOf(ms) == Some(champ)
    requires multiset(WinnerIds(EntrantsOf(players), ms)) == multiset(Ids(EntrantsOf(players)))
    ensures var es := EntrantsOf(players);
      var paid := WalletsOf(WalletMap(players), OrderIds(keys, Some(champ), ElimRounds(ms, |ms|), SeedMap(es)));
      paid.Ok? && PaysOut(players, WinnerIds(es, ms), paid.value)
  {
    var es := EntrantsOf(players);
    hide EntrantsOf, ElimRounds, SeedMap, OrderIds, ChampionOf, WalletMap, PaysOut;
    OrderIgnoresKeyOrder(es, keys, Some(champ), ElimRounds(ms, |ms|));
    SameElements(WinnerIds(es, ms), Ids(es));
    hide DistinctIds, DistinctSeeds, KeyOrder, Ids;
    WalletsFound(players, WinnerIds(es, ms));
  }

  /** From the same accepted results: the relayer succeeds iff there is a champion, and then agrees. */
  lemma {:induction false} DerivationAgrees(players: seq<PlayerRow>, res: map<int, Outcome>, keys: seq<int>)
    requires var es := EntrantsOf(players);
      |es| >= 2 && DistinctIds(es) && DistinctSeeds(es) && Accepted(SheetOf(es), res)
    requires KeyOrder(keys, players)
    ensures var es := EntrantsOf(players); var sh := SheetOf(es); var d := Derivation(players, res, keys);
      && (d.Ok? <==> Champion(sh, res).Some?)
      && (d.Ok? ==> PaysOut(players, WinnerIds(es, BracketOf(sh, res)), d.value))
      && (FinalOutcome(sh, res).Some? && d.Err? <==> FinalOutcome(sh, res) == Some(Void))
      && (FinalOutcome(sh, res) == Some(Void) ==> d == Err(NoFinalWinner))
  {
    var es := EntrantsOf(players);
    var sh := SheetOf(es);
    hide EntrantsOf, SheetOf, FinalOutcome, Accepted, Champion, BracketOf, AllDecided, KeyOrder;
    CompletenessAgrees(sh, res);
    if Champion(sh, res).Some? {
      WinnersArePlacement(es, res);
      ChampionOfBracket(sh, res);
      hide DistinctIds, DistinctSeeds, WinnerIds, ElimRounds, SeedMap, OrderIds, WalletMap, WalletsOf, PaysOut, Ids;
      OrderPays(players, BracketOf(sh, res), keys, Champion(sh, res).value.id);
    }
  }

  /** Why a derivation from accepted results fails: an open final, or a void one, and nothing else. */
  lemma {:induction false} DerivationErrors(players: seq<PlayerRow>, res: map<int, Outcome>, keys: seq<int>)
    requires var es := EntrantsOf(players);
      |es| >= 2 && DistinctIds(es) && DistinctSeeds(es) && Accepted(SheetOf(es), res)
    requires KeyOrder(keys, players)
    ensures var final := FinalOutcome(SheetOf(EntrantsOf(players)), res);
      match Derivation(players, res, keys)
      case Ok(_) => final == Some(WinA) || final == Some(WinB)
      case Err(e) => (e == Unresolved && final.None?) || (e == NoFinalWinner && final == Some(Void))
  {
    var sh := SheetOf(EntrantsOf(players));
    hide EntrantsOf, SheetOf, FinalOutcome, Accepted, Champion, BracketOf, AllDecided, KeyOrder;
    CompletenessAgrees(sh, res);
    DerivationAgrees(players, res, keys);
  }

  /**
   Replay confluence and parity. For every field with distinct ids and seeds and every sequence
   of results the web engine accepts in play order, the relayer accepts the same results by
   ascending match id and reaches the same bracket; it derives an order exactly when there is
   a champion; and what it derives are the wallets of the web's `winners()`, in that order.
   The web finalizes (the final is decided) what the relayer refuses exactly when the final is void.
   */
  lemma {:induction false} EnginesAgree(players: seq<PlayerRow>, rs: seq<ResultRow>, keys: seq<int>)
    requires var es := EntrantsOf(players);
      |es| >= 2 && DistinctIds(es) && DistinctSeeds(es) && Replay(SheetOf(es), map[], rs).Some?
    requires KeyOrder(keys, players)
    ensures var es := EntrantsOf(players); var sh := SheetOf(es); var res := Replay(sh, map[], rs).value;
      var d := Derive(players, rs, keys);
      && Replayed(sh, map[], ById(rs)) == Ok(res)
      && (d.Ok? <==> Champion(sh, res).Some?)
      && (d.Ok? ==> PaysOut(players, WinnerIds(es, BracketOf(sh, res)), d.value))
      && (FinalOutcome(sh, res).Some? && d.Err? <==> FinalOutcome(sh, res) == Some(Void))
  {
    var es := EntrantsOf(players);
    var sh := SheetOf(es);
    NothingAccepted(sh);
    ReplayAdds(sh, map[], rs);
    hide Replay, EntrantsOf, SheetOf, Accepted, ById, DistinctRows, Adds;
    ReplayConfluence(sh, rs);
    ReplayedIsReplay(sh, map[], ById(rs));
    DerivationAgrees(players, Replay(sh, map[], rs).value, keys);
  }

  /** Two players and one void result: the web returns an order, the relayer refuses. */
  lemma {:induction false} VoidFinalDisagrees(p: PlayerRow, q: PlayerRow, keys: seq<int>)
    requires p.id != q.id && p.seed != q.seed && KeyOrder(keys, [p, q])
    ensures var es := EntrantsOf([p, q]);
      && |es| == 2 && DistinctIds(es) && DistinctSeeds(es)
      && Replay(SheetOf(es), map[], [ResultRow(1, Void)]) == Some(map[1 := Void])
      && FinalOutcome(SheetOf(es), map[1 := Void]) == Some(Void)
      && Derive([p, q], [ResultRow(1, Void)], keys) == Err(NoFinalWinner)
  {
    var players, rs := [p, q], [ResultRow(1, Void)];
    var es := EntrantsOf(players);
    assert es[0] == Entrant(p.id, p.seed) && es[1] == Entrant(q.id, q.seed);
    var sh := SheetOf(es);
    TwoPlayerSheet(es);
    hide SheetOf, EntrantsOf;
    VoidFinal(sh);
    DerivationAgrees(players, map[1 := Void], keys);
    EnginesAgree(players, rs, keys);
    hide Derivation;
  }

  lemma {:induction false} TwoPlayerSheet(es: seq<Entrant>)
    requires |es| == 2
    ensures SheetOf(es).k == 1 && SheetOf(es).slots[0].Some? && SheetOf(es).slots[1].Some?
  {
    assert CeilLog2(2) == 1;
    SeatOfRank(es, 0);
    SeatOfRank(es, 1);
    assert Reverse(1, 0) == 0 && Reverse(1, 1) == 1;
  }

  lemma {:induction false} RowsOfOne(k: nat)
    requires k == 1
    ensures Pow2(k) == 2 && Pow2(k - 1) == 1 && Index(k, 0, 0) == 0
  {
    hide Pow2, Index;
    Pow2Doubles(k);
    Pow2Zero();
    IndexMeans(k, 0, 0);
  }

  /** Before any result, the final of two is ready. */
  lemma {:induction false} FinalOfTwo(sh: Sheet)
    requires SheetShape(sh) && sh.k == 1 && sh.slots[0].Some? && sh.slots[1].Some?
    ensures BothKnown(sh, map[], 1) && Recordable(sh, map[], 1)
  {
    hide Pow2, Index, MatchAt;
    RowsOfOne(sh.k);
    KnownAt(sh, map[], 0, 0);
    OutcomeWhenBothKnown(sh, map[], 1);
  }

  /** A void result of the final is its outcome. */
  lemma {:induction false} VoidOutcome(sh: Sheet, res: map<int, Outcome>)
    requires SheetShape(sh) && sh.k == 1 && sh.slots[0].Some? && sh.slots[1].Some? && res == map[1 := Void]
    ensures FinalOutcome(sh, res) == Some(Void)
  {
    hide Pow2, Index;
    RowsOfOne(sh.k);
  }

  lemma {:induction false} ReplayOfOne(sh: Sheet, r: ResultRow)
    requires SheetShape(sh) && Recordable(sh, map[], r.matchId) && r.outcome != Draw
    ensures Replay(sh, map[], [r]) == Some(map[][r.matchId := r.outcome])
  {
    hide Recordable;
    assert [r][1..] == [];
  }

  lemma {:induction false} VoidFinal(sh: Sheet)
    requires SheetShape(sh) && sh.k == 1 && sh.slots[0].Some? && sh.slots[1].Some?
    ensures Replay(sh, map[], [ResultRow(1, Void)]) == Some(map[1 := Void])
    ensures Accepted(sh, map[1 := Void]) && FinalOutcome(sh, map[1 := Void]) == Some(Void)
  {
    hide *;
    FinalOfTwo(sh);
    VoidOutcome(sh, map[1 := Void]);
    ReplayOfOne(sh, ResultRow(1, Void));
    NothingAccepted(sh);
    AcceptedStep(sh, map[], 1, Void);
    assert map[][1 := Void] == map[1 := Void];
  }
}
