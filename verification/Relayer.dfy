/** The relayer's independent re-derivation of the paid order: relayer/src/bracket.rs. */
module Relayer {
  import opened Wrappers
  import opened EngineTypes
  import opened Sorting
  import opened Seeding
  import opened Bracket
  import opened Propagation
  import opened Confluence
  import opened SingleElim
  import opened Knockout
  import opened Placement

  datatype PlayerRow = PlayerRow(id: int, seed: int, wallet: string)

  datatype DeriveError =
    | TooFewPlayers | UnknownMatch | AlreadyResolved | NotReady | CannotDraw
    | Unresolved | NoFinalWinner | NoWallet

  function EntrantsOf(players: seq<PlayerRow>): (es: seq<Entrant>)
    ensures |es| == |players| && forall i :: 0 <= i < |es| ==> es[i] == Entrant(players[i].id, players[i].seed)
  {
    if players == [] then [] else [Entrant(players[0].id, players[0].seed)] + EntrantsOf(players[1..])
  }

  // ---------- the bracket, in a vector ----------

  ghost predicate IsBlank(ms: seq<BracketMatch>, sh: Sheet) {
    SheetShape(sh) && |ms| == Pow2(sh.k) - 1 && forall j :: 0 <= j < |ms| ==> ms[j] == BlankMatch(sh, 1, j)
  }

  method BuildBracket(players: seq<PlayerRow>) returns (r: Result<array<BracketMatch>, DeriveError>)
    ensures |players| < 2 ==> r == Err(TooFewPlayers)
    ensures |players| >= 2 ==> r.Ok? && fresh(r.value) && IsBlank(r.value[..], SheetOf(EntrantsOf(players)))
  {
    hide Pow2, Log2, CeilLog2, Reverse, BlankMatch, Index, BySeed, Placed, EntrantsOf;
    if |players| < 2 { return Err(TooFewPlayers); }
    var entrants := EntrantsOf(players);
    ghost var sh := SheetOf(entrants);
    var ordered := BySeed(entrants);
    SortedField(entrants);
    var bracket := NextPow2(|ordered|);
    assert sh.k == CeilLog2(|ordered|);
    Log2OfPow2(sh.k);
    var rounds := Log2(bracket);
    var slots := SeedSlots(bracket, sh.k);
    var slotEntrant := PlaceSeeds(ordered, slots, sh.k);
    assert slotEntrant == sh.slots;
    hide SheetOf;
    var ids := AllocateIds(bracket, rounds, 1);
    var rows := LayOut(sh, bracket, rounds, slotEntrant, ids, 1);
    var matches := new BracketMatch[|rows|](i requires 0 <= i < |rows| => rows[i]);
    r := Ok(matches);
  }

  // ---------- the fixed-point loop, in place ----------

  method CompleteByes(matches: array<BracketMatch>, ghost full: seq<BracketMatch>) returns (changed: bool)
    requires Finished(full) && Partial(full, matches[..])
    modifies matches
    ensures Partial(full, matches[..]) && Grows(old(matches[..]), matches[..])
    ensures changed <==> matches[..] != old(matches[..])
    ensures forall j :: 0 <= j < matches.Length ==> !PendingBye(matches[j])
  {
    changed := false;
    ghost var start := matches[..];
    var j := 0;
    while j < matches.Length
      invariant 0 <= j <= matches.Length
      invariant Partial(full, matches[..]) && Grows(start, matches[..])
      invariant changed <==> matches[..] != start
      invariant forall i :: 0 <= i < j ==> !PendingBye(matches[i])
    {
      hide Partial, Finished, Grows;
      ghost var before := matches[..];
      var m := matches[j];
      if m.round == 0 && m.outcome.None? && m.a.Some? != m.b.Some? {
        ByeKeepsPartial(full, before, j);
        matches[j] := m.(outcome := Some(if m.a.Some? then WinA else WinB));
        assert matches[..] == before[j := matches[j]];
        GrowsTransitive(start, before, matches[..]);
        changed := true;
      }
      j := j + 1;
    }
  }

  /** Some match with this id has this side filled. */
  method Occupied(matches: array<BracketMatch>, t: Target) returns (occupied: bool)
    requires forall j :: 0 <= j < matches.Length ==> matches[j].id == j + 1
    ensures occupied <==> Filled(matches[..], t)
  {
    var j := 0;
    while j < matches.Length
      invariant 0 <= j <= matches.Length
      invariant forall i :: 0 <= i < j ==> !(matches[i].id == t.matchId && MatchSide(matches[i], t.side).Some?)
    {
      if matches[j].id == t.matchId && (if t.side == SideA then matches[j].a.Some? else matches[j].b.Some?) {
        return true;
      }
      j := j + 1;
    }
    occupied := false;
  }

  ghost predicate PendingUpdate(full: seq<BracketMatch>, ms: seq<BracketMatch>, u: (Target, Entrant)) {
    && 1 <= u.0.matchId <= |ms| == |full| && full[u.0.matchId - 1].round > 0
    && MatchSide(full[u.0.matchId - 1], u.0.side) == Some(u.1) && !Filled(ms, u.0)
  }

  lemma {:induction false} PartialIds(full: seq<BracketMatch>, ms: seq<BracketMatch>)
    requires Finished(full) && Partial(full, ms)
    ensures |full| == |ms| && forall j :: 0 <= j < |ms| ==> ms[j].id == j + 1
  {
    forall j | 0 <= j < |ms| ensures ms[j].id == j + 1 { assert PartOf(ms[j], full[j]); }
  }

  method CollectUpdates(matches: array<BracketMatch>, ghost full: seq<BracketMatch>)
    returns (updates: seq<(Target, Entrant)>)
    requires Finished(full) && Partial(full, matches[..])
    ensures forall i :: 0 <= i < |updates| ==> PendingUpdate(full, matches[..], updates[i])
    ensures updates == [] ==> forall j :: 0 <= j < matches.Length ==> Passed(matches[..], j)
  {
    PartialIds(full, matches[..]);
    hide Partial, Finished;
    updates := [];
    var j := 0;
    while j < matches.Length
      invariant 0 <= j <= matches.Length
      invariant forall i :: 0 <= i < |updates| ==> PendingUpdate(full, matches[..], updates[i])
      invariant updates == [] ==> forall i :: 0 <= i < j ==> Passed(matches[..], i)
    {
      var m := matches[j];
      var winner := MatchWinner(m);
      if m.outcome.Some? && winner.Some? && m.winnerTo.Some? {
        WinnerReaches(full, matches[..], j);
        var occupied := Occupied(matches, m.winnerTo.value);
        if !occupied {
          updates := updates + [(m.winnerTo.value, winner.value)];
        }
      }
      j := j + 1;
    }
  }

  /** Writes one update into every match with the target id (there is exactly one). */
  method WriteUpdate(matches: array<BracketMatch>, t: Target, winner: Entrant)
    requires 1 <= t.matchId <= matches.Length && forall j :: 0 <= j < matches.Length ==> matches[j].id == j + 1
    modifies matches
    ensures matches[..] == old(matches[..])[t.matchId - 1 := WithSide(old(matches[t.matchId - 1]), t.side, winner)]
  {
    var j := 0;
    while j < matches.Length
      invariant 0 <= j <= matches.Length
      invariant forall i :: 0 <= i < matches.Length ==>
        matches[i] == if i < j && i + 1 == t.matchId then WithSide(old(matches[i]), t.side, winner) else old(matches[i])
    {
      if matches[j].id == t.matchId {
        matches[j] := if t.side == SideA then matches[j].(a := Some(winner)) else matches[j].(b := Some(winner));
      }
      j := j + 1;
    }
  }

  method ApplyUpdates(matches: array<BracketMatch>, updates: seq<(Target, Entrant)>, ghost full: seq<BracketMatch>)
    requires Finished(full) && Partial(full, matches[..])
    requires forall i :: 0 <= i < |updates| ==> PendingUpdate(full, matches[..], updates[i])
    modifies matches
    ensures Partial(full, matches[..]) && Grows(old(matches[..]), matches[..])
    ensures updates != [] <==> matches[..] != old(matches[..])
  {
    ghost var start := matches[..];
    var i := 0;
    while i < |updates|
      invariant 0 <= i <= |updates|
      invariant Partial(full, matches[..]) && Grows(start, matches[..])
      invariant i > 0 <==> matches[..] != start
    {
      var (t, winner) := updates[i];
      ghost var before := matches[..];
      assert PendingUpdate(full, start, updates[i]);
      PartialIds(full, before);
      FillKeepsPartial(full, before, t, winner);
      hide Partial, Grows, Finished;
      WriteUpdate(matches, t, winner);
      GrowsTransitive(start, before, matches[..]);
      i := i + 1;
    }
  }

  /** The relayer's loop stops at the same recursive bracket as the web engine's. */
  method AdvanceSingleElim(matches: array<BracketMatch>, ghost full: seq<BracketMatch>)
    requires Finished(full) && Partial(full, matches[..])
    modifies matches
    ensures matches[..] == full && Grows(old(matches[..]), matches[..])
  {
    ghost var start := matches[..];
    while true
      invariant Partial(full, matches[..]) && Grows(start, matches[..])
      decreases Holes(matches[..])
    {
      hide Partial, Grows, Finished;
      ghost var before := matches[..];
      var changed := CompleteByes(matches, full);
      ghost var middle := matches[..];
      var updates := CollectUpdates(matches, full);
      ApplyUpdates(matches, updates, full);
      GrowsTransitive(before, middle, matches[..]);
      GrowsTransitive(start, before, matches[..]);
      if !(changed || updates != []) {
        Fixpoint(full, matches[..]);
        break;
      }
      GrowsShrinksHoles(before, matches[..]);
    }
  }

  // ---------- replay by ascending match id ----------

  /** Why the relayer refuses a result, if it does. */
  ghost function ResultError(sh: Sheet, res: map<int, Outcome>, row: ResultRow): Option<DeriveError>
    requires SheetShape(sh)
  {
    if !(1 <= row.matchId < Pow2(sh.k)) then Some(UnknownMatch)
    else
      var m := MatchAt(sh, res, row.matchId - 1);
      if m.outcome.Some? then Some(AlreadyResolved)
      else if m.a.None? || m.b.None? then Some(NotReady)
      else if row.outcome == Draw then Some(CannotDraw)
      else None
  }

  /** Which error a result meets, said of the match it names in the bracket. */
  lemma {:induction false} ResultErrorMeans(sh: Sheet, res: map<int, Outcome>, row: ResultRow)
    requires SheetShape(sh)
    ensures var e, ms := ResultError(sh, res, row), BracketOf(sh, res);
      var known := 1 <= row.matchId <= |ms|;
      && (e == Some(UnknownMatch) <==> !known)
      && (e == Some(AlreadyResolved) <==> known && ms[row.matchId - 1].outcome.Some?)
      && (e == Some(NotReady) <==>
            known && ms[row.matchId - 1].outcome.None?
            && (ms[row.matchId - 1].a.None? || ms[row.matchId - 1].b.None?))
      && (e == Some(CannotDraw) <==> known && IsReady(ms[row.matchId - 1]) && row.outcome == Draw)
      && (e == None <==> known && IsReady(ms[row.matchId - 1]) && row.outcome != Draw)
  {
    hide MatchAt, Pow2;
  }

  /** The replay, with the error of the first refused result. */
  ghost function Replayed(sh: Sheet, res: map<int, Outcome>, rs: seq<ResultRow>): Result<map<int, Outcome>, DeriveError>
    requires SheetShape(sh)
    decreases |rs|
  {
    if rs == [] then Ok(res)
    else
      match ResultError(sh, res, rs[0])
      case Some(e) => Err(e)
      case None => Replayed(sh, res[rs[0].matchId := rs[0].outcome], rs[1..])
  }

  /** The relayer accepts a sequence of results exactly when the web engine would, in that order. */
  lemma {:induction false} ReplayedIsReplay(sh: Sheet, res: map<int, Outcome>, rs: seq<ResultRow>)
    requires SheetShape(sh)
    ensures Replayed(sh, res, rs).Ok? <==> Replay(sh, res, rs).Some?
    ensures Replayed(sh, res, rs).Ok? ==> Replayed(sh, res, rs).value == Replay(sh, res, rs).value
    decreases |rs|
  {
    if rs != [] {
      ErrorFree(sh, res, rs[0]);
      hide ResultError, Recordable;
      if ResultError(sh, res, rs[0]).None? {
        ReplayedIsReplay(sh, res[rs[0].matchId := rs[0].outcome], rs[1..]);
      }
    }
  }

  lemma {:induction false} ErrorFree(sh: Sheet, res: map<int, Outcome>, row: ResultRow)
    requires SheetShape(sh)
    ensures ResultError(sh, res, row).None? <==> Recordable(sh, res, row.matchId) && row.outcome != Draw
  {
    hide MatchAt;
  }

  /** Records one result in place and propagates it. */
  method RecordResult(matches: array<BracketMatch>, row: ResultRow, ghost sh: Sheet, ghost res: map<int, Outcome>)
    returns (r: Result<(), DeriveError>)
    requires SheetShape(sh) && Accepted(sh, res) && matches[..] == BracketOf(sh, res)
    modifies matches
    ensures match ResultError(sh, res, row)
      case Some(e) => r == Err(e)
      case None => r.Ok? && Accepted(sh, res[row.matchId := row.outcome])
                   && matches[..] == BracketOf(sh, res[row.matchId := row.outcome])
  {
    hide MatchAt, Accepted;
    if !(1 <= row.matchId <= matches.Length) { return Err(UnknownMatch); }
    var idx := row.matchId - 1;
    assert matches[idx] == matches[..][idx] == MatchAt(sh, res, idx);
    if matches[idx].outcome.Some? { return Err(AlreadyResolved); }
    if matches[idx].a.None? || matches[idx].b.None? { return Err(NotReady); }
    if row.outcome == Draw { return Err(CannotDraw); }
    RecordIsPartial(sh, res, row.matchId, row.outcome);
    AcceptedStep(sh, res, row.matchId, row.outcome);
    BracketFinished(sh, res[row.matchId := row.outcome]);
    ghost var ms := matches[..];
    hide Partial, Finished, BracketOf;
    matches[idx] := matches[idx].(outcome := Some(row.outcome));
    assert matches[..] == ms[idx := ms[idx].(outcome := Some(row.outcome))];
    AdvanceSingleElim(matches, BracketOf(sh, res[row.matchId := row.outcome]));
    r := Ok(());
  }

  lemma {:induction false} ReplayedNext(sh: Sheet, res: map<int, Outcome>, rs: seq<ResultRow>, i: nat)
    requires SheetShape(sh) && i < |rs|
    ensures Replayed(sh, res, rs[i..]) == match ResultError(sh, res, rs[i])
      case Some(e) => Err(e)
      case None => Replayed(sh, res[rs[i].matchId := rs[i].outcome], rs[i + 1..])
  {
    hide ResultError;
    assert rs[i..][0] == rs[i] && rs[i..][1..] == rs[i + 1..];
  }

  lemma {:induction false} ReplayedEnd(sh: Sheet, res: map<int, Outcome>, rs: seq<ResultRow>)
    requires SheetShape(sh)
    ensures Replayed(sh, res, rs[|rs|..]) == Ok(res)
  {
    hide ResultError;
    assert rs[|rs|..] == [];
  }

  method ReplayResults(matches: array<BracketMatch>, ordered: seq<ResultRow>, ghost sh: Sheet)
    returns (r: Result<(), DeriveError>, ghost res: map<int, Outcome>)
    requires SheetShape(sh) && Accepted(sh, map[]) && matches[..] == BracketOf(sh, map[])
    modifies matches
    ensures match Replayed(sh, map[], ordered)
      case Err(e) => r == Err(e)
      case Ok(m) => r.Ok? && res == m && Accepted(sh, m) && matches[..] == BracketOf(sh, m)
  {
    hide Accepted, BracketOf, ResultError, Replayed, SheetShape;
    res := map[];
    var i := 0;
    assert ordered[0..] == ordered;
    while i < |ordered|
      invariant 0 <= i <= |ordered| && Accepted(sh, res) && matches[..] == BracketOf(sh, res)
      invariant Replayed(sh, map[], ordered) == Replayed(sh, res, ordered[i..])
    {
      ReplayedNext(sh, res, ordered, i);
      r := RecordResult(matches, ordered[i], sh, res);
      if r.Err? { return; }
      res := res[ordered[i].matchId := ordered[i].outcome];
      i := i + 1;
    }
    ReplayedEnd(sh, res, ordered);
    r := Ok(());
  }

  // ---------- the derivation ----------

  /** Wallets by id, a later row overwriting an earlier one. */
  function WalletMap(players: seq<PlayerRow>): map<int, string> {
    if players == [] then map[]
    else WalletMap(players[..|players| - 1])[players[|players| - 1].id := players[|players| - 1].wallet]
  }

  function WalletsOf(wallets: map<int, string>, ids: seq<int>): Result<seq<string>, DeriveError> {
    if ids == [] then Ok([])
    else
      var rest := WalletsOf(wallets, ids[..|ids| - 1]);
      if rest.Err? then rest
      else if ids[|ids| - 1] in wallets then Ok(rest.value + [wallets[ids[|ids| - 1]]])
      else Err(NoWallet)
  }

  /** `keys` lists the ids of the players, each once, in any order (the order of a hash map). */
  ghost predicate KeyOrder(keys: seq<int>, players: seq<PlayerRow>) {
    NoDup(keys) && forall id :: id in keys <==> id in Ids(EntrantsOf(players))
  }

  /** What is derived from an accepted set of results. */
  ghost function Derivation(players: seq<PlayerRow>, res: map<int, Outcome>,
      keys: seq<int>): Result<seq<string>, DeriveError> {
    var es := EntrantsOf(players);
    var sh := SheetOf(es);
    var ms := BracketOf(sh, res);
    if !AllDecided(ms) then Err(Unresolved)
    else if Champion(sh, res).None? then Err(NoFinalWinner)
    else WalletsOf(WalletMap(players),
      OrderIds(keys, Some(Champion(sh, res).value.id), ElimRounds(ms, |ms|), SeedMap(es)))
  }

  ghost function Derive(players: seq<PlayerRow>, rs: seq<ResultRow>, keys: seq<int>): Result<seq<string>, DeriveError> {
    if |players| < 2 then Err(TooFewPlayers)
    else
      match Replayed(SheetOf(EntrantsOf(players)), map[], ById(rs))
      case Err(e) => Err(e)
      case Ok(res) => Derivation(players, res, keys)
  }

  method Resolved(matches: array<BracketMatch>) returns (all: bool)
    ensures all <==> AllDecided(matches[..])
  {
    var j := 0;
    while j < matches.Length
      invariant 0 <= j <= matches.Length && forall i :: 0 <= i < j ==> matches[i].outcome.Some?
    {
      if matches[j].outcome.None? {
        assert matches[..][j].outcome.None?;
        return false;
      }
      j := j + 1;
    }
    all := true;
  }

  /** The winner of the match that feeds no other. */
  method FinalWinner(matches: array<BracketMatch>) returns (w: Option<Entrant>)
    requires matches.Length > 0
    requires forall j :: 0 <= j < matches.Length ==> (matches[j].winnerTo.None? <==> j == matches.Length - 1)
    ensures w == MatchWinner(matches[matches.Length - 1])
  {
    var j := 0;
    while matches[j].winnerTo.Some?
      invariant 0 <= j < matches.Length
      decreases matches.Length - j
    {
      j := j + 1;
    }
    w := MatchWinner(matches[j]);
  }

  method ElimTable(matches: array<BracketMatch>) returns (elim: map<int, nat>)
    ensures elim == ElimRounds(matches[..], matches.Length)
  {
    elim := map[];
    var j := 0;
    while j < matches.Length
      invariant 0 <= j <= matches.Length && elim == ElimRounds(matches[..], j)
    {
      var loser := MatchLoser(matches[j]);
      if loser.Some? { elim := elim[loser.value.id := matches[j].round]; }
      j := j + 1;
    }
  }

  method Tables(players: seq<PlayerRow>) returns (seeds: map<int, int>, wallets: map<int, string>)
    ensures seeds == SeedMap(EntrantsOf(players)) && wallets == WalletMap(players)
  {
    seeds, wallets := map[], map[];
    ghost var es := EntrantsOf(players);
    var i := 0;
    while i < |players|
      invariant 0 <= i <= |players|
      invariant seeds == SeedMap(es[..i]) && wallets == WalletMap(players[..i])
    {
      seeds := seeds[players[i].id := players[i].seed];
      wallets := wallets[players[i].id := players[i].wallet];
      assert es[..i + 1][..i] == es[..i] && players[..i + 1][..i] == players[..i];
      i := i + 1;
    }
    assert es[..i] == es && players[..i] == players;
  }

  method DeriveSingleElimWinners(players: seq<PlayerRow>, results: seq<ResultRow>, keys: seq<int>)
    returns (r: Result<seq<string>, DeriveError>)
    requires KeyOrder(keys, players)
    ensures r == Derive(players, results, keys)
  {
    var built := BuildBracket(players);
    if built.Err? { return Err(TooFewPlayers); }
    var matches := built.value;
    ghost var sh := SheetOf(EntrantsOf(players));
    BlankIsPartial(sh, matches[..]);
    BracketFinished(sh, map[]);
    NothingAccepted(sh);
    hide SheetOf, EntrantsOf, BracketOf, Partial, Finished, Accepted, IsBlank;
    AdvanceSingleElim(matches, BracketOf(sh, map[]));
    var outcome, res := ReplayResults(matches, ById(results), sh);
    if outcome.Err? { return Err(outcome.error); }
    var all := Resolved(matches);
    if !all { return Err(Unresolved); }
    FinalShape(sh, res);
    var champion := FinalWinner(matches);
    if champion.None? { return Err(NoFinalWinner); }
    var elim := ElimTable(matches);
    var seeds, wallets := Tables(players);
    var order := OrderIds(keys, Some(champion.value.id), elim, seeds);
    r := WalletsOf(wallets, order);
  }

  lemma {:induction false} FinalShape(sh: Sheet, res: map<int, Outcome>)
    requires SheetShape(sh)
    ensures var ms := BracketOf(sh, res);
      && |ms| > 0 && MatchWinner(ms[|ms| - 1]) == Champion(sh, res)
      && forall j :: 0 <= j < |ms| ==> (ms[j].winnerTo.None? <==> j == |ms| - 1)
  {
    var ms := BracketOf(sh, res);
    forall j | 0 <= j < |ms| ensures ms[j].winnerTo.None? <==> j == |ms| - 1 {
      FinalIsLast(sh, res, j);
    }
    FinalIsLast(sh, res, Pow2(sh.k) - 2);
    WinnerArrives(sh, res, sh.k - 1, 0);
    hide Arrives, OutcomeAt, Locate;
  }
}
