/** What holds of every match in every run: where its players and stakes came from, and that native stakes are even. */
module EscrowLaws {
  import opened Wrappers
  import opened Sums
  import opened EscrowTypes
  import R = RegistrySpec
  import opened RegistrySpec
  import S = SettlementSpec
  import opened EscrowAccounts
  import opened EscrowSteps
  import opened EscrowRuns
  import opened EscrowRelease
  import opened EscrowHashes
  import opened EscrowTerms

  // ---------- even stakes ----------

  /** A native match with both players in holds the same stake twice. */
  ghost predicate EvenStakes(s: Registry, id: nat) {
    var m := MatchAt(s, id);
    (m.state == Ready || m.state == Disputed) && TokenOf(s, m) == NoOne ==> m.stakeAmount == m.stakeAmountB
  }

  lemma {:induction false} EvenElsewhere(y: S.System, a: Action, id: nat)
    requires SystemOk(y) && Next(y, a).Ok? && !Names(a, id) && EvenStakes(y.reg, id)
    ensures EvenStakes(Next(y, a).value.reg, id)
  {
    var m := MatchAt(y.reg, id);
    assert MatchOk(y.reg.nextGameId, m);
    if m.gameId < y.reg.nextGameId { GameStays(y, a, m.gameId); }
    hide RegistryOk, Next;
    OtherMatchesStay(y, a, id);
  }

  lemma {:induction false} EvenWhenNamed(y: S.System, a: Action, id: nat)
    requires SystemOk(y) && Admissible(y, a) && Next(y, a).Ok? && Names(a, id) && EvenStakes(y.reg, id)
    ensures EvenStakes(Next(y, a).value.reg, id)
  {
    var m := MatchAt(y.reg, id);
    hide RegistryOk, Judged, UnsetMatch, UnsetGame, Surplus, Outstanding, StakeIn;
    if a.CreateMatch? {
      CreateTerms(y.reg, a.sender, a.now, a.gameId, id, a.stakeAmount, a.value, a.received);
    } else if a.JoinMatch? {
      JoinTerms(y.reg, a.sender, id, a.value, a.received);
    } else if a.SubmitAsyncResult? || a.SubmitHashResult? || a.ResolveDispute? {
      JudgedBooks(y, a, id);
      BothIn(y, a, id);
      JudgedIsEven(y, Next(y, a).value, id);
      hide Next;
    }
  }

  /** Verdicts are only taken on matches with both players in. */
  lemma {:induction false} BothIn(y: S.System, a: Action, id: nat)
    requires (a.SubmitAsyncResult? || a.SubmitHashResult? || a.ResolveDispute?) && a.matchId == id && Next(y, a).Ok?
    ensures MatchAt(y.reg, id).state == Ready || MatchAt(y.reg, id).state == Disputed
  {
    hide S.Settle, S.Dispute, UnsetMatch, UnsetGame;
  }

  lemma {:induction false} JudgedIsEven(y: S.System, y': S.System, id: nat)
    requires Judged(y, y', id, TokenAt(y, id)) && EvenStakes(y.reg, id)
    requires MatchAt(y.reg, id).state == Ready || MatchAt(y.reg, id).state == Disputed
    ensures EvenStakes(y'.reg, id)
  {
    hide RegistryOk, Surplus, Outstanding;
  }

  /** In every reachable state the two stakes of a native match with both players in are equal. */
  lemma {:induction false} AlwaysEven(y: S.System, acts: seq<Action>, id: nat)
    requires Fresh(y) && Allowed(y, acts)
    ensures EvenStakes(After(y, acts).reg, id)
    decreases |acts|
  {
    if acts == [] {
      hide SystemOk, Balance;
      FreshOk(y, NoOne);
    } else {
      var n := |acts| - 1;
      var mid := After(y, acts[..n]);
      AlwaysEven(y, acts[..n], id);
      BooksBalance(y, acts[..n], NoOne);
      hide Fresh, SystemOk, EvenStakes, Admissible, Registered, Next, Windfalls, Balance, Owed;
      if Next(mid, acts[n]).Ok? {
        if Names(acts[n], id) { EvenWhenNamed(mid, acts[n], id); } else { EvenElsewhere(mid, acts[n], id); }
      }
    }
  }

  // ---------- where the players and the stakes came from ----------

  /** Match `m` under `id` was created by this call: its creator, game, time and stake are the call's. */
  ghost predicate CreatedBy(y: S.System, a: Action, id: nat, m: Match) {
    && a.CreateMatch? && a.matchId == id && Next(y, a).Ok?
    && m.playerA == a.sender && m.gameId == a.gameId && m.createdAt == a.now
    && (Live(m.state) || m.state == Expired ==>
          m.stakeAmount == if GameAt(y.reg, a.gameId).stakeToken == NoOne then a.value else a.received)
  }

  /** Its second player joined by this call, with this stake. */
  ghost predicate JoinedBy(y: S.System, a: Action, id: nat, m: Match) {
    && a.JoinMatch? && a.matchId == id && Next(y, a).Ok? && m.playerB == a.sender
    && m.stakeAmountB == if TokenOf(y.reg, MatchAt(y.reg, id)) == NoOne then a.value else a.received
  }

  /** Call `i` of the run created the match. */
  ghost predicate CreatedAt(y: S.System, acts: seq<Action>, i: nat, id: nat, m: Match) {
    i < |acts| && CreatedBy(After(y, acts[..i]), acts[i], id, m)
  }

  ghost predicate JoinedAt(y: S.System, acts: seq<Action>, j: nat, id: nat, m: Match) {
    j < |acts| && JoinedBy(After(y, acts[..j]), acts[j], id, m)
  }

  /** A created match has its creation in the run, and its second player's join after that. */
  ghost predicate Origins(y: S.System, acts: seq<Action>, id: nat) {
    var m := MatchAt(After(y, acts).reg, id);
    m.playerA != NoOne ==> exists i: nat ::
      && CreatedAt(y, acts, i, id, m)
      && (m.playerB != NoOne ==> exists j: nat :: i < j && JoinedAt(y, acts, j, id, m))
  }

  /** What a later step may still change of a created match: its state, and the stake of one that is called off. */
  ghost predicate SameOrigins(m: Match, m': Match) {
    && m'.playerA == m.playerA && m'.gameId == m.gameId && m'.createdAt == m.createdAt && m'.playerB == m.playerB
    && m'.stakeAmountB == m.stakeAmountB
    && (Live(m'.state) || m'.state == Expired ==>
          (Live(m.state) || m.state == Expired) && m'.stakeAmount == m.stakeAmount)
  }

  lemma {:induction false} OriginsElsewhere(y: S.System, a: Action, id: nat)
    requires SystemOk(y) && Admissible(y, a) && Next(y, a).Ok?
    requires !(a.CreateMatch? && a.matchId == id) && !(a.JoinMatch? && a.matchId == id)
    ensures SameOrigins(MatchAt(y.reg, id), MatchAt(Next(y, a).value.reg, id))
  {
    hide RegistryOk, UnsetMatch, UnsetGame, Surplus, Outstanding, StakeIn;
    if !Names(a, id) { OtherMatchesStay(y, a, id); }
    else if a.SubmitAsyncResult? || a.SubmitHashResult? || a.ResolveDispute? { JudgedBooks(y, a, id); }
  }

  lemma {:induction false} CreationIsOrigin(y: S.System, a: Action, id: nat)
    requires a.CreateMatch? && a.matchId == id && Next(y, a).Ok?
    ensures CreatedBy(y, a, id, MatchAt(Next(y, a).value.reg, id))
    ensures MatchAt(Next(y, a).value.reg, id).playerB == NoOne
  {
    CreateTerms(y.reg, a.sender, a.now, a.gameId, id, a.stakeAmount, a.value, a.received);
    hide R.CreateMatch, UnsetMatch, UnsetGame;
  }

  lemma {:induction false} JoinIsOrigin(y: S.System, a: Action, id: nat)
    requires a.JoinMatch? && a.matchId == id && Next(y, a).Ok?
    ensures var m, m' := MatchAt(y.reg, id), MatchAt(Next(y, a).value.reg, id);
      && JoinedBy(y, a, id, m') && Live(m.state)
      && m'.playerA == m.playerA && m'.gameId == m.gameId && m'.createdAt == m.createdAt
      && m'.stakeAmount == m.stakeAmount
  {
    JoinTerms(y.reg, a.sender, id, a.value, a.received);
    hide R.JoinMatch, UnsetMatch, UnsetGame;
  }

  /** A call of a shorter run is the same call of the longer one. */
  lemma {:induction false} EarlierCalls(y: S.System, acts: seq<Action>, i: nat, id: nat, m: Match)
    requires acts != [] && i < |acts| - 1
    ensures CreatedAt(y, acts[..|acts| - 1], i, id, m) == CreatedAt(y, acts, i, id, m)
    ensures JoinedAt(y, acts[..|acts| - 1], i, id, m) == JoinedAt(y, acts, i, id, m)
  {
    hide CreatedBy, JoinedBy, After;
    assert acts[..|acts| - 1][..i] == acts[..i];
  }

  lemma {:induction false} OriginsStay(y: S.System, acts: seq<Action>, id: nat)
    requires acts != [] && Origins(y, acts[..|acts| - 1], id)
    requires var n := |acts| - 1;
      SameOrigins(MatchAt(After(y, acts[..n]).reg, id), MatchAt(After(y, acts).reg, id))
    ensures Origins(y, acts, id)
  {
    hide After, Next;
    var n := |acts| - 1;
    var m, m' := MatchAt(After(y, acts[..n]).reg, id), MatchAt(After(y, acts).reg, id);
    if m'.playerA != NoOne {
      var i: nat :| CreatedAt(y, acts[..n], i, id, m)
        && (m.playerB != NoOne ==> exists j: nat :: i < j && JoinedAt(y, acts[..n], j, id, m));
      assert CreatedAt(y, acts[..n], i, id, m);
      EarlierCalls(y, acts, i, id, m');
      assert CreatedAt(y, acts, i, id, m');
      if m'.playerB != NoOne {
        var j: nat :| i < j && JoinedAt(y, acts[..n], j, id, m);
        assert JoinedAt(y, acts[..n], j, id, m);
        EarlierCalls(y, acts, j, id, m');
        assert JoinedAt(y, acts, j, id, m');
      }
    }
  }

  lemma {:induction false} OriginsOfJoin(y: S.System, acts: seq<Action>, id: nat)
    requires acts != [] && Origins(y, acts[..|acts| - 1], id)
    requires var n := |acts| - 1;
      acts[n].JoinMatch? && acts[n].matchId == id && Next(After(y, acts[..n]), acts[n]).Ok?
    ensures Origins(y, acts, id)
  {
    var n := |acts| - 1;
    var mid := After(y, acts[..n]);
    JoinIsOrigin(mid, acts[n], id);
    var m, m' := MatchAt(mid.reg, id), MatchAt(After(y, acts).reg, id);
    assert After(y, acts) == Next(mid, acts[n]).value;
    hide After, Next;
    if m'.playerA != NoOne {
      var i: nat :| CreatedAt(y, acts[..n], i, id, m);
      assert CreatedAt(y, acts[..n], i, id, m);
      EarlierCalls(y, acts, i, id, m');
      assert CreatedAt(y, acts, i, id, m') && JoinedAt(y, acts, n, id, m');
    }
  }

  lemma {:induction false} OriginsOfCreation(y: S.System, acts: seq<Action>, id: nat)
    requires acts != []
    requires var n := |acts| - 1;
      acts[n].CreateMatch? && acts[n].matchId == id && Next(After(y, acts[..n]), acts[n]).Ok?
    ensures Origins(y, acts, id)
  {
    var n := |acts| - 1;
    var mid := After(y, acts[..n]);
    CreationIsOrigin(mid, acts[n], id);
    assert After(y, acts) == Next(mid, acts[n]).value;
    hide After, Next;
    assert CreatedAt(y, acts, n, id, MatchAt(After(y, acts).reg, id));
  }

  /**
   In every reachable state, a match was created by a call of the run that bears its creator, game, time and stake,
   and its second player joined it in a later one, with that player's stake.
   */
  lemma {:induction false} EveryMatchHasOrigins(y: S.System, acts: seq<Action>, id: nat)
    requires Fresh(y) && Allowed(y, acts)
    ensures Origins(y, acts, id)
    decreases |acts|
  {
    if acts == [] {
      hide SystemOk, Balance, CreatedAt, JoinedAt;
      FreshOk(y, NoOne);
    } else {
      var n := |acts| - 1;
      var mid, a := After(y, acts[..n]), acts[n];
      EveryMatchHasOrigins(y, acts[..n], id);
      BooksBalance(y, acts[..n], NoOne);
      hide Fresh, SystemOk, Origins, Admissible, Registered, Next, Windfalls, Balance, Owed, MatchAt;
      if Next(mid, a).Err? { OriginsStay(y, acts, id); }
      else if a.CreateMatch? && a.matchId == id { OriginsOfCreation(y, acts, id); }
      else if a.JoinMatch? && a.matchId == id { OriginsOfJoin(y, acts, id); }
      else {
        OriginsElsewhere(mid, a, id);
        OriginsStay(y, acts, id);
      }
    }
  }
}
