/**
 Which match a stored hash result belongs to. Results are kept by match id and player and are never cleared,
 and an untouched slot can be joined, so a result can be older than the match it later decides. It never is exactly
 when nobody has a result stored under the id at the creation, or no hash result can ever decide the match.
 */
module EscrowHashes {
  import opened Wrappers
  import opened Sums
  import opened EscrowTypes
  import R = RegistrySpec
  import opened RegistrySpec
  import S = SettlementSpec
  import opened EscrowAccounts
  import opened EscrowSteps
  import opened EscrowRuns
  import opened EscrowRelease
  import opened EscrowUnregistered

  /** `who` hands in a result for match `id`. */
  ghost predicate Submits(y: S.System, a: Action, id: nat, who: Address) {
    a.SubmitHashResult? && a.matchId == id && a.sender == who && Next(y, a).Ok?
  }

  /** The last result `who` hands in for match `id` during the run, if there is one. */
  ghost function LastSubmission(y: S.System, acts: seq<Action>, id: nat, who: Address): Option<HashResult>
    decreases |acts|
  {
    if acts == [] then None
    else
      var n := |acts| - 1;
      if Submits(After(y, acts[..n]), acts[n], id, who) then Some(acts[n].result)
      else LastSubmission(y, acts[..n], id, who)
  }

  lemma {:induction false} PayoutKeepsResults(y: S.System, now: nat, id: nat, outcome: OutcomeCode, hash: int)
    ensures var r := S.Settle(y, now, id, outcome, hash);
      r.Ok? ==> r.value.desk.rtResults == y.desk.rtResults
  {
    hide R.SettleMatch, S.Split;
  }

  lemma {:induction false} OtherStepsKeepResults(y: S.System, a: Action)
    requires !a.SubmitHashResult?
    ensures Then(y, a).desk.rtResults == y.desk.rtResults
  {
    hide R.SettleMatch, S.Settle, UnsetGame, UnsetMatch;
    match a {
      case SubmitAsyncResult(_, now, m, result, _) =>
        PayoutKeepsResults(y, now, m, result.outcome, result.transcriptHash);
      case ResolveDispute(_, now, m, outcome) => PayoutKeepsResults(y, now, m, outcome, 0);
      case _ =>
    }
  }

  lemma {:induction false} SubmissionWritesOne(y: S.System, a: Action)
    requires a.SubmitHashResult? && Next(y, a).Ok?
    ensures Next(y, a).value.desk.rtResults == Noted(y, a.sender, a.matchId, a.result).desk.rtResults
  {
    hide R.SettleMatch, S.Settle, UnsetGame, UnsetMatch, UnsetResult;
    PayoutKeepsResults(Noted(y, a.sender, a.matchId, a.result), a.now, a.matchId, a.result.outcome,
      a.result.transcriptHash);
  }

  /** A stored result changes only when its player hands in another, and then it is that one. */
  lemma {:induction false} StoredAfterStep(y: S.System, a: Action, id: nat, who: Address)
    ensures S.ResultOf(Then(y, a).desk, id, who) ==
      if Submits(y, a, id, who) then a.result else S.ResultOf(y.desk, id, who)
  {
    hide Next, UnsetResult;
    if !a.SubmitHashResult? { OtherStepsKeepResults(y, a); }
    else if Next(y, a).Ok? { SubmissionWritesOne(y, a); }
  }

  /** What is stored after a run is the last submission of the run, or what was stored before it. */
  lemma {:induction false} StoredAfterRun(y: S.System, acts: seq<Action>, id: nat, who: Address)
    ensures S.ResultOf(After(y, acts).desk, id, who) ==
      match LastSubmission(y, acts, id, who)
      case Some(r) => r
      case None => S.ResultOf(y.desk, id, who)
    decreases |acts|
  {
    if acts != [] {
      var n := |acts| - 1;
      hide Then, Submits, S.ResultOf;
      StoredAfterRun(y, acts[..n], id, who);
      StoredAfterStep(After(y, acts[..n]), acts[n], id, who);
    }
  }

  // ---------- which result a decision weighs ----------

  /** The step takes the match out of READY by a hash result. */
  ghost predicate Decides(y: S.System, a: Action, id: nat) {
    && a.SubmitHashResult? && a.matchId == id && Next(y, a).Ok?
    && MatchAt(y.reg, id).state == Ready && MatchAt(Next(y, a).value.reg, id).state != Ready
  }

  predicate Agree(r: HashResult, s: HashResult) {
    r.outcome == s.outcome && r.transcriptHash == s.transcriptHash
  }

  lemma {:induction false} DecidesAgainst(y: S.System, a: Action, id: nat)
    requires SystemOk(y) && Decides(y, a, id) && MatchAt(y.reg, id).playerA != NoOne
    ensures var m := MatchAt(y.reg, id);
      var weighed := S.ResultOf(y.desk, id, Opponent(m, a.sender));
      && Opponent(m, a.sender) != NoOne && weighed.outcome != NoResult
      && MatchAt(Next(y, a).value.reg, id).state == if Agree(a.result, weighed) then Settled else Disputed
  {
    var m := MatchAt(y.reg, id);
    assert MatchOk(y.reg.nextGameId, m);
    var noted := Noted(y, a.sender, id, a.result);
    assert S.ResultOf(noted.desk, id, Opponent(m, a.sender)) == S.ResultOf(y.desk, id, Opponent(m, a.sender));
    hide RegistryOk, R.SettleMatch, S.Split, UnsetMatch, UnsetGame, UnsetResult;
    HashEntitled(y, a, id);
  }

  /** Once created, a match keeps its first player and its game. */
  lemma {:induction false} CreatedStays(y: S.System, a: Action, id: nat)
    requires SystemOk(y) && MatchAt(y.reg, id).playerA != NoOne
    ensures MatchAt(Then(y, a).reg, id).playerA == MatchAt(y.reg, id).playerA
    ensures MatchAt(Then(y, a).reg, id).gameId == MatchAt(y.reg, id).gameId
  {
    hide RegistryOk, Surplus, Outstanding;
    if Next(y, a).Ok? {
      if !Names(a, id) { OtherMatchesStay(y, a, id); }
      else if a.SubmitAsyncResult? || a.SubmitHashResult? || a.ResolveDispute? { JudgedBooks(y, a, id); }
    }
  }

  lemma {:induction false} CreatedStaysInRun(y: S.System, acts: seq<Action>, id: nat)
    requires SystemOk(y) && Allowed(y, acts) && MatchAt(y.reg, id).playerA != NoOne
    ensures MatchAt(After(y, acts).reg, id).playerA == MatchAt(y.reg, id).playerA
    decreases |acts|
  {
    if acts != [] {
      var n := |acts| - 1;
      CreatedStaysInRun(y, acts[..n], id);
      RunKeeps(y, acts[..n], NoOne);
      hide SystemOk, MatchAt, Then;
      CreatedStays(After(y, acts[..n]), acts[n], id);
    }
  }

  /**
   A hash submission that decides a match weighs the opponent's stored result: the last one the opponent has
   handed in since `y` (the creation, say), or else the one that was stored at `y`. Agreement settles the
   match, disagreement disputes it.
   */
  lemma {:induction false} WhoseResultDecides(y: S.System, acts: seq<Action>, a: Action, id: nat)
    requires SystemOk(y) && Allowed(y, acts) && MatchAt(y.reg, id).playerA != NoOne
    requires Decides(After(y, acts), a, id)
    ensures var z := After(y, acts);
      var other := Opponent(MatchAt(z.reg, id), a.sender);
      var weighed :=
        match LastSubmission(y, acts, id, other)
        case Some(r) => r
        case None => S.ResultOf(y.desk, id, other);
      && other != NoOne && weighed == S.ResultOf(z.desk, id, other) && weighed.outcome != NoResult
      && MatchAt(Next(z, a).value.reg, id).state == if Agree(a.result, weighed) then Settled else Disputed
  {
    var z := After(y, acts);
    RunKeeps(y, acts, NoOne);
    CreatedStaysInRun(y, acts, id);
    StoredAfterRun(y, acts, id, Opponent(MatchAt(z.reg, id), a.sender));
    hide After, Allowed, SystemOk, Decides, S.ResultOf, MatchAt, Next, Agree;
    DecidesAgainst(z, a, id);
  }

  // ---------- runs one after the other ----------

  lemma {:induction false} AfterBoth(y: S.System, p: seq<Action>, q: seq<Action>)
    ensures After(y, p + q) == After(After(y, p), q)
    decreases |q|
  {
    if q == [] {
      assert p + q == p;
    } else {
      var n := |q| - 1;
      assert (p + q)[..|p + q| - 1] == p + q[..n];
      hide Then;
      AfterBoth(y, p, q[..n]);
    }
  }

  lemma {:induction false} AllowedBoth(y: S.System, p: seq<Action>, q: seq<Action>)
    requires Allowed(y, p) && Allowed(After(y, p), q)
    ensures Allowed(y, p + q)
    decreases |q|
  {
    if q == [] {
      assert p + q == p;
    } else {
      var n := |q| - 1;
      assert (p + q)[..|p + q| - 1] == p + q[..n];
      hide After, Admissible, Registered;
      AllowedBoth(y, p, q[..n]);
      AfterBoth(y, p, q[..n]);
    }
  }

  /** The last submission of two runs is that of the second when the first has none. */
  lemma {:induction false} LastOfBoth(y: S.System, p: seq<Action>, q: seq<Action>, id: nat, who: Address)
    requires LastSubmission(y, p, id, who).None?
    ensures LastSubmission(y, p + q, id, who) == LastSubmission(After(y, p), q, id, who)
    decreases |q|
  {
    if q == [] {
      assert p + q == p;
    } else {
      var n := |q| - 1;
      assert (p + q)[..|p + q| - 1] == p + q[..n];
      hide After, Submits;
      LastOfBoth(y, p, q[..n], id, who);
      AfterBoth(y, p, q[..n]);
    }
  }

  lemma {:induction false} NothingHandedIn(y: S.System, acts: seq<Action>, id: nat, who: Address)
    requires forall i :: 0 <= i < |acts| ==> !acts[i].SubmitHashResult?
    ensures LastSubmission(y, acts, id, who).None?
    decreases |acts|
  {
    if acts != [] {
      hide After;
      NothingHandedIn(y, acts[..|acts| - 1], id, who);
    }
  }

  // ---------- when every decision weighs a result of the match's own ----------

  /** Every later decision by hash results weighs one that the opponent has handed in since `y`. */
  ghost predicate OwnResultsOnly(y: S.System, id: nat) {
    forall acts, a :: Allowed(y, acts) && Admissible(After(y, acts), a) && Decides(After(y, acts), a, id) ==>
      LastSubmission(y, acts, id, Opponent(MatchAt(After(y, acts).reg, id), a.sender)).Some?
  }

  /** No account has a result stored under the match id. */
  ghost predicate NoneStored(y: S.System, id: nat) {
    forall who :: who != NoOne ==> S.ResultOf(y.desk, id, who).outcome == NoResult
  }

  /** The game has hash agreement and somebody can join, or the game is still to be registered. */
  predicate HashPossible(s: Registry, m: Match) {
    m.gameId >= s.nextGameId
    || (GameAt(s, m.gameId).mode == HashAgree && (TokenOf(s, m) == NoOne || m.stakeAmount > 0))
  }

  lemma {:induction false} NoneStoredSuffices(y: S.System, id: nat)
    requires SystemOk(y) && MatchAt(y.reg, id).playerA != NoOne && NoneStored(y, id)
    ensures OwnResultsOnly(y, id)
  {
    hide SystemOk, Allowed, After, Admissible, Decides, MatchAt, S.ResultOf, Agree, Next, Opponent;
    forall acts, a | Allowed(y, acts) && Admissible(After(y, acts), a) && Decides(After(y, acts), a, id)
      ensures LastSubmission(y, acts, id, Opponent(MatchAt(After(y, acts).reg, id), a.sender)).Some?
    {
      WhoseResultDecides(y, acts, a, id);
    }
  }

  /** `g` is registered in both and keeps its mode and its token. */
  ghost predicate SameTerms(s: Registry, s': Registry, g: nat) {
    && g < s'.nextGameId && GameAt(s', g).mode == GameAt(s, g).mode
    && GameAt(s', g).stakeToken == GameAt(s, g).stakeToken
  }

  lemma {:induction false} JudgedKeepsGames(y: S.System, a: Action)
    requires (a.SubmitAsyncResult? || a.SubmitHashResult? || a.ResolveDispute?) && Next(y, a).Ok?
    ensures Next(y, a).value.reg.nextGameId == y.reg.nextGameId && Next(y, a).value.reg.games == y.reg.games
  {
    hide S.Split, R.CreditAll, R.FeeCredit, R.FeePot, UnsetGame, UnsetMatch, UnsetResult;
  }

  lemma {:induction false} GameTransactionStays(y: S.System, a: Action, g: nat)
    requires g < y.reg.nextGameId && Next(y, a).Ok?
    requires a.RegisterGame? || a.SetStudioFee? || a.SetMatchTimeout? || a.UpdateGameVerifiers?
    ensures SameTerms(y.reg, Next(y, a).value.reg, g)
  {
    hide UnsetGame, Listed, VerifiersOf;
  }

  lemma {:induction false} OtherTransactionStays(y: S.System, a: Action)
    requires !a.RegisterGame? && !a.SetStudioFee? && !a.SetMatchTimeout? && !a.UpdateGameVerifiers? && Next(y, a).Ok?
    ensures Next(y, a).value.reg.nextGameId == y.reg.nextGameId && Next(y, a).value.reg.games == y.reg.games
  {
    hide S.SubmitAsyncResult, S.SubmitHashResult, S.ResolveDispute, R.CreditAll, R.FeeCredit, R.FeePot, Credit,
      UnsetGame, UnsetMatch;
    if a.SubmitAsyncResult? || a.SubmitHashResult? || a.ResolveDispute? { JudgedKeepsGames(y, a); }
  }

  /** A registered game keeps its mode and its token. */
  lemma {:induction false} GameStays(y: S.System, a: Action, g: nat)
    requires g < y.reg.nextGameId
    ensures SameTerms(y.reg, Then(y, a).reg, g)
  {
    hide Next, GameAt;
    if Next(y, a).Ok? {
      if a.RegisterGame? || a.SetStudioFee? || a.SetMatchTimeout? || a.UpdateGameVerifiers? {
        GameTransactionStays(y, a, g);
      } else {
        OtherTransactionStays(y, a);
        SameGames(y.reg, Next(y, a).value.reg, g);
      }
    }
  }

  /** The match will never be decided by hash results: wrong mode, or a token stake nobody can match. */
  ghost predicate Undecidable(s: Registry, id: nat) {
    var m := MatchAt(s, id);
    && m.playerA != NoOne && m.gameId < s.nextGameId
    && (GameAt(s, m.gameId).mode != HashAgree || (TokenOf(s, m) != NoOne && m.stakeAmount == 0 && m.state != Ready))
  }

  lemma {:induction false} UndecidableStays(y: S.System, a: Action, id: nat)
    requires SystemOk(y) && Admissible(y, a) && Undecidable(y.reg, id)
    ensures Undecidable(Then(y, a).reg, id)
  {
    GameStays(y, a, MatchAt(y.reg, id).gameId);
    CreatedStays(y, a, id);
    hide RegistryOk, R.SettleMatch, Surplus, Outstanding;
    if Next(y, a).Ok? {
      if !Names(a, id) { OtherMatchesStay(y, a, id); }
      else if a.SubmitAsyncResult? || a.SubmitHashResult? || a.ResolveDispute? { JudgedBooks(y, a, id); }
    }
  }

  lemma {:induction false} UndecidableInRun(y: S.System, acts: seq<Action>, id: nat)
    requires SystemOk(y) && Allowed(y, acts) && Undecidable(y.reg, id)
    ensures Undecidable(After(y, acts).reg, id)
    decreases |acts|
  {
    if acts != [] {
      var n := |acts| - 1;
      UndecidableInRun(y, acts[..n], id);
      RunKeeps(y, acts[..n], NoOne);
      hide SystemOk, Undecidable, Then, Admissible;
      UndecidableStays(After(y, acts[..n]), acts[n], id);
    }
  }

  lemma {:induction false} UndecidableNow(y: S.System, a: Action, id: nat)
    requires Undecidable(y.reg, id)
    ensures !Decides(y, a, id)
  {
    hide S.Settle, S.Dispute;
  }

  lemma {:induction false} NeverDecided(y: S.System, id: nat)
    requires SystemOk(y) && Undecidable(y.reg, id)
    ensures OwnResultsOnly(y, id)
  {
    hide SystemOk, Undecidable, Allowed, After, Decides, Admissible;
    forall acts, a | Allowed(y, acts) ensures !Decides(After(y, acts), a, id) {
      UndecidableInRun(y, acts, id);
      UndecidableNow(After(y, acts), a, id);
    }
  }

  // ---------- how an older result comes to decide ----------

  function JoinOf(s: Registry, id: nat, who: Address): Action {
    var m := MatchAt(s, id);
    if TokenOf(s, m) == NoOne then JoinMatch(who, id, m.stakeAmount, 0) else JoinMatch(who, id, 0, m.stakeAmount)
  }

  lemma {:induction false} JoinWorks(y: S.System, id: nat, who: Address)
    requires !y.reg.paused && MatchAt(y.reg, id).state == Open && who != NoOne && who != MatchAt(y.reg, id).playerA
    requires TokenOf(y.reg, MatchAt(y.reg, id)) == NoOne || MatchAt(y.reg, id).stakeAmount > 0
    ensures var a, m := JoinOf(y.reg, id, who), MatchAt(y.reg, id);
      && Admissible(y, a) && Registered(y, a) && a.JoinMatch? && Then(y, a).desk == y.desk
      && MatchAt(Then(y, a).reg, id) == m.(stakeAmountB := m.stakeAmount, playerB := who, state := Ready)
      && Then(y, a).reg.games == y.reg.games
  {
    hide UnsetMatch, UnsetGame, GameAt;
  }

  /** On a ready match, a result that differs from the opponent's stored one opens a dispute. */
  lemma {:induction false} DisagreementDecides(y: S.System, id: nat, who: Address, now: nat, result: HashResult)
    requires !y.desk.paused && y.desk.self == y.reg.settlement
    requires var m := MatchAt(y.reg, id);
      && m.state == Ready && GameAt(y.reg, m.gameId).mode == HashAgree && m.playerA != m.playerB
      && (who == m.playerA || who == m.playerB)
      && S.ResultOf(y.desk, id, Opponent(m, who)).outcome != NoResult
      && !Agree(result, S.ResultOf(y.desk, id, Opponent(m, who))) && result.matchId == id
    ensures Decides(y, SubmitHashResult(who, now, id, result), id)
    ensures MatchAt(Then(y, SubmitHashResult(who, now, id, result)).reg, id).state == Disputed
  {
    var m := MatchAt(y.reg, id);
    var noted := Noted(y, who, id, result);
    assert S.ResultOf(noted.desk, id, Opponent(m, who)) == S.ResultOf(y.desk, id, Opponent(m, who));
    hide S.Settle, UnsetMatch, UnsetGame, UnsetResult;
  }

  /** On a ready match, a result that agrees with the opponent's stored one settles when the rates fit. */
  lemma {:induction false} AgreementSettles(y: S.System, id: nat, who: Address, now: nat, result: HashResult)
    requires !y.desk.paused && y.desk.self == y.reg.settlement
    requires var m := MatchAt(y.reg, id);
      && m.state == Ready && GameAt(y.reg, m.gameId).mode == HashAgree && m.playerA != m.playerB
      && (who == m.playerA || who == m.playerB)
      && S.ResultOf(y.desk, id, Opponent(m, who)).outcome != NoResult
      && Agree(result, S.ResultOf(y.desk, id, Opponent(m, who))) && result.matchId == id
    ensures RatesFit(y, id) ==> MatchAt(Then(y, SubmitHashResult(who, now, id, result)).reg, id).state == Settled
  {
    NotedVerdict(y, SubmitHashResult(who, now, id, result), id);
    hide S.Settle, S.Dispute, Next, UnsetMatch, UnsetGame, UnsetResult, S.ResultOf;
    SettlesIff(Noted(y, who, id, result), now, id, result.outcome, result.transcriptHash);
  }

  lemma {:induction false} SettingsStay(y: S.System, a: Action)
    requires a.JoinMatch?
    ensures Then(y, a).reg.settlement == y.reg.settlement && Then(y, a).reg.paused == y.reg.paused
  {
    hide UnsetMatch, UnsetGame;
  }

  /** A third account joins, or the one with the stored result; the other player then disagrees with it. */
  lemma {:induction false} StoredDecides(y: S.System, id: nat, who: Address)
    requires SystemOk(y) && !y.reg.paused && !y.desk.paused
    requires who != NoOne && S.ResultOf(y.desk, id, who).outcome != NoResult
    requires var m := MatchAt(y.reg, id);
      && m.state == Open && m.playerA != NoOne && GameAt(y.reg, m.gameId).mode == HashAgree
      && (TokenOf(y.reg, m) == NoOne || m.stakeAmount > 0)
    ensures !OwnResultsOnly(y, id)
  {
    var m, stored := MatchAt(y.reg, id), S.ResultOf(y.desk, id, who);
    var joiner: Address := if who != m.playerA then who else if who == 1 then 2 else 1;
    var decider := if who != m.playerA then m.playerA else joiner;
    var join := JoinOf(y.reg, id, joiner);
    var acts := [join];
    hide RegistryOk, Next, MatchAt, GameAt, S.ResultOf, UnsetResult, JoinOf;
    JoinWorks(y, id, joiner);
    var z := Then(y, join);
    assert acts[..0] == [];
    assert After(y, acts) == z && Allowed(y, acts);
    assert z.reg.settlement == y.reg.settlement by { RunKeeps(y, acts, NoOne); }
    NothingHandedIn(y, acts, id, who);
    var result := HashResult(id, stored.outcome, stored.transcriptHash + 1);
    assert GameAt(z.reg, m.gameId) == GameAt(y.reg, m.gameId) by { SameGames(y.reg, z.reg, m.gameId); }
    DisagreementDecides(z, id, decider, 0, result);
    assert Admissible(z, SubmitHashResult(decider, 0, id, result));
    assert Opponent(MatchAt(z.reg, id), decider) == who;
  }

  lemma {:induction false} SameGames(s: Registry, s': Registry, g: nat)
    requires s'.games == s.games
    ensures GameAt(s', g) == GameAt(s, g)
  {
  }

  /** What can go wrong after a run without hash results can go wrong before it. */
  lemma {:induction false} BrokenBefore(y: S.System, p: seq<Action>, id: nat)
    requires Allowed(y, p) && (forall i :: 0 <= i < |p| ==> !p[i].SubmitHashResult?)
    requires !OwnResultsOnly(After(y, p), id)
    ensures !OwnResultsOnly(y, id)
  {
    var z := After(y, p);
    hide Allowed, After, Admissible, Decides, LastSubmission, MatchAt, Opponent;
    var q, a :| Allowed(z, q) && Admissible(After(z, q), a) && Decides(After(z, q), a, id)
      && LastSubmission(z, q, id, Opponent(MatchAt(After(z, q).reg, id), a.sender)).None?;
    var other := Opponent(MatchAt(After(z, q).reg, id), a.sender);
    AfterBoth(y, p, q);
    AllowedBoth(y, p, q);
    NothingHandedIn(y, p, id, other);
    LastOfBoth(y, p, q, id, other);
  }

  /** The same on a game that is still to be registered: it can become a native game with hash agreement. */
  lemma {:induction false} UnregisteredDecides(y: S.System, id: nat, who: Address)
    requires SystemOk(y) && !y.reg.paused && !y.desk.paused
    requires who != NoOne && S.ResultOf(y.desk, id, who).outcome != NoResult
    requires var m := MatchAt(y.reg, id);
      m.state == Open && m.playerA != NoOne && m.gameId >= y.reg.nextGameId
    ensures !OwnResultsOnly(y, id)
  {
    hide SystemOk, Allowed, After, Registrations, OwnResultsOnly, GameAt, S.ResultOf, Surplus, Windfalls, UnsetMatch;
    var m := MatchAt(y.reg, id);
    var regs := Registrations(HashAgree, NoOne, m.gameId - y.reg.nextGameId + 1);
    RegisterMany(y, HashAgree, NoOne, |regs|);
    RunKeeps(y, regs, NoOne);
    StoredDecides(After(y, regs), id, who);
    BrokenBefore(y, regs, id);
  }

  lemma {:induction false} Unpaused(y: S.System)
    ensures var acts := [SetPaused(1, false, false)];
      && Allowed(y, acts)
      && After(y, acts) == y.(reg := y.reg.(paused := false), desk := y.desk.(paused := false))
  {
    var acts := [SetPaused(1, false, false)];
    assert acts[..0] == [];
  }

  lemma {:induction false} StoredBreaks(y: S.System, id: nat, who: Address)
    requires SystemOk(y) && MatchAt(y.reg, id).state == Open && MatchAt(y.reg, id).playerA != NoOne
    requires who != NoOne && S.ResultOf(y.desk, id, who).outcome != NoResult
    requires HashPossible(y.reg, MatchAt(y.reg, id))
    ensures !OwnResultsOnly(y, id)
  {
    var acts := [SetPaused(1, false, false)];
    Unpaused(y);
    RunKeeps(y, acts, NoOne);
    hide SystemOk, Allowed, OwnResultsOnly;
    var z := After(y, acts);
    hide After;
    if MatchAt(y.reg, id).gameId >= y.reg.nextGameId { UnregisteredDecides(z, id, who); }
    else { StoredDecides(z, id, who); }
    BrokenBefore(y, acts, id);
  }

  /**
   From a state in which the match is open, every decision by hash results weighs a result handed in since, if
   and only if nobody has a result stored under its id, or it can never be decided that way at all.
   */
  lemma {:induction false} OwnIffNoneStored(y: S.System, id: nat)
    requires SystemOk(y) && MatchAt(y.reg, id).state == Open && MatchAt(y.reg, id).playerA != NoOne
    ensures OwnResultsOnly(y, id) <==> NoneStored(y, id) || !HashPossible(y.reg, MatchAt(y.reg, id))
  {
    hide SystemOk, OwnResultsOnly, MatchAt, GameAt, S.ResultOf;
    if NoneStored(y, id) { NoneStoredSuffices(y, id); }
    else if !HashPossible(y.reg, MatchAt(y.reg, id)) { NeverDecided(y, id); }
    else {
      var who :| who != NoOne && S.ResultOf(y.desk, id, who).outcome != NoResult;
      StoredBreaks(y, id, who);
    }
  }

  lemma {:induction false} CreationWrites(y: S.System, a: Action)
    requires a.CreateMatch? && Admissible(y, a) && Next(y, a).Ok?
    ensures var y' := Next(y, a).value;
      && y'.desk == y.desk && y'.reg.games == y.reg.games && y'.reg.nextGameId == y.reg.nextGameId
      && var m := MatchAt(y'.reg, a.matchId);
         && m.gameId == a.gameId && m.playerA == a.sender != NoOne && m.state == Open
         && (GameAt(y.reg, a.gameId).stakeToken != NoOne ==> m.stakeAmount == a.received)
  {
    hide UnsetMatch, UnsetGame;
  }

  /**
   What a caller of `createMatch` can check beforehand: the match will be decided by its own results only, if and
   only if nobody has a result stored under the id, or the game is registered and judged by verifiers, or its
   token delivered nothing, so that nobody can ever join.
   */
  lemma {:induction false} CreatedIffNoneStored(y: S.System, a: Action)
    requires SystemOk(y) && a.CreateMatch? && Admissible(y, a) && Registered(y, a) && Next(y, a).Ok?
    ensures var g := GameAt(y.reg, a.gameId);
      OwnResultsOnly(Next(y, a).value, a.matchId)
      <==> (NoneStored(y, a.matchId)
            || (a.gameId < y.reg.nextGameId && (g.mode != HashAgree || (g.stakeToken != NoOne && a.received == 0))))
  {
    var y' := Next(y, a).value;
    StepKeeps(y, a, NoOne);
    CreationWrites(y, a);
    assert GameAt(y'.reg, a.gameId) == GameAt(y.reg, a.gameId) by { SameGames(y.reg, y'.reg, a.gameId); }
    hide SystemOk, Next, OwnResultsOnly, S.ResultOf, Admissible, Windfall, Surplus, UnsetMatch, UnsetGame;
    OwnIffNoneStored(y', a.matchId);
  }

  // ---------- a result older than its match ----------

  /** An account that joins an untouched slot of a native game 0 with hash agreement. */
  ghost predicate EarlyBird(y: S.System, id: nat, who: Address, result: HashResult) {
    && !y.reg.paused && !y.desk.paused && who != NoOne && id !in y.reg.matches
    && GameAt(y.reg, 0).mode == HashAgree && GameAt(y.reg, 0).stakeToken == NoOne
    && result.matchId == id && result.outcome != NoResult
  }

  /** Join the slot, hand in `result`, and have `creator` create the match with the least stake. */
  function EarlyRun(y: S.System, id: nat, who: Address, creator: Address, now: nat, result: HashResult): S.System {
    var submitted := Then(Then(y, JoinMatch(who, id, 0, 0)), SubmitHashResult(who, now, id, result));
    Then(submitted, CreateMatch(creator, now, 0, id, 0, GameAt(y.reg, 0).minStake, 0))
  }

  lemma {:induction false} EarlyJoin(y: S.System, id: nat, who: Address)
    requires !y.reg.paused && who != NoOne && id !in y.reg.matches && GameAt(y.reg, 0).stakeToken == NoOne
    ensures var y' := Then(y, JoinMatch(who, id, 0, 0));
      && MatchAt(y'.reg, id) == Match(0, NoOne, Ready, who, 0, 0, 0)
      && y' == y.(reg := y'.reg) && y'.reg == y.reg.(matches := y'.reg.matches, balances := y'.reg.balances)
  {
    hide UnsetGame;
  }

  lemma {:induction false} EarlySubmission(y: S.System, id: nat, who: Address, now: nat, result: HashResult)
    requires !y.desk.paused && who != NoOne && result.matchId == id
    requires MatchAt(y.reg, id).gameId == 0 && MatchAt(y.reg, id).state == Ready
    requires MatchAt(y.reg, id).playerA == NoOne && MatchAt(y.reg, id).playerB == who
    requires GameAt(y.reg, 0).mode == HashAgree && S.ResultOf(y.desk, id, NoOne).outcome == NoResult
    ensures var y' := Then(y, SubmitHashResult(who, now, id, result));
      y' == y.(desk := y.desk.(rtResults := y'.desk.rtResults)) && S.ResultOf(y'.desk, id, who) == result
  {
    hide S.Settle, S.Dispute, UnsetGame, UnsetMatch;
  }

  lemma {:induction false} LateCreation(y: S.System, id: nat, creator: Address, now: nat)
    requires !y.reg.paused && MatchAt(y.reg, id).playerA == NoOne && GameAt(y.reg, 0).stakeToken == NoOne
    ensures var y' := Then(y, CreateMatch(creator, now, 0, id, 0, GameAt(y.reg, 0).minStake, 0));
      && y' == y.(reg := y'.reg) && y'.reg == y.reg.(matches := y'.reg.matches, balances := y'.reg.balances)
      && MatchAt(y'.reg, id) == Match(0, creator, Open, NoOne, now, GameAt(y.reg, 0).minStake, 0)
  {
    hide UnsetGame, UnsetMatch;
  }

  /**
   The failing family: join the untouched slot, hand in a result, and let somebody else create the match.
   The match is open and the joiner's result for it is already stored.
   */
  lemma {:induction false} EarlyResultStays(y: S.System, id: nat, who: Address, creator: Address, now: nat,
      result: HashResult)
    requires EarlyBird(y, id, who, result) && creator != NoOne && S.ResultOf(y.desk, id, NoOne).outcome == NoResult
    ensures var z := EarlyRun(y, id, who, creator, now, result);
      && MatchAt(z.reg, id) == Match(0, creator, Open, NoOne, now, GameAt(y.reg, 0).minStake, 0)
      && z.reg.games == y.reg.games && z.reg.settlement == y.reg.settlement && z.desk.self == y.desk.self
      && z.desk.protocolFeeBps == y.desk.protocolFeeBps
      && !z.reg.paused && !z.desk.paused && S.ResultOf(z.desk, id, who) == result
  {
    hide Then, UnsetGame, UnsetMatch;
    var y1 := Then(y, JoinMatch(who, id, 0, 0));
    EarlyJoin(y, id, who);
    EarlySubmission(y1, id, who, now, result);
    LateCreation(Then(y1, SubmitHashResult(who, now, id, result)), id, creator, now);
  }

  /** A ready match of the native game 0 between `who`, whose result is stored, and a creator who has none. */
  ghost predicate Rejoined(y: S.System, id: nat, who: Address, creator: Address, result: HashResult) {
    var m := MatchAt(y.reg, id);
    && !y.desk.paused && y.desk.self == y.reg.settlement && S.ResultOf(y.desk, id, who) == result
    && GameAt(y.reg, 0).mode == HashAgree && m.gameId == 0 && m.state == Ready && m.playerA == creator
    && m.playerB == who
  }

  lemma {:induction false} EarlyRejoin(y: S.System, id: nat, who: Address, creator: Address, now: nat,
      result: HashResult)
    requires SystemOk(y) && EarlyBird(y, id, who, result) && S.ResultOf(y.desk, id, NoOne).outcome == NoResult
    requires creator != NoOne && creator != who
    ensures var z := EarlyRun(y, id, who, creator, now, result);
      var ready := Then(z, JoinOf(z.reg, id, who));
      && Rejoined(ready, id, who, creator, result) && JoinOf(z.reg, id, who).JoinMatch?
      && GameAt(ready.reg, 0) == GameAt(y.reg, 0) && ready.desk.protocolFeeBps == y.desk.protocolFeeBps
  {
    hide EarlyRun, RegistryOk, Then, Next, S.ResultOf, UnsetMatch, UnsetGame, UnsetResult, JoinOf;
    var z := EarlyRun(y, id, who, creator, now, result);
    EarlyResultStays(y, id, who, creator, now, result);
    SameGames(y.reg, z.reg, 0);
    JoinWorks(z, id, who);
    SameGames(z.reg, Then(z, JoinOf(z.reg, id, who)).reg, 0);
    SettingsStay(z, JoinOf(z.reg, id, who));
  }

  /**
   The older result decides: the joiner joins again, this time the created match, and hands in nothing more; the
   creator's first submission already settles the match when it agrees with the older result and the fees allow
   a payout, and disputes it when it does not.
   */
  lemma {:induction false} EarlyResultDecides(y: S.System, id: nat, who: Address, creator: Address, now: nat,
      result: HashResult, own: HashResult)
    requires SystemOk(y) && EarlyBird(y, id, who, result) && S.ResultOf(y.desk, id, NoOne).outcome == NoResult
    requires creator != NoOne && creator != who && own.matchId == id
    ensures var z := EarlyRun(y, id, who, creator, now, result);
      var join, submit := JoinOf(z.reg, id, who), SubmitHashResult(creator, now, id, own);
      var ready := Then(z, join);
      && LastSubmission(z, [join], id, who).None? && MatchAt(ready.reg, id).playerB == who
      && (!Agree(own, result) ==> MatchAt(Then(ready, submit).reg, id).state == Disputed)
      && (Agree(own, result) && GameAt(y.reg, 0).studioFeeBps + y.desk.protocolFeeBps <= S.MaxTotalFeeBps ==>
            MatchAt(Then(ready, submit).reg, id).state == Settled)
  {
    hide EarlyRun, SystemOk, Then, Next, S.ResultOf, UnsetMatch, UnsetGame, UnsetResult, JoinOf, MatchAt, GameAt;
    var z := EarlyRun(y, id, who, creator, now, result);
    var ready := Then(z, JoinOf(z.reg, id, who));
    EarlyRejoin(y, id, who, creator, now, result);
    NothingHandedIn(z, [JoinOf(z.reg, id, who)], id, who);
    if Agree(own, result) { AgreementSettles(ready, id, creator, now, own); }
    else { DisagreementDecides(ready, id, creator, now, own); }
  }
}
