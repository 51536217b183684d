/** Every stake is released exactly once, by someone entitled to release it, and never gets stuck. */
module EscrowRelease {
  import opened Wrappers
  import opened Sums
  import opened EscrowTypes
  import R = RegistrySpec
  import opened RegistrySpec
  import S = SettlementSpec
  import opened EscrowAccounts
  import opened EscrowSteps
  import opened EscrowRuns

  // ---------- the history of one match ----------

  predicate Names(a: Action, id: nat) {
    match a
    case CreateMatch(_, _, _, matchId, _, _, _) => matchId == id
    case JoinMatch(_, matchId, _, _) => matchId == id
    case CancelMatch(_, matchId) => matchId == id
    case ExpireMatch(_, _, matchId) => matchId == id
    case CallSettleMatch(_, matchId, _, _, _, _, _) => matchId == id
    case SubmitAsyncResult(_, _, matchId, _, _) => matchId == id
    case SubmitHashResult(_, _, matchId, _) => matchId == id
    case ResolveDispute(_, _, matchId, _) => matchId == id
    case _ => false
  }

  ghost function TokenAt(y: S.System, id: nat): Address {
    TokenOf(y.reg, MatchAt(y.reg, id))
  }

  /** The credits an action on match `id` creates, measured as the rise of all credits in its token. */
  ghost function CreditedIn(y: S.System, a: Action, id: nat): int {
    if Names(a, id) then Outstanding(Then(y, a).reg, TokenAt(y, id)) - Outstanding(y.reg, TokenAt(y, id)) else 0
  }

  /** The deposit an action makes for match `id`, measured as the rise of the balance. */
  ghost function DepositedIn(y: S.System, a: Action, id: nat): int {
    var y' := Then(y, a);
    if (a.CreateMatch? || a.JoinMatch?) && a.matchId == id
      then Balance(y'.reg, TokenAt(y', id)) - Balance(y.reg, TokenAt(y', id)) else 0
  }

  ghost function Released(y: S.System, acts: seq<Action>, id: nat): int
    decreases |acts|
  {
    if acts == [] then 0
    else
      var n := |acts| - 1;
      Released(y, acts[..n], id) + CreditedIn(After(y, acts[..n]), acts[n], id)
  }

  ghost function Deposited(y: S.System, acts: seq<Action>, id: nat): int
    decreases |acts|
  {
    if acts == [] then 0
    else
      var n := |acts| - 1;
      Deposited(y, acts[..n], id) + DepositedIn(After(y, acts[..n]), acts[n], id)
  }

  /** How a match, its deposits and its releases relate. */
  predicate BookOk(m: Match, deposited: int, released: int) {
    && (Live(m.state) ==> released == 0 && deposited == m.stakeAmount + m.stakeAmountB)
    && (!Live(m.state) ==> released == deposited)
    && (m.playerA == NoOne ==> deposited == 0 && released == 0)
  }

  // ---------- one step ----------

  lemma {:induction false} CreateBooks(y: S.System, a: Action, id: nat)
    requires SystemOk(y) && a.CreateMatch? && a.matchId == id && Next(y, a).Ok?
    ensures CreditedIn(y, a, id) == 0 && MatchAt(y.reg, id).playerA == NoOne
    ensures var m' := MatchAt(Next(y, a).value.reg, id);
      m'.state == Open && m'.playerA == a.sender && DepositedIn(y, a, id) == m'.stakeAmount && m'.stakeAmountB == 0
  {
    hide Total, RegistryOk;
  }

  lemma {:induction false} JoinBooks(y: S.System, a: Action, id: nat)
    requires SystemOk(y) && Admissible(y, a) && a.JoinMatch? && a.matchId == id && Next(y, a).Ok?
    ensures CreditedIn(y, a, id) == 0
    ensures var m, m' := MatchAt(y.reg, id), MatchAt(Next(y, a).value.reg, id);
      && m.state == Open && m'.state == Ready && m'.playerA == m.playerA && m'.stakeAmount == m.stakeAmount
      && DepositedIn(y, a, id) == m'.stakeAmountB && m.stakeAmountB == 0
      && (m.playerA == NoOne ==> m'.stakeAmountB == 0)
  {
    assert MatchOk(y.reg.nextGameId, MatchAt(y.reg, id));
    hide Total, RegistryOk;
  }

  lemma {:induction false} CloseBooks(y: S.System, a: Action, id: nat)
    requires SystemOk(y) && (a.CancelMatch? || a.ExpireMatch?) && a.matchId == id && Next(y, a).Ok?
    ensures var m, m' := MatchAt(y.reg, id), MatchAt(Next(y, a).value.reg, id);
      && Live(m.state) && !Live(m'.state) && m'.playerA == m.playerA
      && CreditedIn(y, a, id) == m.stakeAmount + m.stakeAmountB
  {
    hide RegistryOk, Outstanding, Surplus;
    if a.CancelMatch? { CancelKeeps(y.reg, a.sender, id, TokenAt(y, id)); }
    else { ExpireKeeps(y.reg, a.now, id, TokenAt(y, id)); }
    hide Credit;
  }

  lemma {:induction false} JudgedBooks(y: S.System, a: Action, id: nat)
    requires SystemOk(y) && (a.SubmitAsyncResult? || a.SubmitHashResult? || a.ResolveDispute?) && a.matchId == id
      && Next(y, a).Ok?
    ensures Judged(y, Next(y, a).value, id, TokenAt(y, id))
  {
    var t := TokenAt(y, id);
    hide RegistryOk, Judged, TokenAt;
    match a {
      case SubmitAsyncResult(_, now, _, result, signer) => AsyncJudges(y, now, id, result, signer, t);
      case SubmitHashResult(sender, now, _, result) => HashJudges(y, sender, now, id, result, t);
      case ResolveDispute(sender, now, _, outcome) => ResolveJudges(y, sender, now, id, outcome, t);
    }
  }

  /** A transaction changes only the match it names. */
  lemma {:induction false} OtherMatchesStay(y: S.System, a: Action, id: nat)
    requires SystemOk(y) && Next(y, a).Ok? && !Names(a, id)
    ensures MatchAt(Next(y, a).value.reg, id) == MatchAt(y.reg, id)
  {
    hide RegistryOk;
    if a.SubmitAsyncResult? || a.SubmitHashResult? || a.ResolveDispute? {
      JudgedBooks(y, a, a.matchId);
      hide Next, Surplus, Outstanding;
    }
  }

  lemma {:induction false} StepBooks(y: S.System, a: Action, id: nat, deposited: int, released: int)
    requires SystemOk(y) && Admissible(y, a) && BookOk(MatchAt(y.reg, id), deposited, released)
    ensures BookOk(MatchAt(Then(y, a).reg, id), deposited + DepositedIn(y, a, id), released + CreditedIn(y, a, id))
  {
    hide RegistryOk, Outstanding, Surplus, Balance, MatchAt, UnsetMatch, UnsetGame;
    if Next(y, a).Ok? {
      if !Names(a, id) { OtherMatchesStay(y, a, id); }
      else if a.CreateMatch? { CreateBooks(y, a, id); }
      else if a.JoinMatch? { JoinBooks(y, a, id); }
      else if a.CancelMatch? || a.ExpireMatch? { CloseBooks(y, a, id); }
      else if !a.CallSettleMatch? { JudgedBooks(y, a, id); }
    }
    hide Next, CreditedIn, DepositedIn;
  }

  // ---------- exactly once ----------

  lemma {:induction false} RunBooks(y: S.System, acts: seq<Action>, id: nat)
    requires SystemOk(y) && Allowed(y, acts) && BookOk(MatchAt(y.reg, id), 0, 0)
    ensures BookOk(MatchAt(After(y, acts).reg, id), Deposited(y, acts, id), Released(y, acts, id))
    decreases |acts|
  {
    hide MatchAt, UnsetMatch;
    if acts != [] {
      var n := |acts| - 1;
      RunBooks(y, acts[..n], id);
      RunKeeps(y, acts[..n], NoOne);
      StepBooks(After(y, acts[..n]), acts[n], id, Deposited(y, acts[..n], id), Released(y, acts[..n], id));
      hide SystemOk, Then, BookOk, DepositedIn, CreditedIn, Admissible, Registered;
    }
  }

  lemma {:induction false} UntouchedBook(s: Registry, id: nat)
    requires id !in s.matches
    ensures BookOk(MatchAt(s, id), 0, 0)
  {
  }

  /**
   Over any run from deployment, the credits created for a match total zero while it is open, ready or
   disputed, and exactly its two deposits once it is settled or expired.
   */
  lemma {:induction false} ExactlyOnce(y: S.System, acts: seq<Action>, id: nat)
    requires Fresh(y) && Allowed(y, acts)
    ensures var m := MatchAt(After(y, acts).reg, id);
      && Released(y, acts, id) == (if Live(m.state) then 0 else Deposited(y, acts, id))
      && (Live(m.state) ==> Deposited(y, acts, id) == m.stakeAmount + m.stakeAmountB)
  {
    hide Fresh, After, Allowed, SystemOk, Deposited, Released, MatchAt, UnsetMatch;
    FreshOk(y, NoOne);
    UntouchedBook(y.reg, id);
    RunBooks(y, acts, id);
  }

  // ---------- terminal states are absorbing ----------

  lemma {:induction false} TerminalStep(y: S.System, a: Action, id: nat)
    requires SystemOk(y) && MatchAt(y.reg, id).playerA != NoOne && !Live(MatchAt(y.reg, id).state)
    ensures MatchAt(Then(y, a).reg, id) == MatchAt(y.reg, id)
  {
    hide RegistryOk;
    if Next(y, a).Ok? && !Names(a, id) { OtherMatchesStay(y, a, id); }
  }

  /** Once settled or expired, a created match never changes again. */
  lemma {:induction false} TerminalIsFinal(y: S.System, acts: seq<Action>, id: nat)
    requires SystemOk(y) && Allowed(y, acts)
    requires MatchAt(y.reg, id).playerA != NoOne && !Live(MatchAt(y.reg, id).state)
    ensures MatchAt(After(y, acts).reg, id) == MatchAt(y.reg, id)
    decreases |acts|
  {
    if acts != [] {
      var n := |acts| - 1;
      TerminalIsFinal(y, acts[..n], id);
      RunKeeps(y, acts[..n], NoOne);
      hide SystemOk, MatchAt;
      TerminalStep(After(y, acts[..n]), acts[n], id);
    }
  }

  // ---------- who may release ----------

  /** Match `id` of game `g` may leave READY or DISPUTED by action `a`. */
  ghost predicate Entitled(y: S.System, y': S.System, a: Action, id: nat) {
    var m, m' := MatchAt(y.reg, id), MatchAt(y'.reg, id);
    var g := GameAt(y.reg, m.gameId);
    match a
    case SubmitAsyncResult(_, _, _, _, signer) =>
      m.state == Ready && g.mode == AsyncVerifier && signer in g.verifiers && m'.state == Settled
    case SubmitHashResult(sender, _, _, _) =>
      var ra, rb := S.ResultOf(y'.desk, id, m.playerA), S.ResultOf(y'.desk, id, m.playerB);
      && m.state == Ready && g.mode == HashAgree && (sender == m.playerA || sender == m.playerB)
      && (m'.state == Settled ==> ra.outcome == rb.outcome != NoResult && ra.transcriptHash == rb.transcriptHash)
      && (m'.state != Settled ==>
        m'.state == Disputed && (ra.outcome != rb.outcome || ra.transcriptHash != rb.transcriptHash))
    case ResolveDispute(sender, _, _, outcome) =>
      m.state == Disputed && sender == g.arbiter && outcome != NoResult && m'.state == Settled
    case ExpireMatch(_, now, _) =>
      m'.state == Expired && now >= m.createdAt + g.matchTimeout * (if m.state == Disputed then 3 else 1)
    case _ => false
  }

  lemma {:induction false} HashEntitled(y: S.System, a: Action, id: nat)
    requires SystemOk(y) && a.SubmitHashResult? && a.matchId == id && Next(y, a).Ok?
    requires MatchAt(y.reg, id).playerA != NoOne
    requires MatchAt(Next(y, a).value.reg, id).state != MatchAt(y.reg, id).state
    ensures Entitled(y, Next(y, a).value, a, id)
  {
    var noted := Noted(y, a.sender, id, a.result);
    var m := MatchAt(y.reg, id);
    var other := S.ResultOf(noted.desk, id, Opponent(m, a.sender));
    assert MatchOk(y.reg.nextGameId, m);
    assert S.ResultOf(noted.desk, id, a.sender) == a.result;
    assert other.outcome != NoResult;
    if a.result.outcome == other.outcome && a.result.transcriptHash == other.transcriptHash {
      SettleJudges(noted, a.now, id, a.result.outcome, a.result.transcriptHash, NoOne);
    } else {
      DisputeKeeps(noted, id, NoOne);
    }
    hide RegistryOk, Surplus, Outstanding, R.SettleMatch, S.Split;
  }

  lemma {:induction false} RulingEntitled(y: S.System, a: Action, id: nat)
    requires SystemOk(y) && (a.SubmitAsyncResult? || a.ResolveDispute?) && a.matchId == id && Next(y, a).Ok?
    ensures Entitled(y, Next(y, a).value, a, id)
  {
    var m := MatchAt(y.reg, id);
    assert GameOk(y.reg, m.gameId);
    match a {
      case SubmitAsyncResult(_, now, _, result, signer) =>
        SettleJudges(y, now, id, result.outcome, result.transcriptHash, NoOne);
      case ResolveDispute(_, now, _, outcome) => SettleJudges(y, now, id, outcome, 0, NoOne);
    }
    hide RegistryOk, Surplus, Outstanding, R.SettleMatch;
  }

  /**
   A match with two players leaves READY only by a listed verifier's result, by the two players'
   submissions (settled when they agree, disputed when they do not) or by expiry, and leaves
   DISPUTED only by the game's arbiter or by expiry after three timeouts.
   */
  lemma {:induction false} OnlyTheEntitledRelease(y: S.System, a: Action, id: nat)
    requires SystemOk(y) && Admissible(y, a) && MatchAt(y.reg, id).playerA != NoOne
    requires MatchAt(y.reg, id).state == Ready || MatchAt(y.reg, id).state == Disputed
    requires MatchAt(Then(y, a).reg, id).state != MatchAt(y.reg, id).state
    ensures Entitled(y, Then(y, a), a, id)
  {
    hide RegistryOk;
    if !Names(a, id) { OtherMatchesStay(y, a, id); assert false; }
    else if a.SubmitHashResult? { HashEntitled(y, a, id); }
    else if a.SubmitAsyncResult? || a.ResolveDispute? { RulingEntitled(y, a, id); }
  }

  // ---------- when a verdict settles ----------

  /** The two rates leave the players at least 92% of the pool. */
  predicate RatesFit(y: S.System, id: nat) {
    GameAt(y.reg, MatchAt(y.reg, id).gameId).studioFeeBps + y.desk.protocolFeeBps <= S.MaxTotalFeeBps
  }

  lemma {:induction false} SettlesIff(y: S.System, now: nat, id: nat, outcome: OutcomeCode, hash: int)
    requires y.desk.self == y.reg.settlement && Live(MatchAt(y.reg, id).state)
    ensures S.Settle(y, now, id, outcome, hash).Ok? <==> outcome != NoResult && RatesFit(y, id)
    ensures S.Settle(y, now, id, outcome, hash).Ok? ==>
      MatchAt(S.Settle(y, now, id, outcome, hash).value.reg, id).state == Settled
  {
    S.SplitConserves(MatchAt(y.reg, id), GameAt(y.reg, MatchAt(y.reg, id).gameId), y.desk.protocolFeeBps, outcome);
    hide S.Split, R.CreditAll, R.FeeCredit, R.FeePot, UnsetMatch, UnsetGame, Live;
  }

  /**
   `a` brings a verdict of `outcome` on match `id`: a listed verifier's result on a READY match, a submission that
   agrees with the opponent's stored result, or the arbiter's ruling on a dispute.
   */
  ghost predicate Verdict(y: S.System, a: Action, id: nat, outcome: OutcomeCode) {
    var m := MatchAt(y.reg, id);
    var g := GameAt(y.reg, m.gameId);
    match a
    case SubmitAsyncResult(_, _, matchId, result, signer) =>
      && matchId == result.matchId == id && outcome == result.outcome && m.state == Ready
      && g.mode == AsyncVerifier && signer in g.verifiers
    case SubmitHashResult(sender, _, matchId, result) =>
      var stored := S.ResultOf(y.desk, id, Opponent(m, sender));
      && matchId == result.matchId == id && outcome == result.outcome == stored.outcome != NoResult
      && result.transcriptHash == stored.transcriptHash && m.state == Ready && g.mode == HashAgree
      && (sender == m.playerA || sender == m.playerB)
    case ResolveDispute(sender, _, matchId, ruling) =>
      matchId == id && outcome == ruling && m.state == Disputed && sender == g.arbiter
    case _ => false
  }

  lemma {:induction false} NotedVerdict(y: S.System, a: Action, id: nat)
    requires a.SubmitHashResult? && Verdict(y, a, id, a.result.outcome) && !y.desk.paused
    requires MatchAt(y.reg, id).playerA != MatchAt(y.reg, id).playerB
    ensures Next(y, a) == S.Settle(Noted(y, a.sender, id, a.result), a.now, id, a.result.outcome,
      a.result.transcriptHash)
  {
    hide S.Settle, S.Dispute, UnsetMatch, UnsetGame, UnsetResult;
    var m := MatchAt(y.reg, id);
    var noted := Noted(y, a.sender, id, a.result);
    assert S.ResultOf(noted.desk, id, Opponent(m, a.sender)) == S.ResultOf(y.desk, id, Opponent(m, a.sender));
  }

  /**
   While the desk is open, a verdict on a created match settles it if and only if it is not NONE and the studio's
   and the protocol's rates sum to at most 8%: with higher rates not even a cancellation goes through.
   */
  lemma {:induction false} VerdictSettles(y: S.System, a: Action, id: nat, outcome: OutcomeCode)
    requires SystemOk(y) && !y.desk.paused && MatchAt(y.reg, id).playerA != NoOne && Verdict(y, a, id, outcome)
    ensures Next(y, a).Ok? <==> outcome != NoResult && RatesFit(y, id)
    ensures Next(y, a).Ok? ==> MatchAt(Next(y, a).value.reg, id).state == Settled
  {
    var m := MatchAt(y.reg, id);
    assert MatchOk(y.reg.nextGameId, m) && GameOk(y.reg, m.gameId);
    hide RegistryOk, S.Settle, S.Dispute, FeesOk, UnsetMatch, UnsetGame, UnsetResult;
    match a {
      case SubmitAsyncResult(_, now, _, result, _) => SettlesIff(y, now, id, outcome, result.transcriptHash);
      case ResolveDispute(_, now, _, _) => SettlesIff(y, now, id, outcome, 0);
      case SubmitHashResult(sender, now, _, result) =>
        NotedVerdict(y, a, id);
        SettlesIff(Noted(y, sender, id, result), now, id, outcome, result.transcriptHash);
    }
  }

  lemma {:induction false} BlockedReverts(y: S.System, id: nat)
    requires SystemOk(y) && !y.desk.paused && MatchAt(y.reg, id).playerA != NoOne && !RatesFit(y, id)
    ensures forall a, outcome :: Verdict(y, a, id, outcome) ==> Next(y, a).Err?
  {
    hide SystemOk, Verdict, Next, RatesFit, MatchAt;
    forall a, outcome | Verdict(y, a, id, outcome) ensures Next(y, a).Err? { VerdictSettles(y, a, id, outcome); }
  }

  lemma {:induction false} BlockedRun(y: S.System, id: nat, stake: nat, now: nat) returns (acts: seq<Action>)
    requires Fresh(y) && y.reg.owner != NoOne
    ensures Allowed(y, acts)
    ensures var z := After(y, acts);
      var m := MatchAt(z.reg, id);
      && m.state == Ready && m.playerA != NoOne && m.stakeAmount == m.stakeAmountB == stake && !z.desk.paused
      && !RatesFit(z, id) && Verdict(z, SubmitAsyncResult(3, now, id, HashResult(id, Cancelled, 0), 2), id, Cancelled)
  {
    var a1 := RegisterGame(1, AsyncVerifier, [2], 0, NoOne, NoOne);
    var a2 := SetStudioFee(1, 0, 500, 1);
    var a3 := UpdateProtocolFeeBps(y.desk.owner, 500);
    var a4 := CreateMatch(1, now, 0, id, 0, stake, 0);
    var a5 := JoinMatch(3, id, stake, 0);
    OneMore(y, [], a1);
    OneMore(y, [a1], a2);
    OneMore(y, [a1] + [a2], a3);
    OneMore(y, [a1] + [a2] + [a3], a4);
    OneMore(y, [a1] + [a2] + [a3] + [a4], a5);
    acts := [a1] + [a2] + [a3] + [a4] + [a5];
  }

  /** Each rate is within its own limit, yet the sum is not: a native match every verdict on which reverts. */
  lemma {:induction false} RatesCanBlock(y: S.System, id: nat, stake: nat, now: nat) returns (acts: seq<Action>)
    requires Fresh(y) && y.reg.owner != NoOne
    ensures Allowed(y, acts)
    ensures var z := After(y, acts);
      var m := MatchAt(z.reg, id);
      && m.state == Ready && m.playerA != NoOne && m.stakeAmount == m.stakeAmountB == stake && !z.desk.paused
      && Verdict(z, SubmitAsyncResult(3, now, id, HashResult(id, Cancelled, 0), 2), id, Cancelled)
      && forall a, outcome :: Verdict(z, a, id, outcome) ==> Next(z, a).Err?
  {
    hide *;
    acts := BlockedRun(y, id, stake, now);
    BooksBalance(y, acts, NoOne);
    BlockedReverts(After(y, acts), id);
  }

  // ---------- no stake can be stuck ----------

  /** From 90 days after its creation anyone can expire a live match, paused or not, and each player is
      credited exactly the recorded stake. */
  lemma {:induction false} NeverStuck(y: S.System, id: nat, now: nat)
    requires SystemOk(y) && MatchAt(y.reg, id).playerA != NoOne && Live(MatchAt(y.reg, id).state)
    requires now >= MatchAt(y.reg, id).createdAt + 90 * Day
    ensures R.ExpireMatch(y.reg, now, id).Ok?
    ensures var m, s, s' := MatchAt(y.reg, id), y.reg, R.ExpireMatch(y.reg, now, id).value;
      var t := TokenOf(s, m);
      && MatchAt(s', id) == m.(state := Expired)
      && Get(Row(s'.pending, t), m.playerA) == Get(Row(s.pending, t), m.playerA) + m.stakeAmount
      && (m.state != Open ==> Get(Row(s'.pending, t), m.playerB) == Get(Row(s.pending, t), m.playerB) + m.stakeAmountB)
      && (m.state == Open ==> m.stakeAmountB == 0)
      && forall who :: who != m.playerA && who != m.playerB ==>
        Get(Row(s'.pending, t), who) == Get(Row(s.pending, t), who)
  {
    var m := MatchAt(y.reg, id);
    assert MatchOk(y.reg.nextGameId, m) && GameOk(y.reg, m.gameId);
    hide RegistryOk;
  }

  lemma {:induction false} CanLeave(y: S.System, id: nat, now: nat, who: Address)
    requires SystemOk(y) && Surplus(y.reg, TokenAt(y, id)) >= 0
    requires var m := MatchAt(y.reg, id);
      m.playerA != NoOne && Live(m.state) && now >= m.createdAt + 90 * Day
      && ((who == m.playerA && m.stakeAmount > 0) || (who == m.playerB && m.stakeAmountB > 0))
    ensures R.ExpireMatch(y.reg, now, id).Ok?
    ensures var s', t := R.ExpireMatch(y.reg, now, id).value, TokenAt(y, id);
      Get(Row(s'.pending, t), who) > 0 && R.Withdraw(s', who, t, Moved(Get(Row(s'.pending, t), who))).Ok?
  {
    var t := TokenAt(y, id);
    assert MatchOk(y.reg.nextGameId, MatchAt(y.reg, id));
    NeverStuck(y, id, now);
    ExpireKeeps(y.reg, now, id, t);
    var s' := R.ExpireMatch(y.reg, now, id).value;
    TotalUpdate(Row(s'.pending, t), who, 0);
    hide Total, RegistryOk, R.ExpireMatch, Row, Stakes;
  }

  /** The same in every reachable state, and the credit can then be withdrawn, paused or not. */
  lemma {:induction false} NeverStuckInAnyRun(y: S.System, acts: seq<Action>, id: nat, now: nat, who: Address)
    requires Fresh(y) && Allowed(y, acts)
    requires var m := MatchAt(After(y, acts).reg, id);
      m.playerA != NoOne && Live(m.state) && now >= m.createdAt + 90 * Day
      && ((who == m.playerA && m.stakeAmount > 0) || (who == m.playerB && m.stakeAmountB > 0))
    ensures var s := After(y, acts).reg;
      var t := TokenOf(s, MatchAt(s, id));
      && R.ExpireMatch(s, now, id).Ok?
      && var s' := R.ExpireMatch(s, now, id).value;
         var amount := Get(Row(s'.pending, t), who);
         amount > 0 && R.Withdraw(s', who, t, Moved(amount)).Ok?
  {
    var z := After(y, acts);
    BooksBalance(y, acts, TokenAt(z, id));
    hide Fresh, After, Allowed, Windfalls;
    CanLeave(z, id, now, who);
  }
}
