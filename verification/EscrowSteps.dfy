/** The transactions of the wagering contracts as one transition system, and what each one keeps. */
module EscrowSteps {
  import opened Wrappers
  import opened Sums
  import opened EscrowTypes
  import R = RegistrySpec
  import opened RegistrySpec
  import S = SettlementSpec
  import opened EscrowAccounts

  datatype Action =
    | RegisterGame(sender: Address, mode: SettlementMode, verifiers: seq<Address>, minStake: nat, token: Address,
      arbiter: Address)
    | SetStudioFee(sender: Address, gameId: nat, feeBps: nat, recipient: Address)
    | SetMatchTimeout(sender: Address, gameId: nat, seconds: nat)
    | UpdateGameVerifiers(sender: Address, gameId: nat, verifiers: seq<Address>)
    | CreateMatch(sender: Address, now: nat, gameId: nat, matchId: nat, stakeAmount: nat, value: nat, received: nat)
    | JoinMatch(sender: Address, matchId: nat, value: nat, received: nat)
    | CancelMatch(sender: Address, matchId: nat)
    | ExpireMatch(sender: Address, now: nat, matchId: nat)
    | CallSettleMatch(sender: Address, matchId: nat, newState: MatchState, feeRecipients: (Address, Address),
                      feeAmounts: (nat, nat), recipients: seq<Address>, amounts: seq<nat>)
    | Withdraw(sender: Address, token: Address, transfer: Transfer)
    | WithdrawFees(sender: Address, token: Address, transfer: Transfer)
    | SubmitAsyncResult(sender: Address, now: nat, matchId: nat, result: HashResult, signer: Address)
    | SubmitHashResult(sender: Address, now: nat, matchId: nat, result: HashResult)
    | ResolveDispute(sender: Address, now: nat, matchId: nat, outcome: OutcomeCode)
    | UpdateProtocolFeeBps(sender: Address, feeBps: nat)
    | UpdateProtocolFeeRecipient(sender: Address, recipient: Address)
    | SetPaused(sender: Address, registry: bool, desk: bool)
    /** Anyone may send tokens to the contract outside its entry points. */
    | Donate(sender: Address, token: Address, units: nat)

  function Lift(y: S.System, r: R.Step): S.Step {
    match r
    case Ok(reg) => Ok(y.(reg := reg))
    case Err(e) => Err(S.Registry(e))
  }

  function Next(y: S.System, a: Action): S.Step {
    match a
    case RegisterGame(sender, mode, verifiers, minStake, token, arbiter) =>
      Lift(y, R.RegisterGame(y.reg, sender, mode, verifiers, minStake, token, arbiter))
    case SetStudioFee(sender, gameId, feeBps, recipient) =>
      Lift(y, R.SetStudioFee(y.reg, sender, gameId, feeBps, recipient))
    case SetMatchTimeout(sender, gameId, seconds) => Lift(y, R.SetMatchTimeout(y.reg, sender, gameId, seconds))
    case UpdateGameVerifiers(sender, gameId, verifiers) =>
      Lift(y, R.UpdateGameVerifiers(y.reg, sender, gameId, verifiers))
    case CreateMatch(sender, now, gameId, matchId, stakeAmount, value, received) =>
      Lift(y, R.CreateMatch(y.reg, sender, now, gameId, matchId, stakeAmount, value, received))
    case JoinMatch(sender, matchId, value, received) => Lift(y, R.JoinMatch(y.reg, sender, matchId, value, received))
    case CancelMatch(sender, matchId) => Lift(y, R.CancelMatch(y.reg, sender, matchId))
    case ExpireMatch(_, now, matchId) => Lift(y, R.ExpireMatch(y.reg, now, matchId))
    case CallSettleMatch(sender, matchId, newState, feeRecipients, feeAmounts, recipients, amounts) =>
      Lift(y, R.SettleMatch(y.reg, sender, matchId, newState, feeRecipients, feeAmounts, recipients, amounts))
    case Withdraw(sender, token, transfer) => Lift(y, R.Withdraw(y.reg, sender, token, transfer))
    case WithdrawFees(sender, token, transfer) => Lift(y, R.WithdrawFees(y.reg, sender, token, transfer))
    case SubmitAsyncResult(_, now, matchId, result, signer) => S.SubmitAsyncResult(y, now, matchId, result, signer)
    case SubmitHashResult(sender, now, matchId, result) => S.SubmitHashResult(y, sender, now, matchId, result)
    case ResolveDispute(sender, now, matchId, outcome) => S.ResolveDispute(y, sender, now, matchId, outcome)
    case UpdateProtocolFeeBps(sender, feeBps) => S.UpdateProtocolFeeBps(y, sender, feeBps)
    case UpdateProtocolFeeRecipient(sender, recipient) => S.UpdateProtocolFeeRecipient(y, sender, recipient)
    case SetPaused(_, registry, desk) => Ok(y.(reg := y.reg.(paused := registry), desk := y.desk.(paused := desk)))
    case Donate(_, token, units) => Ok(y.(reg := y.reg.(balances := Receive(y.reg.balances, token, units))))
  }

  // ---------- what the environment guarantees ----------

  /** A transfer of `amount` takes at most that much; the native coin moves exactly. */
  predicate FairTransfer(token: Address, amount: nat, transfer: Transfer) {
    transfer.Moved? ==> transfer.units <= amount && (token == NoOne ==> transfer.units == amount)
  }

  /** No transaction comes from the zero address, tokens deliver at most what was sent, and the settlement
      contract calls `settleMatch` only from its own entry points. */
  predicate Admissible(y: S.System, a: Action) {
    && a.sender != NoOne
    && (a.CreateMatch? ==> a.received <= a.stakeAmount)
    && (a.JoinMatch? ==> a.received <= MatchAt(y.reg, a.matchId).stakeAmount)
    && (a.Withdraw? ==> FairTransfer(a.token, Get(Row(y.reg.pending, a.token), a.sender), a.transfer))
    && (a.WithdrawFees? ==> FairTransfer(a.token, Get(y.reg.feeBalances, a.token), a.transfer))
    && (a.CallSettleMatch? ==> a.sender != y.desk.self)
  }

  /** `createMatch` names a registered game, or brings nothing. */
  predicate Registered(y: S.System, a: Action) {
    a.CreateMatch? ==> a.gameId < y.reg.nextGameId || a.value == 0
  }

  // ---------- the invariant ----------

  predicate MatchOk(nextGameId: nat, m: Match) {
    && (m.playerA == NoOne || m.gameId >= nextGameId ==> m.stakeAmount == 0 && m.stakeAmountB == 0)
    && (m.playerB == NoOne ==> m.stakeAmountB == 0)
    && (m.state == Open ==> m.playerB == NoOne)
    && (m.state == Ready || m.state == Disputed ==> m.playerB != NoOne)
    && (m.playerA != NoOne ==> m.playerA != m.playerB)
  }

  predicate FeesOk(g: Game) {
    g.matchTimeout <= 30 * Day && g.studioFeeBps <= MaxStudioFeeBps
    && (g.studioFeeBps > 0 ==> g.studioFeeRecipient != NoOne)
  }

  ghost predicate GameOk(s: Registry, id: nat) {
    && (id in s.games <==> id < s.nextGameId) && (id in s.games ==> s.games[id].admin != NoOne)
    && FeesOk(GameAt(s, id))
    && VerifiersOf(s.gameVerifiers, id) == Listed(GameAt(s, id).verifiers)
  }

  ghost predicate RegistryOk(s: Registry) {
    && (forall id: nat :: MatchOk(s.nextGameId, MatchAt(s, id)))
    && (forall id: nat :: GameOk(s, id))
  }

  ghost predicate SystemOk(y: S.System) {
    RegistryOk(y.reg) && y.desk.protocolFeeBps <= S.MaxProtocolFeeBps && y.desk.self == y.reg.settlement
  }

  /** What a step adds to the surplus of a token: gifts, and what an outgoing transfer left behind. */
  ghost function Windfall(y: S.System, a: Action, t: Address): nat
    requires Admissible(y, a)
  {
    match a
    case Donate(_, token, units) => if t == token then units else 0
    case Withdraw(sender, token, transfer) =>
      if t == token && transfer.Moved? then Get(Row(y.reg.pending, token), sender) - transfer.units else 0
    case WithdrawFees(_, token, transfer) =>
      if t == token && transfer.Moved? then Get(y.reg.feeBalances, token) - transfer.units else 0
    case _ => 0
  }

  // ---------- game transactions ----------

  lemma {:induction false} MatchWriteKeeps(s: Registry, s': Registry, id: nat)
    requires RegistryOk(s) && s'.games == s.games && s'.nextGameId == s.nextGameId
      && s'.gameVerifiers == s.gameVerifiers
    requires s'.matches == s.matches[id := MatchAt(s', id)] && MatchOk(s.nextGameId, MatchAt(s', id))
    ensures RegistryOk(s')
  {
    hide MatchOk, FeesOk;
    forall i: nat ensures MatchOk(s'.nextGameId, MatchAt(s', i)) { assert MatchOk(s.nextGameId, MatchAt(s, i)); }
    forall i: nat ensures GameOk(s', i) { assert GameOk(s, i); }
  }

  /** Rewriting a registered game without changing its token. */
  lemma {:induction false} GameWriteKeeps(s: Registry, s': Registry, id: nat, t: Address)
    requires RegistryOk(s) && id < s.nextGameId
    requires s'.games == s.games[id := GameAt(s', id)] && s'.nextGameId == s.nextGameId && s'.matches == s.matches
    requires s'.pending == s.pending && s'.feeBalances == s.feeBalances && s'.balances == s.balances
    requires GameOk(s', id) && GameAt(s', id).stakeToken == GameAt(s, id).stakeToken
    requires forall g :: g != id ==> VerifiersOf(s'.gameVerifiers, g) == VerifiersOf(s.gameVerifiers, g)
    ensures RegistryOk(s') && Surplus(s', t) == Surplus(s, t)
  {
    hide MatchOk, FeesOk, Total, VerifiersOf;
    forall i: nat ensures MatchOk(s'.nextGameId, MatchAt(s', i)) { assert MatchOk(s.nextGameId, MatchAt(s, i)); }
    forall i: nat ensures GameOk(s', i) { assert GameOk(s, i); }
    assert Stakes(s', t) == Stakes(s, t);
  }

  /** A new game cannot reinterpret the stake of an existing match. */
  lemma {:induction false} RegisterKeeps(s: Registry, sender: Address, mode: SettlementMode, verifiers: seq<Address>,
      minStake: nat, stakeToken: Address, arbiter: Address, t: Address)
    requires RegistryOk(s) && sender != NoOne
    requires R.RegisterGame(s, sender, mode, verifiers, minStake, stakeToken, arbiter).Ok?
    ensures var s' := R.RegisterGame(s, sender, mode, verifiers, minStake, stakeToken, arbiter).value;
      RegistryOk(s') && Surplus(s', t) == Surplus(s, t)
  {
    var s' := R.RegisterGame(s, sender, mode, verifiers, minStake, stakeToken, arbiter).value;
    assert GameOk(s, s.nextGameId);
    forall i: nat ensures MatchOk(s'.nextGameId, MatchAt(s', i)) { assert MatchOk(s.nextGameId, MatchAt(s, i)); }
    forall i: nat ensures GameOk(s', i) { assert GameOk(s, i); }
    forall id | id in s.matches ensures StakeIn(s', t, s.matches[id]) == StakeIn(s, t, s.matches[id]) {
      assert MatchOk(s.nextGameId, MatchAt(s, id));
    }
    hide Total;
    assert Stakes(s', t) == Stakes(s, t);
  }

  lemma {:induction false} StudioFeeKeeps(s: Registry, sender: Address, gameId: nat, feeBps: nat, recipient: Address,
      t: Address)
    requires RegistryOk(s) && sender != NoOne && R.SetStudioFee(s, sender, gameId, feeBps, recipient).Ok?
    ensures var s' := R.SetStudioFee(s, sender, gameId, feeBps, recipient).value;
      RegistryOk(s') && Surplus(s', t) == Surplus(s, t)
  {
    assert GameOk(s, gameId);
    GameWriteKeeps(s, R.SetStudioFee(s, sender, gameId, feeBps, recipient).value, gameId, t);
  }

  lemma {:induction false} TimeoutKeeps(s: Registry, sender: Address, gameId: nat, seconds: nat, t: Address)
    requires RegistryOk(s) && sender != NoOne && R.SetMatchTimeout(s, sender, gameId, seconds).Ok?
    ensures var s' := R.SetMatchTimeout(s, sender, gameId, seconds).value;
      RegistryOk(s') && Surplus(s', t) == Surplus(s, t)
  {
    assert GameOk(s, gameId);
    GameWriteKeeps(s, R.SetMatchTimeout(s, sender, gameId, seconds).value, gameId, t);
  }

  lemma {:induction false} VerifiersKeep(s: Registry, sender: Address, gameId: nat, verifiers: seq<Address>, t: Address)
    requires RegistryOk(s) && sender != NoOne && R.UpdateGameVerifiers(s, sender, gameId, verifiers).Ok?
    ensures var s' := R.UpdateGameVerifiers(s, sender, gameId, verifiers).value;
      RegistryOk(s') && Surplus(s', t) == Surplus(s, t)
  {
    assert GameOk(s, gameId);
    GameWriteKeeps(s, R.UpdateGameVerifiers(s, sender, gameId, verifiers).value, gameId, t);
  }

  // ---------- match transactions ----------

  lemma {:induction false} CreateKeeps(s: Registry, sender: Address, now: nat, gameId: nat, id: nat, stakeAmount: nat,
      value: nat, received: nat, t: Address)
    requires RegistryOk(s) && sender != NoOne && (gameId < s.nextGameId || value == 0)
    requires R.CreateMatch(s, sender, now, gameId, id, stakeAmount, value, received).Ok?
    ensures var s' := R.CreateMatch(s, sender, now, gameId, id, stakeAmount, value, received).value;
      RegistryOk(s') && Surplus(s', t) == Surplus(s, t)
  {
    var s' := R.CreateMatch(s, sender, now, gameId, id, stakeAmount, value, received).value;
    assert GameOk(s, gameId) && MatchOk(s.nextGameId, MatchAt(s, id));
    MatchWriteKeeps(s, s', id);
    MatchWrite(s, s', id, t);
    hide Total, Stakes, RegistryOk;
  }

  lemma {:induction false} JoinKeeps(s: Registry, sender: Address, id: nat, value: nat, received: nat, t: Address)
    requires RegistryOk(s) && sender != NoOne && received <= MatchAt(s, id).stakeAmount
    requires R.JoinMatch(s, sender, id, value, received).Ok?
    ensures var s' := R.JoinMatch(s, sender, id, value, received).value;
      RegistryOk(s') && Surplus(s', t) == Surplus(s, t)
  {
    var s' := R.JoinMatch(s, sender, id, value, received).value;
    assert MatchOk(s.nextGameId, MatchAt(s, id)) && GameOk(s, MatchAt(s, id).gameId);
    MatchWriteKeeps(s, s', id);
    MatchWrite(s, s', id, t);
    hide Total, Stakes, RegistryOk;
  }

  lemma {:induction false} CancelKeeps(s: Registry, sender: Address, id: nat, t: Address)
    requires RegistryOk(s) && R.CancelMatch(s, sender, id).Ok?
    ensures var s' := R.CancelMatch(s, sender, id).value;
      && RegistryOk(s') && Surplus(s', t) == Surplus(s, t)
      && Outstanding(s', t) == Outstanding(s, t) + StakeIn(s, t, MatchAt(s, id))
  {
    var s' := R.CancelMatch(s, sender, id).value;
    var m := MatchAt(s, id);
    assert MatchOk(s.nextGameId, m);
    MatchWriteKeeps(s, s', id);
    MatchWrite(s, s', id, t);
    CreditRaises(s.pending, TokenOf(s, m), m.playerA, m.stakeAmount, t);
    hide Total, Stakes, RegistryOk, Credit;
  }

  lemma {:induction false} ExpireKeeps(s: Registry, now: nat, id: nat, t: Address)
    requires RegistryOk(s) && R.ExpireMatch(s, now, id).Ok?
    ensures var s' := R.ExpireMatch(s, now, id).value;
      && RegistryOk(s') && Surplus(s', t) == Surplus(s, t)
      && Outstanding(s', t) == Outstanding(s, t) + StakeIn(s, t, MatchAt(s, id))
  {
    var s' := R.ExpireMatch(s, now, id).value;
    var m := MatchAt(s, id);
    var token := TokenOf(s, m);
    assert MatchOk(s.nextGameId, m);
    MatchWriteKeeps(s, s', id);
    MatchWrite(s, s', id, t);
    CreditRaises(s.pending, token, m.playerA, m.stakeAmount, t);
    CreditRaises(Credit(s.pending, token, m.playerA, m.stakeAmount), token, m.playerB, m.stakeAmountB, t);
    hide Total, Stakes, RegistryOk, Credit;
  }

  // ---------- withdrawals and gifts ----------

  /** Nothing but money moves. */
  lemma {:induction false} MoneyOnlyKeeps(s: Registry, s': Registry)
    requires RegistryOk(s) && s'.games == s.games && s'.nextGameId == s.nextGameId
      && s'.gameVerifiers == s.gameVerifiers
    requires s'.matches == s.matches
    ensures RegistryOk(s')
  {
    hide MatchOk, FeesOk;
    forall i: nat ensures MatchOk(s'.nextGameId, MatchAt(s', i)) { assert MatchOk(s.nextGameId, MatchAt(s, i)); }
    forall i: nat ensures GameOk(s', i) { assert GameOk(s, i); }
  }

  lemma {:induction false} WithdrawKeeps(s: Registry, sender: Address, token: Address, transfer: Transfer, t: Address)
    requires RegistryOk(s) && R.Withdraw(s, sender, token, transfer).Ok?
    ensures var s' := R.Withdraw(s, sender, token, transfer).value;
      && RegistryOk(s')
      && Surplus(s', t) ==
         Surplus(s, t) + if t == token then Get(Row(s.pending, token), sender) - transfer.units else 0
  {
    var s' := R.Withdraw(s, sender, token, transfer).value;
    MoneyOnlyKeeps(s, s');
    SameStakes(s, s', t);
    TotalUpdate(Row(s.pending, token), sender, 0);
    hide Total, Stakes, RegistryOk;
  }

  lemma {:induction false} WithdrawFeesKeeps(s: Registry, sender: Address, token: Address, transfer: Transfer,
      t: Address)
    requires RegistryOk(s) && R.WithdrawFees(s, sender, token, transfer).Ok?
    ensures var s' := R.WithdrawFees(s, sender, token, transfer).value;
      && RegistryOk(s')
      && Surplus(s', t) == Surplus(s, t) + if t == token then Get(s.feeBalances, token) - transfer.units else 0
  {
    var s' := R.WithdrawFees(s, sender, token, transfer).value;
    MoneyOnlyKeeps(s, s');
    SameStakes(s, s', t);
    hide Total, Stakes, RegistryOk;
  }

  lemma {:induction false} DonateKeeps(s: Registry, token: Address, units: nat, t: Address)
    requires RegistryOk(s)
    ensures var s' := s.(balances := Receive(s.balances, token, units));
      RegistryOk(s') && Surplus(s', t) == Surplus(s, t) + if t == token then units else 0
  {
    var s' := s.(balances := Receive(s.balances, token, units));
    MoneyOnlyKeeps(s, s');
    SameStakes(s, s', t);
    hide Total, Stakes, RegistryOk;
  }

  // ---------- settlements ----------

  /** The registry after a settlement with shares: exactly the match's stakes become credits. */
  lemma {:induction false} PayoutKeeps(y: S.System, id: nat, outcome: OutcomeCode, t: Address)
    requires RegistryOk(y.reg) && S.Payout(y, id, outcome).Ok?
    ensures var y' := S.Payout(y, id, outcome).value;
      var m := MatchAt(y.reg, id);
      && y' == y.(reg := y'.reg) && OnlyPaysOut(y.reg, y'.reg, id)
      && Live(m.state) && MatchAt(y'.reg, id) == m.(state := Settled)
      && RegistryOk(y'.reg) && Surplus(y'.reg, t) == Surplus(y.reg, t)
      && Outstanding(y'.reg, t) == Outstanding(y.reg, t) + StakeIn(y.reg, t, m)
  {
    var s, y' := y.reg, S.Payout(y, id, outcome).value;
    var m := MatchAt(s, id);
    var game := GameAt(s, m.gameId);
    assert MatchOk(s.nextGameId, m);
    S.SplitConserves(m, game, y.desk.protocolFeeBps, outcome);
    var sh := S.Split(m, game, y.desk.protocolFeeBps, outcome).value;
    SettleMatchAccounts(s, y.desk.self, id, Settled, (game.studioFeeRecipient, y.desk.protocolFeeRecipient),
                        (sh.studioFee, sh.protocolFee), [m.playerA, m.playerB], [sh.toA, sh.toB], t);
    SumOfTwo(sh.toA, sh.toB);
    hide R.SettleMatch, S.Split, SumTo, Surplus, Outstanding;
    MatchWriteKeeps(s, y'.reg, id);
    hide RegistryOk;
  }

  /** Opening a dispute freezes the match and moves no money. */
  lemma {:induction false} DisputeKeeps(y: S.System, id: nat, t: Address)
    requires RegistryOk(y.reg) && S.Dispute(y, id).Ok? && MatchAt(y.reg, id).playerB != NoOne
    ensures var y' := S.Dispute(y, id).value;
      && y' == y.(reg := y'.reg) && OnlyPaysOut(y.reg, y'.reg, id)
      && Live(MatchAt(y.reg, id).state) && MatchAt(y'.reg, id) == MatchAt(y.reg, id).(state := Disputed)
      && RegistryOk(y'.reg) && Surplus(y'.reg, t) == Surplus(y.reg, t)
      && Outstanding(y'.reg, t) == Outstanding(y.reg, t)
  {
    var s, y' := y.reg, S.Dispute(y, id).value;
    assert MatchOk(s.nextGameId, MatchAt(s, id));
    SettleMatchAccounts(s, y.desk.self, id, Disputed, (NoOne, NoOne), (0, 0), [], [], t);
    hide R.SettleMatch, Surplus, Outstanding;
    MatchWriteKeeps(s, y'.reg, id);
    hide RegistryOk;
  }

  /** How a submission can end: noted, disputed, or settled with the whole stake released. */
  ghost predicate Judged(y: S.System, y': S.System, id: nat, t: Address) {
    var m, m' := MatchAt(y.reg, id), MatchAt(y'.reg, id);
    && RegistryOk(y'.reg) && Surplus(y'.reg, t) == Surplus(y.reg, t)
    && y'.desk.protocolFeeBps == y.desk.protocolFeeBps && y'.desk.self == y.desk.self
    && y'.reg.settlement == y.reg.settlement && y'.reg.games == y.reg.games && y'.reg.balances == y.reg.balances
    && y'.reg.matches == y.reg.matches[id := m']
    && ((m' == m && y'.reg == y.reg)
        || (m' == m.(state := Disputed) && Live(m.state) && Outstanding(y'.reg, t) == Outstanding(y.reg, t))
        || (m' == m.(state := Settled) && Live(m.state)
            && Outstanding(y'.reg, t) == Outstanding(y.reg, t) + StakeIn(y.reg, t, m)))
  }

  lemma {:induction false} SettleJudges(y: S.System, now: nat, id: nat, outcome: OutcomeCode, hash: int, t: Address)
    requires RegistryOk(y.reg) && S.Settle(y, now, id, outcome, hash).Ok?
    ensures Judged(y, S.Settle(y, now, id, outcome, hash).value, id, t)
    ensures MatchAt(S.Settle(y, now, id, outcome, hash).value.reg, id).state == Settled
  {
    var entry := Settlement(id, outcome, hash, now);
    var noted := y.(desk := y.desk.(settlements := y.desk.settlements[id := entry]));
    PayoutKeeps(noted, id, outcome, t);
    hide S.Payout, RegistryOk, Surplus, Outstanding, StakeIn;
  }

  lemma {:induction false} AsyncJudges(y: S.System, now: nat, id: nat, result: HashResult, signer: Address, t: Address)
    requires RegistryOk(y.reg) && S.SubmitAsyncResult(y, now, id, result, signer).Ok?
    ensures Judged(y, S.SubmitAsyncResult(y, now, id, result, signer).value, id, t)
  {
    hide S.Settle, RegistryOk, Judged;
    SettleJudges(y, now, id, result.outcome, result.transcriptHash, t);
  }

  lemma {:induction false} ResolveJudges(y: S.System, sender: Address, now: nat, id: nat, outcome: OutcomeCode,
      t: Address)
    requires RegistryOk(y.reg) && S.ResolveDispute(y, sender, now, id, outcome).Ok?
    ensures Judged(y, S.ResolveDispute(y, sender, now, id, outcome).value, id, t)
  {
    hide S.Settle, RegistryOk, Judged;
    SettleJudges(y, now, id, outcome, 0, t);
  }

  /** The desk after a player's result has been written down. */
  function Noted(y: S.System, sender: Address, id: nat, result: HashResult): S.System {
    y.(desk := y.desk.(rtResults := y.desk.rtResults[id := S.ResultRow(y.desk.rtResults, id)[sender := result]]))
  }

  function Opponent(m: Match, sender: Address): Address {
    if sender == m.playerA then m.playerB else m.playerA
  }

  lemma {:induction false} HashJudges(y: S.System, sender: Address, now: nat, id: nat, result: HashResult, t: Address)
    requires RegistryOk(y.reg) && S.SubmitHashResult(y, sender, now, id, result).Ok?
    ensures Judged(y, S.SubmitHashResult(y, sender, now, id, result).value, id, t)
  {
    var noted := Noted(y, sender, id, result);
    var m := MatchAt(y.reg, id);
    var other := S.ResultOf(noted.desk, id, Opponent(m, sender));
    assert MatchOk(y.reg.nextGameId, m);
    if other.outcome == NoResult {
      assert y.reg.matches[id] == m;
      assert y.reg.matches[id := m] == y.reg.matches;
    } else if result.outcome == other.outcome && result.transcriptHash == other.transcriptHash {
      SettleJudges(noted, now, id, result.outcome, result.transcriptHash, t);
    } else {
      DisputeKeeps(noted, id, t);
    }
    hide S.Settle, S.Dispute, RegistryOk, Surplus, Outstanding, StakeIn;
  }
}
