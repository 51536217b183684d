/**
 What each transaction of the wagering contracts demands and leaves behind, in terms of the stored fields:
 who may call it, with what, in which state, and what exactly is different afterwards.
 */
module EscrowTerms {
  import opened Wrappers
  import opened Sums
  import opened EscrowTypes
  import R = RegistrySpec
  import opened RegistrySpec
  import S = SettlementSpec
  import opened EscrowAccounts
  import opened EscrowSteps
  import opened EscrowRuns
  import opened EscrowRelease
  import opened EscrowCredits

  /** Only match `id` and the balance of `token` differ. */
  ghost predicate OnlyDeposit(s: Registry, s': Registry, id: nat, token: Address) {
    && s'.(matches := s.matches, balances := s.balances) == s
    && (forall i :: i != id ==> MatchAt(s', i) == MatchAt(s, i))
    && (forall t :: t != token ==> Balance(s', t) == Balance(s, t))
  }

  /** Only match `id` and the credits differ. */
  ghost predicate OnlyCredits(s: Registry, s': Registry, id: nat) {
    && s'.(matches := s.matches, pending := s.pending) == s
    && (forall i :: i != id ==> MatchAt(s', i) == MatchAt(s, i))
  }

  /** Only game `id` differs, in the fields that `g` changes. */
  ghost predicate OnlyGame(s: Registry, s': Registry, id: nat, g: Game) {
    && s'.(games := s.games) == s && GameAt(s', id) == g
    && (forall i :: i != id ==> GameAt(s', i) == GameAt(s, i))
  }

  // ---------- games ----------

  /** Anyone registers: the caller administers a game with an hour's timeout and no studio fee. */
  lemma {:induction false} RegisterTerms(s: Registry, sender: Address, mode: SettlementMode, verifiers: seq<Address>,
      minStake: nat, token: Address, arbiter: Address)
    requires RegistryOk(s)
    ensures var r := R.RegisterGame(s, sender, mode, verifiers, minStake, token, arbiter);
      && (r.Ok? <==> !s.paused && |verifiers| <= 10 && !(mode == HashAgree && arbiter == NoOne))
      && (r == Err(EnforcedPause) <==> s.paused)
      && (r == Err(TooManyVerifiers) <==> !s.paused && |verifiers| > 10)
      && (r.Ok? ==>
            var s' := r.value;
            var g := GameAt(s', s.nextGameId);
            && s.nextGameId !in s.games && s'.nextGameId == s.nextGameId + 1
            && g.admin == sender && g.mode == mode && g.verifiers == verifiers && g.minStake == minStake
            && g.stakeToken == token && g.arbiter == arbiter && g.matchTimeout == 3600
            && g.studioFeeBps == 0 && g.studioFeeRecipient == NoOne
            && (forall v :: v in VerifiersOf(s'.gameVerifiers, s.nextGameId) <==> v in verifiers)
            && (forall i :: i != s.nextGameId ==>
                  GameAt(s', i) == GameAt(s, i)
                  && VerifiersOf(s'.gameVerifiers, i) == VerifiersOf(s.gameVerifiers, i))
            && s'.(games := s.games, gameVerifiers := s.gameVerifiers, nextGameId := s.nextGameId) == s)
  {
    assert GameOk(s, s.nextGameId);
    hide RegistryOk;
  }

  /** Only the game's admin sets its fee, up to 5%, and a charged fee needs a recipient. */
  lemma {:induction false} StudioFeeTerms(s: Registry, sender: Address, gameId: nat, feeBps: nat, recipient: Address)
    ensures var r := R.SetStudioFee(s, sender, gameId, feeBps, recipient);
      var g := GameAt(s, gameId);
      && (r.Ok? <==> sender == g.admin && feeBps <= 500 && (feeBps == 0 || recipient != NoOne))
      && (r == Err(NotGameAdmin) <==> sender != g.admin)
      && (r.Ok? ==> OnlyGame(s, r.value, gameId, g.(studioFeeBps := feeBps, studioFeeRecipient := recipient)))
  {
  }

  /** Only the game's admin sets its timeout, between five minutes and thirty days. */
  lemma {:induction false} TimeoutTerms(s: Registry, sender: Address, gameId: nat, seconds: nat)
    ensures var r := R.SetMatchTimeout(s, sender, gameId, seconds);
      var g := GameAt(s, gameId);
      && (r.Ok? <==> sender == g.admin && 5 * 60 <= seconds <= 30 * 24 * 3600)
      && (r == Err(NotGameAdmin) <==> sender != g.admin)
      && (r == Err(TimeoutTooShort) <==> sender == g.admin && seconds < 5 * 60)
      && (r == Err(TimeoutTooLong) <==> sender == g.admin && seconds > 30 * 24 * 3600)
      && (r.Ok? ==> OnlyGame(s, r.value, gameId, g.(matchTimeout := seconds)))
  {
  }

  /** Only the game's admin replaces its verifiers, at most ten. */
  lemma {:induction false} VerifierTerms(s: Registry, sender: Address, gameId: nat, verifiers: seq<Address>)
    requires RegistryOk(s)
    ensures var r := R.UpdateGameVerifiers(s, sender, gameId, verifiers);
      && (r.Ok? <==> sender == GameAt(s, gameId).admin && |verifiers| <= 10)
      && (r == Err(NotGameAdmin) <==> sender != GameAt(s, gameId).admin)
      && (r.Ok? ==>
            var s' := r.value;
            && OnlyGame(s, s'.(gameVerifiers := s.gameVerifiers), gameId, GameAt(s, gameId).(verifiers := verifiers))
            && (forall v :: v in VerifiersOf(s'.gameVerifiers, gameId) <==> v in verifiers)
            && (forall i :: i != gameId ==>
                  VerifiersOf(s'.gameVerifiers, i) == VerifiersOf(s.gameVerifiers, i)))
  {
    assert GameOk(s, gameId);
    hide RegistryOk;
  }

  // ---------- matches ----------

  /**
   A free id takes a match: at least the game's least stake, in the game's currency alone. The stake recorded is
   the coins sent, or what the token delivered.
   */
  lemma {:induction false} CreateTerms(s: Registry, sender: Address, now: nat, gameId: nat, id: nat, stakeAmount: nat,
      value: nat, received: nat)
    ensures var r := R.CreateMatch(s, sender, now, gameId, id, stakeAmount, value, received);
      var g := GameAt(s, gameId);
      var native := g.stakeToken == NoOne;
      && (r.Ok? <==>
            && !s.paused && MatchAt(s, id).playerA == NoOne
            && (native ==> value >= g.minStake) && (!native ==> stakeAmount >= g.minStake && value == 0))
      && (r == Err(EnforcedPause) <==> s.paused)
      && (r == Err(MatchAlreadyExists) <==> !s.paused && MatchAt(s, id).playerA != NoOne)
      && (!s.paused && MatchAt(s, id).playerA == NoOne ==>
            && (r == Err(StakeTooLow) <==> (if native then value else stakeAmount) < g.minStake)
            && (r == Err(NativeTokenSentForERC20) <==> !native && value != 0 && stakeAmount >= g.minStake))
      && (r.Ok? ==>
            var actual := if native then value else received;
            && OnlyDeposit(s, r.value, id, g.stakeToken)
            && MatchAt(r.value, id) == Match(gameId, sender, Open, NoOne, now, actual, 0)
            && Balance(r.value, g.stakeToken) == Balance(s, g.stakeToken) + actual)
  {
  }

  /**
   Somebody else joins an open match with exactly its stake in coins, or with whatever of the stake the token
   delivered, as long as something arrived.
   */
  lemma {:induction false} JoinTerms(s: Registry, sender: Address, id: nat, value: nat, received: nat)
    ensures var r := R.JoinMatch(s, sender, id, value, received);
      var m := MatchAt(s, id);
      var token := GameAt(s, m.gameId).stakeToken;
      && (r.Ok? <==>
            && !s.paused && m.state == Open && sender != m.playerA
            && (token == NoOne ==> value == m.stakeAmount) && (token != NoOne ==> value == 0 && received > 0))
      && (r == Err(EnforcedPause) <==> s.paused)
      && (r == Err(MatchNotOpen) <==> !s.paused && m.state != Open)
      && (r == Err(CannotJoinOwnMatch) <==> !s.paused && m.state == Open && sender == m.playerA)
      && (!s.paused && m.state == Open && sender != m.playerA ==>
            && (r == Err(NativeTokenSentForERC20) <==> token != NoOne && value != 0)
            && (r == Err(StakeMismatch) <==>
                  if token == NoOne then value != m.stakeAmount else value == 0 && received == 0))
      && (r.Ok? ==>
            var actual := if token == NoOne then m.stakeAmount else received;
            && OnlyDeposit(s, r.value, id, token)
            && MatchAt(r.value, id) == m.(playerB := sender, state := Ready, stakeAmountB := actual)
            && Balance(r.value, token) == Balance(s, token) + actual)
  {
  }

  /** Only the creator closes its open match; its stake becomes its credit, and no other credit moves. */
  lemma {:induction false} CancelTerms(s: Registry, sender: Address, id: nat, t: Address, who: Address)
    ensures var r := R.CancelMatch(s, sender, id);
      var m := MatchAt(s, id);
      && (r.Ok? <==> !s.paused && m.state == Open && sender == m.playerA)
      && (r == Err(EnforcedPause) <==> s.paused)
      && (r == Err(MatchNotOpen) <==> !s.paused && m.state != Open)
      && (r == Err(NotPlayerA) <==> !s.paused && m.state == Open && sender != m.playerA)
      && (r.Ok? ==>
            && OnlyCredits(s, r.value, id) && MatchAt(r.value, id) == m.(state := Settled, stakeAmount := 0)
            && Holding(r.value.pending, t, who) == Holding(s.pending, t, who)
                + DueWhen(t == GameAt(s, m.gameId).stakeToken && who == m.playerA, m.stakeAmount))
  {
    hide UnsetGame, UnsetMatch;
  }

  /**
   Anyone expires a live match once its time is up: one timeout after the creation, three when it is disputed,
   paused or not. Each player is credited its own stake.
   */
  lemma {:induction false} ExpireTerms(s: Registry, now: nat, id: nat, t: Address, who: Address)
    ensures var r := R.ExpireMatch(s, now, id);
      var m := MatchAt(s, id);
      var g := GameAt(s, m.gameId);
      && (r.Ok? <==>
            || ((m.state == Open || m.state == Ready) && now >= m.createdAt + g.matchTimeout)
            || (m.state == Disputed && now >= m.createdAt + 3 * g.matchTimeout))
      && (r == Err(MatchNotExpirable) <==> m.state == Settled || m.state == Expired)
      && (r == Err(DisputeTimeoutNotReached) <==> m.state == Disputed && now < m.createdAt + 3 * g.matchTimeout)
      && (r == Err(NotExpiredYet) <==>
            (m.state == Open || m.state == Ready) && now < m.createdAt + g.matchTimeout)
      && (r.Ok? ==>
            && OnlyCredits(s, r.value, id) && MatchAt(r.value, id) == m.(state := Expired)
            && Holding(r.value.pending, t, who) == Holding(s.pending, t, who)
                + DueWhen(t == g.stakeToken && who == m.playerA, m.stakeAmount)
                + DueWhen(t == g.stakeToken && who == m.playerB && who != NoOne, m.stakeAmountB))
  {
    var m := MatchAt(s, id);
    var token := GameAt(s, m.gameId).stakeToken;
    CreditReaches(s.pending, token, m.playerA, m.stakeAmount, t, who);
    CreditReaches(Credit(s.pending, token, m.playerA, m.stakeAmount), token, m.playerB, m.stakeAmountB, t, who);
    hide Holding, Credit, UnsetGame, UnsetMatch;
  }

  // ---------- withdrawals ----------

  /**
   An account draws its whole credit in a token, paused or not, if the transfer goes through; then it has none left
   and every other credit is as it was.
   */
  lemma {:induction false} WithdrawTerms(s: Registry, sender: Address, token: Address, transfer: Transfer, t: Address,
      who: Address)
    ensures var r := R.Withdraw(s, sender, token, transfer);
      && (r.Ok? <==>
            && Holding(s.pending, token, sender) > 0 && transfer.Moved? && transfer.units <= Balance(s, token))
      && (r == Err(NoPendingWithdrawal) <==> Holding(s.pending, token, sender) == 0)
      && (r.Err? ==> r.error == NoPendingWithdrawal || r.error == TransferFailed)
      && (r.Ok? ==>
            && r.value.(pending := s.pending, balances := s.balances) == s
            && Holding(r.value.pending, t, who)
                == (if t == token && who == sender then 0 else Holding(s.pending, t, who))
            && Balance(r.value, t) == Balance(s, t) - DueWhen(t == token, transfer.units))
  {
  }

  /** Only the owner draws the fee pot of a token. */
  lemma {:induction false} WithdrawFeesTerms(s: Registry, sender: Address, token: Address, transfer: Transfer,
      t: Address)
    ensures var r := R.WithdrawFees(s, sender, token, transfer);
      && (r.Ok? <==>
            && sender == s.owner && Get(s.feeBalances, token) > 0 && transfer.Moved?
            && transfer.units <= Balance(s, token))
      && (r == Err(NotOwner) <==> sender != s.owner)
      && (r == Err(NoFeesToWithdraw) <==> sender == s.owner && Get(s.feeBalances, token) == 0)
      && (r.Ok? ==>
            && r.value.(feeBalances := s.feeBalances, balances := s.balances) == s
            && Get(r.value.feeBalances, t) == (if t == token then 0 else Get(s.feeBalances, t))
            && Balance(r.value, t) == Balance(s, t) - DueWhen(t == token, transfer.units))
  {
  }

  // ---------- the settlement contract ----------

  /** Only the owner sets the protocol's rate, up to 5%, and its recipient, never the zero address. */
  lemma {:induction false} ProtocolFeeTerms(y: S.System, sender: Address, feeBps: nat, recipient: Address)
    ensures var r, q := S.UpdateProtocolFeeBps(y, sender, feeBps), S.UpdateProtocolFeeRecipient(y, sender, recipient);
      && (r.Ok? <==> sender == y.desk.owner && feeBps <= 500) && (r == Err(S.NotOwner) <==> sender != y.desk.owner)
      && (q.Ok? <==> sender == y.desk.owner && recipient != NoOne)
      && (q == Err(S.NotOwner) <==> sender != y.desk.owner)
      && (r.Ok? ==> r.value == y.(desk := y.desk.(protocolFeeBps := feeBps)))
      && (q.Ok? ==> q.value == y.(desk := y.desk.(protocolFeeRecipient := recipient)))
  {
  }

  /** Why a hash result is refused before anything is written: the first condition that fails decides. */
  lemma {:induction false} HashRefusals(y: S.System, sender: Address, now: nat, id: nat, result: HashResult)
    ensures var r := S.SubmitHashResult(y, sender, now, id, result);
      var m := MatchAt(y.reg, id);
      var mode := GameAt(y.reg, m.gameId).mode;
      && (y.desk.paused ==> r == Err(S.EnforcedPause))
      && (!y.desk.paused && result.matchId != id ==> r == Err(S.MatchIdMismatch))
      && (!y.desk.paused && result.matchId == id && mode != HashAgree ==> r == Err(S.WrongMode))
      && (!y.desk.paused && result.matchId == id && mode == HashAgree && m.state != Ready ==>
            r == Err(S.MatchNotSettlable))
      && (!y.desk.paused && result.matchId == id && mode == HashAgree && m.state == Ready ==>
            sender != m.playerA && sender != m.playerB ==> r == Err(S.NotAPlayer))
  {
    hide S.Settle, S.Dispute, UnsetGame, UnsetMatch;
  }

  /**
   A player's result on a ready match is written down and nothing else happens exactly when the opponent has none
   stored yet.
   */
  lemma {:induction false} HashNoted(y: S.System, sender: Address, now: nat, id: nat, result: HashResult)
    requires SystemOk(y) && MatchAt(y.reg, id).playerA != NoOne
    requires var m := MatchAt(y.reg, id);
      && !y.desk.paused && result.matchId == id && GameAt(y.reg, m.gameId).mode == HashAgree && m.state == Ready
      && (sender == m.playerA || sender == m.playerB)
    ensures var r := S.SubmitHashResult(y, sender, now, id, result);
      var other := S.ResultOf(y.desk, id, Opponent(MatchAt(y.reg, id), sender));
      && (r.Ok? && r.value.reg == y.reg <==> other.outcome == NoResult)
      && (r.Ok? && r.value.reg == y.reg ==>
            && r.value.desk.(rtResults := y.desk.rtResults) == y.desk
            && S.ResultOf(r.value.desk, id, sender) == result)
  {
    var m := MatchAt(y.reg, id);
    assert MatchOk(y.reg.nextGameId, m);
    hide RegistryOk, UnsetGame, UnsetMatch, UnsetResult, S.Split, CreditAll, FeeCredit, FeePot;
  }
}
