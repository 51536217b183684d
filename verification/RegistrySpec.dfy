/** The state of contracts/src/AMPRegistry.sol and each of its transactions, as values. */
module RegistrySpec {
  import opened Wrappers
  import opened Sums
  import opened EscrowTypes

  const MaxStudioFeeBps: nat := 500
  const MaxVerifiers: nat := 10

  datatype RegistryError =
    | NotSettlement | TooManyVerifiers | RTModeRequiresArbiter | NotGameAdmin | TimeoutTooShort
    | TimeoutTooLong | StakeTooLow | NativeTokenSentForERC20 | MatchNotOpen | CannotJoinOwnMatch
    | StakeMismatch | NotPlayerA | DisputeTimeoutNotReached | MatchNotExpirable | NotExpiredYet
    | NoFeesToWithdraw | TransferFailed | MatchNotSettlable | NoPendingWithdrawal | MatchAlreadyExists
    | InvalidNewState | InvalidStudioFee | EnforcedPause | NotOwner | IndexOutOfBounds

  type Credits = map<Address, map<Address, nat>>

  datatype Registry = Registry(
    owner: Address, settlement: Address, nextGameId: nat,
    feeBalances: map<Address, nat>, pending: Credits,
    games: map<nat, Game>, matches: map<nat, Match>, gameVerifiers: map<nat, set<Address>>,
    paused: bool,
    /** What the contract holds of each token. */
    balances: map<Address, nat>)

  type Step = Result<Registry, RegistryError>

  // ---------- reading storage ----------

  function GameAt(s: Registry, id: nat): Game {
    if id in s.games then s.games[id] else UnsetGame
  }

  function MatchAt(s: Registry, id: nat): Match {
    if id in s.matches then s.matches[id] else UnsetMatch
  }

  function Row(p: Credits, token: Address): map<Address, nat> {
    if token in p then p[token] else map[]
  }

  function VerifiersOf(vs: map<nat, set<Address>>, gameId: nat): set<Address> {
    if gameId in vs then vs[gameId] else {}
  }

  function TokenOf(s: Registry, m: Match): Address {
    GameAt(s, m.gameId).stakeToken
  }

  function Balance(s: Registry, token: Address): nat {
    Get(s.balances, token)
  }

  // ---------- writing storage ----------

  function Credit(p: Credits, token: Address, who: Address, amount: nat): Credits {
    p[token := Row(p, token)[who := Get(Row(p, token), who) + amount]]
  }

  function Receive(b: map<Address, nat>, token: Address, units: nat): map<Address, nat> {
    b[token := Get(b, token) + units]
  }

  function Listed(verifiers: seq<Address>): set<Address> {
    set v | v in verifiers
  }

  // ---------- games ----------

  function RegisterGame(s: Registry, sender: Address, mode: SettlementMode, verifiers: seq<Address>, minStake: nat,
      stakeToken: Address, arbiter: Address): Step
  {
    if s.paused then Err(EnforcedPause)
    else if |verifiers| > MaxVerifiers then Err(TooManyVerifiers)
    else if mode == HashAgree && arbiter == NoOne then Err(RTModeRequiresArbiter)
    else
      var id := s.nextGameId;
      var game := Game(sender, mode, verifiers, minStake, stakeToken, arbiter, Hour, 0, NoOne);
      Ok(s.(nextGameId := id + 1, games := s.games[id := game],
            gameVerifiers := s.gameVerifiers[id := VerifiersOf(s.gameVerifiers, id) + Listed(verifiers)]))
  }

  function SetStudioFee(s: Registry, sender: Address, gameId: nat, feeBps: nat, recipient: Address): Step {
    var game := GameAt(s, gameId);
    if sender != game.admin then Err(NotGameAdmin)
    else if feeBps > MaxStudioFeeBps then Err(InvalidStudioFee)
    else if feeBps > 0 && recipient == NoOne then Err(InvalidStudioFee)
    else Ok(s.(games := s.games[gameId := game.(studioFeeBps := feeBps, studioFeeRecipient := recipient)]))
  }

  function SetMatchTimeout(s: Registry, sender: Address, gameId: nat, seconds: nat): Step {
    var game := GameAt(s, gameId);
    if sender != game.admin then Err(NotGameAdmin)
    else if seconds < 300 then Err(TimeoutTooShort)
    else if seconds > 30 * Day then Err(TimeoutTooLong)
    else Ok(s.(games := s.games[gameId := game.(matchTimeout := seconds)]))
  }

  function UpdateGameVerifiers(s: Registry, sender: Address, gameId: nat, verifiers: seq<Address>): Step {
    var game := GameAt(s, gameId);
    if sender != game.admin then Err(NotGameAdmin)
    else if |verifiers| > MaxVerifiers then Err(TooManyVerifiers)
    else
      var cleared := VerifiersOf(s.gameVerifiers, gameId) - Listed(game.verifiers);
      Ok(s.(games := s.games[gameId := game.(verifiers := verifiers)],
            gameVerifiers := s.gameVerifiers[gameId := cleared + Listed(verifiers)]))
  }

  // ---------- matches ----------

  /** `received` is the balance delta a token deposit produces; a native deposit produces `value`. */
  function CreateMatch(s: Registry, sender: Address, now: nat, gameId: nat, matchId: nat, stakeAmount: nat, value: nat,
      received: nat): Step
  {
    if s.paused then Err(EnforcedPause)
    else if MatchAt(s, matchId).playerA != NoOne then Err(MatchAlreadyExists)
    else
      var game := GameAt(s, gameId);
      var native := game.stakeToken == NoOne;
      if (if native then value else stakeAmount) < game.minStake then Err(StakeTooLow)
      else if !native && value != 0 then Err(NativeTokenSentForERC20)
      else
        var actual := if native then value else received;
        Ok(s.(matches := s.matches[matchId := Match(gameId, sender, Open, NoOne, now, actual, 0)],
              balances := Receive(s.balances, game.stakeToken, actual)))
  }

  function JoinMatch(s: Registry, sender: Address, matchId: nat, value: nat, received: nat): Step {
    var m := MatchAt(s, matchId);
    if s.paused then Err(EnforcedPause)
    else if m.state != Open then Err(MatchNotOpen)
    else if sender == m.playerA then Err(CannotJoinOwnMatch)
    else
      var token := TokenOf(s, m);
      if token == NoOne && value != m.stakeAmount then Err(StakeMismatch)
      else if token != NoOne && value != 0 then Err(NativeTokenSentForERC20)
      else if token != NoOne && received == 0 then Err(StakeMismatch)
      else
        var actual := if token == NoOne then value else received;
        Ok(s.(matches := s.matches[matchId := m.(stakeAmountB := actual, playerB := sender, state := Ready)],
              balances := Receive(s.balances, token, actual)))
  }

  function CancelMatch(s: Registry, sender: Address, matchId: nat): Step {
    var m := MatchAt(s, matchId);
    if s.paused then Err(EnforcedPause)
    else if m.state != Open then Err(MatchNotOpen)
    else if sender != m.playerA then Err(NotPlayerA)
    else
      Ok(s.(matches := s.matches[matchId := m.(state := Settled, stakeAmount := 0)],
            pending := Credit(s.pending, TokenOf(s, m), m.playerA, m.stakeAmount)))
  }

  function ExpireMatch(s: Registry, now: nat, matchId: nat): Step {
    var m := MatchAt(s, matchId);
    var game := GameAt(s, m.gameId);
    if m.state == Disputed && now < m.createdAt + game.matchTimeout * 3 then Err(DisputeTimeoutNotReached)
    else if m.state != Disputed && m.state != Open && m.state != Ready then Err(MatchNotExpirable)
    else if m.state != Disputed && now < m.createdAt + game.matchTimeout then Err(NotExpiredYet)
    else
      var p := Credit(s.pending, game.stakeToken, m.playerA, m.stakeAmount);
      Ok(s.(matches := s.matches[matchId := m.(state := Expired)],
            pending := if m.playerB != NoOne then Credit(p, game.stakeToken, m.playerB, m.stakeAmountB) else p))
  }

  // ---------- payouts ----------

  /** A fee goes to its recipient, or to the owner's pot when there is none. */
  function FeeCredit(p: Credits, token: Address, recipient: Address, fee: nat): Credits {
    if fee > 0 && recipient != NoOne then Credit(p, token, recipient, fee) else p
  }

  function FeePot(pot: map<Address, nat>, token: Address, recipient: Address, fee: nat): map<Address, nat> {
    if fee > 0 && recipient == NoOne then pot[token := Get(pot, token) + fee] else pot
  }

  /** The first `n` recipients are credited, in order; zero amounts are skipped. */
  function CreditAll(p: Credits, token: Address, recipients: seq<Address>, amounts: seq<nat>, n: nat): Credits
    requires n <= |recipients| && n <= |amounts|
    decreases n, recipients
  {
    if n == 0 then p
    else
      var q := CreditAll(p, token, recipients, amounts, n - 1);
      if amounts[n - 1] > 0 then Credit(q, token, recipients[n - 1], amounts[n - 1]) else q
  }

  function SettleMatch(s: Registry, sender: Address, matchId: nat, newState: MatchState,
      feeRecipients: (Address, Address), feeAmounts: (nat, nat), recipients: seq<Address>, amounts: seq<nat>): Step
  {
    var m := MatchAt(s, matchId);
    if sender != s.settlement then Err(NotSettlement)
    else if !Live(m.state) then Err(MatchNotSettlable)
    else if newState != Settled && newState != Expired && newState != Disputed then Err(InvalidNewState)
    else if |amounts| < |recipients| then Err(IndexOutOfBounds)
    else
      var token := TokenOf(s, m);
      var p :=
        FeeCredit(FeeCredit(s.pending, token, feeRecipients.0, feeAmounts.0), token, feeRecipients.1, feeAmounts.1);
      var pot :=
        FeePot(FeePot(s.feeBalances, token, feeRecipients.0, feeAmounts.0), token, feeRecipients.1, feeAmounts.1);
      Ok(s.(matches := s.matches[matchId := m.(state := newState)], feeBalances := pot,
            pending := CreditAll(p, token, recipients, amounts, |recipients|)))
  }

  // ---------- withdrawals ----------

  function Pay(s: Registry, token: Address, transfer: Transfer): Step {
    if transfer.Failed? || Balance(s, token) < transfer.units then Err(TransferFailed)
    else Ok(s.(balances := s.balances[token := Balance(s, token) - transfer.units]))
  }

  function WithdrawFees(s: Registry, sender: Address, token: Address, transfer: Transfer): Step {
    if sender != s.owner then Err(NotOwner)
    else if Get(s.feeBalances, token) == 0 then Err(NoFeesToWithdraw)
    else Pay(s.(feeBalances := s.feeBalances[token := 0]), token, transfer)
  }

  function Withdraw(s: Registry, sender: Address, token: Address, transfer: Transfer): Step {
    if Get(Row(s.pending, token), sender) == 0 then Err(NoPendingWithdrawal)
    else Pay(s.(pending := s.pending[token := Row(s.pending, token)[sender := 0]]), token, transfer)
  }
}
