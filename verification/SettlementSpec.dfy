/** The state of contracts/src/AMPSettlement.sol and each of its transactions, as values. */
module SettlementSpec {
  import opened Wrappers
  import opened EscrowTypes
  import R = RegistrySpec

  const MaxProtocolFeeBps: nat := 500
  const MaxTotalFeeBps: nat := 800

  datatype SettlementError =
    | FeeExceedsMax | InvalidRecipient | MatchIdMismatch | WrongMode | MatchNotSettlable | NoOpponent
    | InvalidVerifierSignature | NotArbiter | NotDisputed | NotAPlayer | TotalFeeTooHigh | InvalidOutcome
    | EnforcedPause | NotOwner | Registry(error: R.RegistryError)

  datatype Desk = Desk(
    owner: Address, self: Address, protocolFeeBps: nat, protocolFeeRecipient: Address,
    settlements: map<nat, Settlement>, rtResults: map<nat, map<Address, HashResult>>, paused: bool)

  /** The two contracts together. */
  datatype System = System(reg: R.Registry, desk: Desk)

  type Step = Result<System, SettlementError>

  function ResultOf(d: Desk, matchId: nat, player: Address): HashResult {
    if matchId in d.rtResults && player in d.rtResults[matchId] then d.rtResults[matchId][player] else UnsetResult
  }

  function ResultRow(rt: map<nat, map<Address, HashResult>>, matchId: nat): map<Address, HashResult> {
    if matchId in rt then rt[matchId] else map[]
  }

  // ---------- the split of a pool ----------

  datatype Shares = Shares(studioFee: nat, protocolFee: nat, toA: nat, toB: nat)

  function BpsOf(pool: nat, bps: nat): nat {
    pool * bps / 10000
  }

  /** Two fees whose rates sum to at most 8% leave at least 92% of the pool. */
  lemma {:induction false} FeesFit(pool: nat, s: nat, p: nat)
    requires s + p <= MaxTotalFeeBps
    ensures 10000 * (BpsOf(pool, s) + BpsOf(pool, p)) <= MaxTotalFeeBps * pool
    ensures BpsOf(pool, s) + BpsOf(pool, p) <= pool
  {
    assert pool * s + pool * p == pool * (s + p) <= pool * MaxTotalFeeBps;
  }

  function StudioFee(pool: nat, game: Game, outcome: OutcomeCode): nat {
    if outcome != Cancelled && game.studioFeeBps > 0 && game.studioFeeRecipient != NoOne
      then BpsOf(pool, game.studioFeeBps) else 0
  }

  function ProtocolFee(pool: nat, bps: nat, outcome: OutcomeCode): nat {
    if outcome != Cancelled then BpsOf(pool, bps) else 0
  }

  function Pool(m: Match): nat {
    if m.playerB == NoOne then m.stakeAmount else m.stakeAmount + m.stakeAmountB
  }

  function Split(m: Match, game: Game, protocolBps: nat, outcome: OutcomeCode): Result<Shares, SettlementError> {
    if outcome == NoResult then Err(InvalidOutcome)
    else if game.studioFeeBps + protocolBps > MaxTotalFeeBps then Err(TotalFeeTooHigh)
    else
      FeesFit(Pool(m), game.studioFeeBps, protocolBps);
      var studio := StudioFee(Pool(m), game, outcome);
      var protocol := ProtocolFee(Pool(m), protocolBps, outcome);
      var payout := Pool(m) - studio - protocol;
      match outcome
      case WinA => Ok(Shares(studio, protocol, payout, 0))
      case WinB => Ok(Shares(studio, protocol, 0, payout))
      case Draw => Ok(Shares(studio, protocol, payout / 2, payout - payout / 2))
      case Cancelled => Ok(Shares(0, 0, m.stakeAmount, if m.playerB == NoOne then 0 else m.stakeAmountB))
  }

  /** `fee` is `bps` of the pool, rounded down to a unit. */
  predicate Rounded(fee: nat, pool: nat, bps: nat) {
    10000 * fee <= pool * bps < 10000 * (fee + 1)
  }

  lemma {:induction false} BpsRounded(pool: nat, bps: nat)
    ensures Rounded(BpsOf(pool, bps), pool, bps)
  {
  }

  lemma {:induction false} PoolMeans(m: Match)
    ensures Pool(m) == m.stakeAmount + if m.playerB == NoOne then 0 else m.stakeAmountB
  {
  }

  /**
   Every non-NONE outcome splits the whole pool: nothing is lost, the players keep at least 92% of it,
   a draw is even to within one unit, a cancellation returns each player's own stake, and otherwise each fee
   is its rate of the pool, rounded down.
   */
  lemma {:induction false} SplitConserves(m: Match, game: Game, protocolBps: nat, outcome: OutcomeCode)
    ensures Split(m, game, protocolBps, outcome).Ok? <==>
      outcome != NoResult && game.studioFeeBps + protocolBps <= MaxTotalFeeBps
    ensures Split(m, game, protocolBps, outcome).Ok? ==>
      var sh := Split(m, game, protocolBps, outcome).value;
      && sh.toA + sh.toB + sh.studioFee + sh.protocolFee == Pool(m)
      && 100 * (sh.toA + sh.toB) >= 92 * Pool(m)
      && (outcome == WinA ==> sh.toB == 0)
      && (outcome == WinB ==> sh.toA == 0)
      && (outcome == Draw ==> sh.toA <= sh.toB <= sh.toA + 1)
      && (outcome == Cancelled ==>
            sh.studioFee == 0 && sh.protocolFee == 0 && sh.toA == m.stakeAmount
            && (m.playerB != NoOne ==> sh.toB == m.stakeAmountB))
      && (sh.studioFee > 0 ==> game.studioFeeRecipient != NoOne)
      && (outcome != Cancelled ==> Rounded(sh.protocolFee, Pool(m), protocolBps))
      && (outcome != Cancelled && game.studioFeeRecipient != NoOne ==>
        Rounded(sh.studioFee, Pool(m), game.studioFeeBps))
  {
    hide BpsOf, Rounded, Pool;
    if outcome != NoResult && game.studioFeeBps + protocolBps <= MaxTotalFeeBps {
      FeesFit(Pool(m), game.studioFeeBps, protocolBps);
      BpsRounded(Pool(m), game.studioFeeBps);
      BpsRounded(Pool(m), protocolBps);
      PoolMeans(m);
    }
  }

  // ---------- payout and the entry points ----------

  function Payout(s: System, matchId: nat, outcome: OutcomeCode): Step {
    var m := R.MatchAt(s.reg, matchId);
    var game := R.GameAt(s.reg, m.gameId);
    match Split(m, game, s.desk.protocolFeeBps, outcome)
    case Err(e) => Err(e)
    case Ok(sh) =>
      match R.SettleMatch(s.reg, s.desk.self, matchId, Settled,
                          (game.studioFeeRecipient, s.desk.protocolFeeRecipient), (sh.studioFee, sh.protocolFee),
                          [m.playerA, m.playerB], [sh.toA, sh.toB])
      case Err(e) => Err(Registry(e))
      case Ok(reg) => Ok(s.(reg := reg))
  }

  function Settle(s: System, now: nat, matchId: nat, outcome: OutcomeCode, transcriptHash: int): Step {
    var entry := Settlement(matchId, outcome, transcriptHash, now);
    Payout(s.(desk := s.desk.(settlements := s.desk.settlements[matchId := entry])), matchId, outcome)
  }

  /** `signer` is the address recovered from the result's signature. */
  function SubmitAsyncResult(s: System, now: nat, matchId: nat, result: HashResult, signer: Address): Step {
    var m := R.MatchAt(s.reg, matchId);
    if s.desk.paused then Err(EnforcedPause)
    else if result.matchId != matchId then Err(MatchIdMismatch)
    else if R.GameAt(s.reg, m.gameId).mode != AsyncVerifier then Err(WrongMode)
    else if m.state != Ready then Err(MatchNotSettlable)
    else if m.playerB == NoOne then Err(NoOpponent)
    else if signer !in R.VerifiersOf(s.reg.gameVerifiers, m.gameId) then Err(InvalidVerifierSignature)
    else Settle(s, now, matchId, result.outcome, result.transcriptHash)
  }

  function Dispute(s: System, matchId: nat): Step {
    match R.SettleMatch(s.reg, s.desk.self, matchId, Disputed, (NoOne, NoOne), (0, 0), [], [])
    case Err(e) => Err(Registry(e))
    case Ok(reg) => Ok(s.(reg := reg))
  }

  function SubmitHashResult(s: System, sender: Address, now: nat, matchId: nat, result: HashResult): Step {
    var m := R.MatchAt(s.reg, matchId);
    if s.desk.paused then Err(EnforcedPause)
    else if result.matchId != matchId then Err(MatchIdMismatch)
    else if R.GameAt(s.reg, m.gameId).mode != HashAgree then Err(WrongMode)
    else if m.state != Ready then Err(MatchNotSettlable)
    else if sender != m.playerA && sender != m.playerB then Err(NotAPlayer)
    else
      var row := ResultRow(s.desk.rtResults, matchId)[sender := result];
      var noted := s.(desk := s.desk.(rtResults := s.desk.rtResults[matchId := row]));
      var other := ResultOf(noted.desk, matchId, if sender == m.playerA then m.playerB else m.playerA);
      if other.outcome == NoResult then Ok(noted)
      else if result.outcome == other.outcome && result.transcriptHash == other.transcriptHash then
        Settle(noted, now, matchId, result.outcome, result.transcriptHash)
      else Dispute(noted, matchId)
  }

  function ResolveDispute(s: System, sender: Address, now: nat, matchId: nat, outcome: OutcomeCode): Step {
    var m := R.MatchAt(s.reg, matchId);
    if s.desk.paused then Err(EnforcedPause)
    else if m.state != Disputed then Err(NotDisputed)
    else if sender != R.GameAt(s.reg, m.gameId).arbiter then Err(NotArbiter)
    else if m.playerB == NoOne then Err(NoOpponent)
    else Settle(s, now, matchId, outcome, 0)
  }

  function UpdateProtocolFeeBps(s: System, sender: Address, feeBps: nat): Step {
    if sender != s.desk.owner then Err(NotOwner)
    else if feeBps > MaxProtocolFeeBps then Err(FeeExceedsMax)
    else Ok(s.(desk := s.desk.(protocolFeeBps := feeBps)))
  }

  function UpdateProtocolFeeRecipient(s: System, sender: Address, recipient: Address): Step {
    if sender != s.desk.owner then Err(NotOwner)
    else if recipient == NoOne then Err(InvalidRecipient)
    else Ok(s.(desk := s.desk.(protocolFeeRecipient := recipient)))
  }
}
