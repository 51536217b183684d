/** The state of contracts/src/AMPTournamentCup.sol and each of its transactions, as values. */
module CupSpec {
  import opened Wrappers
  import opened Sums
  import opened EscrowTypes

  const MaxCupFeeBps: nat := 500
  const MaxPlacements: nat := 16

  datatype CupState = Funding | Finalized | Complete | Refunded

  datatype CupError =
    | ZeroAddress | InvalidPayout | PayoutSumInvalid | DeadlineInPast | NotSponsor | NotOpen | NotFinalized
    | InvalidSignature | WinnerCountMismatch | NotWinner | AlreadyClaimed | TransferFailed | InvalidFee
    | DeadlinePassedImplicit | EnforcedPause | NotOwner | IndexOutOfBounds | Underflow

  datatype Cup = Cup(
    sponsor: Address, token: Address, prizePool: nat, payoutBps: seq<nat>, verifier: Address,
    winners: seq<Address>, state: CupState, createdAt: nat, finalizeDeadline: nat)

  datatype Vault = Vault(
    owner: Address, nextTournamentId: nat, protocolFeeBps: nat, protocolFeeRecipient: Address,
    cups: map<nat, Cup>, claimed: map<nat, set<nat>>, paused: bool, balances: map<Address, nat>)

  type Step = Result<Vault, CupError>

  /** What an unwritten slot reads as: an open cup with no sponsor, no prize and a deadline of zero. */
  const UnsetCup := Cup(NoOne, NoOne, 0, [], NoOne, [], Funding, 0, 0)

  function CupAt(s: Vault, id: nat): Cup {
    if id in s.cups then s.cups[id] else UnsetCup
  }

  function ClaimedOf(cl: map<nat, set<nat>>, id: nat): set<nat> {
    if id in cl then cl[id] else {}
  }

  function Balance(s: Vault, token: Address): nat {
    Get(s.balances, token)
  }

  // ---------- the payout structure ----------

  function BpsSum(bps: seq<nat>, n: nat): nat
    requires n <= |bps|
    decreases n, bps
  {
    if n == 0 then 0 else BpsSum(bps, n - 1) + bps[n - 1]
  }

  predicate ShareInRange(b: nat) {
    1 <= b <= 10000
  }

  function BpsError(bps: seq<nat>): Option<CupError> {
    if exists i :: 0 <= i < |bps| && !ShareInRange(bps[i]) then Some(InvalidPayout)
    else if BpsSum(bps, |bps|) != 10000 then Some(PayoutSumInvalid)
    else None
  }

  function Share(c: Cup, placement: nat): nat
    requires placement < |c.payoutBps|
  {
    c.prizePool * c.payoutBps[placement] / 10000
  }

  // ---------- money ----------

  /** A transfer of `amount`: nothing at all when the amount is zero, otherwise it may fail. */
  function Send(b: map<Address, nat>, token: Address, amount: nat, transfer: Transfer): Option<map<Address, nat>> {
    if amount == 0 then Some(b)
    else if transfer.Failed? || Get(b, token) < transfer.units then None
    else Some(b[token := Get(b, token) - transfer.units])
  }

  /** Payout and fee leave together or not at all. */
  function SendBoth(b: map<Address, nat>, token: Address, payout: nat, fee: nat, toWinner: Transfer,
      toTreasury: Transfer): Option<map<Address, nat>>
  {
    match Send(b, token, payout, toWinner)
    case None => None
    case Some(b') => Send(b', token, fee, toTreasury)
  }

  // ---------- transactions ----------

  function Create(s: Vault, sender: Address, now: nat, token: Address, received: nat, payoutBps: seq<nat>,
      verifier: Address, deadline: nat): Vault
  {
    var id := s.nextTournamentId;
    var t := CupAt(s, id);
    s.(nextTournamentId := id + 1,
       cups := s.cups[id :=
         Cup(sender, token, received, t.payoutBps + payoutBps, verifier, t.winners, Funding, now, deadline)],
       balances := s.balances[token := Balance(s, token) + received])
  }

  function CreateError(s: Vault, now: nat, amount: nat, payoutBps: seq<nat>, verifier: Address,
      deadline: nat): Option<CupError> {
    if amount == 0 then Some(InvalidPayout)
    else if verifier == NoOne then Some(ZeroAddress)
    else if |payoutBps| == 0 || |payoutBps| > MaxPlacements then Some(InvalidPayout)
    else if deadline <= now then Some(DeadlineInPast)
    else BpsError(payoutBps)
  }

  function CreateTournament(s: Vault, sender: Address, now: nat, value: nat, payoutBps: seq<nat>, verifier: Address,
      deadline: nat): Step {
    if s.paused then Err(EnforcedPause)
    else
      match CreateError(s, now, value, payoutBps, verifier, deadline)
      case Some(e) => Err(e)
      case None => Ok(Create(s, sender, now, NoOne, value, payoutBps, verifier, deadline))
  }

  function CreateTournamentERC20(s: Vault, sender: Address, now: nat, token: Address, amount: nat, received: nat,
      payoutBps: seq<nat>, verifier: Address, deadline: nat): Step
  {
    if s.paused then Err(EnforcedPause)
    else if token == NoOne then Err(ZeroAddress)
    else
      match CreateError(s, now, amount, payoutBps, verifier, deadline)
      case Some(e) => Err(e)
      case None =>
        if received == 0 then Err(InvalidPayout)
        else Ok(Create(s, sender, now, token, received, payoutBps, verifier, deadline))
  }

  function CancelTournament(s: Vault, sender: Address, now: nat, id: nat, transfer: Transfer): Step {
    var t := CupAt(s, id);
    if t.state != Funding then Err(NotOpen)
    else if now <= t.finalizeDeadline && sender != t.sponsor then Err(NotSponsor)
    else
      match Send(s.balances, t.token, t.prizePool, transfer)
      case None => Err(TransferFailed)
      case Some(b) => Ok(s.(cups := s.cups[id := t.(state := Refunded)], balances := b))
  }

  /** `signer` is the address recovered from the verifier's signature over the standings. */
  function FinalizeTournament(s: Vault, now: nat, id: nat, winners: seq<Address>, signer: Address): Step {
    var t := CupAt(s, id);
    if s.paused then Err(EnforcedPause)
    else if t.state != Funding then Err(NotOpen)
    else if now > t.finalizeDeadline then Err(DeadlinePassedImplicit)
    else if |winners| != |t.payoutBps| then Err(WinnerCountMismatch)
    else if signer != t.verifier then Err(InvalidSignature)
    else if signer == NoOne then Err(InvalidSignature)
    else if NoOne in winners then Err(ZeroAddress)
    else Ok(s.(cups := s.cups[id := t.(winners := t.winners + winners, state := Finalized)]))
  }

  predicate AllClaimed(cl: set<nat>, n: nat) {
    forall i :: 0 <= i < n ==> i in cl
  }

  function Fee(share: nat, bps: nat): nat {
    share * bps / 10000
  }

  function ClaimPrize(s: Vault, sender: Address, id: nat, placement: nat, toWinner: Transfer,
      toTreasury: Transfer): Step {
    var t := CupAt(s, id);
    var cl := ClaimedOf(s.claimed, id);
    if s.paused then Err(EnforcedPause)
    else if t.state != Finalized && t.state != Complete then Err(NotFinalized)
    else if placement >= |t.winners| then Err(NotWinner)
    else if t.winners[placement] != sender then Err(NotWinner)
    else if placement in cl then Err(AlreadyClaimed)
    else if placement >= |t.payoutBps| then Err(IndexOutOfBounds)
    else
      var share := Share(t, placement);
      var fee := Fee(share, s.protocolFeeBps);
      var now := cl + {placement};
      var st := if AllClaimed(now, |t.winners|) then Complete else t.state;
      if fee > share then Err(Underflow)
      else
        match SendBoth(s.balances, t.token, share - fee, fee, toWinner, toTreasury)
        case None => Err(TransferFailed)
        case Some(b) =>
          Ok(s.(cups := s.cups[id := t.(state := st)], claimed := s.claimed[id := now], balances := b))
  }

  function UpdateProtocolFeeBps(s: Vault, sender: Address, feeBps: nat): Step {
    if sender != s.owner then Err(NotOwner)
    else if feeBps > MaxCupFeeBps then Err(InvalidFee)
    else Ok(s.(protocolFeeBps := feeBps))
  }

  function UpdateProtocolFeeRecipient(s: Vault, sender: Address, recipient: Address): Step {
    if sender != s.owner then Err(NotOwner)
    else if recipient == NoOne then Err(ZeroAddress)
    else Ok(s.(protocolFeeRecipient := recipient))
  }
}
