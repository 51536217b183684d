/** The stateful prize escrow: contracts/src/AMPTournamentCup.sol. */
module CupContract {
  import opened Wrappers
  import opened Sums
  import opened EscrowTypes
  import C = CupSpec
  import opened CupSpec
  import Runs = CupRuns

  type Reply = Result<(), CupError>

  ghost predicate Follows(spec: Step, before: Vault, after: Vault, reply: Reply) {
    match spec
    case Ok(s) => reply == Ok(()) && after == s
    case Err(e) => reply == Err(e) && after == before
  }

  /** A successful step from a safe vault ends in a safe vault. */
  ghost predicate StaysSafe(s: Vault, r: Step) {
    Runs.Safe(s) && r.Ok? ==> Runs.Safe(r.value)
  }

  /** The refund transfer takes at most the pool. */
  ghost predicate FairRefund(s: Vault, id: nat, transfer: Transfer) {
    Runs.FairTransfer(CupAt(s, id).token, CupAt(s, id).prizePool, transfer)
  }

  /** The two transfers of a claim take at most the payout and the fee. */
  ghost predicate FairClaim(s: Vault, id: nat, placement: nat, toWinner: Transfer, toTreasury: Transfer) {
    && Runs.FairTransfer(CupAt(s, id).token, Runs.PayoutOf(s, id, placement), toWinner)
    && Runs.FairTransfer(CupAt(s, id).token, Runs.FeeOf(s, id, placement), toTreasury)
  }

  /** The payout structure is checked entry by entry. */
  method CheckPayout(payoutBps: seq<nat>) returns (e: Option<CupError>)
    ensures e == BpsError(payoutBps)
  {
    var sum, i := 0, 0;
    while i < |payoutBps|
      invariant 0 <= i <= |payoutBps| && sum == BpsSum(payoutBps, i)
      invariant forall j :: 0 <= j < i ==> ShareInRange(payoutBps[j])
    {
      if payoutBps[i] == 0 || payoutBps[i] > 10000 {
        assert !ShareInRange(payoutBps[i]);
        return Some(InvalidPayout);
      }
      sum := sum + payoutBps[i];
      i := i + 1;
    }
    e := if sum != 10000 then Some(PayoutSumInvalid) else None;
  }

  method AllPlacementsClaimed(claimed: set<nat>, n: nat) returns (all: bool)
    ensures all <==> AllClaimed(claimed, n)
  {
    all := true;
    var i := 0;
    while i < n
      invariant 0 <= i <= n && all == forall j :: 0 <= j < i ==> j in claimed
    {
      if i !in claimed {
        all := false;
        break;
      }
      i := i + 1;
    }
  }

  class AMPTournamentCup {
    const owner: Address
    var nextTournamentId: nat
    var protocolFeeBps: nat
    var protocolFeeRecipient: Address
    var tournaments: map<nat, Cup>
    var claimed: map<nat, set<nat>>
    var paused: bool
    /** What the token contracts and the chain record as held by this contract. */
    var balances: map<Address, nat>

    ghost function View(): Vault
      reads this
    {
      Vault(owner, nextTournamentId, protocolFeeBps, protocolFeeRecipient, tournaments, claimed, paused, balances)
    }

    /** Every cup is well formed, and what is held of each token covers what is kept for the cups. */
    ghost predicate Valid()
      reads this
    {
      Runs.Safe(View())
    }

    constructor (owner: Address, feeRecipient: Address)
      requires feeRecipient != NoOne
      ensures Valid()
      ensures View() == Vault(owner, 1, 0, feeRecipient, map[], map[], false, map[])
    {
      this.owner := owner;
      nextTournamentId, protocolFeeBps, protocolFeeRecipient := 1, 0, feeRecipient;
      tournaments, claimed, paused, balances := map[], map[], false, map[];
      new;
      StartsSafe();
    }

    // ---------- what each transaction keeps ----------

    lemma {:induction false} StartsSafe()
      requires View() == Vault(owner, 1, 0, protocolFeeRecipient, map[], map[], false, map[])
      ensures Valid()
    {
      Runs.FreshSafe(View());
    }

    lemma {:induction false} CreateSafe(sender: Address, now: nat, value: nat, payoutBps: seq<nat>, verifier: Address,
        deadline: nat)
      ensures sender != NoOne ==>
        StaysSafe(View(), C.CreateTournament(View(), sender, now, value, payoutBps, verifier, deadline))
    {
      Runs.SafeStep(View(), Runs.CreateTournament(sender, now, value, payoutBps, verifier, deadline));
      hide Runs.Safe;
    }

    lemma {:induction false} CreateERC20Safe(sender: Address, now: nat, token: Address, amount: nat, received: nat,
        payoutBps: seq<nat>, verifier: Address, deadline: nat)
      ensures sender != NoOne && received <= amount ==>
        StaysSafe(View(),
          C.CreateTournamentERC20(View(), sender, now, token, amount, received, payoutBps, verifier, deadline))
    {
      Runs.SafeStep(View(),
        Runs.CreateTournamentERC20(sender, now, token, amount, received, payoutBps, verifier, deadline));
      hide Runs.Safe;
    }

    lemma {:induction false} CancelSafe(sender: Address, now: nat, id: nat, transfer: Transfer)
      ensures sender != NoOne && FairRefund(View(), id, transfer) ==>
        StaysSafe(View(), C.CancelTournament(View(), sender, now, id, transfer))
    {
      Runs.SafeStep(View(), Runs.CancelTournament(sender, now, id, transfer));
      hide Runs.Safe;
    }

    lemma {:induction false} FinalizeSafe(now: nat, id: nat, winners: seq<Address>, signer: Address)
      ensures StaysSafe(View(), C.FinalizeTournament(View(), now, id, winners, signer))
    {
      Runs.SafeStep(View(), Runs.FinalizeTournament(1, now, id, winners, signer));
      hide Runs.Safe;
    }

    lemma {:induction false} ClaimSafe(sender: Address, id: nat, placement: nat, toWinner: Transfer,
        toTreasury: Transfer)
      ensures sender != NoOne && FairClaim(View(), id, placement, toWinner, toTreasury) ==>
        StaysSafe(View(), C.ClaimPrize(View(), sender, id, placement, toWinner, toTreasury))
    {
      Runs.SafeStep(View(), Runs.ClaimPrize(sender, id, placement, toWinner, toTreasury));
      hide Runs.Safe;
    }

    lemma {:induction false} FeeSafe(sender: Address, feeBps: nat)
      ensures sender != NoOne ==>
        StaysSafe(View(), C.UpdateProtocolFeeBps(View(), sender, feeBps))
    {
      Runs.SafeStep(View(), Runs.UpdateProtocolFeeBps(sender, feeBps));
      hide Runs.Safe;
    }

    lemma {:induction false} RecipientSafe(sender: Address, recipient: Address)
      ensures sender != NoOne ==>
        StaysSafe(View(), C.UpdateProtocolFeeRecipient(View(), sender, recipient))
    {
      Runs.SafeStep(View(), Runs.UpdateProtocolFeeRecipient(sender, recipient));
      hide Runs.Safe;
    }

    // ---------- transactions ----------

    /** Moves the prize in and writes the cup, pushing the shares onto the stored list. */
    method Create(sender: Address, now: nat, token: Address, received: nat, payoutBps: seq<nat>, verifier: Address,
        deadline: nat)
      returns (id: nat)
      modifies this`nextTournamentId, this`tournaments, this`balances
      ensures id == old(nextTournamentId)
      ensures View() == C.Create(old(View()), sender, now, token, received, payoutBps, verifier, deadline)
    {
      id := nextTournamentId;
      nextTournamentId := nextTournamentId + 1;
      balances := balances[token := Get(balances, token) + received];
      var t := if id in tournaments then tournaments[id] else UnsetCup;
      hide UnsetCup;
      var stored := t.payoutBps;
      var i := 0;
      while i < |payoutBps|
        invariant 0 <= i <= |payoutBps| && stored == t.payoutBps + payoutBps[..i]
      {
        stored := stored + [payoutBps[i]];
        i := i + 1;
      }
      assert payoutBps[..i] == payoutBps;
      tournaments :=
        tournaments[id := Cup(sender, token, received, stored, verifier, t.winners, Funding, now, deadline)];
    }

    method CreateTournament(sender: Address, now: nat, value: nat, payoutBps: seq<nat>, verifier: Address,
        deadline: nat)
      returns (reply: Reply, id: nat)
      modifies this`nextTournamentId, this`tournaments, this`balances
      ensures Follows(C.CreateTournament(old(View()), sender, now, value, payoutBps, verifier, deadline),
                      old(View()), View(), reply)
      ensures id == old(nextTournamentId)
      ensures old(Valid()) && sender != NoOne ==> Valid()
    {
      hide Runs.Safe;
      CreateSafe(sender, now, value, payoutBps, verifier, deadline);
      id := nextTournamentId;
      hide BpsError, C.Create;
      if paused { return Err(EnforcedPause), id; }
      if value == 0 { return Err(InvalidPayout), id; }
      if verifier == NoOne { return Err(ZeroAddress), id; }
      if |payoutBps| == 0 || |payoutBps| > MaxPlacements { return Err(InvalidPayout), id; }
      if deadline <= now { return Err(DeadlineInPast), id; }
      var e := CheckPayout(payoutBps);
      if e.Some? { return Err(e.value), id; }
      id := Create(sender, now, NoOne, value, payoutBps, verifier, deadline);
      reply := Ok(());
    }

    method CreateTournamentERC20(sender: Address, now: nat, token: Address, amount: nat, received: nat,
        payoutBps: seq<nat>, verifier: Address, deadline: nat)
      returns (reply: Reply, id: nat)
      modifies this`nextTournamentId, this`tournaments, this`balances
      ensures Follows(
        C.CreateTournamentERC20(old(View()), sender, now, token, amount, received, payoutBps, verifier, deadline),
        old(View()), View(), reply)
      ensures id == old(nextTournamentId)
      ensures old(Valid()) && sender != NoOne && received <= amount ==> Valid()
    {
      hide Runs.Safe;
      CreateERC20Safe(sender, now, token, amount, received, payoutBps, verifier, deadline);
      id := nextTournamentId;
      hide BpsError, C.Create;
      if paused { return Err(EnforcedPause), id; }
      if token == NoOne { return Err(ZeroAddress), id; }
      if amount == 0 { return Err(InvalidPayout), id; }
      if verifier == NoOne { return Err(ZeroAddress), id; }
      if |payoutBps| == 0 || |payoutBps| > MaxPlacements { return Err(InvalidPayout), id; }
      if deadline <= now { return Err(DeadlineInPast), id; }
      var e := CheckPayout(payoutBps);
      if e.Some? { return Err(e.value), id; }
      if received == 0 { return Err(InvalidPayout), id; }
      id := Create(sender, now, token, received, payoutBps, verifier, deadline);
      reply := Ok(());
    }

    /** Nothing moves for a zero amount; otherwise the transfer may fail. */
    static method Transmit(held: map<Address, nat>, token: Address, amount: nat, transfer: Transfer)
      returns (left: Option<map<Address, nat>>)
      ensures left == Send(held, token, amount, transfer)
    {
      if amount == 0 { return Some(held); }
      if transfer.Failed? || Get(held, token) < transfer.units { return None; }
      left := Some(held[token := Get(held, token) - transfer.units]);
    }

    static method TransmitBoth(held: map<Address, nat>, token: Address, payout: nat, fee: nat, toWinner: Transfer,
        toTreasury: Transfer)
      returns (left: Option<map<Address, nat>>)
      ensures left == SendBoth(held, token, payout, fee, toWinner, toTreasury)
    {
      left := Transmit(held, token, payout, toWinner);
      if left.Some? { left := Transmit(left.value, token, fee, toTreasury); }
    }

    method CancelTournament(sender: Address, now: nat, id: nat, transfer: Transfer) returns (reply: Reply)
      modifies this`tournaments, this`balances
      ensures Follows(C.CancelTournament(old(View()), sender, now, id, transfer), old(View()), View(), reply)
      ensures old(Valid()) && sender != NoOne && FairRefund(old(View()), id, transfer) ==> Valid()
    {
      hide Runs.Safe;
      CancelSafe(sender, now, id, transfer);
      var t := if id in tournaments then tournaments[id] else UnsetCup;
      hide UnsetCup, Send;
      if t.state != Funding { return Err(NotOpen); }
      var deadlinePassed := now > t.finalizeDeadline;
      if !deadlinePassed && sender != t.sponsor { return Err(NotSponsor); }
      var left := Transmit(balances, t.token, t.prizePool, transfer);
      if left.None? { return Err(TransferFailed); }
      tournaments := tournaments[id := t.(state := Refunded)];
      balances := left.value;
      reply := Ok(());
    }

    method FinalizeTournament(now: nat, id: nat, winners: seq<Address>, signer: Address) returns (reply: Reply)
      modifies this`tournaments
      ensures Follows(C.FinalizeTournament(old(View()), now, id, winners, signer), old(View()), View(), reply)
      ensures old(Valid()) ==> Valid()
    {
      hide Runs.Safe;
      FinalizeSafe(now, id, winners, signer);
      var t := if id in tournaments then tournaments[id] else UnsetCup;
      hide UnsetCup;
      if paused { return Err(EnforcedPause); }
      if t.state != Funding { return Err(NotOpen); }
      if now > t.finalizeDeadline { return Err(DeadlinePassedImplicit); }
      if |winners| != |t.payoutBps| { return Err(WinnerCountMismatch); }
      if signer != t.verifier { return Err(InvalidSignature); }
      if signer == NoOne { return Err(InvalidSignature); }
      var stored := t.winners;
      var i := 0;
      while i < |winners|
        invariant 0 <= i <= |winners| && stored == t.winners + winners[..i] && NoOne !in winners[..i]
      {
        if winners[i] == NoOne { return Err(ZeroAddress); }
        stored := stored + [winners[i]];
        i := i + 1;
      }
      assert winners[..i] == winners;
      tournaments := tournaments[id := t.(winners := stored, state := Finalized)];
      reply := Ok(());
    }

    method ClaimPrize(sender: Address, id: nat, placement: nat, toWinner: Transfer, toTreasury: Transfer)
      returns (reply: Reply)
      modifies this`tournaments, this`claimed, this`balances
      ensures Follows(C.ClaimPrize(old(View()), sender, id, placement, toWinner, toTreasury),
                      old(View()), View(), reply)
      ensures old(Valid()) && sender != NoOne && FairClaim(old(View()), id, placement, toWinner, toTreasury) ==> Valid()
    {
      hide Runs.Safe;
      ClaimSafe(sender, id, placement, toWinner, toTreasury);
      var t := if id in tournaments then tournaments[id] else UnsetCup;
      var mine := ClaimedOf(claimed, id);
      hide UnsetCup, SendBoth, AllClaimed;
      if paused { return Err(EnforcedPause); }
      if t.state != Finalized && t.state != Complete { return Err(NotFinalized); }
      if placement >= |t.winners| { return Err(NotWinner); }
      if t.winners[placement] != sender { return Err(NotWinner); }
      if placement in mine { return Err(AlreadyClaimed); }
      if placement >= |t.payoutBps| { return Err(IndexOutOfBounds); }
      var share := t.prizePool * t.payoutBps[placement] / 10000;
      var fee := share * protocolFeeBps / 10000;
      if fee > share { return Err(Underflow); }
      hide Share, Fee;
      var all := AllPlacementsClaimed(mine + {placement}, |t.winners|);
      var left := TransmitBoth(balances, t.token, share - fee, fee, toWinner, toTreasury);
      if left.None? { return Err(TransferFailed); }
      claimed := claimed[id := mine + {placement}];
      tournaments := tournaments[id := if all then t.(state := Complete) else t];
      balances := left.value;
      reply := Ok(());
    }

    method UpdateProtocolFeeBps(sender: Address, feeBps: nat) returns (reply: Reply)
      modifies this`protocolFeeBps
      ensures Follows(C.UpdateProtocolFeeBps(old(View()), sender, feeBps), old(View()), View(), reply)
      ensures old(Valid()) && sender != NoOne ==> Valid()
    {
      hide Runs.Safe;
      FeeSafe(sender, feeBps);
      if sender != owner { return Err(NotOwner); }
      if feeBps > MaxCupFeeBps { return Err(InvalidFee); }
      protocolFeeBps := feeBps;
      reply := Ok(());
    }

    method UpdateProtocolFeeRecipient(sender: Address, recipient: Address) returns (reply: Reply)
      modifies this`protocolFeeRecipient
      ensures Follows(C.UpdateProtocolFeeRecipient(old(View()), sender, recipient), old(View()), View(), reply)
      ensures old(Valid()) && sender != NoOne ==> Valid()
    {
      hide Runs.Safe;
      RecipientSafe(sender, recipient);
      if sender != owner { return Err(NotOwner); }
      if recipient == NoOne { return Err(ZeroAddress); }
      protocolFeeRecipient := recipient;
      reply := Ok(());
    }
  }
}
