/**
 What each transaction of the tournament cup demands and leaves behind, and what that means over runs: the terms of a
 cup never change, and a prize goes out only in a call by the winner whom the cup's verifier attested.
 */
module CupTerms {
  import opened Wrappers
  import opened Sums
  import opened EscrowTypes
  import C = CupSpec
  import opened CupSpec
  import opened CupAccounts
  import opened CupRuns

  /** Only cup `id`, its claims and the balances differ. */
  ghost predicate OnlyCup(s: Vault, s': Vault, id: nat) {
    && s'.(cups := s.cups, claimed := s.claimed, balances := s.balances) == s
    && (forall i :: i != id ==> CupAt(s', i) == CupAt(s, i) && ClaimedOf(s'.claimed, i) == ClaimedOf(s.claimed, i))
  }

  /** `amount` leaves, if there is anything to send. */
  predicate Leaves(balance: nat, amount: nat, transfer: Transfer) {
    amount > 0 ==> transfer.Moved? && transfer.units <= balance
  }

  // ---------- creating ----------

  /** Shares of at least one and at most sixteen placements that make up the whole. */
  ghost predicate ProperShares(bps: seq<nat>) {
    1 <= |bps| <= 16 && (forall i :: 0 <= i < |bps| ==> 1 <= bps[i] <= 10000) && BpsSum(bps, |bps|) == 10000
  }

  lemma {:induction false} CreateErrorTerms(s: Vault, now: nat, amount: nat, bps: seq<nat>, verifier: Address,
      deadline: nat)
    ensures CreateError(s, now, amount, bps, verifier, deadline).None?
      <==> amount > 0 && verifier != NoOne && now < deadline && ProperShares(bps)
    ensures var e := CreateError(s, now, amount, bps, verifier, deadline);
      && (e == Some(ZeroAddress) <==> amount > 0 && verifier == NoOne)
      && (e == Some(DeadlineInPast) <==>
            amount > 0 && verifier != NoOne && 1 <= |bps| <= 16 && deadline <= now)
  {
  }

  /** The new cup, under the next id. */
  ghost predicate NewCup(s: Vault, s': Vault, c: Cup) {
    var id := s.nextTournamentId;
    && s'.nextTournamentId == id + 1 && OnlyCup(s, s'.(nextTournamentId := id), id)
    && CupAt(s', id) == c && ClaimedOf(s'.claimed, id) == {}
    && (forall t :: Balance(s', t) == Balance(s, t) + if t == c.token then c.prizePool else 0)
  }

  lemma {:induction false} CreateMakes(s: Vault, sender: Address, now: nat, token: Address, received: nat,
      bps: seq<nat>, verifier: Address, deadline: nat)
    requires VaultOk(s)
    ensures NewCup(s, Create(s, sender, now, token, received, bps, verifier, deadline),
                   Cup(sender, token, received, bps, verifier, [], Funding, now, deadline))
  {
    FreshSlot(s, s.nextTournamentId);
    hide VaultOk;
    assert [] + bps == bps;
  }

  /** Anyone may sponsor a cup with coins and shares that add up, for a verifier and a deadline still to come. */
  lemma {:induction false} CreateTerms(s: Vault, sender: Address, now: nat, value: nat, bps: seq<nat>,
      verifier: Address, deadline: nat)
    requires VaultOk(s)
    ensures var r := C.CreateTournament(s, sender, now, value, bps, verifier, deadline);
      && (r.Ok? <==> !s.paused && value > 0 && verifier != NoOne && now < deadline && ProperShares(bps))
      && (r == Err(EnforcedPause) <==> s.paused)
      && (r.Ok? ==> NewCup(s, r.value, Cup(sender, NoOne, value, bps, verifier, [], Funding, now, deadline)))
  {
    CreateErrorTerms(s, now, value, bps, verifier, deadline);
    CreateMakes(s, sender, now, NoOne, value, bps, verifier, deadline);
    hide VaultOk, Create, NewCup, ProperShares, BpsError;
  }

  /** The same with a token: something must arrive, and what arrived is the pool. */
  lemma {:induction false} CreateERC20Terms(s: Vault, sender: Address, now: nat, token: Address, amount: nat,
      received: nat, bps: seq<nat>, verifier: Address, deadline: nat)
    requires VaultOk(s)
    ensures var r := C.CreateTournamentERC20(s, sender, now, token, amount, received, bps, verifier, deadline);
      && (r.Ok? <==>
            && !s.paused && token != NoOne && amount > 0 && received > 0 && verifier != NoOne && now < deadline
            && ProperShares(bps))
      && (r == Err(EnforcedPause) <==> s.paused)
      && (r.Ok? ==> NewCup(s, r.value, Cup(sender, token, received, bps, verifier, [], Funding, now, deadline)))
  {
    CreateErrorTerms(s, now, amount, bps, verifier, deadline);
    CreateMakes(s, sender, now, token, received, bps, verifier, deadline);
    hide VaultOk, Create, NewCup, ProperShares, BpsError;
  }

  // ---------- cancelling and finalizing ----------

  /**
   An open cup is refunded, paused or not, by its sponsor at any time and by anybody once the deadline has passed,
   if the whole pool can be sent.
   */
  lemma {:induction false} CancelTerms(s: Vault, sender: Address, now: nat, id: nat, transfer: Transfer)
    ensures var r := C.CancelTournament(s, sender, now, id, transfer);
      var c := CupAt(s, id);
      && (r.Ok? <==>
            && c.state == Funding && (sender == c.sponsor || now > c.finalizeDeadline)
            && Leaves(Balance(s, c.token), c.prizePool, transfer))
      && (r == Err(NotOpen) <==> c.state != Funding)
      && (r == Err(NotSponsor) <==> c.state == Funding && sender != c.sponsor && now <= c.finalizeDeadline)
      && (r.Ok? ==>
            && OnlyCup(s, r.value, id) && CupAt(r.value, id) == c.(state := Refunded)
            && ClaimedOf(r.value.claimed, id) == ClaimedOf(s.claimed, id)
            && (forall t :: Balance(r.value, t)
                  == Balance(s, t) - if t == c.token then Taken(c.prizePool, transfer) else 0))
  {
    hide UnsetCup;
  }

  /**
   An open cup is finalized, up to and including its deadline, by anybody who brings the verifier's signature over
   one non-zero winner per placement; the winners are kept in the order that was signed.
   */
  lemma {:induction false} FinalizeTerms(s: Vault, now: nat, id: nat, winners: seq<Address>, signer: Address)
    requires VaultOk(s)
    ensures var r := C.FinalizeTournament(s, now, id, winners, signer);
      var c := CupAt(s, id);
      && (r.Ok? <==>
            && !s.paused && c.state == Funding && now <= c.finalizeDeadline && |winners| == |c.payoutBps|
            && signer == c.verifier != NoOne && forall p :: 0 <= p < |winners| ==> winners[p] != NoOne)
      && (r == Err(EnforcedPause) <==> s.paused)
      && (r == Err(NotOpen) <==> !s.paused && c.state != Funding)
      && (r == Err(DeadlinePassedImplicit) <==> !s.paused && c.state == Funding && now > c.finalizeDeadline)
      && (r.Ok? ==>
            && OnlyCup(s, r.value, id) && r.value.balances == s.balances && r.value.claimed == s.claimed
            && CupAt(r.value, id) == c.(winners := winners, state := Finalized))
  {
    assert CupOk(Created(s, id), CupAt(s, id), ClaimedOf(s.claimed, id));
    hide VaultOk, BpsOk;
    assert [] + winners == winners;
  }

  // ---------- claiming ----------

  /** A placement's prize is its share of the pool, rounded down; the fee is its rate of the prize, rounded down. */
  lemma {:induction false} PrizeTerms(s: Vault, id: nat, p: nat)
    requires VaultOk(s) && p < |CupAt(s, id).payoutBps|
    ensures var c := CupAt(s, id);
      && 10000 * PrizeOf(s, id, p) <= c.prizePool * c.payoutBps[p] < 10000 * (PrizeOf(s, id, p) + 1)
      && 10000 * FeeOf(s, id, p) <= PrizeOf(s, id, p) * s.protocolFeeBps < 10000 * (FeeOf(s, id, p) + 1)
      && PayoutOf(s, id, p) + FeeOf(s, id, p) == PrizeOf(s, id, p)
      && 100 * PayoutOf(s, id, p) >= 95 * PrizeOf(s, id, p)
  {
    var prize := PrizeOf(s, id, p);
    ShareRounding(CupAt(s, id), p);
    FeeRounding(prize, s.protocolFeeBps);
    hide VaultOk, Share, Fee;
    RateOf(prize, s.protocolFeeBps);
  }

  lemma {:induction false} FeeRounding(share: nat, bps: nat)
    ensures 10000 * Fee(share, bps) <= share * bps < 10000 * (Fee(share, bps) + 1)
  {
  }

  lemma {:induction false} RateOf(share: nat, bps: nat)
    requires bps <= 500
    ensures share * bps <= 500 * share
  {
  }

  lemma {:induction false} BothSent(b: map<Address, nat>, token: Address, payout: nat, fee: nat, toWinner: Transfer,
      toTreasury: Transfer)
    ensures SendBoth(b, token, payout, fee, toWinner, toTreasury).Some?
      <==> Leaves(Get(b, token), payout, toWinner) && Leaves(Get(b, token) - Taken(payout, toWinner), fee, toTreasury)
    ensures SendBoth(b, token, payout, fee, toWinner, toTreasury).Some? ==>
      forall t :: Get(SendBoth(b, token, payout, fee, toWinner, toTreasury).value, t)
        == Get(b, t) - if t == token then Taken(payout, toWinner) + Taken(fee, toTreasury) else 0
  {
  }

  /** Placement `p` of a finalized cup is unclaimed and belongs to `who`. */
  predicate MayClaim(s: Vault, who: Address, id: nat, p: nat) {
    var c := CupAt(s, id);
    && !s.paused && (c.state == Finalized || c.state == Complete)
    && p < |c.winners| && c.winners[p] == who && p !in ClaimedOf(s.claimed, id)
  }

  lemma {:induction false} ClaimRefusals(s: Vault, sender: Address, id: nat, p: nat, toWinner: Transfer,
      toTreasury: Transfer)
    ensures var r := C.ClaimPrize(s, sender, id, p, toWinner, toTreasury);
      var c, cl := CupAt(s, id), ClaimedOf(s.claimed, id);
      var final := c.state == Finalized || c.state == Complete;
      && (r == Err(EnforcedPause) <==> s.paused)
      && (r == Err(NotFinalized) <==> !s.paused && !final)
      && (r == Err(NotWinner) <==> !s.paused && final && !(p < |c.winners| && c.winners[p] == sender))
      && (r == Err(AlreadyClaimed) <==>
            !s.paused && final && p < |c.winners| && c.winners[p] == sender && p in cl)
      && (r.Ok? ==> MayClaim(s, sender, id, p))
  {
    hide Share, Fee, SendBoth, AllClaimed, UnsetCup;
  }

  /** What a winner's claim amounts to: two transfers, and the placement is claimed. */
  lemma {:induction false} ClaimSends(s: Vault, sender: Address, id: nat, p: nat, toWinner: Transfer,
      toTreasury: Transfer)
    requires VaultOk(s) && MayClaim(s, sender, id, p)
    ensures var r := C.ClaimPrize(s, sender, id, p, toWinner, toTreasury);
      var c, cl := CupAt(s, id), ClaimedOf(s.claimed, id);
      var st := if AllClaimed(cl + {p}, |c.winners|) then Complete else c.state;
      match SendBoth(s.balances, c.token, PayoutOf(s, id, p), FeeOf(s, id, p), toWinner, toTreasury)
      case None => r == Err(TransferFailed)
      case Some(b) => r == Ok(s.(cups := s.cups[id := c.(state := st)], claimed := s.claimed[id := cl + {p}],
                                 balances := b))
  {
    assert CupOk(Created(s, id), CupAt(s, id), ClaimedOf(s.claimed, id));
    PrizeTerms(s, id, p);
    hide VaultOk, Share, Fee, SendBoth, AllClaimed, UnsetCup, BpsOk;
  }

  lemma {:induction false} LastClaim(cl: set<nat>, p: nat, n: nat)
    ensures AllClaimed(cl + {p}, n) <==> forall q :: 0 <= q < n ==> q == p || q in cl
  {
    if AllClaimed(cl + {p}, n) {
      forall q | 0 <= q < n ensures q == p || q in cl { assert q in cl + {p}; }
    }
  }

  lemma {:induction false} CompleteMeans(s: Vault, id: nat)
    requires VaultOk(s) && (CupAt(s, id).state == Finalized || CupAt(s, id).state == Complete)
    ensures CupAt(s, id).state == Complete <==> AllClaimed(ClaimedOf(s.claimed, id), |CupAt(s, id).winners|)
  {
    assert CupOk(Created(s, id), CupAt(s, id), ClaimedOf(s.claimed, id));
    hide VaultOk, AllClaimed, BpsOk, UnsetCup;
  }

  /**
   A prize is drawn by the winner of its placement and nobody else, once, while the contract is not paused, if the
   payout and the fee can be sent. The placement is then claimed, and the cup is complete when it was the last.
   */
  lemma {:induction false} ClaimTerms(s: Vault, sender: Address, id: nat, p: nat, toWinner: Transfer,
      toTreasury: Transfer)
    requires VaultOk(s)
    ensures var r := C.ClaimPrize(s, sender, id, p, toWinner, toTreasury);
      var c, cl := CupAt(s, id), ClaimedOf(s.claimed, id);
      var payout, fee := PayoutOf(s, id, p), FeeOf(s, id, p);
      && (r.Ok? <==>
            && MayClaim(s, sender, id, p)
            && Leaves(Balance(s, c.token), payout, toWinner)
            && Leaves(Balance(s, c.token) - Taken(payout, toWinner), fee, toTreasury))
      && (r.Ok? ==>
            && OnlyCup(s, r.value, id) && ClaimedOf(r.value.claimed, id) == cl + {p}
            && CupAt(r.value, id).(state := c.state) == c
            && (CupAt(r.value, id).state == Complete <==> forall q :: 0 <= q < |c.winners| ==> q == p || q in cl)
            && (CupAt(r.value, id).state == Complete || CupAt(r.value, id).state == Finalized)
            && (forall t :: Balance(r.value, t)
                  == Balance(s, t) - if t == c.token then Taken(payout, toWinner) + Taken(fee, toTreasury) else 0))
  {
    var c, cl := CupAt(s, id), ClaimedOf(s.claimed, id);
    ClaimRefusals(s, sender, id, p, toWinner, toTreasury);
    if MayClaim(s, sender, id, p) {
      ClaimSends(s, sender, id, p, toWinner, toTreasury);
      BothSent(s.balances, c.token, PayoutOf(s, id, p), FeeOf(s, id, p), toWinner, toTreasury);
      LastClaim(cl, p, |c.winners|);
      CompleteMeans(s, id);
      StillAllClaimed(cl, p, |c.winners|);
    }
    hide VaultOk, C.ClaimPrize, SendBoth, AllClaimed, UnsetCup, Leaves, Taken, PayoutOf, FeeOf;
  }

  lemma {:induction false} StillAllClaimed(cl: set<nat>, p: nat, n: nat)
    ensures AllClaimed(cl, n) ==> AllClaimed(cl + {p}, n)
  {
  }

  /** Only the owner sets the rate, up to 5%, and its recipient, never the zero address. */
  lemma {:induction false} CupFeeTerms(s: Vault, sender: Address, feeBps: nat, recipient: Address)
    ensures var r, q := C.UpdateProtocolFeeBps(s, sender, feeBps), C.UpdateProtocolFeeRecipient(s, sender, recipient);
      && (r.Ok? <==> sender == s.owner && feeBps <= 500) && (r == Err(NotOwner) <==> sender != s.owner)
      && (q.Ok? <==> sender == s.owner && recipient != NoOne) && (q == Err(NotOwner) <==> sender != s.owner)
      && (r.Ok? ==> r.value == s.(protocolFeeBps := feeBps))
      && (q.Ok? ==> q.value == s.(protocolFeeRecipient := recipient))
  {
  }

  // ---------- the terms of a cup never change ----------

  /** Same sponsor, token, pool, shares, verifier and times; winners, once attested, stay too. */
  predicate SameTerms(c: Cup, c': Cup) {
    && c'.(winners := c.winners, state := c.state) == c
    && (c.state == Finalized || c.state == Complete ==>
          c'.winners == c.winners && (c'.state == Finalized || c'.state == Complete))
  }

  lemma {:induction false} CancelKeepsTerms(s: Vault, a: Action)
    requires a.CancelTournament? && Next(s, a).Ok?
    ensures SameTerms(CupAt(s, a.id), CupAt(Next(s, a).value, a.id))
    ensures CupAt(Next(s, a).value, a.id).winners == CupAt(s, a.id).winners
  {
    CancelTerms(s, a.sender, a.now, a.id, a.transfer);
    hide C.CancelTournament;
  }

  lemma {:induction false} FinalizeKeepsTerms(s: Vault, a: Action)
    requires VaultOk(s) && a.FinalizeTournament? && Next(s, a).Ok?
    ensures SameTerms(CupAt(s, a.id), CupAt(Next(s, a).value, a.id))
    ensures CupAt(Next(s, a).value, a.id).winners == a.winners && a.signer == CupAt(s, a.id).verifier
  {
    FinalizeTerms(s, a.now, a.id, a.winners, a.signer);
    hide VaultOk, C.FinalizeTournament;
  }

  lemma {:induction false} ClaimKeepsTerms(s: Vault, a: Action)
    requires VaultOk(s) && a.ClaimPrize? && Next(s, a).Ok?
    ensures SameTerms(CupAt(s, a.id), CupAt(Next(s, a).value, a.id))
    ensures CupAt(s, a.id).state == Finalized || CupAt(s, a.id).state == Complete
    ensures a.placement < |CupAt(s, a.id).winners| && CupAt(s, a.id).winners[a.placement] == a.sender
  {
    ClaimTerms(s, a.sender, a.id, a.placement, a.toWinner, a.toTreasury);
    hide VaultOk, C.ClaimPrize;
  }

  /** A transaction changes no term of an existing cup; only a finalization attests winners. */
  lemma {:induction false} TermsStay(s: Vault, a: Action, id: nat)
    requires VaultOk(s) && Created(s, id)
    ensures SameTerms(CupAt(s, id), CupAt(Then(s, a), id))
    ensures CupAt(Then(s, a), id).winners != CupAt(s, id).winners ==>
      && a.FinalizeTournament? && a.id == id && Next(s, a).Ok?
      && a.winners == CupAt(Then(s, a), id).winners && a.signer == CupAt(s, id).verifier
  {
    hide VaultOk, C.CancelTournament, C.FinalizeTournament, C.ClaimPrize, UnsetCup;
    if !Touches(s, a, id) { OtherCupsStay(s, a, id); }
    else if Next(s, a).Ok? {
      if a.CancelTournament? { CancelKeepsTerms(s, a); }
      else if a.FinalizeTournament? { FinalizeKeepsTerms(s, a); }
      else if a.ClaimPrize? { ClaimKeepsTerms(s, a); }
    }
    hide Next, CupAt;
  }

  // ---------- prizes go to the attested winners ----------

  /** Call `i` of the run finalized the cup, signed by `verifier` over `winners`. */
  ghost predicate Attested(s: Vault, acts: seq<Action>, i: nat, id: nat, verifier: Address, winners: seq<Address>) {
    && i < |acts| && acts[i].FinalizeTournament? && acts[i].id == id && Next(After(s, acts[..i]), acts[i]).Ok?
    && acts[i].signer == verifier && acts[i].winners == winners
  }

  lemma {:induction false} EarlierAttested(s: Vault, acts: seq<Action>, i: nat, id: nat, verifier: Address,
      winners: seq<Address>)
    requires acts != [] && i < |acts| - 1
    ensures Attested(s, acts[..|acts| - 1], i, id, verifier, winners) == Attested(s, acts, i, id, verifier, winners)
  {
    hide After, Next;
    assert acts[..|acts| - 1][..i] == acts[..i];
  }

  /** The winners of a cup, if it has any, are the list some call of the run brought with the verifier's signature. */
  ghost predicate WinnersAttested(s: Vault, acts: seq<Action>, id: nat) {
    var c := CupAt(After(s, acts), id);
    c.winners != [] ==> exists i: nat :: Attested(s, acts, i, id, c.verifier, c.winners)
  }

  lemma {:induction false} NoWinnersYet(s: Vault, a: Action, id: nat)
    requires VaultOk(s) && !Created(s, id)
    ensures CupAt(Then(s, a), id).winners == []
  {
    assert CupOk(Created(s, id), CupAt(s, id), ClaimedOf(s.claimed, id));
    hide VaultOk, BpsOk, UnsetCup, BpsError, Share, Fee, AllClaimed;
    if !Touches(s, a, id) { OtherCupsStay(s, a, id); }
  }

  lemma {:induction false} AttestedStep(s: Vault, acts: seq<Action>, id: nat)
    requires acts != [] && VaultOk(After(s, acts[..|acts| - 1])) && WinnersAttested(s, acts[..|acts| - 1], id)
    ensures WinnersAttested(s, acts, id)
  {
    var n := |acts| - 1;
    var mid, a := After(s, acts[..n]), acts[n];
    var c, c' := CupAt(mid, id), CupAt(After(s, acts), id);
    assert After(s, acts) == Then(mid, a);
    hide VaultOk, After, Then, Next, CupAt;
    if !Created(mid, id) {
      NoWinnersYet(mid, a, id);
    } else if c'.winners != [] {
      TermsStay(mid, a, id);
      if c'.winners == c.winners {
        var i: nat :| Attested(s, acts[..n], i, id, c.verifier, c.winners);
        assert Attested(s, acts[..n], i, id, c.verifier, c.winners);
        EarlierAttested(s, acts, i, id, c.verifier, c.winners);
        assert Attested(s, acts, i, id, c'.verifier, c'.winners);
      } else {
        assert Attested(s, acts, n, id, c'.verifier, c'.winners);
      }
    }
  }

  /** In every reachable state the winners of a cup are the list that its verifier signed. */
  lemma {:induction false} WinnersAreAttested(s: Vault, acts: seq<Action>, id: nat)
    requires Fresh(s) && Allowed(s, acts)
    ensures WinnersAttested(s, acts, id)
    decreases |acts|
  {
    if acts == [] {
      assert CupAt(s, id) == UnsetCup;
    } else {
      WinnersAreAttested(s, acts[..|acts| - 1], id);
      BooksBalance(s, acts[..|acts| - 1], NoOne);
      hide Fresh, VaultOk, WinnersAttested, After, Windfalls, HeldMap;
      AttestedStep(s, acts, id);
    }
  }

  /**
   In every run, a prize of a cup goes out only in a call by the account that stands at the claimed placement of the
   list its verifier signed.
   */
  lemma {:induction false} PrizeGoesToWinner(s: Vault, acts: seq<Action>, a: Action, id: nat)
    requires Fresh(s) && Allowed(s, acts) && PrizeIn(After(s, acts), a, id) != 0
    ensures a.ClaimPrize? && a.id == id
    ensures exists i: nat, winners ::
      && Attested(s, acts, i, id, CupAt(After(s, acts), id).verifier, winners)
      && a.placement < |winners| && winners[a.placement] == a.sender
  {
    var z := After(s, acts);
    WinnersAreAttested(s, acts, id);
    BooksBalance(s, acts, NoOne);
    hide Fresh, VaultOk, After, Windfalls, HeldMap, Next, CupAt;
    assert Next(z, a).Ok?;
    ClaimKeepsTerms(z, a);
    var c := CupAt(z, id);
    var i: nat :| Attested(s, acts, i, id, c.verifier, c.winners);
  }

  lemma {:induction false} StaysCreated(s: Vault, a: Action, id: nat)
    requires Created(s, id)
    ensures Created(Then(s, a), id)
  {
    hide BpsError, Share, Fee, AllClaimed, UnsetCup, CupAt;
  }

  /** Once created, a cup keeps its terms in every run; once attested, its winners. */
  lemma {:induction false} TermsStayInRun(s: Vault, acts: seq<Action>, id: nat)
    requires VaultOk(s) && Created(s, id) && Allowed(s, acts)
    ensures Created(After(s, acts), id) && SameTerms(CupAt(s, id), CupAt(After(s, acts), id))
    decreases |acts|
  {
    if acts != [] {
      var n := |acts| - 1;
      TermsStayInRun(s, acts[..n], id);
      RunKeeps(s, acts[..n], NoOne);
      hide VaultOk, Created, Then, CupAt, Windfalls, Surplus, Admissible;
      StaysCreated(After(s, acts[..n]), acts[n], id);
      TermsStay(After(s, acts[..n]), acts[n], id);
    }
  }
}
