/** Safety of the tournament cup contract over every run of transactions. */
module CupRuns {
  import opened Wrappers
  import opened Sums
  import opened EscrowTypes
  import C = CupSpec
  import opened CupSpec
  import opened CupAccounts

  datatype Action =
    | CreateTournament(sender: Address, now: nat, value: nat, payoutBps: seq<nat>, verifier: Address, deadline: nat)
    | CreateTournamentERC20(sender: Address, now: nat, token: Address, amount: nat, received: nat, payoutBps: seq<nat>,
                            verifier: Address, deadline: nat)
    | CancelTournament(sender: Address, now: nat, id: nat, transfer: Transfer)
    | FinalizeTournament(sender: Address, now: nat, id: nat, winners: seq<Address>, signer: Address)
    | ClaimPrize(sender: Address, id: nat, placement: nat, toWinner: Transfer, toTreasury: Transfer)
    | UpdateProtocolFeeBps(sender: Address, feeBps: nat)
    | UpdateProtocolFeeRecipient(sender: Address, recipient: Address)
    | SetPaused(sender: Address, on: bool)
    | Donate(sender: Address, token: Address, units: nat)

  function Next(s: Vault, a: Action): Step {
    match a
    case CreateTournament(sender, now, value, payoutBps, verifier, deadline) =>
      C.CreateTournament(s, sender, now, value, payoutBps, verifier, deadline)
    case CreateTournamentERC20(sender, now, token, amount, received, payoutBps, verifier, deadline) =>
      C.CreateTournamentERC20(s, sender, now, token, amount, received, payoutBps, verifier, deadline)
    case CancelTournament(sender, now, id, transfer) => C.CancelTournament(s, sender, now, id, transfer)
    case FinalizeTournament(_, now, id, winners, signer) => C.FinalizeTournament(s, now, id, winners, signer)
    case ClaimPrize(sender, id, placement, toWinner, toTreasury) =>
      C.ClaimPrize(s, sender, id, placement, toWinner, toTreasury)
    case UpdateProtocolFeeBps(sender, feeBps) => C.UpdateProtocolFeeBps(s, sender, feeBps)
    case UpdateProtocolFeeRecipient(sender, recipient) => C.UpdateProtocolFeeRecipient(s, sender, recipient)
    case SetPaused(_, on) => Ok(s.(paused := on))
    case Donate(_, token, units) => Ok(s.(balances := s.balances[token := Balance(s, token) + units]))
  }

  // ---------- what the environment guarantees ----------

  function Taken(amount: nat, transfer: Transfer): nat {
    if amount == 0 || transfer.Failed? then 0 else transfer.units
  }

  /** A transfer takes at most its amount; the native coin moves exactly. */
  predicate FairTransfer(token: Address, amount: nat, transfer: Transfer) {
    transfer.Moved? ==> Taken(amount, transfer) <= amount && (token == NoOne ==> Taken(amount, transfer) == amount)
  }

  function PrizeOf(s: Vault, id: nat, placement: nat): nat {
    if placement < |CupAt(s, id).payoutBps| then Share(CupAt(s, id), placement) else 0
  }

  function FeeOf(s: Vault, id: nat, placement: nat): nat {
    Fee(PrizeOf(s, id, placement), s.protocolFeeBps)
  }

  function PayoutOf(s: Vault, id: nat, placement: nat): nat {
    if FeeOf(s, id, placement) <= PrizeOf(s, id, placement) then PrizeOf(s, id, placement) - FeeOf(s, id, placement)
      else 0
  }

  predicate Admissible(s: Vault, a: Action) {
    && a.sender != NoOne
    && (a.CreateTournamentERC20? ==> a.received <= a.amount)
    && (a.CancelTournament? ==> FairTransfer(CupAt(s, a.id).token, CupAt(s, a.id).prizePool, a.transfer))
    && (a.ClaimPrize? ==> FairTransfer(CupAt(s, a.id).token, PayoutOf(s, a.id, a.placement), a.toWinner)
                          && FairTransfer(CupAt(s, a.id).token, FeeOf(s, a.id, a.placement), a.toTreasury))
  }

  /** What a step adds to the surplus of a token: gifts, and what outgoing transfers left behind. */
  ghost function Windfall(s: Vault, a: Action, t: Address): int {
    match a
    case Donate(_, token, units) => if t == token then units else 0
    case CancelTournament(_, _, id, transfer) =>
      if t == CupAt(s, id).token then CupAt(s, id).prizePool - Taken(CupAt(s, id).prizePool, transfer) else 0
    case ClaimPrize(_, id, placement, toWinner, toTreasury) =>
      if t == CupAt(s, id).token then
        PrizeOf(s, id, placement)
        - Taken(PayoutOf(s, id, placement), toWinner) - Taken(FeeOf(s, id, placement), toTreasury)
      else 0
    case _ => 0
  }

  // ---------- the invariant ----------

  predicate Created(s: Vault, id: nat) {
    1 <= id < s.nextTournamentId
  }

  ghost predicate CupOk(created: bool, c: Cup, cl: set<nat>) {
    && (!created ==>
      c.prizePool == 0 && c.payoutBps == [] && c.verifier == NoOne && (c.state == Funding || c.state == Refunded))
    && (created ==> c.prizePool > 0 && BpsOk(c.payoutBps) && c.sponsor != NoOne)
    && (c.state == Funding || c.state == Refunded ==> c.winners == [] && cl == {})
    && (c.state == Finalized || c.state == Complete ==>
          && |c.winners| == |c.payoutBps| && NoOne !in c.winners
          && (forall p :: p in cl ==> p < |c.winners|)
          && (c.state == Complete <==> AllClaimed(cl, |c.winners|)))
  }

  ghost predicate VaultOk(s: Vault) {
    && s.nextTournamentId >= 1 && s.protocolFeeBps <= MaxCupFeeBps
    && forall id: nat :: CupOk(Created(s, id), CupAt(s, id), ClaimedOf(s.claimed, id))
  }

  lemma {:induction false} CupWriteKeeps(s: Vault, s': Vault, id: nat)
    requires VaultOk(s) && s'.nextTournamentId >= 1 && s'.protocolFeeBps <= MaxCupFeeBps
    requires s'.cups == s.cups[id := CupAt(s', id)]
    requires forall i :: i != id ==>
      ClaimedOf(s'.claimed, i) == ClaimedOf(s.claimed, i) && Created(s', i) == Created(s, i)
    requires CupOk(Created(s', id), CupAt(s', id), ClaimedOf(s'.claimed, id))
    ensures VaultOk(s')
  {
    hide CupOk, ClaimedOf, Created;
    forall i: nat ensures CupOk(Created(s', i), CupAt(s', i), ClaimedOf(s'.claimed, i)) {
      assert CupOk(Created(s, i), CupAt(s, i), ClaimedOf(s.claimed, i));
    }
  }

  lemma {:induction false} MoneyOnlyKeeps(s: Vault, s': Vault)
    requires VaultOk(s) && s'.nextTournamentId == s.nextTournamentId && s'.protocolFeeBps <= MaxCupFeeBps
    requires s'.cups == s.cups && s'.claimed == s.claimed
    ensures VaultOk(s')
  {
    hide CupOk, ClaimedOf;
    forall i: nat ensures CupOk(Created(s', i), CupAt(s', i), ClaimedOf(s'.claimed, i)) {
      assert CupOk(Created(s, i), CupAt(s, i), ClaimedOf(s.claimed, i));
    }
  }

  /** An unwritten slot holds nothing. */
  lemma {:induction false} EmptySlot(s: Vault, t: Address, id: nat)
    requires VaultOk(s)
    ensures !Created(s, id) || id !in s.cups ==> HeldIn(s, t, id) == 0
  {
    assert CupOk(Created(s, id), CupAt(s, id), ClaimedOf(s.claimed, id));
    hide VaultOk;
  }

  // ---------- one transaction ----------

  lemma {:induction false} FreshSlot(s: Vault, id: nat)
    requires VaultOk(s) && !Created(s, id)
    ensures CupAt(s, id).payoutBps == [] && CupAt(s, id).winners == [] && ClaimedOf(s.claimed, id) == {}
  {
    assert CupOk(Created(s, id), CupAt(s, id), ClaimedOf(s.claimed, id));
    hide VaultOk, UnsetCup;
  }

  lemma {:induction false} CreateKeeps(s: Vault, sender: Address, now: nat, token: Address, received: nat,
      payoutBps: seq<nat>, verifier: Address, deadline: nat, t: Address)
    requires VaultOk(s) && sender != NoOne && received > 0 && BpsOk(payoutBps)
    ensures var s' := Create(s, sender, now, token, received, payoutBps, verifier, deadline);
      VaultOk(s') && Surplus(s', t) == Surplus(s, t)
  {
    var s' := Create(s, sender, now, token, received, payoutBps, verifier, deadline);
    var id := s.nextTournamentId;
    FreshSlot(s, id);
    assert [] + payoutBps == payoutBps;
    var c := Cup(sender, token, received, payoutBps, verifier, [], Funding, now, deadline);
    assert CupAt(s', id) == c && s'.cups == s.cups[id := c];
    EmptySlot(s, t, id);
    hide BpsOk, UnsetCup, Create, CupAt;
    CupWriteKeeps(s, s', id);
    CupWrite(s, s', id, t);
    NothingClaimed(c, |payoutBps|);
    hide VaultOk, Total, HeldMap, ClaimedSum, CupOk;
  }

  lemma {:induction false} CancelKeeps(s: Vault, sender: Address, now: nat, id: nat, transfer: Transfer, t: Address)
    requires VaultOk(s) && C.CancelTournament(s, sender, now, id, transfer).Ok?
    ensures var s' := C.CancelTournament(s, sender, now, id, transfer).value;
      var c := CupAt(s, id);
      && VaultOk(s')
      && Surplus(s', t) == Surplus(s, t) + if t == c.token then c.prizePool - Taken(c.prizePool, transfer) else 0
  {
    var s' := C.CancelTournament(s, sender, now, id, transfer).value;
    var c := CupAt(s, id);
    assert CupOk(Created(s, id), c, ClaimedOf(s.claimed, id));
    EmptySlot(s, t, id);
    hide BpsOk;
    CupWriteKeeps(s, s', id);
    CupWrite(s, s', id, t);
    NothingClaimed(c, |c.payoutBps|);
    hide VaultOk, Total, HeldMap, ClaimedSum;
  }

  lemma {:induction false} FinalizeKeeps(s: Vault, now: nat, id: nat, winners: seq<Address>, signer: Address,
      t: Address)
    requires VaultOk(s) && C.FinalizeTournament(s, now, id, winners, signer).Ok?
    ensures var s' := C.FinalizeTournament(s, now, id, winners, signer).value;
      VaultOk(s') && Surplus(s', t) == Surplus(s, t)
    ensures Created(s, id)
  {
    var s' := C.FinalizeTournament(s, now, id, winners, signer).value;
    var c, c' := CupAt(s, id), CupAt(s', id);
    assert CupOk(Created(s, id), c, ClaimedOf(s.claimed, id));
    assert [] + winners == winners;
    assert |c.payoutBps| >= 1;
    EmptySlot(s, t, id);
    hide BpsOk;
    assert !AllClaimed({}, |winners|) by { assert 0 !in ClaimedOf(s.claimed, id); }
    CupWriteKeeps(s, s', id);
    CupWrite(s, s', id, t);
    SameShares(c, c', {}, |c.payoutBps|);
    hide VaultOk, Total, HeldMap, ClaimedSum;
  }

  lemma {:induction false} ClaimAccounts(c: Cup, st: CupState, cl: set<nat>, p: nat)
    requires BpsOk(c.payoutBps) && p < |c.payoutBps| && p !in cl && c.state != Refunded && st != Refunded
    ensures Held(c.(state := st), cl + {p}) == Held(c, cl) - Share(c, p)
  {
    var c' := c.(state := st);
    PoolCovers(c, cl);
    PoolCovers(c', cl + {p});
    SameShares(c, c', cl + {p}, |c.payoutBps|);
    ClaimAdds(c, cl, p, |c.payoutBps|);
    hide ClaimedSum, ShareSum, Share, BpsOk;
  }

  /** What a successful claim writes, and what it takes off the balance. */
  lemma {:induction false} ClaimShape(s: Vault, sender: Address, id: nat, p: nat, toWinner: Transfer,
      toTreasury: Transfer, t: Address)
    requires C.ClaimPrize(s, sender, id, p, toWinner, toTreasury).Ok?
    ensures var s' := C.ClaimPrize(s, sender, id, p, toWinner, toTreasury).value;
      var c, cl := CupAt(s, id), ClaimedOf(s.claimed, id);
      var st := if AllClaimed(cl + {p}, |c.winners|) then Complete else c.state;
      && (c.state == Finalized || c.state == Complete) && p < |c.winners| && p < |c.payoutBps| && p !in cl
      && s' == s.(cups := s.cups[id := c.(state := st)], claimed := s.claimed[id := cl + {p}], balances := s'.balances)
      && Balance(s', t) == Balance(s, t)
          - if t == c.token then Taken(PayoutOf(s, id, p), toWinner) + Taken(FeeOf(s, id, p), toTreasury) else 0
  {
    hide Share, Fee, AllClaimed;
  }

  lemma {:induction false} ClaimKeeps(s: Vault, sender: Address, id: nat, p: nat, toWinner: Transfer,
      toTreasury: Transfer, t: Address)
    requires VaultOk(s) && C.ClaimPrize(s, sender, id, p, toWinner, toTreasury).Ok?
    ensures var s' := C.ClaimPrize(s, sender, id, p, toWinner, toTreasury).value;
      && Created(s, id) && p < |CupAt(s, id).payoutBps|
      && VaultOk(s')
      && Held(CupAt(s', id), ClaimedOf(s'.claimed, id))
        == Held(CupAt(s, id), ClaimedOf(s.claimed, id)) - PrizeOf(s, id, p)
      && Surplus(s', t) == Surplus(s, t) + if t == CupAt(s, id).token then
           PrizeOf(s, id, p) - Taken(PayoutOf(s, id, p), toWinner) - Taken(FeeOf(s, id, p), toTreasury) else 0
  {
    var s' := C.ClaimPrize(s, sender, id, p, toWinner, toTreasury).value;
    var c, cl := CupAt(s, id), ClaimedOf(s.claimed, id);
    assert CupOk(Created(s, id), c, cl);
    ClaimShape(s, sender, id, p, toWinner, toTreasury, t);
    ClaimAccounts(c, CupAt(s', id).state, cl, p);
    hide BpsOk, Held, Share, Fee, C.ClaimPrize;
    CupWriteKeeps(s, s', id);
    CupWrite(s, s', id, t);
    hide VaultOk, Total, HeldMap;
  }

  /** Every transaction keeps the invariant and changes the surplus of a token by its windfall alone. */
  lemma {:induction false} StepKeeps(s: Vault, a: Action, t: Address)
    requires VaultOk(s) && Admissible(s, a) && Next(s, a).Ok?
    ensures VaultOk(Next(s, a).value) && Surplus(Next(s, a).value, t) == Surplus(s, t) + Windfall(s, a, t)
  {
    var s' := Next(s, a).value;
    hide Share, Fee, Held, BpsError;
    match a {
      case CreateTournament(sender, now, value, payoutBps, verifier, deadline) =>
        CreateKeeps(s, sender, now, NoOne, value, payoutBps, verifier, deadline, t);
      case CreateTournamentERC20(sender, now, token, _, received, payoutBps, verifier, deadline) =>
        CreateKeeps(s, sender, now, token, received, payoutBps, verifier, deadline, t);
      case CancelTournament(sender, now, id, transfer) => CancelKeeps(s, sender, now, id, transfer, t);
      case FinalizeTournament(_, now, id, winners, signer) => FinalizeKeeps(s, now, id, winners, signer, t);
      case ClaimPrize(sender, id, p, toWinner, toTreasury) => ClaimKeeps(s, sender, id, p, toWinner, toTreasury, t);
      case _ =>
        MoneyOnlyKeeps(s, s');
        SameHeld(s, s', t);
    }
    hide VaultOk, HeldMap, Total;
  }

  lemma {:induction false} WindfallNotNegative(s: Vault, a: Action, t: Address)
    requires VaultOk(s) && Admissible(s, a) && Next(s, a).Ok?
    ensures Windfall(s, a, t) >= 0
  {
    if a.ClaimPrize? {
      ClaimShape(s, a.sender, a.id, a.placement, a.toWinner, a.toTreasury, t);
      assert FeeOf(s, a.id, a.placement) <= PrizeOf(s, a.id, a.placement);
    }
    hide VaultOk, Share, Fee, AllClaimed;
  }

  // ---------- runs ----------

  function Then(s: Vault, a: Action): Vault {
    match Next(s, a)
    case Ok(s') => s'
    case Err(_) => s
  }

  function After(s: Vault, acts: seq<Action>): Vault
    decreases |acts|
  {
    if acts == [] then s else Then(After(s, acts[..|acts| - 1]), acts[|acts| - 1])
  }

  ghost predicate Allowed(s: Vault, acts: seq<Action>)
    decreases |acts|
  {
    acts != [] ==> Allowed(s, acts[..|acts| - 1]) && Admissible(After(s, acts[..|acts| - 1]), acts[|acts| - 1])
  }

  ghost function Windfalls(s: Vault, acts: seq<Action>, t: Address): int
    decreases |acts|
  {
    if acts == [] then 0
    else
      var n := |acts| - 1;
      var mid := After(s, acts[..n]);
      Windfalls(s, acts[..n], t) + if Next(mid, acts[n]).Ok? then Windfall(mid, acts[n], t) else 0
  }

  /** The invariant, and every token covered. */
  ghost predicate Safe(s: Vault) {
    VaultOk(s) && forall t {:trigger Balance(s, t)} :: Surplus(s, t) >= 0
  }

  /** Any admissible transaction keeps a safe vault safe. */
  lemma {:induction false} SafeStep(s: Vault, a: Action)
    ensures Safe(s) && Admissible(s, a) && Next(s, a).Ok? ==> Safe(Next(s, a).value)
  {
    if Safe(s) && Admissible(s, a) && Next(s, a).Ok? {
      var s' := Next(s, a).value;
      hide VaultOk, Next, Admissible, Windfall, Surplus;
      StepKeeps(s, a, NoOne);
      forall t ensures Surplus(s', t) >= 0 {
        StepKeeps(s, a, t);
        WindfallNotNegative(s, a, t);
        var held := Balance(s, t);
      }
    }
  }

  /** A freshly deployed contract. */
  predicate Fresh(s: Vault) {
    s.nextTournamentId == 1 && s.protocolFeeBps == 0 && s.cups == map[] && s.claimed == map[] && s.balances == map[]
  }

  lemma {:induction false} FreshOk(s: Vault, t: Address)
    requires Fresh(s)
    ensures VaultOk(s) && Surplus(s, t) == 0
  {
    assert HeldMap(s, t) == map[];
  }

  lemma {:induction false} FreshSafe(s: Vault)
    requires Fresh(s)
    ensures Safe(s)
  {
    FreshOk(s, NoOne);
    forall t ensures Surplus(s, t) >= 0 { FreshOk(s, t); }
    hide Fresh, VaultOk, Surplus;
  }

  lemma {:induction false} RunKeeps(s: Vault, acts: seq<Action>, t: Address)
    requires VaultOk(s) && Allowed(s, acts)
    ensures VaultOk(After(s, acts)) && Surplus(After(s, acts), t) == Surplus(s, t) + Windfalls(s, acts, t)
    ensures Windfalls(s, acts, t) >= 0
    decreases |acts|
  {
    if acts != [] {
      var n := |acts| - 1;
      RunKeeps(s, acts[..n], t);
      var mid := After(s, acts[..n]);
      if Next(mid, acts[n]).Ok? {
        StepKeeps(mid, acts[n], t);
        WindfallNotNegative(mid, acts[n], t);
      }
      hide VaultOk, Surplus, Next, Windfall, Admissible;
    }
  }

  /**
   Exact books and solvency: after any run from deployment, what the contract holds of a token is what it
   keeps for the cups in that token plus the windfalls, which are never negative.
   */
  lemma {:induction false} BooksBalance(s: Vault, acts: seq<Action>, t: Address)
    requires Fresh(s) && Allowed(s, acts)
    ensures VaultOk(After(s, acts))
    ensures Balance(After(s, acts), t) == Total(HeldMap(After(s, acts), t)) + Windfalls(s, acts, t)
    ensures Balance(After(s, acts), t) >= Total(HeldMap(After(s, acts), t))
  {
    FreshOk(s, t);
    hide Fresh, VaultOk, After, Allowed, Windfalls;
    RunKeeps(s, acts, t);
  }

  /**
   What the contract keeps for a cup covers everything its sponsor or winners can still draw, and once
   the cup is complete the rest is fewer units than there are placements, whatever the fee was at each claim.
   */
  lemma {:induction false} CupCovered(s: Vault, id: nat)
    requires VaultOk(s)
    ensures var c, cl := CupAt(s, id), ClaimedOf(s.claimed, id);
      && 0 <= Due(c, cl) <= Held(c, cl)
      && (c.state == Finalized || c.state == Complete ==> (c.state == Complete <==> AllClaimed(cl, |c.payoutBps|)))
      && (c.state == Complete ==> Due(c, cl) == 0 && Held(c, cl) < |c.payoutBps|)
  {
    var c, cl := CupAt(s, id), ClaimedOf(s.claimed, id);
    assert CupOk(Created(s, id), c, cl);
    if Created(s, id) {
      PoolCovers(c, cl);
      ClaimsWithinShares(c, cl, |c.payoutBps|);
      NothingClaimed(c, |c.payoutBps|);
      hide ClaimedSum, ShareSum, BpsOk, VaultOk;
    }
  }

  // ---------- never both refunded and paid ----------

  /** The units an action asks token contracts to move out for cup `id`, measured on the balance. */
  ghost function SentIn(s: Vault, a: Action, t: Address): int {
    Balance(s, t) - Balance(Then(s, a), t) + if Next(s, a).Ok? then Windfall(s, a, t) else 0
  }

  ghost function RefundIn(s: Vault, a: Action, id: nat): int {
    if a.CancelTournament? && a.id == id then SentIn(s, a, CupAt(s, id).token) else 0
  }

  ghost function PrizeIn(s: Vault, a: Action, id: nat): int {
    if a.ClaimPrize? && a.id == id then SentIn(s, a, CupAt(s, id).token) else 0
  }

  ghost function Refunds(s: Vault, acts: seq<Action>, id: nat): int
    decreases |acts|
  {
    if acts == [] then 0
    else Refunds(s, acts[..|acts| - 1], id) + RefundIn(After(s, acts[..|acts| - 1]), acts[|acts| - 1], id)
  }

  ghost function Prizes(s: Vault, acts: seq<Action>, id: nat): int
    decreases |acts|
  {
    if acts == [] then 0
    else Prizes(s, acts[..|acts| - 1], id) + PrizeIn(After(s, acts[..|acts| - 1]), acts[|acts| - 1], id)
  }

  /** A cancelled cup has returned its whole pool and paid no prize; any other has returned nothing, and
      its prizes plus what is kept for it make up the pool. */
  predicate PaidOnce(state: CupState, pool: nat, held: int, refunds: int, prizes: int) {
    if state == Refunded then refunds == pool && prizes == 0 else refunds == 0 && prizes + held == pool
  }

  ghost predicate PaidOnceAt(s: Vault, id: nat, refunds: int, prizes: int) {
    PaidOnce(CupAt(s, id).state, CupAt(s, id).prizePool, Held(CupAt(s, id), ClaimedOf(s.claimed, id)), refunds, prizes)
  }

  ghost predicate Touches(s: Vault, a: Action, id: nat) {
    match a
    case CreateTournament(_, _, _, _, _, _) => s.nextTournamentId == id
    case CreateTournamentERC20(_, _, _, _, _, _, _, _) => s.nextTournamentId == id
    case CancelTournament(_, _, i, _) => i == id
    case FinalizeTournament(_, _, i, _, _) => i == id
    case ClaimPrize(_, i, _, _, _) => i == id
    case _ => false
  }

  /** A transaction changes only the cup it names or creates. */
  lemma {:induction false} OtherCupsStay(s: Vault, a: Action, id: nat)
    requires !Touches(s, a, id)
    ensures CupAt(Then(s, a), id) == CupAt(s, id) && ClaimedOf(Then(s, a).claimed, id) == ClaimedOf(s.claimed, id)
  {
    hide UnsetCup, Share, Fee, BpsError, AllClaimed;
  }

  lemma {:induction false} CreateOnce(s: Vault, a: Action, id: nat, refunds: int, prizes: int)
    requires VaultOk(s) && Next(s, a).Ok? && (a.CreateTournament? || a.CreateTournamentERC20?)
      && id == s.nextTournamentId
    requires PaidOnceAt(s, id, refunds, prizes)
    ensures PaidOnceAt(Then(s, a), id, refunds, prizes)
  {
    var c' := CupAt(Then(s, a), id);
    assert CupOk(Created(s, id), CupAt(s, id), ClaimedOf(s.claimed, id));
    EmptySlot(s, CupAt(s, id).token, id);
    assert c'.state == Funding && ClaimedOf(Then(s, a).claimed, id) == {};
    NothingClaimed(c', |c'.payoutBps|);
    hide VaultOk, ClaimedSum, UnsetCup, BpsError;
  }

  lemma {:induction false} CancelOnce(s: Vault, a: Action, id: nat, refunds: int, prizes: int)
    requires VaultOk(s) && Next(s, a).Ok? && a.CancelTournament? && a.id == id
    requires PaidOnceAt(s, id, refunds, prizes)
    ensures PaidOnceAt(Then(s, a), id, refunds + RefundIn(s, a, id), prizes)
  {
    var c := CupAt(s, id);
    assert CupOk(Created(s, id), c, ClaimedOf(s.claimed, id));
    NothingClaimed(c, |c.payoutBps|);
    hide VaultOk, ClaimedSum, UnsetCup;
  }

  lemma {:induction false} FinalizeOnce(s: Vault, a: Action, id: nat, refunds: int, prizes: int)
    requires VaultOk(s) && Next(s, a).Ok? && a.FinalizeTournament? && a.id == id
    requires PaidOnceAt(s, id, refunds, prizes)
    ensures PaidOnceAt(Then(s, a), id, refunds, prizes)
  {
    var c := CupAt(s, id);
    SameShares(c, CupAt(Then(s, a), id), ClaimedOf(s.claimed, id), |c.payoutBps|);
    hide VaultOk, ClaimedSum, UnsetCup;
  }

  lemma {:induction false} ClaimOnce(s: Vault, a: Action, id: nat, refunds: int, prizes: int)
    requires VaultOk(s) && Next(s, a).Ok? && a.ClaimPrize? && a.id == id
    requires PaidOnceAt(s, id, refunds, prizes)
    ensures PaidOnceAt(Then(s, a), id, refunds, prizes + PrizeIn(s, a, id))
  {
    var t := CupAt(s, id).token;
    ClaimShape(s, a.sender, id, a.placement, a.toWinner, a.toTreasury, t);
    ClaimKeeps(s, a.sender, id, a.placement, a.toWinner, a.toTreasury, t);
    hide VaultOk, Held, Share, Fee, Surplus, C.ClaimPrize, AllClaimed;
  }

  lemma {:induction false} StepOnce(s: Vault, a: Action, id: nat, refunds: int, prizes: int)
    requires VaultOk(s) && PaidOnceAt(s, id, refunds, prizes)
    ensures PaidOnceAt(Then(s, a), id, refunds + RefundIn(s, a, id), prizes + PrizeIn(s, a, id))
  {
    hide VaultOk, PaidOnce, Windfall;
    if !Touches(s, a, id) { OtherCupsStay(s, a, id); }
    else if Next(s, a).Ok? {
      if a.CreateTournament? || a.CreateTournamentERC20? { CreateOnce(s, a, id, refunds, prizes); }
      else if a.CancelTournament? { CancelOnce(s, a, id, refunds, prizes); }
      else if a.FinalizeTournament? { FinalizeOnce(s, a, id, refunds, prizes); }
      else { ClaimOnce(s, a, id, refunds, prizes); }
    }
    hide Next, CupAt, PaidOnceAt;
  }

  /** Over any run from deployment, no cup is ever both refunded and paid, and nothing is paid twice. */
  lemma {:induction false} NeverBoth(s: Vault, acts: seq<Action>, id: nat)
    requires Fresh(s) && Allowed(s, acts)
    ensures PaidOnceAt(After(s, acts), id, Refunds(s, acts, id), Prizes(s, acts, id))
    decreases |acts|
  {
    if acts == [] {
      EmptyCup(s, id);
    } else {
      var n := |acts| - 1;
      NeverBoth(s, acts[..n], id);
      BooksBalance(s, acts[..n], NoOne);
      hide VaultOk, Then, PaidOnceAt, RefundIn, PrizeIn, Fresh;
      StepOnce(After(s, acts[..n]), acts[n], id, Refunds(s, acts[..n], id), Prizes(s, acts[..n], id));
    }
  }

  lemma {:induction false} EmptyCup(s: Vault, id: nat)
    requires id !in s.cups
    ensures PaidOnceAt(s, id, 0, 0)
  {
  }
}
