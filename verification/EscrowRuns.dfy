/** Safety of the wagering contracts over every run of transactions. */
module EscrowRuns {
  import opened Wrappers
  import opened Sums
  import opened EscrowTypes
  import R = RegistrySpec
  import opened RegistrySpec
  import S = SettlementSpec
  import opened EscrowAccounts
  import opened EscrowSteps

  // ---------- runs ----------

  /** A transaction that reverts leaves everything as it was. */
  function Then(y: S.System, a: Action): S.System {
    match Next(y, a)
    case Ok(y') => y'
    case Err(_) => y
  }

  function After(y: S.System, acts: seq<Action>): S.System
    decreases |acts|
  {
    if acts == [] then y else Then(After(y, acts[..|acts| - 1]), acts[|acts| - 1])
  }

  /** Every action is admissible where it happens, and stakes only go to registered games. */
  ghost predicate Allowed(y: S.System, acts: seq<Action>)
    decreases |acts|
  {
    acts != [] ==>
      var n := |acts| - 1;
      var mid := After(y, acts[..n]);
      Allowed(y, acts[..n]) && Admissible(mid, acts[n]) && Registered(mid, acts[n])
  }

  /** Everything that came in beyond what was owed for it. */
  ghost function Windfalls(y: S.System, acts: seq<Action>, t: Address): nat
    requires Allowed(y, acts)
    decreases |acts|
  {
    if acts == [] then 0
    else
      var n := |acts| - 1;
      var mid := After(y, acts[..n]);
      Windfalls(y, acts[..n], t) + if Next(mid, acts[n]).Ok? then Windfall(mid, acts[n], t) else 0
  }

  /** Both contracts as deployed by `owner`, the registry pointing at the settlement contract `desk`. */
  function Deployed(owner: Address, desk: Address): S.System {
    S.System(Registry(owner, desk, 0, map[], map[], map[], map[], map[], false, map[]),
             S.Desk(owner, desk, 100, owner, map[], map[], false))
  }

  lemma {:induction false} OneMore(y: S.System, acts: seq<Action>, a: Action)
    requires Allowed(y, acts) && Admissible(After(y, acts), a) && Registered(After(y, acts), a)
    ensures Allowed(y, acts + [a]) && After(y, acts + [a]) == Then(After(y, acts), a)
  {
    assert (acts + [a])[..|acts + [a]| - 1] == acts;
    hide Admissible, Registered, Then;
  }

  // ---------- one step ----------

  lemma {:induction false} RegistryStepKeeps(y: S.System, a: Action, t: Address)
    requires SystemOk(y) && Admissible(y, a) && Registered(y, a) && Next(y, a).Ok?
    requires !a.SubmitAsyncResult? && !a.SubmitHashResult? && !a.ResolveDispute?
    ensures SystemOk(Next(y, a).value)
    ensures Surplus(Next(y, a).value.reg, t) == Surplus(y.reg, t) + Windfall(y, a, t)
  {
    hide RegistryOk, Surplus;
    var s := y.reg;
    match a {
      case RegisterGame(sender, mode, verifiers, minStake, token, arbiter) =>
        RegisterKeeps(s, sender, mode, verifiers, minStake, token, arbiter, t);
      case SetStudioFee(sender, gameId, feeBps, recipient) => StudioFeeKeeps(s, sender, gameId, feeBps, recipient, t);
      case SetMatchTimeout(sender, gameId, seconds) => TimeoutKeeps(s, sender, gameId, seconds, t);
      case UpdateGameVerifiers(sender, gameId, verifiers) => VerifiersKeep(s, sender, gameId, verifiers, t);
      case CreateMatch(sender, now, gameId, id, stakeAmount, value, received) =>
        CreateKeeps(s, sender, now, gameId, id, stakeAmount, value, received, t);
      case JoinMatch(sender, id, value, received) => JoinKeeps(s, sender, id, value, received, t);
      case CancelMatch(sender, id) => CancelKeeps(s, sender, id, t);
      case ExpireMatch(_, now, id) => ExpireKeeps(s, now, id, t);
      case Withdraw(sender, token, transfer) => WithdrawKeeps(s, sender, token, transfer, t);
      case WithdrawFees(sender, token, transfer) => WithdrawFeesKeeps(s, sender, token, transfer, t);
      case Donate(_, token, units) => DonateKeeps(s, token, units, t);
      case SetPaused(_, registry, desk) =>
        MoneyOnlyKeeps(s, s.(paused := registry));
        SameMoney(s, s.(paused := registry), t);
      case _ =>
    }
  }

  lemma {:induction false} SameMoney(s: Registry, s': Registry, t: Address)
    requires s'.games == s.games && s'.matches == s.matches
    requires s'.pending == s.pending && s'.feeBalances == s.feeBalances && s'.balances == s.balances
    ensures Surplus(s', t) == Surplus(s, t)
  {
    SameStakes(s, s', t);
    hide Stakes, Total;
  }

  /** Every transaction keeps the invariant and changes the surplus of a token by its windfall alone. */
  lemma {:induction false} StepKeeps(y: S.System, a: Action, t: Address)
    requires SystemOk(y) && Admissible(y, a) && Registered(y, a) && Next(y, a).Ok?
    ensures SystemOk(Next(y, a).value)
    ensures Surplus(Next(y, a).value.reg, t) == Surplus(y.reg, t) + Windfall(y, a, t)
  {
    hide RegistryOk, Surplus, Outstanding;
    match a {
      case SubmitAsyncResult(_, now, id, result, signer) => AsyncJudges(y, now, id, result, signer, t);
      case SubmitHashResult(sender, now, id, result) => HashJudges(y, sender, now, id, result, t);
      case ResolveDispute(sender, now, id, outcome) => ResolveJudges(y, sender, now, id, outcome, t);
      case _ => RegistryStepKeeps(y, a, t);
    }
  }

  // ---------- solvency ----------

  lemma {:induction false} RunKeeps(y: S.System, acts: seq<Action>, t: Address)
    requires SystemOk(y) && Allowed(y, acts)
    ensures SystemOk(After(y, acts)) && Surplus(After(y, acts).reg, t) == Surplus(y.reg, t) + Windfalls(y, acts, t)
    decreases |acts|
  {
    if acts != [] {
      var n := |acts| - 1;
      RunKeeps(y, acts[..n], t);
      var mid := After(y, acts[..n]);
      if Next(mid, acts[n]).Ok? { StepKeeps(mid, acts[n], t); }
      hide SystemOk, Surplus, Next, Windfall, Admissible, Registered;
    }
  }

  /** `y` is a fresh deployment. */
  predicate Fresh(y: S.System) {
    y == Deployed(y.reg.owner, y.reg.settlement)
  }

  lemma {:induction false} FreshOk(y: S.System, t: Address)
    requires Fresh(y)
    ensures SystemOk(y) && Surplus(y.reg, t) == 0
    ensures y.reg.matches == map[] && y.reg.games == map[] && y.reg.nextGameId == 0 && !y.reg.paused
  {
    hide UnsetMatch, UnsetGame;
    assert Stakes(y.reg, t) == map[];
    FreshRegistryOk(y.reg);
  }

  lemma {:induction false} FreshRegistryOk(s: Registry)
    requires s.matches == map[] && s.games == map[] && s.nextGameId == 0 && s.gameVerifiers == map[]
    ensures RegistryOk(s)
  {
  }

  /** A fresh deployment is safe. */
  lemma {:induction false} FreshSafe(y: S.System)
    requires Fresh(y)
    ensures Safe(y)
  {
    hide Fresh, SystemOk, Owed, Balance;
    FreshOk(y, NoOne);
    forall t ensures Balance(y.reg, t) >= Owed(y.reg, t) { FreshOk(y, t); }
  }

  /**
   Exact books: after any run from deployment, what the contract holds of a token is what it owes in it
   plus the gifts received and the units that outgoing transfers left behind.
   */
  lemma {:induction false} BooksBalance(y: S.System, acts: seq<Action>, t: Address)
    requires Fresh(y) && Allowed(y, acts)
    ensures SystemOk(After(y, acts))
    ensures Balance(After(y, acts).reg, t) == Owed(After(y, acts).reg, t) + Windfalls(y, acts, t)
  {
    FreshOk(y, t);
    hide Fresh, After, Allowed, Windfalls, SystemOk;
    RunKeeps(y, acts, t);
  }

  /** A solvent system stays solvent over every allowed run. */
  lemma {:induction false} StaysSolvent(y: S.System, acts: seq<Action>)
    requires SystemOk(y) && Solvent(y.reg) && Allowed(y, acts)
    ensures Solvent(After(y, acts).reg)
  {
    hide SystemOk, After, Allowed, Balance, Owed;
    forall t ensures Balance(After(y, acts).reg, t) >= Owed(After(y, acts).reg, t) {
      RunKeeps(y, acts, t);
      assert Balance(y.reg, t) >= Owed(y.reg, t);
    }
  }

  /** The invariant of both contracts together, and solvency. */
  ghost predicate Safe(y: S.System) {
    SystemOk(y) && Solvent(y.reg)
  }

  lemma {:induction false} SolventStep(y: S.System, a: Action)
    requires SystemOk(y) && Solvent(y.reg) && Admissible(y, a) && Registered(y, a) && Next(y, a).Ok?
    ensures SystemOk(Next(y, a).value) && Solvent(Next(y, a).value.reg)
  {
    var y' := Next(y, a).value;
    hide SystemOk, Next, Registered, Owed, Balance, Windfall;
    StepKeeps(y, a, NoOne);
    forall t ensures Balance(y'.reg, t) >= Owed(y'.reg, t) {
      StepKeeps(y, a, t);
      assert Balance(y.reg, t) >= Owed(y.reg, t);
    }
  }

  /** Any admissible transaction keeps a safe system safe, whether it succeeds or reverts. */
  lemma {:induction false} SafeStep(y: S.System, a: Action)
    ensures Safe(y) && Admissible(y, a) && Registered(y, a) ==> Safe(Then(y, a))
  {
    hide Admissible, Registered, SystemOk, Solvent, Next;
    if Safe(y) && Admissible(y, a) && Registered(y, a) && Next(y, a).Ok? {
      SolventStep(y, a);
    }
  }

  /** What a safe system says of its limits: fees, timeouts and verifier sets, in every reachable state. */
  lemma {:induction false} LimitsHold(y: S.System, acts: seq<Action>, gameId: nat)
    requires Fresh(y) && Allowed(y, acts)
    ensures var z := After(y, acts);
      var g := GameAt(z.reg, gameId);
      && g.studioFeeBps <= MaxStudioFeeBps && z.desk.protocolFeeBps <= S.MaxProtocolFeeBps
      && g.matchTimeout <= 30 * Day && (g.studioFeeBps > 0 ==> g.studioFeeRecipient != NoOne)
      && VerifiersOf(z.reg.gameVerifiers, gameId) == Listed(g.verifiers)
  {
    var z := After(y, acts);
    hide Fresh, After, Allowed, GameAt, VerifiersOf, Listed, Balance, Owed, Windfalls;
    BooksBalance(y, acts, NoOne);
    assert GameOk(z.reg, gameId);
  }

  /** Solvency in every reachable state. */
  lemma {:induction false} AlwaysSolvent(y: S.System, acts: seq<Action>)
    requires Fresh(y) && Allowed(y, acts)
    ensures Solvent(After(y, acts).reg)
  {
    hide Fresh, After, Allowed, Owed, Balance;
    forall t ensures Balance(After(y, acts).reg, t) >= Owed(After(y, acts).reg, t) {
      BooksBalance(y, acts, t);
    }
  }
}
