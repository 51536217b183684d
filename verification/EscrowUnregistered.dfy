/**
 `createMatch` does not check that its game exists. A native stake placed on a game id that has not been
 registered yet can later be read as a stake in another token, so solvency depends on the caller.
 */
module EscrowUnregistered {
  import opened Wrappers
  import opened Sums
  import opened EscrowTypes
  import R = RegistrySpec
  import opened RegistrySpec
  import S = SettlementSpec
  import opened EscrowAccounts
  import opened EscrowSteps
  import opened EscrowRuns

  /** Every allowed continuation from `y` is solvent. */
  ghost predicate SafeForever(y: S.System) {
    forall acts :: Allowed(y, acts) ==> Solvent(After(y, acts).reg)
  }

  // ---------- a token the contract has never held ----------

  lemma {:induction false} SubsetSize<T>(a: set<T>, b: set<T>)
    requires a <= b
    ensures |a| <= |b|
  {
    assert b == a + (b - a);
  }

  ghost function UpTo(n: nat): (r: set<int>)
    ensures |r| == n && forall x :: x in r <==> 1 <= x <= n
  {
    if n == 0 then {} else UpTo(n - 1) + {n}
  }

  lemma {:induction false} UnheldToken(b: map<Address, nat>)
    ensures exists t: Address :: t > 0 && t !in b
  {
    var range := UpTo(|b.Keys| + 1);
    if range <= b.Keys {
      SubsetSize(range, b.Keys);
      assert false;
    }
    var t :| t in range && t !in b.Keys;
  }

  // ---------- registering games until one gets the id ----------

  function Registration(mode: SettlementMode, token: Address): Action {
    RegisterGame(1, mode, [], 0, token, 1)
  }

  function Registrations(mode: SettlementMode, token: Address, k: nat): (acts: seq<Action>)
    ensures |acts| == k
    ensures forall i :: 0 <= i < k ==> acts[i].RegisterGame?
  {
    if k == 0 then [] else Registrations(mode, token, k - 1) + [Registration(mode, token)]
  }

  lemma {:induction false} RegisterOne(y: S.System, mode: SettlementMode, token: Address)
    requires !y.reg.paused
    ensures var a := Registration(mode, token);
      Admissible(y, a) && Registered(y, a) && Next(y, a).Ok? && Then(y, a).desk == y.desk
    ensures var s, s' := y.reg, Then(y, Registration(mode, token)).reg;
      && !s'.paused && s'.nextGameId == s.nextGameId + 1 && s'.matches == s.matches && s'.balances == s.balances
      && GameAt(s', s.nextGameId).stakeToken == token && GameAt(s', s.nextGameId).mode == mode
      && forall g :: g != s.nextGameId ==> GameAt(s', g) == GameAt(s, g)
  {
    hide UnsetGame;
  }

  /** `z` is `y` with the next `k` games registered with this mode and token. */
  ghost predicate WithGames(y: S.System, z: S.System, mode: SettlementMode, token: Address, k: nat) {
    && z.desk == y.desk && !z.reg.paused && z.reg.nextGameId == y.reg.nextGameId + k
    && z.reg.matches == y.reg.matches && z.reg.balances == y.reg.balances
    && forall g :: y.reg.nextGameId <= g < z.reg.nextGameId ==>
      GameAt(z.reg, g).stakeToken == token && GameAt(z.reg, g).mode == mode
  }

  lemma {:induction false} OneMoreGame(y: S.System, z: S.System, mode: SettlementMode, token: Address, k: nat)
    requires WithGames(y, z, mode, token, k)
    ensures WithGames(y, Then(z, Registration(mode, token)), mode, token, k + 1)
  {
    hide UnsetGame, GameAt, Then, Registration, Admissible, Registered;
    RegisterOne(z, mode, token);
  }

  lemma {:induction false} NothingRegistered(y: S.System, mode: SettlementMode, token: Address)
    requires !y.reg.paused
    ensures Allowed(y, []) && WithGames(y, After(y, []), mode, token, 0)
  {
    hide GameAt, Then;
  }

  lemma {:induction false} CanRegister(y: S.System, z: S.System, mode: SettlementMode, token: Address, k: nat)
    requires WithGames(y, z, mode, token, k)
    ensures Admissible(z, Registration(mode, token)) && Registered(z, Registration(mode, token))
  {
    hide Then, Next;
    RegisterOne(z, mode, token);
  }

  lemma {:induction false} RegisterMany(y: S.System, mode: SettlementMode, token: Address, k: nat)
    requires !y.reg.paused
    ensures Allowed(y, Registrations(mode, token, k))
    ensures WithGames(y, After(y, Registrations(mode, token, k)), mode, token, k)
    decreases k
  {
    hide WithGames, After, Allowed, Then, Registration, Admissible, Registered, Next;
    if k == 0 {
      NothingRegistered(y, mode, token);
    } else {
      var acts := Registrations(mode, token, k - 1);
      RegisterMany(y, mode, token, k - 1);
      CanRegister(y, After(y, acts), mode, token, k - 1);
      OneMoreGame(y, After(y, acts), mode, token, k - 1);
      OneMore(y, acts, Registration(mode, token));
    }
  }

  // ---------- the exact condition ----------

  /** A match that holds a stake in a token the contract does not hold is a hole in its accounts. */
  lemma {:induction false} UnbackedStake(s: Registry, id: nat, t: Address)
    requires id in s.matches && StakeIn(s, t, s.matches[id]) > 0 && Balance(s, t) == 0
    ensures !Solvent(s)
  {
    TotalUpdate(Stakes(s, t), id, 0);
    assert Get(Stakes(s, t), id) == StakeIn(s, t, s.matches[id]);
    hide Total, Stakes;
    assert Balance(s, t) < Owed(s, t);
  }

  lemma {:induction false} UnregisteredBreaks(y: S.System, a: Action)
    requires SystemOk(y) && a.CreateMatch? && Admissible(y, a) && Next(y, a).Ok? && !Registered(y, a)
    ensures !SafeForever(Next(y, a).value)
  {
    var y' := Next(y, a).value;
    assert GameOk(y.reg, a.gameId);
    UnheldToken(y'.reg.balances);
    var t: Address :| t > 0 && t !in y'.reg.balances;
    var k := a.gameId - y.reg.nextGameId + 1;
    assert MatchAt(y'.reg, a.matchId) == Match(a.gameId, a.sender, Open, NoOne, a.now, a.value, 0);
    hide Next, RegistryOk, GameAt, UnsetGame, UnsetMatch, Solvent;
    RegisterMany(y', AsyncVerifier, t, k);
    var s := After(y', Registrations(AsyncVerifier, t, k)).reg;
    UnbackedStake(s, a.matchId, t);
  }

  /**
   A successful `createMatch` leaves the contract solvent over every continuation if and only if its game
   is registered or it brings no coins.
   */
  lemma {:induction false} SafeIffRegistered(y: S.System, a: Action)
    requires SystemOk(y) && Solvent(y.reg) && a.CreateMatch? && Admissible(y, a) && Next(y, a).Ok?
    ensures SafeForever(Next(y, a).value) <==> Registered(y, a)
  {
    var y' := Next(y, a).value;
    hide SystemOk, Next, Solvent, Registered, Admissible, After, Allowed;
    if Registered(y, a) {
      SolventStep(y, a);
      forall acts | Allowed(y', acts) ensures Solvent(After(y', acts).reg) {
        StaysSolvent(y', acts);
      }
    } else {
      UnregisteredBreaks(y, a);
    }
  }

  lemma {:induction false} EarlyStakeAccepted(s: Registry, sender: Address, now: nat, gameId: nat, id: nat, value: nat)
    requires gameId !in s.games && id !in s.matches && !s.paused
    ensures R.CreateMatch(s, sender, now, gameId, id, value, value, 0).Ok?
  {
  }

  /** On a fresh deployment any stake is accepted, for any game id, and is already unsafe. */
  lemma {:induction false} EarlyStakeBreaks(y: S.System, sender: Address, now: nat, gameId: nat, id: nat, value: nat)
    requires Fresh(y) && sender != NoOne && value > 0
    ensures var a := CreateMatch(sender, now, gameId, id, value, value, 0);
      Admissible(y, a) && Next(y, a).Ok? && !SafeForever(Next(y, a).value)
  {
    hide Fresh, SystemOk, SafeForever, R.CreateMatch, MatchAt, GameAt, UnsetMatch, UnsetGame;
    FreshOk(y, NoOne);
    EarlyStakeAccepted(y.reg, sender, now, gameId, id, value);
    var a := CreateMatch(sender, now, gameId, id, value, value, 0);
    assert !Registered(y, a);
    UnregisteredBreaks(y, a);
  }
}
