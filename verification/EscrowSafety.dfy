/** What each registry transaction keeps, stated on the registry alone. */
module EscrowSafety {
  import opened Wrappers
  import opened Sums
  import opened EscrowTypes
  import R = RegistrySpec
  import opened RegistrySpec
  import S = SettlementSpec
  import opened EscrowAccounts
  import E = EscrowSteps
  import opened EscrowSteps
  import opened EscrowRuns

  ghost predicate RegistrySafe(s: Registry) {
    RegistryOk(s) && Solvent(s)
  }

  /** The registry next to a desk that has done nothing. */
  ghost function Standalone(s: Registry): S.System {
    S.System(s, S.Desk(s.owner, s.settlement, 0, s.owner, map[], map[], false))
  }

  lemma {:induction false} RegistrySafeStep(s: Registry, a: Action)
    ensures RegistrySafe(s) && Admissible(Standalone(s), a) && Registered(Standalone(s), a) ==>
      RegistrySafe(Then(Standalone(s), a).reg)
  {
    SafeStep(Standalone(s), a);
    hide RegistryOk, Solvent, Admissible, Registered, Then;
  }

  /** `settleMatch` is safe when it credits no more than the stake it releases. */
  lemma {:induction false} SettleSafe(s: Registry, sender: Address, id: nat, newState: MatchState,
      feeRecipients: (Address, Address), feeAmounts: (nat, nat), recipients: seq<Address>, amounts: seq<nat>)
    requires RegistrySafe(s) && Covered(MatchAt(s, id), newState, feeAmounts, recipients, amounts)
    requires R.SettleMatch(s, sender, id, newState, feeRecipients, feeAmounts, recipients, amounts).Ok?
    ensures RegistrySafe(R.SettleMatch(s, sender, id, newState, feeRecipients, feeAmounts, recipients, amounts).value)
  {
    var s' := R.SettleMatch(s, sender, id, newState, feeRecipients, feeAmounts, recipients, amounts).value;
    assert newState == Settled || newState == Expired || newState == Disputed;
    assert MatchOk(s.nextGameId, MatchAt(s, id));
    SettleMatchAccounts(s, sender, id, newState, feeRecipients, feeAmounts, recipients, amounts, NoOne);
    forall t ensures Surplus(s', t) >= Surplus(s, t) {
      SettleMatchAccounts(s, sender, id, newState, feeRecipients, feeAmounts, recipients, amounts, t);
    }
    hide R.SettleMatch, SumTo, Owed, Balance, Outstanding;
    MatchWriteKeeps(s, s', id);
    hide RegistryOk;
    forall t ensures Balance(s', t) >= Owed(s', t) {
      assert Balance(s, t) >= Owed(s, t) && Surplus(s', t) >= Surplus(s, t);
    }
  }

  /** The stake a match gives up when it moves to `newState`. */
  ghost function Releases(m: Match, newState: MatchState): nat {
    if Live(newState) then 0 else m.stakeAmount + m.stakeAmountB
  }

  /** The credits of a `settleMatch` call do not exceed the stake it releases. */
  ghost predicate Covered(m: Match, newState: MatchState, feeAmounts: (nat, nat), recipients: seq<Address>,
      amounts: seq<nat>) {
    && |recipients| <= |amounts| && (newState == Disputed ==> m.playerB != NoOne)
    && feeAmounts.0 + feeAmounts.1 + SumTo(amounts, |recipients|) <= Releases(m, newState)
  }

  lemma {:induction false} SettleStaysSafe(s: Registry, sender: Address, id: nat, newState: MatchState,
      feeRecipients: (Address, Address), feeAmounts: (nat, nat), recipients: seq<Address>, amounts: seq<nat>)
    ensures Covered(MatchAt(s, id), newState, feeAmounts, recipients, amounts) ==>
      StaysSafe(s, R.SettleMatch(s, sender, id, newState, feeRecipients, feeAmounts, recipients, amounts))
  {
    hide RegistrySafe, R.SettleMatch, Covered;
    if RegistrySafe(s) && Covered(MatchAt(s, id), newState, feeAmounts, recipients, amounts)
      && R.SettleMatch(s, sender, id, newState, feeRecipients, feeAmounts, recipients, amounts).Ok?
    {
      SettleSafe(s, sender, id, newState, feeRecipients, feeAmounts, recipients, amounts);
    }
  }

  /** A successful step from a safe registry ends in a safe registry. */
  ghost predicate StaysSafe(s: Registry, r: R.Step) {
    RegistrySafe(s) && r.Ok? ==> RegistrySafe(r.value)
  }
}
