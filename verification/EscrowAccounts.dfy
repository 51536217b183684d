/** What the wagering contracts owe, and how each kind of write moves it. */
module EscrowAccounts {
  import opened Wrappers
  import opened Sums
  import opened EscrowTypes
  import opened RegistrySpec

  /** The stake a match still holds in `token`. */
  ghost function StakeIn(s: Registry, token: Address, m: Match): nat {
    if Live(m.state) && TokenOf(s, m) == token then m.stakeAmount + m.stakeAmountB else 0
  }

  ghost function Stakes(s: Registry, token: Address): map<nat, nat> {
    map id | id in s.matches :: StakeIn(s, token, s.matches[id])
  }

  /** Withdrawable credits plus the owner's fee pot. */
  ghost function Credited(p: Credits, pot: map<Address, nat>, token: Address): nat {
    Total(Row(p, token)) + Get(pot, token)
  }

  ghost function Outstanding(s: Registry, token: Address): nat {
    Credited(s.pending, s.feeBalances, token)
  }

  ghost function Owed(s: Registry, token: Address): nat {
    Outstanding(s, token) + Total(Stakes(s, token))
  }

  ghost function Surplus(s: Registry, token: Address): int {
    Balance(s, token) - Owed(s, token)
  }

  /** The contract can pay everyone, in every token. */
  ghost predicate Solvent(s: Registry) {
    forall token {:trigger Owed(s, token)} :: Balance(s, token) >= Owed(s, token)
  }

  /** `s'` differs from `s` at most in match `id`, the credits and the fee pot. */
  ghost predicate OnlyPaysOut(s: Registry, s': Registry, id: nat) {
    && s'.games == s.games && s'.balances == s.balances
    && s' == s.(matches := s.matches[id := MatchAt(s', id)], pending := s'.pending, feeBalances := s'.feeBalances)
  }

  function SumTo(amounts: seq<nat>, n: nat): nat
    requires n <= |amounts|
    decreases n, amounts
  {
    if n == 0 then 0 else SumTo(amounts, n - 1) + amounts[n - 1]
  }

  lemma {:induction false} SumOfTwo(a: nat, b: nat)
    ensures SumTo([a, b], |[a, b]|) == a + b
  {
    var xs, one := [a, b], 1;
    assert SumTo(xs, one) == SumTo(xs, one - 1) + a;
    assert SumTo(xs, one + 1) == SumTo(xs, one) + b;
  }

  // ---------- single writes ----------

  lemma {:induction false} CreditRaises(p: Credits, token: Address, who: Address, amount: nat, t: Address)
    ensures Total(Row(Credit(p, token, who, amount), t)) == Total(Row(p, t)) + if t == token then amount else 0
  {
    TotalUpdate(Row(p, token), who, Get(Row(p, token), who) + amount);
  }

  /** Rewriting one match moves the stakes of its token by exactly the difference. */
  lemma {:induction false} MatchWrite(s: Registry, s': Registry, id: nat, t: Address)
    requires s'.games == s.games && s'.matches == s.matches[id := MatchAt(s', id)]
    ensures Total(Stakes(s', t)) == Total(Stakes(s, t)) - StakeIn(s, t, MatchAt(s, id)) + StakeIn(s, t, MatchAt(s', id))
  {
    var v := StakeIn(s, t, MatchAt(s', id));
    TotalUpdate(Stakes(s, t), id, v);
    assert Stakes(s', t) == Stakes(s, t)[id := v];
    assert Get(Stakes(s, t), id) == StakeIn(s, t, MatchAt(s, id));
    hide Total;
  }

  /** Credits and fees do not touch the stakes. */
  lemma {:induction false} SameStakes(s: Registry, s': Registry, t: Address)
    requires s'.games == s.games && s'.matches == s.matches
    ensures Stakes(s', t) == Stakes(s, t)
  {
  }

  lemma {:induction false} FeeRaises(p: Credits, pot: map<Address, nat>, token: Address, recipient: Address, fee: nat,
      t: Address)
    ensures Credited(FeeCredit(p, token, recipient, fee), FeePot(pot, token, recipient, fee), t)
      == Credited(p, pot, t) + if t == token then fee else 0
  {
    hide Total, Credit;
    CreditRaises(p, token, recipient, fee, t);
  }

  lemma {:induction false} CreditAllRaises(p: Credits, token: Address, recipients: seq<Address>, amounts: seq<nat>,
      n: nat, t: Address)
    requires n <= |recipients| && n <= |amounts|
    ensures Total(Row(CreditAll(p, token, recipients, amounts, n), t))
      == Total(Row(p, t)) + if t == token then SumTo(amounts, n) else 0
    decreases n
  {
    if n > 0 {
      CreditAllRaises(p, token, recipients, amounts, n - 1, t);
      var q := CreditAll(p, token, recipients, amounts, n - 1);
      CreditRaises(q, token, recipients[n - 1], amounts[n - 1], t);
      hide Total, Credit;
    }
  }

  // ---------- settleMatch ----------

  /** The accounts after `settleMatch`: the released stake comes in, fees and amounts go out as credits. */
  lemma {:induction false} SettleMatchAccounts(s: Registry, sender: Address, id: nat, newState: MatchState,
      feeRecipients: (Address, Address), feeAmounts: (nat, nat), recipients: seq<Address>, amounts: seq<nat>,
      t: Address)
    requires SettleMatch(s, sender, id, newState, feeRecipients, feeAmounts, recipients, amounts).Ok?
    ensures var s' := SettleMatch(s, sender, id, newState, feeRecipients, feeAmounts, recipients, amounts).value;
      var m := MatchAt(s, id);
      var credited := feeAmounts.0 + feeAmounts.1 + SumTo(amounts, |recipients|);
      && sender == s.settlement && Live(m.state)
      && OnlyPaysOut(s, s', id) && MatchAt(s', id) == m.(state := newState)
      && Outstanding(s', t) == Outstanding(s, t) + (if t == TokenOf(s, m) then credited else 0)
      && Surplus(s', t) == Surplus(s, t)
          + (if t == TokenOf(s, m) then (if Live(newState) then 0 else m.stakeAmount + m.stakeAmountB) - credited
            else 0)
  {
    var m := MatchAt(s, id);
    var token := TokenOf(s, m);
    var p1, pot1 := FeeCredit(s.pending, token, feeRecipients.0, feeAmounts.0),
      FeePot(s.feeBalances, token, feeRecipients.0, feeAmounts.0);
    var p2, pot2 := FeeCredit(p1, token, feeRecipients.1, feeAmounts.1),
      FeePot(pot1, token, feeRecipients.1, feeAmounts.1);
    var s' := SettleMatch(s, sender, id, newState, feeRecipients, feeAmounts, recipients, amounts).value;
    FeeRaises(s.pending, s.feeBalances, token, feeRecipients.0, feeAmounts.0, t);
    FeeRaises(p1, pot1, token, feeRecipients.1, feeAmounts.1, t);
    CreditAllRaises(p2, token, recipients, amounts, |recipients|, t);
    MatchWrite(s, s', id, t);
    hide Total, Credit, CreditAll, SumTo, Stakes, FeeCredit, FeePot;
  }
}
