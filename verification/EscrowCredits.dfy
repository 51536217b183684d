/** Whom each release of a stake credits, account by account. */
module EscrowCredits {
  import opened Wrappers
  import opened Sums
  import opened EscrowTypes
  import R = RegistrySpec
  import opened RegistrySpec
  import S = SettlementSpec
  import opened EscrowAccounts
  import opened EscrowSteps
  import opened EscrowRuns

  /** What an account can withdraw in a token. */
  ghost function Holding(p: Credits, t: Address, who: Address): nat {
    Get(Row(p, t), who)
  }

  /** `amount` if the condition holds, and nothing otherwise. */
  ghost function DueWhen(c: bool, amount: nat): nat {
    if c then amount else 0
  }

  lemma {:induction false} CreditReaches(p: Credits, token: Address, to: Address, amount: nat, t: Address, who: Address)
    ensures Holding(Credit(p, token, to, amount), t, who)
      == Holding(p, t, who) + DueWhen(t == token && who == to, amount)
  {
  }

  lemma {:induction false} FeeReaches(p: Credits, token: Address, to: Address, fee: nat, t: Address, who: Address)
    ensures Holding(FeeCredit(p, token, to, fee), t, who) == Holding(p, t, who)
      + DueWhen(t == token && who == to && to != NoOne, fee)
  {
    CreditReaches(p, token, to, fee, t, who);
    hide Holding, Credit;
  }

  lemma {:induction false} TwoReached(p: Credits, token: Address, a: Address, b: Address, x: nat, y: nat, t: Address,
      who: Address)
    ensures Holding(CreditAll(p, token, [a, b], [x, y], |[a, b]|), t, who)
      == Holding(p, t, who) + DueWhen(t == token && who == a, x) + DueWhen(t == token && who == b, y)
  {
    var rs, ns, one := [a, b], [x, y], 1;
    var q := CreditAll(p, token, rs, ns, one);
    assert q == if x > 0 then Credit(CreditAll(p, token, rs, ns, one - 1), token, a, x)
      else CreditAll(p, token, rs, ns, one - 1);
    assert CreditAll(p, token, rs, ns, one + 1) == if y > 0 then Credit(q, token, b, y) else q;
    CreditReaches(p, token, a, x, t, who);
    CreditReaches(q, token, b, y, t, who);
    hide Holding, Credit, CreditAll;
  }

  /**
   A payout credits the players with their shares, the studio and the protocol with their fees, and
   nobody else, in the match's token only.
   */
  lemma {:induction false} PayoutReaches(y: S.System, id: nat, outcome: OutcomeCode, t: Address, who: Address)
    requires S.Payout(y, id, outcome).Ok?
    ensures var m := MatchAt(y.reg, id);
      var game := GameAt(y.reg, m.gameId);
      var split := S.Split(m, game, y.desk.protocolFeeBps, outcome);
      && split.Ok?
      && Holding(S.Payout(y, id, outcome).value.reg.pending, t, who) == Holding(y.reg.pending, t, who)
          + DueWhen(t == game.stakeToken && who == game.studioFeeRecipient && who != NoOne, split.value.studioFee)
          + DueWhen(t == game.stakeToken && who == y.desk.protocolFeeRecipient && who != NoOne,
                    split.value.protocolFee)
          + DueWhen(t == game.stakeToken && who == m.playerA, split.value.toA)
          + DueWhen(t == game.stakeToken && who == m.playerB, split.value.toB)
  {
    var m := MatchAt(y.reg, id);
    var game := GameAt(y.reg, m.gameId);
    var sh := S.Split(m, game, y.desk.protocolFeeBps, outcome).value;
    var token := game.stakeToken;
    var p1 := FeeCredit(y.reg.pending, token, game.studioFeeRecipient, sh.studioFee);
    var p2 := FeeCredit(p1, token, y.desk.protocolFeeRecipient, sh.protocolFee);
    assert S.Payout(y, id, outcome).value.reg.pending
        == CreditAll(p2, token, [m.playerA, m.playerB], [sh.toA, sh.toB], |[m.playerA, m.playerB]|);
    FeeReaches(y.reg.pending, token, game.studioFeeRecipient, sh.studioFee, t, who);
    FeeReaches(p1, token, y.desk.protocolFeeRecipient, sh.protocolFee, t, who);
    TwoReached(p2, token, m.playerA, m.playerB, sh.toA, sh.toB, t, who);
    hide Holding, FeeCredit, CreditAll, S.Split, S.Payout, R.SettleMatch, MatchAt, GameAt, UnsetGame, UnsetMatch;
  }

  /** A cancelled match credits player A its stake, and nobody else. */
  lemma {:induction false} CancelReaches(s: Registry, sender: Address, id: nat, t: Address, who: Address)
    requires R.CancelMatch(s, sender, id).Ok?
    ensures var m := MatchAt(s, id);
      && sender == m.playerA && m.state == Open
      && Holding(R.CancelMatch(s, sender, id).value.pending, t, who)
          == Holding(s.pending, t, who) + DueWhen(t == TokenOf(s, m) && who == sender, m.stakeAmount)
  {
    var m := MatchAt(s, id);
    CreditReaches(s.pending, TokenOf(s, m), m.playerA, m.stakeAmount, t, who);
    hide Holding, Credit, UnsetGame, UnsetMatch;
  }

  // ---------- the owner's fee pot ----------

  /** No fee is without a recipient, so nothing ever reaches the owner's pot. */
  ghost predicate PotEmpty(y: S.System) {
    y.desk.protocolFeeRecipient != NoOne && y.reg.feeBalances == map[]
  }

  lemma {:induction false} PayoutSkipsPot(y: S.System, id: nat, outcome: OutcomeCode)
    requires PotEmpty(y) && S.Payout(y, id, outcome).Ok?
    ensures PotEmpty(S.Payout(y, id, outcome).value)
  {
    var m := MatchAt(y.reg, id);
    S.SplitConserves(m, GameAt(y.reg, m.gameId), y.desk.protocolFeeBps, outcome);
    hide CreditAll, FeeCredit, S.Split, UnsetGame, UnsetMatch, Live;
  }

  lemma {:induction false} RegistryStepKeepsPot(y: S.System, a: Action)
    requires PotEmpty(y) && Admissible(y, a) && y.desk.self == y.reg.settlement && Next(y, a).Ok?
    requires !a.SubmitAsyncResult? && !a.SubmitHashResult? && !a.ResolveDispute?
    ensures PotEmpty(Next(y, a).value)
  {
    hide Credit, UnsetGame, UnsetMatch, Row, Receive, VerifiersOf, Listed, MatchAt, GameAt, CreditAll;
  }

  lemma {:induction false} StepKeepsPot(y: S.System, a: Action)
    requires PotEmpty(y) && Admissible(y, a) && y.desk.self == y.reg.settlement
    ensures PotEmpty(Then(y, a))
  {
    hide S.Settle, S.Payout, R.SettleMatch, UnsetGame, UnsetMatch, UnsetResult, Admissible;
    if Next(y, a).Ok? {
      match a {
        case SubmitAsyncResult(_, now, id, result, _) =>
          SettleSkipsPot(y, now, id, result.outcome, result.transcriptHash);
        case ResolveDispute(_, now, id, outcome) => SettleSkipsPot(y, now, id, outcome, 0);
        case SubmitHashResult(sender, now, id, result) =>
          SettleSkipsPot(Noted(y, sender, id, result), now, id, result.outcome, result.transcriptHash);
          DisputeSkipsPot(Noted(y, sender, id, result), id);
        case _ => RegistryStepKeepsPot(y, a);
      }
    }
  }

  lemma {:induction false} DisputeSkipsPot(y: S.System, id: nat)
    requires PotEmpty(y)
    ensures S.Dispute(y, id).Ok? ==> PotEmpty(S.Dispute(y, id).value)
  {
    hide CreditAll, FeeCredit, UnsetGame, UnsetMatch;
  }

  lemma {:induction false} SettleSkipsPot(y: S.System, now: nat, id: nat, outcome: OutcomeCode, hash: int)
    requires PotEmpty(y)
    ensures S.Settle(y, now, id, outcome, hash).Ok? ==> PotEmpty(S.Settle(y, now, id, outcome, hash).value)
  {
    var noted := y.(desk := y.desk.(settlements := y.desk.settlements[id := Settlement(id, outcome, hash, now)]));
    if S.Payout(noted, id, outcome).Ok? { PayoutSkipsPot(noted, id, outcome); }
    hide S.Payout;
  }

  lemma {:induction false} RunKeepsPot(y: S.System, acts: seq<Action>)
    requires SystemOk(y) && PotEmpty(y) && Allowed(y, acts)
    ensures PotEmpty(After(y, acts))
    decreases |acts|
  {
    if acts != [] {
      var n := |acts| - 1;
      RunKeepsPot(y, acts[..n]);
      RunKeeps(y, acts[..n], NoOne);
      assert SystemOk(After(y, acts[..n]));
      hide Then, RegistryOk, PotEmpty, Admissible, Registered;
      StepKeepsPot(After(y, acts[..n]), acts[n]);
    }
  }

  lemma {:induction false} FreshPot(y: S.System)
    requires Fresh(y) && y.reg.owner != NoOne
    ensures PotEmpty(y)
  {
  }

  /** In every run from deployment by a real account, the fee pot stays empty and cannot be withdrawn from. */
  lemma {:induction false} FeePotStaysEmpty(y: S.System, acts: seq<Action>, sender: Address, t: Address,
      transfer: Transfer)
    requires Fresh(y) && y.reg.owner != NoOne && Allowed(y, acts)
    ensures var s := After(y, acts).reg;
      Get(s.feeBalances, t) == 0 && R.WithdrawFees(s, sender, t, transfer).Err?
  {
    hide Fresh, After, Allowed, SystemOk;
    FreshOk(y, NoOne);
    FreshPot(y);
    RunKeepsPot(y, acts);
  }
}
