/**
 From the result that was handed in to the accounts that are paid: what a verdict of each outcome puts into whose
 credit, and what is stored of it.
 */
module EscrowVerdicts {
  import opened Wrappers
  import opened Sums
  import opened EscrowTypes
  import R = RegistrySpec
  import opened RegistrySpec
  import S = SettlementSpec
  import opened EscrowAccounts
  import opened EscrowSteps
  import opened EscrowRuns
  import opened EscrowRelease
  import opened EscrowCredits

  // ---------- what an outcome is worth ----------

  /** What the two fees leave of both stakes. */
  function AfterFees(m: Match, studioBps: nat, protocolBps: nat): int {
    var pool := m.stakeAmount + m.stakeAmountB;
    pool - pool * studioBps / 10000 - pool * protocolBps / 10000
  }

  function EarnedByA(m: Match, studioBps: nat, protocolBps: nat, outcome: OutcomeCode): int {
    match outcome
    case WinA => AfterFees(m, studioBps, protocolBps)
    case Draw => AfterFees(m, studioBps, protocolBps) / 2
    case Cancelled => m.stakeAmount
    case _ => 0
  }

  function EarnedByB(m: Match, studioBps: nat, protocolBps: nat, outcome: OutcomeCode): int {
    match outcome
    case WinB => AfterFees(m, studioBps, protocolBps)
    case Draw => AfterFees(m, studioBps, protocolBps) - AfterFees(m, studioBps, protocolBps) / 2
    case Cancelled => m.stakeAmountB
    case _ => 0
  }

  function FeeEarned(m: Match, bps: nat, outcome: OutcomeCode): nat {
    if outcome == Cancelled then 0 else (m.stakeAmount + m.stakeAmountB) * bps / 10000
  }

  function When(c: bool, amount: int): int {
    if c then amount else 0
  }

  /** All that `who` earns in `t` when match `id` ends with `outcome`: as a player, as the studio, as the protocol. */
  ghost function Earned(y: S.System, id: nat, outcome: OutcomeCode, t: Address, who: Address): int {
    var m := MatchAt(y.reg, id);
    var g := GameAt(y.reg, m.gameId);
    var bps := y.desk.protocolFeeBps;
    if t != g.stakeToken then 0
    else
      When(who == m.playerA, EarnedByA(m, g.studioFeeBps, bps, outcome))
      + When(who == m.playerB, EarnedByB(m, g.studioFeeBps, bps, outcome))
      + When(who == g.studioFeeRecipient && who != NoOne, FeeEarned(m, g.studioFeeBps, outcome))
      + When(who == y.desk.protocolFeeRecipient && who != NoOne, FeeEarned(m, bps, outcome))
  }

  lemma {:induction false} SplitIsEarned(m: Match, g: Game, bps: nat, outcome: OutcomeCode)
    requires S.Split(m, g, bps, outcome).Ok? && m.playerB != NoOne && FeesOk(g)
    ensures var sh := S.Split(m, g, bps, outcome).value;
      && sh.toA == EarnedByA(m, g.studioFeeBps, bps, outcome) && sh.toB == EarnedByB(m, g.studioFeeBps, bps, outcome)
      && sh.studioFee == FeeEarned(m, g.studioFeeBps, outcome) && sh.protocolFee == FeeEarned(m, bps, outcome)
  {
  }

  // ---------- from the result to the credits ----------

  /** The result, hash and time that a call hands in; a ruling has no hash. */
  function Said(a: Action): (OutcomeCode, int, nat)
    requires a.SubmitAsyncResult? || a.SubmitHashResult? || a.ResolveDispute?
  {
    match a
    case SubmitAsyncResult(_, now, _, result, _) => (result.outcome, result.transcriptHash, now)
    case SubmitHashResult(_, now, _, result) => (result.outcome, result.transcriptHash, now)
    case ResolveDispute(_, now, _, outcome) => (outcome, 0, now)
  }

  /** Every account earns exactly its part of `outcome`, and the settlement is stored as handed in. */
  ghost predicate Paid(y: S.System, y': S.System, id: nat, said: (OutcomeCode, int, nat), t: Address, who: Address) {
    && Holding(y'.reg.pending, t, who) == Holding(y.reg.pending, t, who) + Earned(y, id, said.0, t, who)
    && y'.desk.settlements == y.desk.settlements[id := Settlement(id, said.0, said.1, said.2)]
  }

  lemma {:induction false} SettlePays(y: S.System, now: nat, id: nat, outcome: OutcomeCode, hash: int, t: Address,
      who: Address)
    requires S.Settle(y, now, id, outcome, hash).Ok?
    requires MatchAt(y.reg, id).playerB != NoOne && FeesOk(GameAt(y.reg, MatchAt(y.reg, id).gameId))
    ensures Paid(y, S.Settle(y, now, id, outcome, hash).value, id, (outcome, hash, now), t, who)
  {
    var noted := y.(desk := y.desk.(settlements := y.desk.settlements[id := Settlement(id, outcome, hash, now)]));
    var m := MatchAt(y.reg, id);
    hide Holding, S.Split, R.SettleMatch, MatchAt, GameAt, UnsetGame, UnsetMatch, FeesOk, AfterFees, EarnedByA,
      EarnedByB, FeeEarned;
    PayoutReaches(noted, id, outcome, t, who);
    SplitIsEarned(m, GameAt(y.reg, m.gameId), y.desk.protocolFeeBps, outcome);
  }

  lemma {:induction false} AsyncPays(y: S.System, a: Action, id: nat, t: Address, who: Address)
    requires SystemOk(y) && a.SubmitAsyncResult? && a.matchId == id && Next(y, a).Ok?
    ensures MatchAt(Next(y, a).value.reg, id).state == Settled
    ensures Verdict(y, a, id, Said(a).0) && Paid(y, Next(y, a).value, id, Said(a), t, who)
  {
    var m := MatchAt(y.reg, id);
    assert GameOk(y.reg, m.gameId);
    hide RegistryOk, Paid, S.Settle, UnsetGame, UnsetMatch, FeesOk, Judged;
    SettlePays(y, a.now, id, a.result.outcome, a.result.transcriptHash, t, who);
    SettleJudges(y, a.now, id, a.result.outcome, a.result.transcriptHash, t);
  }

  lemma {:induction false} RulingPays(y: S.System, a: Action, id: nat, t: Address, who: Address)
    requires SystemOk(y) && a.ResolveDispute? && a.matchId == id && Next(y, a).Ok?
    ensures MatchAt(Next(y, a).value.reg, id).state == Settled
    ensures Verdict(y, a, id, Said(a).0) && Paid(y, Next(y, a).value, id, Said(a), t, who)
  {
    var m := MatchAt(y.reg, id);
    assert GameOk(y.reg, m.gameId);
    hide RegistryOk, Paid, S.Settle, UnsetGame, UnsetMatch, FeesOk, Judged;
    SettlePays(y, a.now, id, a.outcome, 0, t, who);
    SettleJudges(y, a.now, id, a.outcome, 0, t);
  }

  /** A dispute credits nobody. */
  lemma {:induction false} DisputePaysNothing(y: S.System, id: nat)
    requires S.Dispute(y, id).Ok?
    ensures var y' := S.Dispute(y, id).value;
      y'.reg.pending == y.reg.pending && y'.desk == y.desk && MatchAt(y'.reg, id).state == Disputed
  {
    hide UnsetGame, UnsetMatch, FeeCredit, FeePot;
    var none: seq<Address>, nothing: seq<nat> := [], [];
    assert FeeCredit(y.reg.pending, NoOne, NoOne, 0) == y.reg.pending by { NoFee(y.reg.pending, NoOne); }
    NoFee(y.reg.pending, TokenOf(y.reg, MatchAt(y.reg, id)));
    assert CreditAll(y.reg.pending, TokenOf(y.reg, MatchAt(y.reg, id)), none, nothing, |none|) == y.reg.pending;
  }

  lemma {:induction false} NoFee(p: Credits, token: Address)
    ensures FeeCredit(p, token, NoOne, 0) == p
  {
  }

  lemma {:induction false} HashPays(y: S.System, a: Action, id: nat, t: Address, who: Address)
    requires SystemOk(y) && MatchAt(y.reg, id).playerA != NoOne
    requires a.SubmitHashResult? && a.matchId == id && Next(y, a).Ok?
    ensures var y' := Next(y, a).value;
      if MatchAt(y'.reg, id).state == Settled
      then Verdict(y, a, id, Said(a).0) && Paid(y, y', id, Said(a), t, who)
      else
        && y'.desk.settlements == y.desk.settlements
        && Holding(y'.reg.pending, t, who) == Holding(y.reg.pending, t, who)
  {
    var m := MatchAt(y.reg, id);
    assert MatchOk(y.reg.nextGameId, m) && GameOk(y.reg, m.gameId);
    hide RegistryOk, S.Settle, S.Dispute, UnsetGame, UnsetMatch, UnsetResult, FeesOk, Judged, Holding, Earned;
    var noted := Noted(y, a.sender, id, a.result);
    var stored := S.ResultOf(y.desk, id, Opponent(m, a.sender));
    assert S.ResultOf(noted.desk, id, Opponent(m, a.sender)) == stored;
    if stored.outcome != NoResult {
      if a.result.outcome == stored.outcome && a.result.transcriptHash == stored.transcriptHash {
        SettlePays(noted, a.now, id, a.result.outcome, a.result.transcriptHash, t, who);
        SettleJudges(noted, a.now, id, a.result.outcome, a.result.transcriptHash, t);
        SameEarnings(y, noted, id, a.result.outcome, t, who);
      } else {
        DisputePaysNothing(noted, id);
      }
    }
  }

  lemma {:induction false} SameEarnings(y: S.System, z: S.System, id: nat, outcome: OutcomeCode, t: Address,
      who: Address)
    requires z.reg == y.reg && z.desk.protocolFeeBps == y.desk.protocolFeeBps
    requires z.desk.protocolFeeRecipient == y.desk.protocolFeeRecipient
    ensures Earned(z, id, outcome, t, who) == Earned(y, id, outcome, t, who)
  {
  }

  /**
   A call that settles a match brings a verdict, and pays for the outcome that it brings: the verifier's, the one
   both players handed in, or the arbiter's. Every account's credit rises by what that outcome earns it, and
   outcome, hash and time are stored. A submission that does not settle credits nobody and stores no settlement.
   */
  lemma {:induction false} VerdictPays(y: S.System, a: Action, id: nat, t: Address, who: Address)
    requires SystemOk(y) && MatchAt(y.reg, id).playerA != NoOne && Next(y, a).Ok?
    requires (a.SubmitAsyncResult? || a.SubmitHashResult? || a.ResolveDispute?) && a.matchId == id
    ensures var y' := Next(y, a).value;
      if MatchAt(y'.reg, id).state == Settled
      then Verdict(y, a, id, Said(a).0) && Paid(y, y', id, Said(a), t, who)
      else
        && a.SubmitHashResult? && y'.desk.settlements == y.desk.settlements
        && Holding(y'.reg.pending, t, who) == Holding(y.reg.pending, t, who)
  {
    hide *;
    match a {
      case SubmitAsyncResult(_, _, _, _, _) => AsyncPays(y, a, id, t, who);
      case ResolveDispute(_, _, _, _) => RulingPays(y, a, id, t, who);
      case SubmitHashResult(_, _, _, _) => HashPays(y, a, id, t, who);
    }
  }
}
