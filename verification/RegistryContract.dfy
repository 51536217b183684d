/** The stateful registry: contracts/src/AMPRegistry.sol. */
module RegistryContract {
  import opened Wrappers
  import opened Sums
  import opened EscrowTypes
  import R = RegistrySpec
  import opened RegistrySpec
  import E = EscrowSteps
  import Safety = EscrowSafety
  import Runs = EscrowRuns

  type Reply = Result<(), RegistryError>

  /** A call ends as its specification says: the specified state, or an error and no change. */
  ghost predicate Follows(spec: Step, before: Registry, after: Registry, reply: Reply) {
    match spec
    case Ok(s) => reply == Ok(()) && after == s
    case Err(e) => reply == Err(e) && after == before
  }

  class AMPRegistry {
    const owner: Address
    const settlement: Address
    var nextGameId: nat
    var feeBalances: map<Address, nat>
    var pendingWithdrawals: Credits
    var games: map<nat, Game>
    var matches: map<nat, Match>
    var gameVerifiers: map<nat, set<Address>>
    var paused: bool
    /** What the token contracts and the chain record as held by this contract. */
    var balances: map<Address, nat>

    ghost function View(): Registry
      reads this
    {
      Registry(owner, settlement, nextGameId, feeBalances, pendingWithdrawals, games, matches, gameVerifiers, paused,
        balances)
    }

    /** Storage is well formed and every token is covered. */
    ghost predicate Valid()
      reads this
    {
      Safety.RegistrySafe(View())
    }

    constructor (owner: Address, settlement: Address)
      ensures Valid()
      ensures View() == Registry(owner, settlement, 0, map[], map[], map[], map[], map[], false, map[])
    {
      this.owner, this.settlement := owner, settlement;
      nextGameId, feeBalances, pendingWithdrawals := 0, map[], map[];
      games, matches, gameVerifiers := map[], map[], map[];
      paused, balances := false, map[];
      new;
      StartsSafe(owner, settlement);
    }

    // ---------- what each transaction keeps ----------

    lemma {:induction false} RegisterSafe(sender: Address, mode: SettlementMode, verifiers: seq<Address>, minStake: nat,
        stakeToken: Address, arbiter: Address)
      ensures sender != NoOne ==>
        Safety.StaysSafe(View(), R.RegisterGame(View(), sender, mode, verifiers, minStake, stakeToken, arbiter))
    {
      Safety.RegistrySafeStep(View(), E.RegisterGame(sender, mode, verifiers, minStake, stakeToken, arbiter));
      hide Safety.RegistrySafe;
    }

    lemma {:induction false} StudioFeeSafe(sender: Address, gameId: nat, feeBps: nat, recipient: Address)
      ensures sender != NoOne ==> Safety.StaysSafe(View(), R.SetStudioFee(View(), sender, gameId, feeBps, recipient))
    {
      Safety.RegistrySafeStep(View(), E.SetStudioFee(sender, gameId, feeBps, recipient));
      hide Safety.RegistrySafe;
    }

    lemma {:induction false} TimeoutSafe(sender: Address, gameId: nat, seconds: nat)
      ensures sender != NoOne ==> Safety.StaysSafe(View(), R.SetMatchTimeout(View(), sender, gameId, seconds))
    {
      Safety.RegistrySafeStep(View(), E.SetMatchTimeout(sender, gameId, seconds));
      hide Safety.RegistrySafe;
    }

    lemma {:induction false} VerifiersSafe(sender: Address, gameId: nat, verifiers: seq<Address>)
      ensures sender != NoOne ==> Safety.StaysSafe(View(), R.UpdateGameVerifiers(View(), sender, gameId, verifiers))
    {
      Safety.RegistrySafeStep(View(), E.UpdateGameVerifiers(sender, gameId, verifiers));
      hide Safety.RegistrySafe;
    }

    lemma {:induction false} CreateSafe(sender: Address, now: nat, gameId: nat, id: nat, stakeAmount: nat, value: nat,
        received: nat)
      ensures sender != NoOne && received <= stakeAmount && (gameId < nextGameId || value == 0) ==>
        Safety.StaysSafe(View(), R.CreateMatch(View(), sender, now, gameId, id, stakeAmount, value, received))
    {
      Safety.RegistrySafeStep(View(), E.CreateMatch(sender, now, gameId, id, stakeAmount, value, received));
      hide Safety.RegistrySafe;
    }

    lemma {:induction false} JoinSafe(sender: Address, id: nat, value: nat, received: nat)
      ensures sender != NoOne && received <= MatchAt(View(), id).stakeAmount ==>
        Safety.StaysSafe(View(), R.JoinMatch(View(), sender, id, value, received))
    {
      Safety.RegistrySafeStep(View(), E.JoinMatch(sender, id, value, received));
      hide Safety.RegistrySafe;
    }

    lemma {:induction false} CancelSafe(sender: Address, id: nat)
      ensures sender != NoOne ==> Safety.StaysSafe(View(), R.CancelMatch(View(), sender, id))
    {
      Safety.RegistrySafeStep(View(), E.CancelMatch(sender, id));
      hide Safety.RegistrySafe;
    }

    lemma {:induction false} ExpireSafe(now: nat, id: nat)
      ensures Safety.StaysSafe(View(), R.ExpireMatch(View(), now, id))
    {
      Safety.RegistrySafeStep(View(), E.ExpireMatch(1, now, id));
      hide Safety.RegistrySafe;
    }

    lemma {:induction false} WithdrawSafe(sender: Address, token: Address, transfer: Transfer)
      ensures sender != NoOne && E.FairTransfer(token, Get(Row(pendingWithdrawals, token), sender), transfer) ==>
        Safety.StaysSafe(View(), R.Withdraw(View(), sender, token, transfer))
    {
      Safety.RegistrySafeStep(View(), E.Withdraw(sender, token, transfer));
      hide Safety.RegistrySafe;
    }

    lemma {:induction false} WithdrawFeesSafe(sender: Address, token: Address, transfer: Transfer)
      ensures sender != NoOne && E.FairTransfer(token, Get(feeBalances, token), transfer) ==>
        Safety.StaysSafe(View(), R.WithdrawFees(View(), sender, token, transfer))
    {
      Safety.RegistrySafeStep(View(), E.WithdrawFees(sender, token, transfer));
      hide Safety.RegistrySafe;
    }

    /** After an update, the verifier set is exactly the new list. */
    lemma {:induction false} VerifiersExact(sender: Address, gameId: nat, verifiers: seq<Address>)
      ensures Safety.RegistrySafe(View()) && R.UpdateGameVerifiers(View(), sender, gameId, verifiers).Ok? ==>
        VerifiersOf(R.UpdateGameVerifiers(View(), sender, gameId, verifiers).value.gameVerifiers, gameId)
          == Listed(verifiers)
    {
      if Safety.RegistrySafe(View()) { assert E.GameOk(View(), gameId); }
    }

    lemma {:induction false} SettleSafe(sender: Address, id: nat, newState: MatchState,
        feeRecipients: (Address, Address), feeAmounts: (nat, nat), recipients: seq<Address>, amounts: seq<nat>)
      ensures Safety.Covered(MatchAt(View(), id), newState, feeAmounts, recipients, amounts) ==>
        Safety.StaysSafe(View(),
          R.SettleMatch(View(), sender, id, newState, feeRecipients, feeAmounts, recipients, amounts))
    {
      Safety.SettleStaysSafe(View(), sender, id, newState, feeRecipients, feeAmounts, recipients, amounts);
    }

    // ---------- helpers ----------

    static method ClearVerifiers(row: set<Address>, listed: seq<Address>) returns (cleared: set<Address>)
      ensures cleared == row - Listed(listed)
    {
      cleared := row;
      var i := 0;
      while i < |listed|
        invariant 0 <= i <= |listed| && cleared == row - Listed(listed[..i])
      {
        cleared := cleared - {listed[i]};
        i := i + 1;
      }
      assert listed[..i] == listed;
    }

    static method SyncVerifiers(row: set<Address>, verifiers: seq<Address>) returns (synced: set<Address>)
      ensures synced == row + Listed(verifiers)
    {
      synced := row;
      var i := 0;
      while i < |verifiers|
        invariant 0 <= i <= |verifiers| && synced == row + Listed(verifiers[..i])
      {
        synced := synced + {verifiers[i]};
        i := i + 1;
      }
      assert verifiers[..i] == verifiers;
    }

    /** A deposit arrives: the balance grows by what the token really delivered, and that is measured. */
    static method TransferIn(held: map<Address, nat>, token: Address, delivered: nat)
      returns (now: map<Address, nat>, delta: nat)
      ensures delta == delivered && now == Receive(held, token, delivered)
    {
      var before := Get(held, token);
      now := held[token := before + delivered];
      delta := Get(now, token) - before;
    }

    // ---------- games ----------

    method RegisterGame(sender: Address, mode: SettlementMode, verifiers: seq<Address>, minStake: nat,
        stakeToken: Address, arbiter: Address)
      returns (reply: Reply, gameId: nat)
      modifies this
      ensures Follows(R.RegisterGame(old(View()), sender, mode, verifiers, minStake, stakeToken, arbiter),
        old(View()), View(), reply)
      ensures gameId == old(nextGameId)
      ensures old(Valid()) && sender != NoOne ==> Valid()
    {
      hide Safety.RegistrySafe;
      RegisterSafe(sender, mode, verifiers, minStake, stakeToken, arbiter);
      gameId := nextGameId;
      if paused { return Err(EnforcedPause), gameId; }
      if |verifiers| > MaxVerifiers { return Err(TooManyVerifiers), gameId; }
      if mode == HashAgree {
        if arbiter == NoOne { return Err(RTModeRequiresArbiter), gameId; }
      }
      nextGameId := nextGameId + 1;
      games := games[gameId := Game(sender, mode, verifiers, minStake, stakeToken, arbiter, Hour, 0, NoOne)];
      var synced := SyncVerifiers(VerifiersOf(gameVerifiers, gameId), verifiers);
      gameVerifiers := gameVerifiers[gameId := synced];
      reply := Ok(());
    }

    method SetStudioFee(sender: Address, gameId: nat, feeBps: nat, recipient: Address) returns (reply: Reply)
      modifies this`games
      ensures Follows(R.SetStudioFee(old(View()), sender, gameId, feeBps, recipient), old(View()), View(), reply)
      ensures old(Valid()) && sender != NoOne ==> Valid()
    {
      hide Safety.RegistrySafe;
      StudioFeeSafe(sender, gameId, feeBps, recipient);
      var game := if gameId in games then games[gameId] else UnsetGame;
      if sender != game.admin { return Err(NotGameAdmin); }
      if feeBps > MaxStudioFeeBps { return Err(InvalidStudioFee); }
      if feeBps > 0 && recipient == NoOne { return Err(InvalidStudioFee); }
      games := games[gameId := game.(studioFeeBps := feeBps, studioFeeRecipient := recipient)];
      reply := Ok(());
    }

    method SetMatchTimeout(sender: Address, gameId: nat, seconds: nat) returns (reply: Reply)
      modifies this`games
      ensures Follows(R.SetMatchTimeout(old(View()), sender, gameId, seconds), old(View()), View(), reply)
      ensures old(Valid()) && sender != NoOne ==> Valid()
    {
      hide Safety.RegistrySafe;
      TimeoutSafe(sender, gameId, seconds);
      var game := if gameId in games then games[gameId] else UnsetGame;
      if sender != game.admin { return Err(NotGameAdmin); }
      if seconds < 300 { return Err(TimeoutTooShort); }
      if seconds > 30 * Day { return Err(TimeoutTooLong); }
      games := games[gameId := game.(matchTimeout := seconds)];
      reply := Ok(());
    }

    method UpdateGameVerifiers(sender: Address, gameId: nat, verifiers: seq<Address>) returns (reply: Reply)
      modifies this`games, this`gameVerifiers
      ensures Follows(R.UpdateGameVerifiers(old(View()), sender, gameId, verifiers), old(View()), View(), reply)
      ensures old(Valid()) && sender != NoOne ==> Valid()
      ensures old(Valid()) && reply.Ok? ==> VerifiersOf(gameVerifiers, gameId) == Listed(verifiers)
    {
      hide Safety.RegistrySafe;
      VerifiersSafe(sender, gameId, verifiers);
      VerifiersExact(sender, gameId, verifiers);
      var game := if gameId in games then games[gameId] else UnsetGame;
      if sender != game.admin { return Err(NotGameAdmin); }
      if |verifiers| > MaxVerifiers { return Err(TooManyVerifiers); }
      hide UnsetGame;
      var cleared := ClearVerifiers(VerifiersOf(gameVerifiers, gameId), game.verifiers);
      var synced := SyncVerifiers(cleared, verifiers);
      games := games[gameId := game.(verifiers := verifiers)];
      gameVerifiers := gameVerifiers[gameId := synced];
      reply := Ok(());
    }

    // ---------- matches ----------

    method CreateMatch(sender: Address, now: nat, gameId: nat, matchId: nat, stakeAmount: nat, value: nat,
        received: nat)
      returns (reply: Reply)
      modifies this`matches, this`balances
      ensures Follows(R.CreateMatch(old(View()), sender, now, gameId, matchId, stakeAmount, value, received),
        old(View()), View(), reply)
      ensures old(Valid()) && sender != NoOne && received <= stakeAmount ==>
        (gameId < old(nextGameId) || value == 0) ==> Valid()
    {
      hide Safety.RegistrySafe;
      CreateSafe(sender, now, gameId, matchId, stakeAmount, value, received);
      if paused { return Err(EnforcedPause); }
      if matchId in matches && matches[matchId].playerA != NoOne { return Err(MatchAlreadyExists); }
      var game := if gameId in games then games[gameId] else UnsetGame;
      var held, actualStake;
      if game.stakeToken == NoOne {
        if value < game.minStake { return Err(StakeTooLow); }
        held, actualStake := TransferIn(balances, NoOne, value);
      } else {
        if stakeAmount < game.minStake { return Err(StakeTooLow); }
        if value != 0 { return Err(NativeTokenSentForERC20); }
        held, actualStake := TransferIn(balances, game.stakeToken, received);
      }
      hide UnsetGame, UnsetMatch;
      matches := matches[matchId := Match(gameId, sender, Open, NoOne, now, actualStake, 0)];
      balances := held;
      reply := Ok(());
    }

    method JoinMatch(sender: Address, matchId: nat, value: nat, received: nat) returns (reply: Reply)
      modifies this`matches, this`balances
      ensures Follows(R.JoinMatch(old(View()), sender, matchId, value, received), old(View()), View(), reply)
      ensures old(Valid()) && sender != NoOne && received <= MatchAt(old(View()), matchId).stakeAmount ==> Valid()
    {
      hide Safety.RegistrySafe;
      JoinSafe(sender, matchId, value, received);
      var m := if matchId in matches then matches[matchId] else UnsetMatch;
      if paused { return Err(EnforcedPause); }
      if m.state != Open { return Err(MatchNotOpen); }
      if sender == m.playerA { return Err(CannotJoinOwnMatch); }
      var game := if m.gameId in games then games[m.gameId] else UnsetGame;
      var held, stakeB;
      hide UnsetGame, UnsetMatch;
      if game.stakeToken == NoOne {
        if value != m.stakeAmount { return Err(StakeMismatch); }
        held, stakeB := TransferIn(balances, NoOne, value);
      } else {
        if value != 0 { return Err(NativeTokenSentForERC20); }
        if received == 0 { return Err(StakeMismatch); }
        held, stakeB := TransferIn(balances, game.stakeToken, received);
      }
      matches := matches[matchId := m.(stakeAmountB := stakeB, playerB := sender, state := Ready)];
      balances := held;
      reply := Ok(());
    }

    method CancelMatch(sender: Address, matchId: nat) returns (reply: Reply)
      modifies this`matches, this`pendingWithdrawals
      ensures Follows(R.CancelMatch(old(View()), sender, matchId), old(View()), View(), reply)
      ensures old(Valid()) && sender != NoOne ==> Valid()
    {
      hide Safety.RegistrySafe;
      CancelSafe(sender, matchId);
      var m := if matchId in matches then matches[matchId] else UnsetMatch;
      if paused { return Err(EnforcedPause); }
      if m.state != Open { return Err(MatchNotOpen); }
      if sender != m.playerA { return Err(NotPlayerA); }
      var game := if m.gameId in games then games[m.gameId] else UnsetGame;
      hide UnsetGame, UnsetMatch;
      matches := matches[matchId := m.(state := Settled, stakeAmount := 0)];
      pendingWithdrawals := Credit(pendingWithdrawals, game.stakeToken, m.playerA, m.stakeAmount);
      reply := Ok(());
    }

    method ExpireMatch(now: nat, matchId: nat) returns (reply: Reply)
      modifies this`matches, this`pendingWithdrawals
      ensures Follows(R.ExpireMatch(old(View()), now, matchId), old(View()), View(), reply)
      ensures old(Valid()) ==> Valid()
    {
      hide Safety.RegistrySafe;
      ExpireSafe(now, matchId);
      var m := if matchId in matches then matches[matchId] else UnsetMatch;
      var game := if m.gameId in games then games[m.gameId] else UnsetGame;
      hide UnsetGame, UnsetMatch;
      if m.state == Disputed {
        if now < m.createdAt + game.matchTimeout * 3 { return Err(DisputeTimeoutNotReached); }
      } else {
        if m.state != Open && m.state != Ready { return Err(MatchNotExpirable); }
        if now < m.createdAt + game.matchTimeout { return Err(NotExpiredYet); }
      }
      matches := matches[matchId := m.(state := Expired)];
      pendingWithdrawals := Credit(pendingWithdrawals, game.stakeToken, m.playerA, m.stakeAmount);
      if m.playerB != NoOne {
        pendingWithdrawals := Credit(pendingWithdrawals, game.stakeToken, m.playerB, m.stakeAmountB);
      }
      reply := Ok(());
    }

    // ---------- payouts ----------

    static method RouteFee(credits: Credits, pot: map<Address, nat>, token: Address, recipient: Address, fee: nat)
      returns (credits': Credits, pot': map<Address, nat>)
      ensures credits' == FeeCredit(credits, token, recipient, fee) && pot' == FeePot(pot, token, recipient, fee)
    {
      credits', pot' := credits, pot;
      if fee > 0 {
        if recipient != NoOne {
          credits' := Credit(credits, token, recipient, fee);
        } else {
          pot' := pot[token := Get(pot, token) + fee];
        }
      }
    }

    static method CreditRecipients(credits: Credits, token: Address, recipients: seq<Address>, amounts: seq<nat>)
      returns (credits': Credits)
      requires |recipients| <= |amounts|
      ensures credits' == CreditAll(credits, token, recipients, amounts, |recipients|)
    {
      credits' := credits;
      var i := 0;
      while i < |recipients|
        invariant 0 <= i <= |recipients| && credits' == CreditAll(credits, token, recipients, amounts, i)
      {
        hide Credit;
        if amounts[i] > 0 {
          credits' := Credit(credits', token, recipients[i], amounts[i]);
        }
        i := i + 1;
      }
    }

    method SettleMatch(sender: Address, matchId: nat, newState: MatchState, feeRecipients: (Address, Address),
        feeAmounts: (nat, nat), recipients: seq<Address>, amounts: seq<nat>)
      returns (reply: Reply)
      modifies this`matches, this`pendingWithdrawals, this`feeBalances
      ensures Follows(
        R.SettleMatch(old(View()), sender, matchId, newState, feeRecipients, feeAmounts, recipients, amounts),
        old(View()), View(), reply)
      ensures Safety.Covered(MatchAt(old(View()), matchId), newState, feeAmounts, recipients, amounts) ==>
        old(Valid()) ==> Valid()
    {
      hide Safety.RegistrySafe, Safety.Covered;
      SettleSafe(sender, matchId, newState, feeRecipients, feeAmounts, recipients, amounts);
      var m := if matchId in matches then matches[matchId] else UnsetMatch;
      if sender != settlement { return Err(NotSettlement); }
      if m.state != Ready && m.state != Open && m.state != Disputed { return Err(MatchNotSettlable); }
      if newState != Settled && newState != Expired && newState != Disputed { return Err(InvalidNewState); }
      if |amounts| < |recipients| { return Err(IndexOutOfBounds); }
      var game := if m.gameId in games then games[m.gameId] else UnsetGame;
      hide UnsetGame, UnsetMatch, FeeCredit, FeePot, CreditAll;
      var credits, pot := RouteFee(pendingWithdrawals, feeBalances, game.stakeToken, feeRecipients.0, feeAmounts.0);
      credits, pot := RouteFee(credits, pot, game.stakeToken, feeRecipients.1, feeAmounts.1);
      credits := CreditRecipients(credits, game.stakeToken, recipients, amounts);
      matches := matches[matchId := m.(state := newState)];
      pendingWithdrawals, feeBalances := credits, pot;
      reply := Ok(());
    }

    // ---------- withdrawals ----------

    method WithdrawFees(sender: Address, token: Address, transfer: Transfer) returns (reply: Reply)
      modifies this`feeBalances, this`balances
      ensures Follows(R.WithdrawFees(old(View()), sender, token, transfer), old(View()), View(), reply)
      ensures old(Valid()) && sender != NoOne && E.FairTransfer(token, Get(old(feeBalances), token), transfer) ==>
        Valid()
    {
      hide Safety.RegistrySafe;
      WithdrawFeesSafe(sender, token, transfer);
      if sender != owner { return Err(NotOwner); }
      var amount := Get(feeBalances, token);
      if amount == 0 { return Err(NoFeesToWithdraw); }
      if transfer.Failed? || Get(balances, token) < transfer.units { return Err(TransferFailed); }
      feeBalances := feeBalances[token := 0];
      balances := balances[token := Get(balances, token) - transfer.units];
      reply := Ok(());
    }

    method Withdraw(sender: Address, token: Address, transfer: Transfer) returns (reply: Reply)
      modifies this`pendingWithdrawals, this`balances
      ensures Follows(R.Withdraw(old(View()), sender, token, transfer), old(View()), View(), reply)
      ensures E.FairTransfer(token, Get(Row(old(pendingWithdrawals), token), sender), transfer) ==>
        old(Valid()) && sender != NoOne ==> Valid()
    {
      hide Safety.RegistrySafe;
      WithdrawSafe(sender, token, transfer);
      var amount := Get(Row(pendingWithdrawals, token), sender);
      if amount == 0 { return Err(NoPendingWithdrawal); }
      if transfer.Failed? || Get(balances, token) < transfer.units { return Err(TransferFailed); }
      pendingWithdrawals := pendingWithdrawals[token := Row(pendingWithdrawals, token)[sender := 0]];
      balances := balances[token := Get(balances, token) - transfer.units];
      reply := Ok(());
    }
  }

  lemma {:induction false} StartsSafe(owner: Address, settlement: Address)
    ensures Safety.RegistrySafe(Runs.Deployed(owner, settlement).reg)
  {
    Runs.FreshSafe(Runs.Deployed(owner, settlement));
  }
}
