/** The stateful settlement desk: contracts/src/AMPSettlement.sol. */
module SettlementContract {
  import opened Wrappers
  import opened EscrowTypes
  import R = RegistrySpec
  import S = SettlementSpec
  import opened SettlementSpec
  import E = EscrowSteps
  import Runs = EscrowRuns
  import Safety = EscrowSafety
  import opened RegistryContract

  type DeskReply = Result<(), SettlementError>

  ghost predicate Completes(spec: S.Step, before: System, after: System, reply: DeskReply) {
    match spec
    case Ok(y) => reply == Ok(()) && after == y
    case Err(e) => reply == Err(e) && after == before
  }

  /** A successful step from a safe system ends in a safe system. */
  ghost predicate StaysSafe(y: System, r: S.Step) {
    Runs.Safe(y) && r.Ok? ==> Runs.Safe(r.value)
  }

  class AMPSettlement {
    const owner: Address
    const self: Address
    const registry: AMPRegistry
    var protocolFeeBps: nat
    var protocolFeeRecipient: Address
    var settlements: map<nat, Settlement>
    var rtResults: map<nat, map<Address, HashResult>>
    var paused: bool

    ghost function View(): System
      reads this, registry
    {
      System(registry.View(), Desk(owner, self, protocolFeeBps, protocolFeeRecipient, settlements, rtResults, paused))
    }

    /** Both contracts are well formed, linked to each other, and every token is covered. */
    ghost predicate Valid()
      reads this, registry
    {
      Runs.Safe(View())
    }

    constructor (owner: Address, self: Address, registry: AMPRegistry)
      ensures this.registry == registry
      ensures registry.Valid() && registry.settlement == self ==> Valid()
      ensures View() == System(registry.View(), Desk(owner, self, 100, owner, map[], map[], false))
    {
      this.owner, this.self, this.registry := owner, self, registry;
      protocolFeeBps, protocolFeeRecipient := 100, owner;
      settlements, rtResults, paused := map[], map[], false;
    }

    // ---------- what each transaction keeps ----------

    lemma {:induction false} AsyncSafe(now: nat, id: nat, result: HashResult, signer: Address)
      ensures StaysSafe(View(), S.SubmitAsyncResult(View(), now, id, result, signer))
    {
      Runs.SafeStep(View(), E.SubmitAsyncResult(1, now, id, result, signer));
      hide Runs.Safe;
    }

    lemma {:induction false} HashSafe(sender: Address, now: nat, id: nat, result: HashResult)
      ensures sender != NoOne ==> StaysSafe(View(), S.SubmitHashResult(View(), sender, now, id, result))
    {
      Runs.SafeStep(View(), E.SubmitHashResult(sender, now, id, result));
      hide Runs.Safe;
    }

    lemma {:induction false} ResolveSafe(sender: Address, now: nat, id: nat, outcome: OutcomeCode)
      ensures sender != NoOne ==> StaysSafe(View(), S.ResolveDispute(View(), sender, now, id, outcome))
    {
      Runs.SafeStep(View(), E.ResolveDispute(sender, now, id, outcome));
      hide Runs.Safe;
    }

    lemma {:induction false} FeeSafe(sender: Address, feeBps: nat)
      ensures sender != NoOne ==> StaysSafe(View(), S.UpdateProtocolFeeBps(View(), sender, feeBps))
    {
      Runs.SafeStep(View(), E.UpdateProtocolFeeBps(sender, feeBps));
      hide Runs.Safe;
    }

    lemma {:induction false} RecipientSafe(sender: Address, recipient: Address)
      ensures sender != NoOne ==> StaysSafe(View(), S.UpdateProtocolFeeRecipient(View(), sender, recipient))
    {
      Runs.SafeStep(View(), E.UpdateProtocolFeeRecipient(sender, recipient));
      hide Runs.Safe;
    }

    // ---------- settings ----------

    method UpdateProtocolFeeBps(sender: Address, feeBps: nat) returns (reply: DeskReply)
      modifies this`protocolFeeBps
      ensures Completes(S.UpdateProtocolFeeBps(old(View()), sender, feeBps), old(View()), View(), reply)
      ensures old(Valid()) && sender != NoOne ==> Valid()
    {
      hide Runs.Safe;
      FeeSafe(sender, feeBps);
      if sender != owner { return Err(NotOwner); }
      if feeBps > MaxProtocolFeeBps { return Err(FeeExceedsMax); }
      protocolFeeBps := feeBps;
      reply := Ok(());
    }

    method UpdateProtocolFeeRecipient(sender: Address, recipient: Address) returns (reply: DeskReply)
      modifies this`protocolFeeRecipient
      ensures Completes(S.UpdateProtocolFeeRecipient(old(View()), sender, recipient), old(View()), View(), reply)
      ensures old(Valid()) && sender != NoOne ==> Valid()
    {
      hide Runs.Safe;
      RecipientSafe(sender, recipient);
      if sender != owner { return Err(NotOwner); }
      if recipient == NoOne { return Err(InvalidRecipient); }
      protocolFeeRecipient := recipient;
      reply := Ok(());
    }

    method ReadMatch(matchId: nat) returns (m: Match, game: Game)
      ensures m == R.MatchAt(registry.View(), matchId) && game == R.GameAt(registry.View(), m.gameId)
    {
      m := if matchId in registry.matches then registry.matches[matchId] else UnsetMatch;
      game := if m.gameId in registry.games then registry.games[m.gameId] else UnsetGame;
    }

    /** Splits the pool and hands the shares to the registry. */
    method Payout(matchId: nat, outcome: OutcomeCode) returns (reply: DeskReply)
      modifies registry
      ensures Completes(S.Payout(old(View()), matchId, outcome), old(View()), View(), reply)
    {
      var m, game := ReadMatch(matchId);
      hide R.MatchAt, R.GameAt, R.SettleMatch;
      match Split(m, game, protocolFeeBps, outcome) {
        case Err(e) => reply := Err(e);
        case Ok(sh) =>
          hide Split;
          var r := registry.SettleMatch(self, matchId, Settled, (game.studioFeeRecipient, protocolFeeRecipient),
                                        (sh.studioFee, sh.protocolFee), [m.playerA, m.playerB], [sh.toA, sh.toB]);
          reply := if r.Ok? then Ok(()) else Err(Registry(r.error));
      }
    }

    /** Writes the settlement down and pays out; a failing payout reverts the entry too. */
    method Settle(now: nat, matchId: nat, outcome: OutcomeCode, transcriptHash: int) returns (reply: DeskReply)
      modifies registry, this`settlements
      ensures Completes(S.Settle(old(View()), now, matchId, outcome, transcriptHash), old(View()), View(), reply)
    {
      var before := settlements;
      settlements := settlements[matchId := Settlement(matchId, outcome, transcriptHash, now)];
      hide S.Payout;
      reply := Payout(matchId, outcome);
      if reply.Err? { settlements := before; }
    }

    method SubmitAsyncResult(now: nat, matchId: nat, result: HashResult, signer: Address) returns (reply: DeskReply)
      modifies registry, this`settlements
      ensures Completes(S.SubmitAsyncResult(old(View()), now, matchId, result, signer), old(View()), View(), reply)
      ensures old(Valid()) ==> Valid()
    {
      hide Runs.Safe;
      AsyncSafe(now, matchId, result, signer);
      var m, game := ReadMatch(matchId);
      hide R.MatchAt, R.GameAt;
      if paused { return Err(EnforcedPause); }
      if result.matchId != matchId { return Err(MatchIdMismatch); }
      if game.mode != AsyncVerifier { return Err(WrongMode); }
      if m.state != Ready { return Err(MatchNotSettlable); }
      if m.playerB == NoOne { return Err(NoOpponent); }
      if signer !in R.VerifiersOf(registry.gameVerifiers, m.gameId) { return Err(InvalidVerifierSignature); }
      hide S.Settle;
      reply := Settle(now, matchId, result.outcome, result.transcriptHash);
    }

    method SubmitHashResult(sender: Address, now: nat, matchId: nat, result: HashResult) returns (reply: DeskReply)
      modifies registry, this`settlements, this`rtResults
      ensures Completes(S.SubmitHashResult(old(View()), sender, now, matchId, result), old(View()), View(), reply)
      ensures old(Valid()) && sender != NoOne ==> Valid()
    {
      hide Runs.Safe;
      HashSafe(sender, now, matchId, result);
      var m, game := ReadMatch(matchId);
      hide R.MatchAt, R.GameAt;
      if paused { return Err(EnforcedPause); }
      if result.matchId != matchId { return Err(MatchIdMismatch); }
      if game.mode != HashAgree { return Err(WrongMode); }
      if m.state != Ready { return Err(MatchNotSettlable); }
      if sender != m.playerA && sender != m.playerB { return Err(NotAPlayer); }
      var before := rtResults;
      rtResults := rtResults[matchId := ResultRow(rtResults, matchId)[sender := result]];
      var otherPlayer := if sender == m.playerA then m.playerB else m.playerA;
      var other := if otherPlayer in rtResults[matchId] then rtResults[matchId][otherPlayer] else UnsetResult;
      hide S.Settle, R.SettleMatch, UnsetResult;
      reply := Ok(());
      if other.outcome != NoResult {
        if result.outcome == other.outcome && result.transcriptHash == other.transcriptHash {
          reply := Settle(now, matchId, result.outcome, result.transcriptHash);
        } else {
          var r := registry.SettleMatch(self, matchId, Disputed, (NoOne, NoOne), (0, 0), [], []);
          reply := if r.Ok? then Ok(()) else Err(Registry(r.error));
        }
        if reply.Err? { rtResults := before; }
      }
    }

    method ResolveDispute(sender: Address, now: nat, matchId: nat, enforced: OutcomeCode) returns (reply: DeskReply)
      modifies registry, this`settlements
      ensures Completes(S.ResolveDispute(old(View()), sender, now, matchId, enforced), old(View()), View(), reply)
      ensures old(Valid()) && sender != NoOne ==> Valid()
    {
      hide Runs.Safe;
      ResolveSafe(sender, now, matchId, enforced);
      var m, game := ReadMatch(matchId);
      hide R.MatchAt, R.GameAt;
      if paused { return Err(EnforcedPause); }
      if m.state != Disputed { return Err(NotDisputed); }
      if sender != game.arbiter { return Err(NotArbiter); }
      if m.playerB == NoOne { return Err(NoOpponent); }
      hide S.Settle;
      reply := Settle(now, matchId, enforced, 0);
    }
  }
}
