/** The shared types of the wagering contracts: contracts/src/AMPTypes.sol. */
module EscrowTypes {

  /** An account, a contract or a token; 0 is the zero address and, as a token, the native coin. */
  type Address = int
  const NoOne: Address := 0

  const Hour: nat := 3600
  const Day: nat := 86400

  datatype MatchState = Open | Ready | Settled | Expired | Disputed

  datatype SettlementMode = AsyncVerifier | HashAgree

  datatype OutcomeCode = NoResult | WinA | WinB | Draw | Cancelled

  datatype Game = Game(
    admin: Address, mode: SettlementMode, verifiers: seq<Address>, minStake: nat, stakeToken: Address,
    arbiter: Address, matchTimeout: nat, studioFeeBps: nat, studioFeeRecipient: Address)

  datatype Match = Match(
    gameId: nat, playerA: Address, state: MatchState, playerB: Address, createdAt: nat,
    stakeAmount: nat, stakeAmountB: nat)

  /** What storage reads as before anything is written there. */
  const UnsetGame := Game(NoOne, AsyncVerifier, [], 0, NoOne, NoOne, 0, 0, NoOne)
  const UnsetMatch := Match(0, NoOne, Open, NoOne, 0, 0, 0)

  predicate Live(st: MatchState) {
    st == Open || st == Ready || st == Disputed
  }

  datatype HashResult = HashResult(matchId: nat, outcome: OutcomeCode, transcriptHash: int)

  const UnsetResult := HashResult(0, NoResult, 0)

  datatype Settlement = Settlement(matchId: nat, outcome: OutcomeCode, transcriptHash: int, settledAt: nat)

  /** How an outgoing transfer ends: it fails and everything reverts, or it takes units off the balance. */
  datatype Transfer = Failed | Moved(units: nat)
}
