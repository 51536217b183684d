/** The records and predicates of web/src/lib/engine/types.ts. */
module EngineTypes {
  import opened Wrappers

  datatype Side = SideA | SideB

  datatype Outcome = WinA | WinB | Draw | Void

  datatype Entrant = Entrant(id: int, seed: int)

  datatype Target = Target(matchId: int, side: Side)

  datatype BracketMatch = BracketMatch(
    id: int,
    round: nat,
    slot: nat,
    a: Option<Entrant>,
    b: Option<Entrant>,
    outcome: Option<Outcome>,
    winnerTo: Option<Target>)

  datatype ResultRow = ResultRow(matchId: int, outcome: Outcome)

  function OutcomeWinner(o: Outcome): Option<Side> {
    match o
    case WinA => Some(SideA)
    case WinB => Some(SideB)
    case _ => None
  }

  function LoserSideOf(o: Outcome): Option<Side> {
    match o
    case WinA => Some(SideB)
    case WinB => Some(SideA)
    case _ => None
  }

  function MatchSide(m: BracketMatch, s: Side): Option<Entrant> {
    if s == SideA then m.a else m.b
  }

  function MatchWinner(m: BracketMatch): Option<Entrant> {
    if m.outcome.None? then None
    else
      var w := OutcomeWinner(m.outcome.value);
      if w.None? then None else MatchSide(m, w.value)
  }

  function MatchLoser(m: BracketMatch): Option<Entrant> {
    if m.outcome.None? then None
    else
      var l := LoserSideOf(m.outcome.value);
      if l.None? then None else MatchSide(m, l.value)
  }

  /** `m` is a match between the entrants `id1` and `id2`. */
  predicate Pits(m: BracketMatch, id1: int, id2: int) {
    m.a.Some? && m.b.Some?
    && ((m.a.value.id == id1 && m.b.value.id == id2) || (m.a.value.id == id2 && m.b.value.id == id1))
  }

  predicate IsBye(m: BracketMatch) {
    m.a.Some? != m.b.Some?
  }

  predicate IsReady(m: BracketMatch) {
    m.outcome.None? && m.a.Some? && m.b.Some?
  }

  predicate DistinctIds(es: seq<Entrant>) {
    forall i, j :: 0 <= i < j < |es| ==> es[i].id != es[j].id
  }

  predicate DistinctSeeds(es: seq<Entrant>) {
    forall i, j :: 0 <= i < j < |es| ==> es[i].seed != es[j].seed
  }

  /** Every match has an outcome. */
  predicate AllDecided(ms: seq<BracketMatch>) {
    forall j :: 0 <= j < |ms| ==> ms[j].outcome.Some?
  }

  lemma {:induction false} IndexOfId(es: seq<Entrant>, i: nat, j: nat)
    requires DistinctIds(es) && i < |es| && j < |es|
    ensures es[i].id == es[j].id <==> i == j
  {
    if i < j { assert es[i].id != es[j].id; }
    if j < i { assert es[j].id != es[i].id; }
  }
}
