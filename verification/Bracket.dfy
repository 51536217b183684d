/**
 What a single-elimination bracket is, independently of how either engine computes it:
 a sheet of seeded slots plus the set of recorded results determines every occupant,
 every outcome and the champion, by recursion over the rounds.
 */
module Bracket {
  import opened Wrappers
  import opened EngineTypes
  import opened Seeding
  import opened Sorting

  // ---------- the seeded sheet ----------

  /** `slots[p]` is the entrant placed in first-round slot `p`; `k` is the number of rounds. */
  datatype Sheet = Sheet(k: nat, slots: seq<Option<Entrant>>)

  predicate SheetShape(sh: Sheet) {
    sh.k >= 1 && |sh.slots| == Pow2(sh.k)
  }

  /** Every first-round match has its A side filled, so no match is empty. */
  ghost predicate NoEmptyMatch(sh: Sheet) {
    SheetShape(sh) && forall i :: 0 <= i < Pow2(sh.k - 1) ==> sh.slots[2 * i].Some?
  }

  /** No entrant id sits in two slots. */
  ghost predicate DistinctSeats(sh: Sheet) {
    forall p, q :: 0 <= p < q < |sh.slots| && sh.slots[p].Some? && sh.slots[q].Some?
      ==> sh.slots[p].value.id != sh.slots[q].value.id
  }

  predicate SeedLe(x: Entrant, y: Entrant) {
    x.seed <= y.seed
  }

  function BySeed(es: seq<Entrant>): seq<Entrant> {
    SortBy(es, SeedLe)
  }

  function RoundsFor(n: nat): nat {
    CeilLog2(if n < 2 then 2 else n)
  }

  function Placed(k: nat, ordered: seq<Entrant>, p: nat): Option<Entrant> {
    var rank := Reverse(k, p);
    if rank < |ordered| then Some(ordered[rank]) else None
  }

  function Seats(k: nat, ordered: seq<Entrant>, n: nat): (slots: seq<Option<Entrant>>)
    ensures |slots| == n
    ensures forall p :: 0 <= p < n ==> slots[p] == Placed(k, ordered, p)
    decreases n, ordered
  {
    if n == 0 then [] else Seats(k, ordered, n - 1) + [Placed(k, ordered, n - 1)]
  }

  /** The sheet of a field: rank `q` by seed goes to the slot that mirrors `q`. */
  function SheetOf(es: seq<Entrant>): (sh: Sheet)
    ensures SheetShape(sh)
    ensures sh.k == RoundsFor(|es|)
    ensures forall p :: 0 <= p < Pow2(sh.k) ==> sh.slots[p] == Placed(sh.k, BySeed(es), p)
  {
    var k := RoundsFor(|es|);
    Sheet(k, Seats(k, BySeed(es), Pow2(k)))
  }

  // ---------- numbering: round-major ids ----------

  /** Zero-based position of match `i` of round `r`; its id is one more. */
  function Index(k: nat, r: nat, i: nat): (j: int)
    requires r < k
    ensures i < Pow2(k - r - 1) ==> 0 <= j < Pow2(k) - 1
  {
    Pow2Grows(k - r, k);
    Pow2(k) - Pow2(k - r) + i
  }

  /** A row has half as many matches as it has positions. */
  lemma {:induction false} RowDoubles(k: nat, r: nat)
    requires r < k
    ensures Pow2(k - r) == 2 * Pow2(k - r - 1)
  {
  }

  lemma {:induction false} IndexMeans(k: nat, r: nat, i: nat)
    requires r < k
    ensures Index(k, r, i) == Pow2(k) - Pow2(k - r) + i
  {
    hide Pow2;
  }

  /** Rows do not overlap: a position determines its round and slot. */
  lemma {:induction false} IndexUnique(k: nat, r: nat, i: nat, s: nat, j: nat)
    requires r < k && i < Pow2(k - r - 1) && s < k && j < Pow2(k - s - 1)
    requires Index(k, r, i) == Index(k, s, j)
    ensures r == s && i == j
  {
    hide Pow2;
    RowDoubles(k, r);
    RowDoubles(k, s);
    if r < s { Pow2Grows(k - s, k - r - 1); }
    if s < r { Pow2Grows(k - r, k - s - 1); }
  }

  lemma {:induction false} PositionExists(k: nat, j: nat) returns (r: nat, i: nat)
    requires j < Pow2(k) - 1
    ensures r < k && i < Pow2(k - r - 1) && Index(k, r, i) == j
  {
    if j < Pow2(k - 1) {
      r, i := 0, j;
    } else {
      r, i := PositionExists(k - 1, j - Pow2(k - 1));
      r := r + 1;
    }
  }

  ghost predicate At(k: nat, r: nat, i: nat, j: nat) {
    r < k && i < Pow2(k - r - 1) && Index(k, r, i) == j
  }

  /** The round and slot of the match at position `j`. */
  ghost function Locate(k: nat, j: nat): (ri: (nat, nat))
    requires j < Pow2(k) - 1
    ensures ri.0 < k && ri.1 < Pow2(k - ri.0 - 1) && Index(k, ri.0, ri.1) == j
  {
    assert exists r: nat, i: nat :: At(k, r, i, j) by {
      var r, i := PositionExists(k, j);
      assert At(k, r, i, j);
    }
    var r: nat, i: nat :| At(k, r, i, j);
    (r, i)
  }

  lemma {:induction false} LocateIndex(k: nat, r: nat, i: nat)
    requires r < k && i < Pow2(k - r - 1)
    ensures Locate(k, Index(k, r, i)) == (r, i)
  {
    hide Pow2, Index, Locate;
    var ri := Locate(k, Index(k, r, i));
    IndexUnique(k, r, i, ri.0, ri.1);
  }

  // ---------- the recursive meaning of a set of results ----------

  function Lookup(res: map<int, Outcome>, id: int): Option<Outcome> {
    if id in res then Some(res[id]) else None
  }

  function OutcomeAt(sh: Sheet, res: map<int, Outcome>, r: nat, i: nat): Option<Outcome>
    requires SheetShape(sh) && r < sh.k && i < Pow2(sh.k - r - 1)
  {
    if r == 0 && sh.slots[2 * i].Some? && sh.slots[2 * i + 1].None? then Some(WinA)
    else if r == 0 && sh.slots[2 * i].None? && sh.slots[2 * i + 1].Some? then Some(WinB)
    else Lookup(res, Index(sh.k, r, i) + 1)
  }

  /**
   Who stands at position `p` at the start of round `r`: the slot itself in round 0, and
   afterwards the winner of match `p` of the round before. Match `i` of round `r` is played
   between positions `2i` and `2i+1`; position 0 after the last round is the champion.
   */
  function Arrives(sh: Sheet, res: map<int, Outcome>, r: nat, p: nat): Option<Entrant>
    requires SheetShape(sh) && r <= sh.k && p < Pow2(sh.k - r)
    decreases r, sh
  {
    if r == 0 then sh.slots[p]
    else
      match OutcomeAt(sh, res, r - 1, p)
      case Some(WinA) => Arrives(sh, res, r - 1, 2 * p)
      case Some(WinB) => Arrives(sh, res, r - 1, 2 * p + 1)
      case _ => None
  }

  function Champion(sh: Sheet, res: map<int, Outcome>): Option<Entrant>
    requires SheetShape(sh)
  {
    Arrives(sh, res, sh.k, 0)
  }

  function FinalOutcome(sh: Sheet, res: map<int, Outcome>): Option<Outcome>
    requires SheetShape(sh)
  {
    OutcomeAt(sh, res, sh.k - 1, 0)
  }

  function TargetOf(k: nat, r: nat, i: nat, startId: int): Option<Target>
    requires r < k
  {
    if r + 1 < k
    then Some(Target(startId + Index(k, r + 1, i / 2), if i % 2 == 0 then SideA else SideB))
    else None
  }

  /** Match `i` of round `r` of the fully propagated bracket. */
  function MatchOf(sh: Sheet, res: map<int, Outcome>, r: nat, i: nat): BracketMatch
    requires SheetShape(sh) && r < sh.k && i < Pow2(sh.k - r - 1)
  {
    BracketMatch(Index(sh.k, r, i) + 1, r, i,
                 Arrives(sh, res, r, 2 * i), Arrives(sh, res, r, 2 * i + 1),
                 OutcomeAt(sh, res, r, i), TargetOf(sh.k, r, i, 1))
  }

  /** The match at position `j`, that is with id `j + 1`. */
  ghost function MatchAt(sh: Sheet, res: map<int, Outcome>, j: nat): (m: BracketMatch)
    requires SheetShape(sh) && j < Pow2(sh.k) - 1
  {
    var (r, i) := Locate(sh.k, j);
    MatchOf(sh, res, r, i)
  }

  ghost function Matches(sh: Sheet, res: map<int, Outcome>, n: nat): (ms: seq<BracketMatch>)
    requires SheetShape(sh) && n < Pow2(sh.k)
    ensures |ms| == n
    ensures forall j :: 0 <= j < |ms| ==> ms[j] == MatchAt(sh, res, j)
    decreases n, sh
  {
    if n == 0 then [] else Matches(sh, res, n - 1) + [MatchAt(sh, res, n - 1)]
  }

  /** The fully propagated bracket of a set of results. */
  ghost function BracketOf(sh: Sheet, res: map<int, Outcome>): (ms: seq<BracketMatch>)
    requires SheetShape(sh)
    ensures |ms| == Pow2(sh.k) - 1
    ensures forall j :: 0 <= j < |ms| ==> ms[j] == MatchAt(sh, res, j)
  {
    Matches(sh, res, Pow2(sh.k) - 1)
  }

  lemma {:induction false} BracketAt(sh: Sheet, res: map<int, Outcome>, r: nat, i: nat)
    requires SheetShape(sh) && r < sh.k && i < Pow2(sh.k - r - 1)
    ensures BracketOf(sh, res)[Index(sh.k, r, i)] == MatchOf(sh, res, r, i)
  {
    LocateIndex(sh.k, r, i);
  }

  lemma {:induction false} WinnerArrives(sh: Sheet, res: map<int, Outcome>, r: nat, i: nat)
    requires SheetShape(sh) && r < sh.k && i < Pow2(sh.k - r - 1)
    ensures MatchWinner(MatchOf(sh, res, r, i)) == Arrives(sh, res, r + 1, i)
  {
  }

  /** The bracket as built, before any bye or result has been propagated. */
  ghost function BlankMatch(sh: Sheet, startId: int, j: nat): (m: BracketMatch)
    requires SheetShape(sh) && j < Pow2(sh.k) - 1
  {
    var (r, i) := Locate(sh.k, j);
    BracketMatch(startId + j, r, i,
                 if r == 0 then sh.slots[2 * i] else None,
                 if r == 0 then sh.slots[2 * i + 1] else None,
                 None, TargetOf(sh.k, r, i, startId))
  }

  // ---------- recording ----------

  ghost predicate Recordable(sh: Sheet, res: map<int, Outcome>, id: int)
    requires SheetShape(sh)
  {
    1 <= id < Pow2(sh.k) && IsReady(MatchAt(sh, res, id - 1))
  }

  /** Recording results one by one; `None` when some result is refused. */
  ghost function Replay(sh: Sheet, res: map<int, Outcome>, rs: seq<ResultRow>): Option<map<int, Outcome>>
    requires SheetShape(sh)
    decreases |rs|
  {
    if rs == [] then Some(res)
    else if Recordable(sh, res, rs[0].matchId) && rs[0].outcome != Draw
    then Replay(sh, res[rs[0].matchId := rs[0].outcome], rs[1..])
    else None
  }

  /** Match `id` exists and both its players are known. */
  ghost predicate BothKnown(sh: Sheet, res: map<int, Outcome>, id: int)
    requires SheetShape(sh)
  {
    && 1 <= id < Pow2(sh.k)
    && MatchAt(sh, res, id - 1).a.Some?
    && MatchAt(sh, res, id - 1).b.Some?
  }

  /** A set of results that some run accepts: each is for a real match with both players known. */
  ghost predicate Accepted(sh: Sheet, res: map<int, Outcome>)
    requires SheetShape(sh)
  {
    forall id {:trigger BothKnown(sh, res, id)} :: id in res ==> res[id] != Draw && BothKnown(sh, res, id)
  }

  // ---------- monotonicity and locality ----------

  lemma {:induction false} NothingAccepted(sh: Sheet)
    requires SheetShape(sh)
    ensures Accepted(sh, map[])
  {
  }

  ghost predicate Extends(res: map<int, Outcome>, more: map<int, Outcome>) {
    forall id :: id in res ==> id in more && more[id] == res[id]
  }

  /** More results never change a position that is already filled. */
  lemma {:induction false} ArrivesMonotone(sh: Sheet, res: map<int, Outcome>, more: map<int, Outcome>, r: nat, p: nat)
    requires SheetShape(sh) && r <= sh.k && p < Pow2(sh.k - r)
    requires Extends(res, more)
    ensures Arrives(sh, res, r, p).Some? ==> Arrives(sh, more, r, p) == Arrives(sh, res, r, p)
    decreases r
  {
    hide Pow2, Index;
    if r > 0 {
      RowDoubles(sh.k, r - 1);
      ArrivesMonotone(sh, res, more, r - 1, 2 * p);
      ArrivesMonotone(sh, res, more, r - 1, 2 * p + 1);
    }
  }

  /** A position at the start of round `r` depends only on results of smaller ids. */
  lemma {:induction false} ArrivesLocal(sh: Sheet, res: map<int, Outcome>, other: map<int, Outcome>, r: nat, p: nat)
    requires SheetShape(sh) && r <= sh.k && p < Pow2(sh.k - r)
    requires forall id :: id <= Pow2(sh.k) - Pow2(sh.k - r) ==> Lookup(res, id) == Lookup(other, id)
    ensures Arrives(sh, res, r, p) == Arrives(sh, other, r, p)
    decreases r
  {
    hide Pow2, Index;
    if r > 0 {
      var id := Index(sh.k, r - 1, p) + 1;
      RowDoubles(sh.k, r - 1);
      IndexMeans(sh.k, r - 1, p);
      assert Lookup(res, id) == Lookup(other, id);
      hide Lookup;
      ArrivesLocal(sh, res, other, r - 1, 2 * p);
      ArrivesLocal(sh, res, other, r - 1, 2 * p + 1);
    }
  }

  /** The sides of a match agree under result sets that agree on every smaller id. */
  lemma {:induction false} SideLocal(sh: Sheet, res: map<int, Outcome>, other: map<int, Outcome>, id: int, s: Side)
    requires SheetShape(sh) && 1 <= id < Pow2(sh.k)
    requires forall x :: x < id ==> Lookup(res, x) == Lookup(other, x)
    ensures MatchSide(MatchAt(sh, res, id - 1), s) == MatchSide(MatchAt(sh, other, id - 1), s)
  {
    hide Pow2, Index, Arrives, OutcomeAt, Lookup;
    var (r, i) := Locate(sh.k, id - 1);
    RowDoubles(sh.k, r);
    IndexMeans(sh.k, r, i);
    ArrivesLocal(sh, res, other, r, if s == SideA then 2 * i else 2 * i + 1);
  }

  lemma {:induction false} DecidedByRecord(sh: Sheet, res: map<int, Outcome>, r: nat, i: nat)
    requires SheetShape(sh) && r < sh.k && i < Pow2(sh.k - r - 1)
    requires Arrives(sh, res, r, 2 * i).Some? && Arrives(sh, res, r, 2 * i + 1).Some?
    ensures OutcomeAt(sh, res, r, i) == Lookup(res, Index(sh.k, r, i) + 1)
  {
  }

  lemma {:induction false} LookupMeans(res: map<int, Outcome>, id: int)
    ensures Lookup(res, id).None? <==> id !in res
  {
  }

  /** Outside the byes, a match is decided exactly when a result is recorded for it. */
  lemma {:induction false} OutcomeWhenBothKnown(sh: Sheet, res: map<int, Outcome>, id: int)
    requires SheetShape(sh) && BothKnown(sh, res, id)
    ensures MatchAt(sh, res, id - 1).outcome == Lookup(res, id)
    ensures Recordable(sh, res, id) <==> id !in res
  {
    hide Pow2, Index, Arrives, OutcomeAt, Lookup;
    var (r, i) := Locate(sh.k, id - 1);
    DecidedByRecord(sh, res, r, i);
    hide Locate;
    assert Lookup(res, id).None? <==> id !in res by { LookupMeans(res, id); }
  }

  lemma {:induction false} KnownAt(sh: Sheet, res: map<int, Outcome>, r: nat, i: nat)
    requires SheetShape(sh) && r < sh.k && i < Pow2(sh.k - r - 1)
    ensures BothKnown(sh, res, Index(sh.k, r, i) + 1)
       <==> Arrives(sh, res, r, 2 * i).Some? && Arrives(sh, res, r, 2 * i + 1).Some?
  {
    hide Pow2, Arrives, Locate, OutcomeAt, Index;
    LocateIndex(sh.k, r, i);
  }

  /** A recorded match had both its players. */
  lemma {:induction false} RecordedKnown(sh: Sheet, res: map<int, Outcome>, r: nat, i: nat)
    requires SheetShape(sh) && Accepted(sh, res) && r < sh.k && i < Pow2(sh.k - r - 1)
    requires Index(sh.k, r, i) + 1 in res
    ensures Arrives(sh, res, r, 2 * i).Some? && Arrives(sh, res, r, 2 * i + 1).Some?
    ensures Lookup(res, Index(sh.k, r, i) + 1) != Some(Draw)
  {
    hide Arrives, Locate, MatchOf, Pow2, Index, BothKnown;
    KnownAt(sh, res, r, i);
    assert BothKnown(sh, res, Index(sh.k, r, i) + 1);
  }

  lemma {:induction false} BothKnownMonotone(sh: Sheet, res: map<int, Outcome>, more: map<int, Outcome>, id: int)
    requires SheetShape(sh) && BothKnown(sh, res, id) && Extends(res, more)
    ensures BothKnown(sh, more, id)
  {
    hide Pow2, Arrives, OutcomeAt, Index, Extends;
    var (r, i) := Locate(sh.k, id - 1);
    RowDoubles(sh.k, r);
    ArrivesMonotone(sh, res, more, r, 2 * i);
    ArrivesMonotone(sh, res, more, r, 2 * i + 1);
  }

  /** One accepted record keeps the set of results acceptable. */
  lemma {:induction false} AcceptedStep(sh: Sheet, res: map<int, Outcome>, id: int, o: Outcome)
    requires SheetShape(sh) && Accepted(sh, res) && Recordable(sh, res, id) && o != Draw
    ensures id !in res
    ensures Accepted(sh, res[id := o])
  {
    OutcomeWhenBothKnown(sh, res, id);
    var more := res[id := o];
    forall x | x in more
      ensures more[x] != Draw && BothKnown(sh, more, x)
    {
      assert x == id || x in res;
      BothKnownMonotone(sh, res, more, x);
    }
  }
}
