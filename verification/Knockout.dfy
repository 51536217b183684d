/**
 What a knockout means, for every field and every accepted set of results: who can still be in,
 who lost where, and when the bracket is complete.
 */
module Knockout {
  import opened Wrappers
  import opened EngineTypes
  import opened Seeding
  import opened Bracket
  import opened SingleElim

  // ---------- completeness ----------

  predicate Decisive(o: Option<Outcome>) {
    o == Some(WinA) || o == Some(WinB)
  }

  /** A later-round match won by someone had both its players, who won their own matches. */
  lemma {:induction false} FedByWinners(sh: Sheet, res: map<int, Outcome>, r: nat, p: nat)
    requires SheetShape(sh) && Accepted(sh, res) && 0 < r < sh.k && p < Pow2(sh.k - r - 1)
    requires Arrives(sh, res, r + 1, p).Some?
    ensures Arrives(sh, res, r, 2 * p).Some? && Arrives(sh, res, r, 2 * p + 1).Some?
  {
    hide Pow2, Index, Accepted;
    assert Index(sh.k, r, p) + 1 in res;
    hide Arrives;
    RecordedKnown(sh, res, r, p);
  }

  /** With a champion, every position of every later round is filled. */
  lemma {:induction false} ChampionFillsAll(sh: Sheet, res: map<int, Outcome>, r: nat, p: nat)
    requires SheetShape(sh) && Accepted(sh, res) && Champion(sh, res).Some?
    requires 1 <= r <= sh.k && p < Pow2(sh.k - r)
    ensures Arrives(sh, res, r, p).Some?
    decreases sh.k - r
  {
    if r < sh.k {
      ChampionFillsAll(sh, res, r + 1, p / 2);
      hide Arrives;
      FedByWinners(sh, res, r, p / 2);
      assert p == 2 * (p / 2) || p == 2 * (p / 2) + 1;
    }
  }

  /** With a champion, every match is decided with A or B. */
  lemma {:induction false} ChampionDecidesAll(sh: Sheet, res: map<int, Outcome>, r: nat, i: nat)
    requires SheetShape(sh) && Accepted(sh, res) && Champion(sh, res).Some?
    requires r < sh.k && i < Pow2(sh.k - r - 1)
    ensures Decisive(OutcomeAt(sh, res, r, i))
  {
    ChampionFillsAll(sh, res, r + 1, i);
  }

  lemma {:induction false} FinalPlayersKnown(sh: Sheet, res: map<int, Outcome>)
    requires SheetShape(sh) && Accepted(sh, res) && sh.k > 1 && FinalOutcome(sh, res).Some?
    ensures Arrives(sh, res, sh.k - 1, 0).Some? && Arrives(sh, res, sh.k - 1, 1).Some?
  {
    var last := sh.k - 1;
    hide Arrives, Index, Accepted;
    RecordedKnown(sh, res, last, 0);
  }

  /** Once the final is decided, even without a winner, every position up to it is filled. */
  lemma {:induction false} FinalFillsAll(sh: Sheet, res: map<int, Outcome>, r: nat, p: nat)
    requires SheetShape(sh) && Accepted(sh, res) && FinalOutcome(sh, res).Some?
    requires 1 <= r < sh.k && p < Pow2(sh.k - r)
    ensures Arrives(sh, res, r, p).Some?
    decreases sh.k - r
  {
    hide Arrives, Accepted, FinalOutcome;
    if r == sh.k - 1 {
      FinalPlayersKnown(sh, res);
    } else {
      FinalFillsAll(sh, res, r + 1, p / 2);
      FedByWinners(sh, res, r, p / 2);
      assert p == 2 * (p / 2) || p == 2 * (p / 2) + 1;
    }
  }

  /** The final is the last match to be decided. */
  lemma {:induction false} FinalDecidesAll(sh: Sheet, res: map<int, Outcome>, r: nat, i: nat)
    requires SheetShape(sh) && Accepted(sh, res) && FinalOutcome(sh, res).Some?
    requires r < sh.k && i < Pow2(sh.k - r - 1)
    ensures OutcomeAt(sh, res, r, i).Some?
  {
    if r < sh.k - 1 { FinalFillsAll(sh, res, r + 1, i); }
  }

  /** A match is won by someone exactly when it is decided with A or B. */
  lemma {:induction false} WonIffDecisive(sh: Sheet, res: map<int, Outcome>, r: nat, i: nat)
    requires SheetShape(sh) && Accepted(sh, res) && r < sh.k && i < Pow2(sh.k - r - 1)
    ensures Arrives(sh, res, r + 1, i).Some? <==> Decisive(OutcomeAt(sh, res, r, i))
    ensures OutcomeAt(sh, res, r, i) != Some(Draw)
  {
    hide Index, Accepted;
    if Index(sh.k, r, i) + 1 in res { RecordedKnown(sh, res, r, i); }
  }

  /** There is a champion exactly when the final is decided with A or B; a draw is never accepted. */
  lemma {:induction false} ChampionIffFinalDecisive(sh: Sheet, res: map<int, Outcome>)
    requires SheetShape(sh) && Accepted(sh, res)
    ensures Champion(sh, res).Some? <==> Decisive(FinalOutcome(sh, res))
    ensures FinalOutcome(sh, res) != Some(Draw)
  {
    hide Arrives, OutcomeAt, Accepted;
    WonIffDecisive(sh, res, sh.k - 1, 0);
  }

  // ---------- seats ----------

  /** The occupant of seat `p` has won every match of the rounds before `r`. */
  predicate StillIn(sh: Sheet, res: map<int, Outcome>, r: nat, p: nat)
    requires SheetShape(sh) && r <= sh.k && p < Pow2(sh.k)
  {
    ShrBound(p, r, sh.k);
    Arrives(sh, res, r, Shr(p, r)) == sh.slots[p]
  }

  /** Whoever stands at position `q` of round `r` started in block `q` of the sheet. */
  lemma {:induction false} Origin(sh: Sheet, res: map<int, Outcome>, r: nat, q: nat) returns (p: nat)
    requires SheetShape(sh) && r <= sh.k && q < Pow2(sh.k - r)
    requires Arrives(sh, res, r, q).Some?
    ensures p < Pow2(sh.k) && Shr(p, r) == q && sh.slots[p] == Arrives(sh, res, r, q)
    decreases r
  {
    hide Pow2, OutcomeAt;
    if r == 0 {
      p := q;
    } else {
      RowDoubles(sh.k, r - 1);
      var b := if OutcomeAt(sh, res, r - 1, q) == Some(WinA) then 0 else 1;
      p := Origin(sh, res, r - 1, 2 * q + b);
      ShrHalves(p, r - 1);
    }
  }

  /** Nobody stands in two places of the same round, nor in a block that is not theirs. */
  lemma {:induction false} SeatOf(sh: Sheet, res: map<int, Outcome>, r: nat, q: nat, p: nat)
    requires SheetShape(sh) && DistinctSeats(sh) && r <= sh.k && q < Pow2(sh.k - r) && p < Pow2(sh.k)
    requires sh.slots[p].Some? && Arrives(sh, res, r, q).Some?
    requires Arrives(sh, res, r, q).value.id == sh.slots[p].value.id
    ensures Shr(p, r) == q && StillIn(sh, res, r, p)
  {
    hide Arrives, Pow2, Shr;
    var p' := Origin(sh, res, r, q);
    assert p' == p;
  }

  /** The two sides of a match are different entrants. */
  lemma {:induction false} SidesDiffer(sh: Sheet, res: map<int, Outcome>, r: nat, i: nat)
    requires SheetShape(sh) && DistinctSeats(sh) && r < sh.k && i < Pow2(sh.k - r - 1)
    requires Arrives(sh, res, r, 2 * i).Some? && Arrives(sh, res, r, 2 * i + 1).Some?
    ensures Arrives(sh, res, r, 2 * i).value.id != Arrives(sh, res, r, 2 * i + 1).value.id
  {
    hide Arrives, Pow2, Shr, DistinctSeats, StillIn;
    RowDoubles(sh.k, r);
    var p := Origin(sh, res, r, 2 * i);
    if Arrives(sh, res, r, 2 * i + 1).value.id == sh.slots[p].value.id {
      SeatOf(sh, res, r, 2 * i + 1, p);
    }
  }

  lemma {:induction false} StillInBefore(sh: Sheet, res: map<int, Outcome>, r: nat, s: nat, p: nat)
    requires SheetShape(sh) && DistinctSeats(sh) && s <= r <= sh.k && p < Pow2(sh.k)
    requires sh.slots[p].Some? && StillIn(sh, res, r, p)
    ensures StillIn(sh, res, s, p)
    decreases r
  {
    hide Pow2, Shr, OutcomeAt, DistinctSeats;
    if s < r {
      ShrBound(p, r, sh.k);
      RowDoubles(sh.k, r - 1);
      var q := Shr(p, r);
      var q' := if OutcomeAt(sh, res, r - 1, q) == Some(WinA) then 2 * q else 2 * q + 1;
      assert Arrives(sh, res, r, q) == Arrives(sh, res, r - 1, q');
      hide Arrives;
      SeatOf(sh, res, r - 1, q', p);
      StillInBefore(sh, res, r - 1, s, p);
    }
  }

  // ---------- losing ----------

  /** The loser of a match was in until that round and is out from then on. */
  lemma {:induction false} LoserGoesOut(sh: Sheet, res: map<int, Outcome>, r: nat, i: nat, p: nat)
    requires SheetShape(sh) && DistinctSeats(sh) && r < sh.k && i < Pow2(sh.k - r - 1) && p < Pow2(sh.k)
    requires sh.slots[p].Some? && MatchLoser(MatchOf(sh, res, r, i)).Some?
    requires MatchLoser(MatchOf(sh, res, r, i)).value.id == sh.slots[p].value.id
    ensures Shr(p, r + 1) == i && StillIn(sh, res, r, p) && !StillIn(sh, res, r + 1, p)
  {
    hide Pow2, Shr, OutcomeAt, Index, TargetOf, DistinctSeats;
    RowDoubles(sh.k, r);
    ShrBound(p, r + 1, sh.k);
    var (q, other) := if OutcomeAt(sh, res, r, i) == Some(WinA) then (2 * i + 1, 2 * i) else (2 * i, 2 * i + 1);
    assert Arrives(sh, res, r + 1, i) == Arrives(sh, res, r, other);
    hide Arrives;
    SeatOf(sh, res, r, q, p);
    ShrHalves(p, r);
    if StillIn(sh, res, r + 1, p) {
      SeatOf(sh, res, r, other, p);
    }
  }

  /** Someone in at round `r` but not at `r + 1` lost the round-`r` match of their block. */
  lemma {:induction false} OutLostMatch(sh: Sheet, res: map<int, Outcome>, r: nat, p: nat)
    requires SheetShape(sh) && r < sh.k && p < Pow2(sh.k)
    requires StillIn(sh, res, r, p) && !StillIn(sh, res, r + 1, p)
    requires Shr(p, r + 1) < Pow2(sh.k - r - 1) && Arrives(sh, res, r + 1, Shr(p, r + 1)).Some?
    ensures MatchLoser(MatchOf(sh, res, r, Shr(p, r + 1))) == sh.slots[p]
  {
    hide Pow2, Shr, OutcomeAt, Index, TargetOf;
    var i, q := Shr(p, r + 1), Shr(p, r);
    RowDoubles(sh.k, r);
    ShrHalves(p, r);
    var out := OutcomeAt(sh, res, r, i);
    assert out == Some(WinA) || out == Some(WinB);
    assert Arrives(sh, res, r + 1, i) == Arrives(sh, res, r, if out == Some(WinA) then 2 * i else 2 * i + 1);
    hide Arrives;
  }

  /** The last round that seat `p` takes part in, looking no further than `r`; `k` means champion. */
  function ExitRound(sh: Sheet, res: map<int, Outcome>, p: nat, r: nat): (x: nat)
    requires SheetShape(sh) && p < Pow2(sh.k) && r <= sh.k
    ensures x <= r && StillIn(sh, res, x, p)
    ensures forall s :: x < s <= r ==> !StillIn(sh, res, s, p)
  {
    if r == 0 || StillIn(sh, res, r, p) then r else ExitRound(sh, res, p, r - 1)
  }

  /** With a champion, everybody else lost the match of their exit round. */
  lemma {:induction false} ExitIsLoss(sh: Sheet, res: map<int, Outcome>, p: nat)
    requires SheetShape(sh) && Accepted(sh, res) && Champion(sh, res).Some?
    requires p < Pow2(sh.k) && !StillIn(sh, res, sh.k, p)
    ensures var x := ExitRound(sh, res, p, sh.k);
      && x < sh.k && Shr(p, x + 1) < Pow2(sh.k - x - 1)
      && MatchLoser(MatchOf(sh, res, x, Shr(p, x + 1))) == sh.slots[p]
  {
    hide Pow2, Shr, Arrives, ExitRound, StillIn, MatchOf, Accepted, Champion;
    var x := ExitRound(sh, res, p, sh.k);
    ShrBound(p, x + 1, sh.k);
    ChampionFillsAll(sh, res, x + 1, Shr(p, x + 1));
    OutLostMatch(sh, res, x, p);
  }

  /** Nobody loses twice: any match that seat `p` lost is the one of its exit round. */
  lemma {:induction false} LossIsExit(sh: Sheet, res: map<int, Outcome>, r: nat, i: nat, p: nat)
    requires SheetShape(sh) && DistinctSeats(sh) && r < sh.k && i < Pow2(sh.k - r - 1) && p < Pow2(sh.k)
    requires sh.slots[p].Some? && MatchLoser(MatchOf(sh, res, r, i)).Some?
    requires MatchLoser(MatchOf(sh, res, r, i)).value.id == sh.slots[p].value.id
    ensures r == ExitRound(sh, res, p, sh.k) && i == Shr(p, r + 1)
    ensures !StillIn(sh, res, sh.k, p)
  {
    hide Arrives, Pow2, Shr, StillIn, ExitRound, MatchOf, DistinctSeats;
    LoserGoesOut(sh, res, r, i, p);
    var x := ExitRound(sh, res, p, sh.k);
    if x > r {
      StillInBefore(sh, res, x, r + 1, p);
    }
  }

  // ---------- top seeds meet late ----------

  /** The two sides of a round-`r` match started in the same block of `2^(r+1)` slots. */
  lemma {:induction false} SidesShareBlock(sh: Sheet, res: map<int, Outcome>, r: nat, i: nat, p1: nat, p2: nat)
    requires SheetShape(sh) && DistinctSeats(sh) && r < sh.k && i < Pow2(sh.k - r - 1)
    requires p1 < Pow2(sh.k) && p2 < Pow2(sh.k) && sh.slots[p1].Some? && sh.slots[p2].Some?
    requires Arrives(sh, res, r, 2 * i) == sh.slots[p1] && Arrives(sh, res, r, 2 * i + 1) == sh.slots[p2]
    ensures Shr(p1, r + 1) == Shr(p2, r + 1)
  {
    hide Arrives, Pow2, Shr, StillIn, DistinctSeats;
    RowDoubles(sh.k, r);
    SeatOf(sh, res, r, 2 * i, p1);
    SeatOf(sh, res, r, 2 * i + 1, p2);
    ShrHalves(p1, r);
    ShrHalves(p2, r);
  }

  /** Two of the top `2^j` seeds never meet before the last `j` rounds, whatever the results. */
  lemma {:induction false} TopSeedsMeetLate(es: seq<Entrant>, res: map<int, Outcome>, j: nat, q1: nat, q2: nat, r: nat,
      i: nat)
    requires DistinctIds(es)
    requires var k := SheetOf(es).k; j <= k && r < k && i < Pow2(k - r - 1)
    requires q1 < Pow2(j) && q2 < Pow2(j) && q1 != q2 && q1 < |es| && q2 < |es|
    requires MatchOf(SheetOf(es), res, r, i).a == Some(BySeed(es)[q1])
    requires MatchOf(SheetOf(es), res, r, i).b == Some(BySeed(es)[q2])
    ensures r >= SheetOf(es).k - j
  {
    var sh := SheetOf(es);
    hide Arrives, SheetOf, Pow2, Shr, Reverse, OutcomeAt, Index, TargetOf, BySeed, DistinctIds;
    FieldSeats(es);
    SeatOfRank(es, q1);
    SeatOfRank(es, q2);
    SidesShareBlock(sh, res, r, i, Reverse(sh.k, q1), Reverse(sh.k, q2));
    if r + 1 <= sh.k - j {
      ShrMerge(Reverse(sh.k, q1), Reverse(sh.k, q2), r + 1, sh.k - j);
      TopSeedsSpread(sh.k, j, q1, q2);
    }
  }
}
