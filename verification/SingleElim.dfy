/** Building the bracket: web/src/lib/engine/singleElim.ts. */
module SingleElim {
  import opened Wrappers
  import opened EngineTypes
  import opened Seeding
  import opened Bracket

  /** Slot contents once the first `rank` seeds have been placed. */
  function PlacedSoFar(k: nat, ordered: seq<Entrant>, rank: nat, p: nat): Option<Entrant> {
    if Reverse(k, p) < rank then Placed(k, ordered, p) else None
  }

  lemma {:induction false} PlaceOne(k: nat, rank: nat, p: nat)
    requires rank < Pow2(k) && p < Pow2(k)
    ensures Reverse(k, p) == rank <==> p == Reverse(k, rank)
  {
    ReverseInvolution(k, rank);
    ReverseInvolution(k, p);
  }

  /** `slotEntrant[slots[rank]] = ordered[rank]` for every rank that exists. */
  method PlaceSeeds(ordered: seq<Entrant>, slots: seq<nat>, ghost k: nat) returns (placed: seq<Option<Entrant>>)
    requires |slots| == Pow2(k) && forall s :: 0 <= s < |slots| ==> slots[s] == Reverse(k, s)
    ensures |placed| == |slots| && forall p :: 0 <= p < |slots| ==> placed[p] == Placed(k, ordered, p)
  {
    var slotEntrant := new Option<Entrant>[|slots|](_ => None);
    var rank := 0;
    while rank < |slots|
      invariant 0 <= rank <= |slots|
      invariant forall p :: 0 <= p < |slots| ==> slotEntrant[p] == PlacedSoFar(k, ordered, rank, p)
    {
      forall p | 0 <= p < |slots| ensures Reverse(k, p) == rank <==> p == slots[rank] {
        PlaceOne(k, rank, p);
      }
      if rank < |ordered| {
        slotEntrant[slots[rank]] := Some(ordered[rank]);
      }
      rank := rank + 1;
    }
    placed := slotEntrant[..];
  }

  /** The ids of one round are consecutive. */
  method AllocateRow(rounds: nat, r: nat, m: nat, startId: int, firstId: int) returns (row: seq<int>, nextId: int)
    requires r < rounds && firstId == startId + Index(rounds, r, 0)
    ensures |row| == m && nextId == firstId + m
    ensures forall i :: 0 <= i < m ==> row[i] == startId + Index(rounds, r, i)
  {
    hide Pow2, Index;
    row, nextId := [], firstId;
    IndexMeans(rounds, r, 0);
    while |row| < m
      invariant |row| <= m && nextId == firstId + |row|
      invariant forall i :: 0 <= i < |row| ==> row[i] == startId + Index(rounds, r, i)
    {
      IndexMeans(rounds, r, |row|);
      row := row + [nextId];
      nextId := nextId + 1;
    }
  }

  /** Ids are handed out round by round, in slot order. */
  method AllocateIds(bracket: nat, rounds: nat, startId: int) returns (ids: seq<seq<int>>)
    requires rounds >= 1 && bracket == Pow2(rounds)
    ensures |ids| == rounds
    ensures forall r :: 0 <= r < rounds ==> |ids[r]| == Pow2(rounds - r - 1)
    ensures forall r, i :: 0 <= r < rounds && 0 <= i < |ids[r]| ==> ids[r][i] == startId + Index(rounds, r, i)
  {
    hide Pow2, Index, Shr;
    ids := [];
    var nextId := startId;
    var r := 0;
    while r < rounds
      invariant 0 <= r <= rounds && |ids| == r
      invariant nextId == startId + Pow2(rounds) - Pow2(rounds - r)
      invariant forall s :: 0 <= s < r ==> |ids[s]| == Pow2(rounds - s - 1)
      invariant forall s, i :: 0 <= s < r && 0 <= i < |ids[s]| ==> ids[s][i] == startId + Index(rounds, s, i)
    {
      var m := Shr(bracket, r + 1);
      ShrOfPow2(rounds, r + 1);
      RowDoubles(rounds, r);
      IndexMeans(rounds, r, 0);
      var row;
      row, nextId := AllocateRow(rounds, r, m, startId, nextId);
      ids := ids + [row];
      r := r + 1;
    }
  }

  lemma {:induction false} BlankAt(sh: Sheet, startId: int, r: nat, i: nat)
    requires SheetShape(sh) && r < sh.k && i < Pow2(sh.k - r - 1)
    ensures var m := BlankMatch(sh, startId, Index(sh.k, r, i));
      && m.id == startId + Index(sh.k, r, i) && m.round == r && m.slot == i && m.outcome == None
      && m.a == (if r == 0 then sh.slots[2 * i] else None)
      && m.b == (if r == 0 then sh.slots[2 * i + 1] else None)
      && m.winnerTo == TargetOf(sh.k, r, i, startId)
  {
    LocateIndex(sh.k, r, i);
  }

  /** One row per match: sides from the slots in round 0, and a pointer to the next round. */
  method LayOut(ghost sh: Sheet, bracket: nat, rounds: nat, slotEntrant: seq<Option<Entrant>>, ids: seq<seq<int>>,
      ghost startId: int)
    returns (matches: seq<BracketMatch>)
    requires SheetShape(sh) && rounds == sh.k && bracket == Pow2(sh.k) && slotEntrant == sh.slots
    requires |ids| == rounds && forall r :: 0 <= r < rounds ==> |ids[r]| == Pow2(rounds - r - 1)
    requires forall r, i :: 0 <= r < rounds && 0 <= i < |ids[r]| ==> ids[r][i] == startId + Index(rounds, r, i)
    ensures |matches| == Pow2(sh.k) - 1
    ensures forall j :: 0 <= j < |matches| ==> matches[j] == BlankMatch(sh, startId, j)
  {
    hide BlankMatch, Locate, Pow2, Index, Shr;
    matches := [];
    var r := 0;
    while r < rounds
      invariant 0 <= r <= rounds
      invariant |matches| == Pow2(rounds) - Pow2(rounds - r)
      invariant forall j :: 0 <= j < |matches| ==> matches[j] == BlankMatch(sh, startId, j)
    {
      var mCount := Shr(bracket, r + 1);
      ShrOfPow2(rounds, r + 1);
      RowDoubles(rounds, r);
      if r + 1 < rounds { RowDoubles(rounds, r + 1); }
      IndexMeans(rounds, r, 0);
      IndexMeans(rounds, r, mCount);
      var mIdx := 0;
      while mIdx < mCount
        invariant 0 <= mIdx <= mCount
        invariant |matches| == Index(rounds, r, mIdx)
        invariant forall j :: 0 <= j < |matches| ==> matches[j] == BlankMatch(sh, startId, j)
      {
        var a, b := None, None;
        if r == 0 {
          a, b := slotEntrant[mIdx * 2], slotEntrant[mIdx * 2 + 1];
        }
        var winnerTo := None;
        if r + 1 < rounds {
          winnerTo := Some(Target(ids[r + 1][mIdx / 2], if mIdx % 2 == 0 then SideA else SideB));
        }
        BlankAt(sh, startId, r, mIdx);
        IndexMeans(rounds, r, mIdx);
        IndexMeans(rounds, r, mIdx + 1);
        matches := matches + [BracketMatch(ids[r][mIdx], r, mIdx, a, b, None, winnerTo)];
        mIdx := mIdx + 1;
      }
      r := r + 1;
    }
    Pow2Zero();
  }

  /** The whole construction: exactly the blank bracket of the field's seeded sheet. */
  method BuildSingleElim(entrants: seq<Entrant>, startId: int) returns (matches: seq<BracketMatch>, rounds: nat)
    ensures rounds == SheetOf(entrants).k
    ensures |matches| == Pow2(rounds) - 1
    ensures forall j :: 0 <= j < |matches| ==> matches[j] == BlankMatch(SheetOf(entrants), startId, j)
  {
    ghost var sh := SheetOf(entrants);
    var n := |entrants|;
    var bracket := NextPow2(if n < 2 then 2 else n);
    Log2OfPow2(sh.k);
    rounds := Log2(bracket);
    var ordered := BySeed(entrants);
    var slots := SeedSlots(bracket, sh.k);
    var slotEntrant := PlaceSeeds(ordered, slots, sh.k);
    assert slotEntrant == sh.slots;
    var ids := AllocateIds(bracket, rounds, startId);
    matches := LayOut(sh, bracket, rounds, slotEntrant, ids, startId);
  }

  // ---------- what the placement promises ----------

  lemma {:induction false} SortedField(es: seq<Entrant>)
    ensures |BySeed(es)| == |es|
    ensures forall i, j :: 0 <= i < j < |es| ==> BySeed(es)[i].seed <= BySeed(es)[j].seed
  {
    Sorting.SortSorted(es, SeedLe);
  }

  /** Every first-round match of a field of two or more has its A side filled: none is empty. */
  lemma {:induction false} FieldFillsMatches(es: seq<Entrant>)
    requires |es| >= 2
    ensures NoEmptyMatch(SheetOf(es))
  {
    var sh := SheetOf(es);
    forall i | 0 <= i < Pow2(sh.k - 1) ensures sh.slots[2 * i].Some? {
      assert (2 * i) / 2 == i && (2 * i) % 2 == 0;
      assert Reverse(sh.k, 2 * i) == Reverse(sh.k - 1, i);
    }
  }

  lemma {:induction false} OrderedDistinct(es: seq<Entrant>)
    requires DistinctIds(es)
    ensures DistinctIds(BySeed(es))
  {
    var t := BySeed(es);
    Sorting.PermutationNoDup(es, t);
    Sorting.SameElements(es, t);
    forall i, j | 0 <= i < j < |t| ensures t[i].id != t[j].id {
      assert t[i] in es && t[j] in es;
    }
  }

  lemma {:induction false} OrderedDistinctSeeds(es: seq<Entrant>)
    requires DistinctSeeds(es)
    ensures DistinctSeeds(BySeed(es))
    ensures forall i, j :: 0 <= i < j < |es| ==> BySeed(es)[i].seed < BySeed(es)[j].seed
  {
    var t := BySeed(es);
    Sorting.PermutationNoDup(es, t);
    Sorting.SameElements(es, t);
    forall i, j | 0 <= i < j < |t| ensures t[i].seed != t[j].seed {
      assert t[i] in es && t[j] in es;
    }
    SortedField(es);
  }

  /** Every seat holds an entrant of the field. */
  lemma {:induction false} SeatInField(es: seq<Entrant>, p: nat)
    requires p < |SheetOf(es).slots| && SheetOf(es).slots[p].Some?
    ensures SheetOf(es).slots[p].value in es
  {
    Sorting.SameElements(es, BySeed(es));
    assert SheetOf(es).slots[p].value == BySeed(es)[Reverse(SheetOf(es).k, p)];
  }

  /** The entrant of rank `q` sits in the slot that mirrors `q`. */
  lemma {:induction false} SeatOfRank(es: seq<Entrant>, q: nat)
    requires q < |es|
    ensures var sh := SheetOf(es); Reverse(sh.k, q) < |sh.slots| && sh.slots[Reverse(sh.k, q)] == Some(BySeed(es)[q])
  {
    ReverseInvolution(SheetOf(es).k, q);
  }

  /** Every entrant of the field has a seat. */
  lemma {:induction false} EntrantSeat(es: seq<Entrant>, e: Entrant) returns (p: nat)
    requires e in es
    ensures p < |SheetOf(es).slots| && SheetOf(es).slots[p] == Some(e)
  {
    Sorting.SameElements(es, BySeed(es));
    var q :| 0 <= q < |BySeed(es)| && BySeed(es)[q] == e;
    SeatOfRank(es, q);
    p := Reverse(SheetOf(es).k, q);
  }

  /** Distinct ids stay distinct on the sheet. */
  lemma {:induction false} FieldSeats(es: seq<Entrant>)
    requires DistinctIds(es)
    ensures DistinctSeats(SheetOf(es))
  {
    hide Reverse, Pow2, BySeed, DistinctIds;
    var sh, t := SheetOf(es), BySeed(es);
    OrderedDistinct(es);
    forall p, q | 0 <= p < q < |sh.slots| && sh.slots[p].Some? && sh.slots[q].Some?
      ensures sh.slots[p].value.id != sh.slots[q].value.id
    {
      ReverseInvolution(sh.k, p);
      ReverseInvolution(sh.k, q);
      assert sh.slots[p].value == t[Reverse(sh.k, p)] && sh.slots[q].value == t[Reverse(sh.k, q)];
      IndexOfId(t, Reverse(sh.k, p), Reverse(sh.k, q));
    }
  }
}
