/** Greedy Swiss pairing: web/src/lib/engine/swiss.ts. */
module Swiss {
  import opened Wrappers
  import opened EngineTypes
  import opened Sorting

  datatype SwissEntry = SwissEntry(entrant: Entrant, wins: nat, draws: nat, losses: nat, played: set<int>)

  datatype SwissPair = SwissPair(id: int, a: Entrant, b: Entrant)

  function Score(e: SwissEntry): real {
    e.wins as real + 0.5 * e.draws as real
  }

  /** Score descending, then seed ascending, then id ascending. */
  predicate Ahead(x: SwissEntry, y: SwissEntry) {
    || Score(x) > Score(y)
    || (Score(x) == Score(y) &&
        (x.entrant.seed < y.entrant.seed ||
         (x.entrant.seed == y.entrant.seed && x.entrant.id <= y.entrant.id)))
  }

  function AheadAt(entries: seq<SwissEntry>): (int, int) -> bool {
    (i, j) =>
      if 0 <= i < |entries| && 0 <= j < |entries| then Ahead(entries[i], entries[j])
      else (0 <= i < |entries|) || !(0 <= j < |entries|)
  }

  function Indices(n: nat): (s: seq<int>)
    ensures |s| == n && forall i :: 0 <= i < n ==> s[i] == i
  {
    if n == 0 then [] else Indices(n - 1) + [n - 1]
  }

  function PairingOrder(entries: seq<SwissEntry>): seq<int> {
    SortBy(Indices(|entries|), AheadAt(entries))
  }

  predicate IndexOrder(idx: seq<int>, n: nat) {
    forall u :: 0 <= u < |idx| ==> 0 <= idx[u] < n
  }

  ghost predicate Covers(idx: seq<int>, n: nat) {
    forall x :: 0 <= x < n ==> x in idx
  }

  /** Everybody is in the pairing order, exactly once. */
  lemma {:induction false} PairingOrderIsPermutation(entries: seq<SwissEntry>)
    ensures var idx := PairingOrder(entries);
      NoDup(idx) && IndexOrder(idx, |entries|) && Covers(idx, |entries|)
  {
    var s, idx := Indices(|entries|), PairingOrder(entries);
    PermutationNoDup(s, idx);
    SameElements(s, idx);
    hide PairingOrder;
    forall x | 0 <= x < |entries| ensures x in idx { assert s[x] == x; }
    forall u | 0 <= u < |idx| ensures 0 <= idx[u] < |entries| { assert idx[u] in s; }
  }

  /** Two points for a win and one for a draw. */
  function Points(e: SwissEntry): nat {
    2 * e.wins + e.draws
  }

  lemma {:induction false} ScoreIsPoints(x: SwissEntry, y: SwissEntry)
    ensures Score(x) > Score(y) <==> Points(x) > Points(y)
    ensures Score(x) == Score(y) <==> Points(x) == Points(y)
  {
  }

  ghost predicate Ranking(idx: seq<int>, entries: seq<SwissEntry>) {
    forall u, v :: 0 <= u < v < |idx| ==>
      0 <= idx[u] < |entries| && 0 <= idx[v] < |entries| && Ahead(entries[idx[u]], entries[idx[v]])
  }

  lemma {:induction false} AheadOrders(x: SwissEntry, y: SwissEntry, z: SwissEntry)
    ensures Ahead(x, y) || Ahead(y, x)
    ensures Ahead(x, y) && Ahead(y, z) ==> Ahead(x, z)
  {
    hide Score;
  }

  lemma {:induction false} AheadAtOrders(entries: seq<SwissEntry>)
    ensures TotalPreorder(AheadAt(entries))
  {
    hide Ahead;
    var le := AheadAt(entries);
    forall i, j ensures le(i, j) || le(j, i) {
      if 0 <= i < |entries| && 0 <= j < |entries| { AheadOrders(entries[i], entries[j], entries[j]); }
    }
    forall i, j, k | le(i, j) && le(j, k) ensures le(i, k) {
      if 0 <= i < |entries| && 0 <= j < |entries| && 0 <= k < |entries| {
        AheadOrders(entries[i], entries[j], entries[k]);
      }
    }
  }

  /** Whoever stands earlier in the pairing order is ahead. */
  lemma {:induction false} PairingOrderIsRanking(entries: seq<SwissEntry>)
    ensures Ranking(PairingOrder(entries), entries)
  {
    hide TotalPreorder, Ahead, SortBy;
    var idx := PairingOrder(entries);
    AheadAtOrders(entries);
    SortSorted(Indices(|entries|), AheadAt(entries));
    PairingOrderIsPermutation(entries);
    hide PairingOrder, NoDup;
    forall u, v | 0 <= u < v < |idx|
      ensures 0 <= idx[u] < |entries| && 0 <= idx[v] < |entries| && Ahead(entries[idx[u]], entries[idx[v]])
    {
      assert AheadAt(entries)(idx[u], idx[v]);
    }
  }

  /** Whoever stands earlier has more points; with equal points the better seed; with equal seeds the smaller id. */
  lemma {:induction false} PairingOrderIsByPoints(entries: seq<SwissEntry>, u: nat, v: nat)
    requires u < v < |PairingOrder(entries)| && IndexOrder(PairingOrder(entries), |entries|)
    ensures var x, y := entries[PairingOrder(entries)[u]], entries[PairingOrder(entries)[v]];
      && Points(x) >= Points(y)
      && (Points(x) == Points(y) ==> x.entrant.seed <= y.entrant.seed)
      && (Points(x) == Points(y) && x.entrant.seed == y.entrant.seed ==> x.entrant.id <= y.entrant.id)
  {
    var idx := PairingOrder(entries);
    PairingOrderIsRanking(entries);
    hide PairingOrder, Score, Points;
    assert Ahead(entries[idx[u]], entries[idx[v]]);
    ScoreIsPoints(entries[idx[u]], entries[idx[v]]);
    ScoreIsPoints(entries[idx[v]], entries[idx[u]]);
  }

  // ---------- one round, as a function ----------

  /** The first entry from position `v` on that is free and has not met entry `i`. */
  function FirstOpponent(entries: seq<SwissEntry>, idx: seq<int>, taken: set<int>, i: int, v: nat): (r: Option<int>)
    requires IndexOrder(idx, |entries|) && 0 <= i < |entries| && v <= |idx|
    ensures r.Some? ==> r.value in idx && r.value != i && r.value !in taken
                        && entries[r.value].entrant.id !in entries[i].played
    ensures r.None? ==> forall w :: v <= w < |idx| ==>
              idx[w] == i || idx[w] in taken || entries[idx[w]].entrant.id in entries[i].played
    decreases |idx| - v
  {
    if v == |idx| then None
    else if idx[v] == i || idx[v] in taken || entries[idx[v]].entrant.id in entries[i].played
    then FirstOpponent(entries, idx, taken, i, v + 1)
    else Some(idx[v])
  }

  /** Walk the order; pair each free entry with its first possible opponent. */
  function Greedy(entries: seq<SwissEntry>, idx: seq<int>, u: nat, taken: set<int>,
      pairs: seq<(int, int)>): seq<(int, int)>
    requires IndexOrder(idx, |entries|) && u <= |idx|
    decreases |idx| - u
  {
    if u == |idx| then pairs
    else if idx[u] in taken then Greedy(entries, idx, u + 1, taken, pairs)
    else
      match FirstOpponent(entries, idx, taken, idx[u], 0)
      case None => Greedy(entries, idx, u + 1, taken, pairs)
      case Some(j) => Greedy(entries, idx, u + 1, taken + {idx[u], j}, pairs + [(idx[u], j)])
  }

  predicate InPair(p: (int, int), x: int) {
    p.0 == x || p.1 == x
  }

  ghost predicate Paired(pairs: seq<(int, int)>, x: int) {
    exists q :: 0 <= q < |pairs| && InPair(pairs[q], x)
  }

  /** Pairs of distinct entries that had not met, no entry twice. */
  ghost predicate FreshPairs(entries: seq<SwissEntry>, pairs: seq<(int, int)>) {
    && (forall q :: 0 <= q < |pairs| ==>
          && 0 <= pairs[q].0 < |entries| && 0 <= pairs[q].1 < |entries| && pairs[q].0 != pairs[q].1
          && entries[pairs[q].1].entrant.id !in entries[pairs[q].0].played)
    && (forall p, q, x :: 0 <= p < q < |pairs| && InPair(pairs[p], x) ==> !InPair(pairs[q], x))
  }

  /** An entry already passed over is paired, or has met everybody who is still free. */
  ghost predicate Exhausted(entries: seq<SwissEntry>, taken: set<int>, i: int) {
    0 <= i < |entries| &&
    (i in taken ||
     forall x :: 0 <= x < |entries| && x != i && x !in taken ==> entries[x].entrant.id in entries[i].played)
  }

  lemma {:induction false} PairedAppend(pairs: seq<(int, int)>, p: (int, int), x: int)
    ensures Paired(pairs + [p], x) <==> Paired(pairs, x) || InPair(p, x)
  {
    if Paired(pairs, x) {
      var q :| 0 <= q < |pairs| && InPair(pairs[q], x);
      assert InPair((pairs + [p])[q], x);
    }
    if InPair(p, x) { assert InPair((pairs + [p])[|pairs|], x); }
  }

  lemma {:induction false} FreshAppend(entries: seq<SwissEntry>, pairs: seq<(int, int)>, i: int, j: int)
    requires FreshPairs(entries, pairs) && 0 <= i < |entries| && 0 <= j < |entries| && i != j
    requires entries[j].entrant.id !in entries[i].played && !Paired(pairs, i) && !Paired(pairs, j)
    ensures FreshPairs(entries, pairs + [(i, j)])
  {
    var more := pairs + [(i, j)];
    forall p, q, x | 0 <= p < q < |more| && InPair(more[p], x) ensures !InPair(more[q], x) {
      if q == |pairs| { assert Paired(pairs, x); }
    }
  }

  /** What the walk keeps up to position `u` of the order. */
  ghost predicate Walked(entries: seq<SwissEntry>, idx: seq<int>, u: nat, taken: set<int>, pairs: seq<(int, int)>) {
    && u <= |idx| && IndexOrder(idx, |entries|) && Covers(idx, |entries|)
    && FreshPairs(entries, pairs) && (forall x :: x in taken <==> Paired(pairs, x))
    && forall w :: 0 <= w < u ==> Exhausted(entries, taken, idx[w])
  }

  /** Fresh pairs, and any two entries left over have already met. */
  ghost predicate GoodRound(entries: seq<SwissEntry>, pairs: seq<(int, int)>) {
    && FreshPairs(entries, pairs)
    && forall x, y :: 0 <= x < y < |entries| && !Paired(pairs, x) && !Paired(pairs, y) ==>
        entries[y].entrant.id in entries[x].played
  }

  lemma {:induction false} WalkEnds(entries: seq<SwissEntry>, idx: seq<int>, taken: set<int>, pairs: seq<(int, int)>)
    requires Walked(entries, idx, |idx|, taken, pairs)
    ensures GoodRound(entries, pairs)
  {
    forall x, y | 0 <= x < y < |entries| && !Paired(pairs, x) && !Paired(pairs, y)
      ensures entries[y].entrant.id in entries[x].played
    {
      assert x in idx;
      var w :| 0 <= w < |idx| && idx[w] == x;
      assert Exhausted(entries, taken, idx[w]);
    }
  }

  lemma {:induction false} WalkSkips(entries: seq<SwissEntry>, idx: seq<int>, u: nat, taken: set<int>,
      pairs: seq<(int, int)>)
    requires Walked(entries, idx, u, taken, pairs) && u < |idx|
    requires idx[u] in taken || FirstOpponent(entries, idx, taken, idx[u], 0).None?
    ensures Walked(entries, idx, u + 1, taken, pairs)
  {
    var i := idx[u];
    if i !in taken {
      forall x | 0 <= x < |entries| && x != i && x !in taken ensures entries[x].entrant.id in entries[i].played {
        assert x in idx;
        var w :| 0 <= w < |idx| && idx[w] == x;
      }
    }
  }

  lemma {:induction false} WalkPairs(entries: seq<SwissEntry>, idx: seq<int>, u: nat, taken: set<int>,
      pairs: seq<(int, int)>)
    requires Walked(entries, idx, u, taken, pairs) && u < |idx| && idx[u] !in taken
    requires FirstOpponent(entries, idx, taken, idx[u], 0).Some?
    ensures var j := FirstOpponent(entries, idx, taken, idx[u], 0).value;
      Walked(entries, idx, u + 1, taken + {idx[u], j}, pairs + [(idx[u], j)])
  {
    var i, j := idx[u], FirstOpponent(entries, idx, taken, idx[u], 0).value;
    FreshAppend(entries, pairs, i, j);
    forall x ensures x in taken + {i, j} <==> Paired(pairs + [(i, j)], x) {
      PairedAppend(pairs, (i, j), x);
    }
    forall w | 0 <= w < u + 1 ensures Exhausted(entries, taken + {i, j}, idx[w]) {
      if w < u { assert Exhausted(entries, taken, idx[w]); }
    }
  }

  /** The greedy walk pairs only entries that have not met and leaves no two such entries over. */
  lemma {:induction false} GreedyPairs(entries: seq<SwissEntry>, idx: seq<int>, u: nat, taken: set<int>,
      pairs: seq<(int, int)>)
    requires Walked(entries, idx, u, taken, pairs)
    ensures GoodRound(entries, Greedy(entries, idx, u, taken, pairs))
    decreases |idx| - u
  {
    hide FreshPairs, Exhausted, GoodRound, Covers, Paired;
    if u == |idx| {
      WalkEnds(entries, idx, taken, pairs);
    } else if idx[u] in taken || FirstOpponent(entries, idx, taken, idx[u], 0).None? {
      WalkSkips(entries, idx, u, taken, pairs);
      GreedyPairs(entries, idx, u + 1, taken, pairs);
    } else {
      var j := FirstOpponent(entries, idx, taken, idx[u], 0).value;
      WalkPairs(entries, idx, u, taken, pairs);
      GreedyPairs(entries, idx, u + 1, taken + {idx[u], j}, pairs + [(idx[u], j)]);
    }
  }

  // ---------- marking opponents as played ----------

  function Meets(e: SwissEntry, id: int): SwissEntry {
    e.(played := e.played + {id})
  }

  /** `entries` after the given pairs have been entered in both played sets. */
  function MarkPlayed(entries: seq<SwissEntry>, pairs: seq<(int, int)>): (r: seq<SwissEntry>)
    requires forall q :: 0 <= q < |pairs| ==> 0 <= pairs[q].0 < |entries| && 0 <= pairs[q].1 < |entries|
    ensures |r| == |entries|
    ensures forall x :: 0 <= x < |r| ==> r[x].(played := {}) == entries[x].(played := {})
  {
    if pairs == [] then entries
    else
      var (i, j) := pairs[|pairs| - 1];
      var before := MarkPlayed(entries, pairs[..|pairs| - 1]);
      var half := before[i := Meets(before[i], entries[j].entrant.id)];
      half[j := Meets(half[j], entries[i].entrant.id)]
  }

  /** Entry `x` meets the entrant `id` in one of the pairs. */
  ghost predicate MeetsIn(entries: seq<SwissEntry>, pairs: seq<(int, int)>, x: int, id: int) {
    exists q :: 0 <= q < |pairs| && MeetsInPair(entries, pairs[q], x, id)
  }

  predicate MeetsInPair(entries: seq<SwissEntry>, p: (int, int), x: int, id: int) {
    && 0 <= p.0 < |entries| && 0 <= p.1 < |entries|
    && ((p.0 == x && entries[p.1].entrant.id == id) || (p.1 == x && entries[p.0].entrant.id == id))
  }

  lemma {:induction false} MeetsInLast(entries: seq<SwissEntry>, pairs: seq<(int, int)>, x: int, id: int)
    requires pairs != []
    ensures var n := |pairs| - 1;
      MeetsIn(entries, pairs, x, id) <==> MeetsIn(entries, pairs[..n], x, id) || MeetsInPair(entries, pairs[n], x, id)
  {
    hide MeetsInPair;
    var n := |pairs| - 1;
    if MeetsIn(entries, pairs[..n], x, id) {
      var q :| 0 <= q < n && MeetsInPair(entries, pairs[..n][q], x, id);
      assert MeetsInPair(entries, pairs[q], x, id);
    }
    if MeetsIn(entries, pairs, x, id) && !MeetsInPair(entries, pairs[n], x, id) {
      var q :| 0 <= q < |pairs| && MeetsInPair(entries, pairs[q], x, id);
      assert MeetsInPair(entries, pairs[..n][q], x, id);
    }
  }

  lemma {:induction false} MarkLast(entries: seq<SwissEntry>, pairs: seq<(int, int)>, x: nat, id: int)
    requires forall q :: 0 <= q < |pairs| ==> 0 <= pairs[q].0 < |entries| && 0 <= pairs[q].1 < |entries|
    requires x < |entries| && pairs != []
    ensures var n := |pairs| - 1;
      id in MarkPlayed(entries, pairs)[x].played <==>
        (id in MarkPlayed(entries, pairs[..n])[x].played || MeetsInPair(entries, pairs[n], x, id))
  {
  }

  /** Exactly the opponents of this round are added to the played sets. */
  lemma {:induction false} MarkPlayedExactly(entries: seq<SwissEntry>, pairs: seq<(int, int)>, x: nat, id: int)
    requires forall q :: 0 <= q < |pairs| ==> 0 <= pairs[q].0 < |entries| && 0 <= pairs[q].1 < |entries|
    requires x < |entries|
    ensures id in MarkPlayed(entries, pairs)[x].played <==> id in entries[x].played || MeetsIn(entries, pairs, x, id)
    decreases |pairs|
  {
    if pairs != [] {
      hide MarkPlayed, MeetsIn, MeetsInPair;
      MarkPlayedExactly(entries, pairs[..|pairs| - 1], x, id);
      MarkLast(entries, pairs, x, id);
      MeetsInLast(entries, pairs, x, id);
    }
  }

  lemma {:induction false} UnpairedUnchanged(entries: seq<SwissEntry>, pairs: seq<(int, int)>, x: nat)
    requires forall q :: 0 <= q < |pairs| ==> 0 <= pairs[q].0 < |entries| && 0 <= pairs[q].1 < |entries|
    requires x < |entries| && !Paired(pairs, x)
    ensures MarkPlayed(entries, pairs)[x] == entries[x]
    decreases |pairs|
  {
    if pairs != [] {
      var n := |pairs| - 1;
      assert !InPair(pairs[n], x);
      forall q | 0 <= q < n ensures !InPair(pairs[..n][q], x) {
        assert !InPair(pairs[q], x);
      }
      UnpairedUnchanged(entries, pairs[..n], x);
    }
  }

  // ---------- the implementation ----------

  method FindOpponent(entries: seq<SwissEntry>, idx: seq<int>, paired: seq<bool>, i: int, ghost taken: set<int>)
    returns (chosen: Option<int>)
    requires IndexOrder(idx, |entries|) && |paired| == |entries| && 0 <= i < |entries|
    requires forall x :: 0 <= x < |entries| ==> (paired[x] <==> x in taken)
    ensures chosen == FirstOpponent(entries, idx, taken, i, 0)
  {
    var v := 0;
    while v < |idx|
      invariant 0 <= v <= |idx|
      invariant FirstOpponent(entries, idx, taken, i, 0) == FirstOpponent(entries, idx, taken, i, v)
    {
      var j := idx[v];
      if !(j == i || paired[j]) && !(entries[j].entrant.id in entries[i].played) {
        return Some(j);
      }
      v := v + 1;
    }
    chosen := None;
  }

  /** The first opponent does not depend on marks made for entries other than `i`. */
  lemma {:induction false} OpponentStable(entries: seq<SwissEntry>, cur: seq<SwissEntry>, idx: seq<int>,
      taken: set<int>, i: int, v: nat)
    requires IndexOrder(idx, |entries|) && |cur| == |entries| && 0 <= i < |entries| && v <= |idx|
    requires cur[i] == entries[i]
    requires forall x :: 0 <= x < |entries| ==> cur[x].entrant == entries[x].entrant
    ensures FirstOpponent(cur, idx, taken, i, v) == FirstOpponent(entries, idx, taken, i, v)
    decreases |idx| - v
  {
    if v < |idx| { OpponentStable(entries, cur, idx, taken, i, v + 1); }
  }

  ghost predicate ListsPairs(out: seq<SwissPair>, entries: seq<SwissEntry>, pairs: seq<(int, int)>, startId: int) {
    && |out| == |pairs|
    && forall q :: 0 <= q < |pairs| ==>
        && 0 <= pairs[q].0 < |entries| && 0 <= pairs[q].1 < |entries|
        && out[q] == SwissPair(startId + q, entries[pairs[q].0].entrant, entries[pairs[q].1].entrant)
  }

  function RoundPairs(entries: seq<SwissEntry>): seq<(int, int)>
    requires IndexOrder(PairingOrder(entries), |entries|)
  {
    Greedy(entries, PairingOrder(entries), 0, {}, [])
  }

  lemma {:induction false} NothingMarked(entries: seq<SwissEntry>)
    ensures MarkPlayed(entries, []) == entries
    ensures forall x :: !Paired([], x)
  {
  }

  /** Entering one more pair, in the list and in both played sets. */
  lemma {:induction false} PairStep(entries: seq<SwissEntry>, pairs: seq<(int, int)>, out: seq<SwissPair>, startId: int,
      i: int, j: int, taken: set<int>)
    requires ListsPairs(out, entries, pairs, startId) && 0 <= i < |entries| && 0 <= j < |entries|
    requires forall x :: x in taken <==> Paired(pairs, x)
    ensures ListsPairs(out + [SwissPair(startId + |out|, entries[i].entrant, entries[j].entrant)],
                       entries, pairs + [(i, j)], startId)
    ensures var cur := MarkPlayed(entries, pairs);
      var half := cur[i := Meets(cur[i], entries[j].entrant.id)];
      MarkPlayed(entries, pairs + [(i, j)]) == half[j := Meets(half[j], entries[i].entrant.id)]
    ensures forall x :: x in taken + {i, j} <==> Paired(pairs + [(i, j)], x)
  {
    assert (pairs + [(i, j)])[..|pairs|] == pairs;
    forall x ensures x in taken + {i, j} <==> Paired(pairs + [(i, j)], x) {
      PairedAppend(pairs, (i, j), x);
    }
  }

  /** The pairing of a round: who meets whom, and the played sets afterwards. */
  method PairSwissRound(entries: seq<SwissEntry>, startId: int)
    returns (out: seq<SwissPair>, entries': seq<SwissEntry>)
    ensures IndexOrder(PairingOrder(entries), |entries|)
    ensures ListsPairs(out, entries, RoundPairs(entries), startId)
    ensures entries' == MarkPlayed(entries, RoundPairs(entries))
  {
    var idx := PairingOrder(entries);
    PairingOrderIsPermutation(entries);
    hide PairingOrder, SortBy, MarkPlayed, Paired, NoDup, Covers;
    var paired := seq(|entries|, _ => false);
    out, entries' := [], entries;
    ghost var pairs: seq<(int, int)> := [];
    NothingMarked(entries);
    ghost var taken: set<int> := {};
    var u := 0;
    while u < |idx|
      invariant 0 <= u <= |idx| && |paired| == |entries|
      invariant forall x :: 0 <= x < |entries| ==> (paired[x] <==> x in taken)
      invariant forall x :: x in taken <==> Paired(pairs, x)
      invariant ListsPairs(out, entries, pairs, startId)
      invariant entries' == MarkPlayed(entries, pairs)
      invariant Greedy(entries, idx, u, taken, pairs) == RoundPairs(entries)
    {
      var i := idx[u];
      if !paired[i] {
        UnpairedUnchanged(entries, pairs, i);
        OpponentStable(entries, entries', idx, taken, i, 0);
        var chosen := FindOpponent(entries', idx, paired, i, taken);
        if chosen.Some? {
          var j := chosen.value;
          PairStep(entries, pairs, out, startId, i, j, taken);
          paired := paired[i := true][j := true];
          var a, b := entries'[i].entrant, entries'[j].entrant;
          entries' := entries'[i := Meets(entries'[i], b.id)];
          entries' := entries'[j := Meets(entries'[j], a.id)];
          out := out + [SwissPair(startId + |out|, a, b)];
          taken, pairs := taken + {i, j}, pairs + [(i, j)];
        }
      }
      u := u + 1;
    }
  }

  /** What a round's pairing promises: fresh pairs, and everybody left over has met. */
  lemma {:induction false} RoundPairsAreGood(entries: seq<SwissEntry>)
    ensures IndexOrder(PairingOrder(entries), |entries|) && GoodRound(entries, RoundPairs(entries))
  {
    PairingOrderIsPermutation(entries);
    var idx := PairingOrder(entries);
    hide PairingOrder, SortBy, NoDup;
    assert Walked(entries, idx, 0, {}, []) by { NothingMarked(entries); }
    GreedyPairs(entries, idx, 0, {}, []);
  }

  // ---------- whom the walk chooses ----------

  /** Entry `i` cannot be paired with entry `x`: the same entry, already paired, or already met. */
  ghost predicate Barred(entries: seq<SwissEntry>, pairs: seq<(int, int)>, i: int, x: int) {
    && 0 <= i < |entries| && 0 <= x < |entries|
    && (x == i || Paired(pairs, x) || entries[x].entrant.id in entries[i].played)
  }

  /** `pick` was made from position `u` for position `w`: everyone in front of `w` was barred. */
  ghost predicate ChosenAt(entries: seq<SwissEntry>, idx: seq<int>, before: seq<(int, int)>, pick: (int, int), u: int,
      w: int) {
    && 0 <= u < |idx| && 0 <= w < |idx| && pick == (idx[u], idx[w])
    && forall v :: 0 <= v < w ==> Barred(entries, before, idx[u], idx[v])
  }

  ghost predicate Chosen(entries: seq<SwissEntry>, idx: seq<int>, pairs: seq<(int, int)>, q: int) {
    0 <= q < |pairs| && exists u, w :: ChosenAt(entries, idx, pairs[..q], pairs[q], u, w)
  }

  ghost predicate AllChosen(entries: seq<SwissEntry>, idx: seq<int>, pairs: seq<(int, int)>) {
    forall q :: 0 <= q < |pairs| ==> Chosen(entries, idx, pairs, q)
  }

  /** The first opponent stands where everyone in front is barred. */
  lemma {:induction false} FirstIsFirst(entries: seq<SwissEntry>, idx: seq<int>, taken: set<int>, i: int, v: nat)
    returns (w: nat)
    requires IndexOrder(idx, |entries|) && 0 <= i < |entries| && v <= |idx|
    requires FirstOpponent(entries, idx, taken, i, v).Some?
    ensures v <= w < |idx| && idx[w] == FirstOpponent(entries, idx, taken, i, v).value
    ensures forall x :: v <= x < w ==> idx[x] == i || idx[x] in taken || entries[idx[x]].entrant.id in entries[i].played
    decreases |idx| - v
  {
    if idx[v] == i || idx[v] in taken || entries[idx[v]].entrant.id in entries[i].played {
      w := FirstIsFirst(entries, idx, taken, i, v + 1);
    } else {
      w := v;
    }
  }

  lemma {:induction false} ChosenAppend(entries: seq<SwissEntry>, idx: seq<int>, pairs: seq<(int, int)>, p: (int, int))
    requires AllChosen(entries, idx, pairs)
    requires exists u, w :: ChosenAt(entries, idx, pairs, p, u, w)
    ensures AllChosen(entries, idx, pairs + [p])
  {
    hide ChosenAt;
    var more := pairs + [p];
    forall q | 0 <= q < |more| ensures Chosen(entries, idx, more, q) {
      if q < |pairs| {
        assert Chosen(entries, idx, pairs, q) && more[..q] == pairs[..q] && more[q] == pairs[q];
      } else {
        assert more[..q] == pairs && more[q] == p;
      }
    }
  }

  lemma {:induction false} GreedyChooses(entries: seq<SwissEntry>, idx: seq<int>, u: nat, taken: set<int>,
      pairs: seq<(int, int)>)
    requires Walked(entries, idx, u, taken, pairs) && AllChosen(entries, idx, pairs)
    ensures AllChosen(entries, idx, Greedy(entries, idx, u, taken, pairs))
    decreases |idx| - u
  {
    hide FreshPairs, Exhausted, Covers, Paired, AllChosen;
    if u < |idx| {
      if idx[u] in taken || FirstOpponent(entries, idx, taken, idx[u], 0).None? {
        WalkSkips(entries, idx, u, taken, pairs);
        GreedyChooses(entries, idx, u + 1, taken, pairs);
      } else {
        var j := FirstOpponent(entries, idx, taken, idx[u], 0).value;
        var w := FirstIsFirst(entries, idx, taken, idx[u], 0);
        assert ChosenAt(entries, idx, pairs, (idx[u], j), u, w);
        ChosenAppend(entries, idx, pairs, (idx[u], j));
        WalkPairs(entries, idx, u, taken, pairs);
        hide FirstOpponent, ChosenAt;
        GreedyChooses(entries, idx, u + 1, taken + {idx[u], j}, pairs + [(idx[u], j)]);
      }
    }
  }

  /** No two entries have the same entrant id. */
  ghost predicate DistinctEntries(entries: seq<SwissEntry>) {
    forall x, y :: 0 <= x < y < |entries| ==> entries[x].entrant.id != entries[y].entrant.id
  }

  /** Every entry ranked above the opponent of pair `q` was barred when the pair was made. */
  ghost predicate BestFree(entries: seq<SwissEntry>, pairs: seq<(int, int)>, q: int) {
    && 0 <= q < |pairs| && 0 <= pairs[q].0 < |entries| && 0 <= pairs[q].1 < |entries|
    && forall x :: 0 <= x < |entries| && x != pairs[q].1 && Ahead(entries[x], entries[pairs[q].1]) ==>
        Barred(entries, pairs[..q], pairs[q].0, x)
  }

  lemma {:induction false} NeverBothAhead(entries: seq<SwissEntry>, x: nat, y: nat)
    requires DistinctEntries(entries) && x < |entries| && y < |entries| && x != y && Ahead(entries[x], entries[y])
    ensures !Ahead(entries[y], entries[x])
  {
    assert entries[x].entrant.id != entries[y].entrant.id by {
      if x < y { assert entries[x].entrant.id != entries[y].entrant.id; }
    }
  }

  lemma {:induction false} RankedPosition(entries: seq<SwissEntry>, x: nat, w: nat) returns (v: nat)
    requires DistinctEntries(entries) && x < |entries| && w < |PairingOrder(entries)|
    requires 0 <= PairingOrder(entries)[w] < |entries| && PairingOrder(entries)[w] != x
    requires Ahead(entries[x], entries[PairingOrder(entries)[w]])
    ensures v < w && PairingOrder(entries)[v] == x
  {
    var idx := PairingOrder(entries);
    PairingOrderIsPermutation(entries);
    PairingOrderIsRanking(entries);
    NeverBothAhead(entries, x, idx[w]);
    hide PairingOrder, NoDup, Ahead, DistinctEntries;
    assert x in idx;
    v :| 0 <= v < |idx| && idx[v] == x;
  }

  /** Each pair of a round holds the best-ranked opponent that is still free and not yet met. */
  lemma {:induction false} PairsAreBestFree(entries: seq<SwissEntry>, q: nat)
    requires DistinctEntries(entries) && IndexOrder(PairingOrder(entries), |entries|) && q < |RoundPairs(entries)|
    ensures BestFree(entries, RoundPairs(entries), q)
  {
    var idx, pairs := PairingOrder(entries), RoundPairs(entries);
    PairingOrderIsPermutation(entries);
    assert Walked(entries, idx, 0, {}, []) by { hide PairingOrder; NothingMarked(entries); }
    GreedyChooses(entries, idx, 0, {}, []);
    assert Chosen(entries, idx, pairs, q);
    hide PairingOrder, RoundPairs, NoDup, Ahead, Barred;
    var u, w :| ChosenAt(entries, idx, pairs[..q], pairs[q], u, w);
    forall x | 0 <= x < |entries| && x != pairs[q].1 && Ahead(entries[x], entries[pairs[q].1])
      ensures Barred(entries, pairs[..q], pairs[q].0, x)
    {
      var v := RankedPosition(entries, x, w);
    }
  }
}
