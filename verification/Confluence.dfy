/**
 Replaying results in play order (web/src/app/api/tournament/[id]/finalize/route.ts) and by
 ascending match id (relayer/src/bracket.rs) reaches the same bracket.
 */
module Confluence {
  import opened Wrappers
  import opened EngineTypes
  import opened Seeding
  import opened Sorting
  import opened Bracket

  ghost predicate DistinctRows(rs: seq<ResultRow>) {
    forall i, j :: 0 <= i < j < |rs| ==> rs[i].matchId != rs[j].matchId
  }

  predicate IdLe(x: ResultRow, y: ResultRow) {
    x.matchId <= y.matchId
  }

  function ById(rs: seq<ResultRow>): seq<ResultRow> {
    SortBy(rs, IdLe)
  }

  ghost predicate HasRow(rs: seq<ResultRow>, id: int) {
    exists row :: row in rs && row.matchId == id
  }

  /** `m` is `cur` plus exactly the rows of `rs`. */
  ghost predicate Adds(cur: map<int, Outcome>, rs: seq<ResultRow>, m: map<int, Outcome>) {
    && Extends(cur, m)
    && (forall row :: row in rs ==> row.matchId in m && m[row.matchId] == row.outcome && row.matchId !in cur)
    && (forall id :: id in m ==> id in cur || HasRow(rs, id))
  }

  lemma {:induction false} AddsHead(cur: map<int, Outcome>, rs: seq<ResultRow>, m: map<int, Outcome>)
    requires rs != [] && DistinctRows(rs) && Adds(cur, rs, m)
    ensures Adds(cur[rs[0].matchId := rs[0].outcome], rs[1..], m)
  {
    var next := cur[rs[0].matchId := rs[0].outcome];
    forall id | id in m ensures id in next || HasRow(rs[1..], id) {
      if id !in next {
        var row :| row in rs && row.matchId == id;
        assert row in rs[1..];
      }
    }
  }

  lemma {:induction false} AddsCons(cur: map<int, Outcome>, rs: seq<ResultRow>, m: map<int, Outcome>)
    requires rs != [] && rs[0].matchId !in cur && DistinctRows(rs[1..])
    requires Adds(cur[rs[0].matchId := rs[0].outcome], rs[1..], m)
    ensures DistinctRows(rs) && Adds(cur, rs, m)
  {
    assert rs == [rs[0]] + rs[1..];
    forall j | 0 < j < |rs| ensures rs[j].matchId != rs[0].matchId {
      assert rs[j] in rs[1..];
    }
    forall id | id in m ensures id in cur || HasRow(rs, id) {
      if id == rs[0].matchId {
        assert rs[0] in rs;
      } else if id !in cur {
        var row :| row in rs[1..] && row.matchId == id;
        assert row in rs;
      }
    }
  }

  /** What an accepted replay adds: distinct rows, each exactly once, and nothing else. */
  lemma {:induction false} ReplayAdds(sh: Sheet, cur: map<int, Outcome>, rs: seq<ResultRow>)
    requires SheetShape(sh) && Accepted(sh, cur) && Replay(sh, cur, rs).Some?
    ensures var m := Replay(sh, cur, rs).value;
      Accepted(sh, m) && DistinctRows(rs) && Adds(cur, rs, m)
    decreases |rs|
  {
    hide Adds, DistinctRows;
    if rs == [] {
      EmptyAdds(cur);
    } else {
      AcceptedStep(sh, cur, rs[0].matchId, rs[0].outcome);
      ReplayAdds(sh, cur[rs[0].matchId := rs[0].outcome], rs[1..]);
      AddsCons(cur, rs, Replay(sh, cur, rs).value);
    }
  }

  lemma {:induction false} EmptyAdds(cur: map<int, Outcome>)
    ensures DistinctRows([]) && Adds(cur, [], cur)
  {
  }

  /** The lowest id still to replay is recordable: what feeds it has a smaller id and is in. */
  lemma {:induction false} LowestIsRecordable(sh: Sheet, cur: map<int, Outcome>, rs: seq<ResultRow>,
      m: map<int, Outcome>)
    requires SheetShape(sh) && rs != [] && Accepted(sh, m) && Adds(cur, rs, m)
    requires forall j :: 0 < j < |rs| ==> rs[0].matchId < rs[j].matchId
    ensures Recordable(sh, cur, rs[0].matchId)
  {
    var id := rs[0].matchId;
    assert rs[0] in rs;
    assert BothKnown(sh, m, id);
    forall x | x < id ensures Lookup(cur, x) == Lookup(m, x) {
      assert !HasRow(rs, x);
    }
    SideLocal(sh, cur, m, id, SideA);
    SideLocal(sh, cur, m, id, SideB);
    OutcomeWhenBothKnown(sh, cur, id);
  }

  /** Results in strictly ascending id order are all accepted, whatever order they were played in. */
  lemma {:induction false} ReplayAscending(sh: Sheet, cur: map<int, Outcome>, rs: seq<ResultRow>, m: map<int, Outcome>)
    requires SheetShape(sh) && Accepted(sh, m) && Adds(cur, rs, m)
    requires forall i, j :: 0 <= i < j < |rs| ==> rs[i].matchId < rs[j].matchId
    ensures Replay(sh, cur, rs) == Some(m)
    decreases |rs|
  {
    if rs == [] {
      AddsUnique(cur, rs, m, cur);
    } else {
      assert rs[0] in rs;
      assert BothKnown(sh, m, rs[0].matchId);
      LowestIsRecordable(sh, cur, rs, m);
      AddsHead(cur, rs, m);
      ReplayAscending(sh, cur[rs[0].matchId := rs[0].outcome], rs[1..], m);
    }
  }

  lemma {:induction false} SortedRows(rs: seq<ResultRow>)
    requires DistinctRows(rs)
    ensures DistinctRows(ById(rs))
    ensures forall i, j :: 0 <= i < j < |rs| ==> ById(rs)[i].matchId < ById(rs)[j].matchId
  {
    DistinctTransfers(rs, ById(rs));
    assert TotalPreorder(IdLe);
    SortSorted(rs, IdLe);
  }

  lemma {:induction false} DistinctTransfers(rs: seq<ResultRow>, qs: seq<ResultRow>)
    requires DistinctRows(rs) && multiset(rs) == multiset(qs)
    ensures DistinctRows(qs)
  {
    PermutationNoDup(rs, qs);
    SameElements(rs, qs);
    forall i, j | 0 <= i < j < |qs| ensures qs[i].matchId != qs[j].matchId {
      assert qs[i] in rs && qs[j] in rs;
    }
  }

  lemma {:induction false} AddsTransfers(cur: map<int, Outcome>, rs: seq<ResultRow>, qs: seq<ResultRow>,
      m: map<int, Outcome>)
    requires Adds(cur, rs, m) && multiset(rs) == multiset(qs)
    ensures Adds(cur, qs, m)
  {
    SameElements(rs, qs);
    forall id | id in m ensures id in cur || HasRow(qs, id) {
      if id !in cur {
        var row :| row in rs && row.matchId == id;
        assert row in qs;
      }
    }
  }

  lemma {:induction false} AddsUnique(cur: map<int, Outcome>, rs: seq<ResultRow>, m: map<int, Outcome>,
      n: map<int, Outcome>)
    requires Adds(cur, rs, m) && Adds(cur, rs, n)
    ensures m == n
  {
    forall id | id in m ensures id in n && n[id] == m[id] {
      if id !in cur { assert HasRow(rs, id); }
    }
    forall id | id in n ensures id in m {
      if id !in cur { assert HasRow(rs, id); }
    }
  }

  /**
   Confluence, whatever the order: results the web engine accepts in play order are accepted in
   ascending id order, and any two accepted orders of the same results reach the same set.
   */
  lemma {:induction false} ReplayConfluence(sh: Sheet, rs: seq<ResultRow>)
    requires SheetShape(sh) && Replay(sh, map[], rs).Some?
    ensures Replay(sh, map[], ById(rs)) == Replay(sh, map[], rs)
    ensures forall qs: seq<ResultRow> | multiset(qs) == multiset(rs) && Replay(sh, map[], qs).Some? ::
              Replay(sh, map[], qs) == Replay(sh, map[], rs)
  {
    var m := Replay(sh, map[], rs).value;
    ReplayAdds(sh, map[], rs);
    SortedRows(rs);
    AddsTransfers(map[], rs, ById(rs), m);
    ReplayAscending(sh, map[], ById(rs), m);
    forall qs | multiset(qs) == multiset(rs) && Replay(sh, map[], qs).Some?
      ensures Replay(sh, map[], qs) == Some(m)
    {
      ReplayAdds(sh, map[], qs);
      AddsTransfers(map[], rs, qs, m);
      AddsUnique(map[], qs, m, Replay(sh, map[], qs).value);
    }
  }

  // ---------- exactly which orders the web engine accepts ----------

  /** The two matches feeding match `id` are already decided (by a bye or a recorded result). */
  ghost predicate FeedersDecided(sh: Sheet, res: map<int, Outcome>, id: int)
    requires SheetShape(sh)
  {
    1 <= id < Pow2(sh.k) &&
    var (r, i) := Locate(sh.k, id - 1);
    r == 0 || (OutcomeAt(sh, res, r - 1, 2 * i).Some? && OutcomeAt(sh, res, r - 1, 2 * i + 1).Some?)
  }

  /** Every result comes after the results of the two matches that feed it. */
  ghost predicate FeedersFirst(sh: Sheet, cur: map<int, Outcome>, rs: seq<ResultRow>)
    requires SheetShape(sh)
    decreases |rs|
  {
    rs == [] ||
    (FeedersDecided(sh, cur, rs[0].matchId) &&
     FeedersFirst(sh, cur[rs[0].matchId := rs[0].outcome], rs[1..]))
  }

  lemma {:induction false} OutcomeKept(sh: Sheet, cur: map<int, Outcome>, m: map<int, Outcome>, r: nat, i: nat)
    requires SheetShape(sh) && r < sh.k && i < Pow2(sh.k - r - 1) && Extends(cur, m) && OutcomeAt(sh, cur, r, i).Some?
    ensures OutcomeAt(sh, m, r, i) == OutcomeAt(sh, cur, r, i)
  {
    hide Pow2, Index;
  }

  lemma {:induction false} KnownFeeder(sh: Sheet, cur: map<int, Outcome>, m: map<int, Outcome>, r: nat, p: nat)
    requires SheetShape(sh) && 0 < r < sh.k && p < Pow2(sh.k - r)
    requires Accepted(sh, cur) && Extends(cur, m)
    requires OutcomeAt(sh, cur, r - 1, p).Some? && Arrives(sh, m, r, p).Some?
    ensures Arrives(sh, cur, r, p).Some?
  {
    hide Pow2, Index, Locate, Accepted, Extends;
    var id := Index(sh.k, r - 1, p) + 1;
    RowDoubles(sh.k, r - 1);
    if id in cur {
      RecordedKnown(sh, cur, r - 1, p);
    }
    ArrivesMonotone(sh, cur, m, r - 1, 2 * p);
    ArrivesMonotone(sh, cur, m, r - 1, 2 * p + 1);
    OutcomeKept(sh, cur, m, r - 1, p);
  }

  lemma {:induction false} KnownWhenFed(sh: Sheet, cur: map<int, Outcome>, m: map<int, Outcome>, id: int)
    requires SheetShape(sh) && Accepted(sh, cur) && Extends(cur, m)
    requires BothKnown(sh, m, id) && FeedersDecided(sh, cur, id)
    ensures BothKnown(sh, cur, id)
  {
    hide Pow2, Index, OutcomeAt, Accepted, Extends;
    var (r, i) := Locate(sh.k, id - 1);
    RowDoubles(sh.k, r);
    assert r == 0 ==> Arrives(sh, cur, r, 2 * i) == Arrives(sh, m, r, 2 * i);
    assert r == 0 ==> Arrives(sh, cur, r, 2 * i + 1) == Arrives(sh, m, r, 2 * i + 1);
    hide Arrives;
    if r > 0 {
      KnownFeeder(sh, cur, m, r, 2 * i);
      KnownFeeder(sh, cur, m, r, 2 * i + 1);
    }
  }

  lemma {:induction false} AcceptedWhenFed(sh: Sheet, cur: map<int, Outcome>, rs: seq<ResultRow>, m: map<int, Outcome>)
    requires SheetShape(sh) && Accepted(sh, cur) && Accepted(sh, m)
    requires DistinctRows(rs) && Adds(cur, rs, m) && FeedersFirst(sh, cur, rs)
    ensures Replay(sh, cur, rs).Some?
    decreases |rs|
  {
    if rs != [] {
      var row := rs[0];
      assert row in rs;
      assert BothKnown(sh, m, row.matchId);
      KnownWhenFed(sh, cur, m, row.matchId);
      OutcomeWhenBothKnown(sh, cur, row.matchId);
      AcceptedStep(sh, cur, row.matchId, row.outcome);
      AddsHead(cur, rs, m);
      AcceptedWhenFed(sh, cur[row.matchId := row.outcome], rs[1..], m);
    }
  }

  lemma {:induction false} FedWhenAccepted(sh: Sheet, cur: map<int, Outcome>, rs: seq<ResultRow>)
    requires SheetShape(sh) && Accepted(sh, cur) && Replay(sh, cur, rs).Some?
    ensures FeedersFirst(sh, cur, rs)
    decreases |rs|
  {
    if rs != [] {
      AcceptedStep(sh, cur, rs[0].matchId, rs[0].outcome);
      FedWhenAccepted(sh, cur[rs[0].matchId := rs[0].outcome], rs[1..]);
    }
  }

  /** The web engine accepts an order exactly when the relayer accepts the set and feeders come first. */
  lemma {:induction false} PlayOrderAccepted(sh: Sheet, rs: seq<ResultRow>)
    requires SheetShape(sh)
    ensures Replay(sh, map[], rs).Some?
       <==> Replay(sh, map[], ById(rs)).Some? && FeedersFirst(sh, map[], rs)
  {
    if Replay(sh, map[], rs).Some? {
      ReplayConfluence(sh, rs);
      FedWhenAccepted(sh, map[], rs);
    }
    if Replay(sh, map[], ById(rs)).Some? && FeedersFirst(sh, map[], rs) {
      var m := Replay(sh, map[], ById(rs)).value;
      ReplayAdds(sh, map[], ById(rs));
      DistinctTransfers(ById(rs), rs);
      AddsTransfers(map[], ById(rs), rs, m);
      AcceptedWhenFed(sh, map[], rs, m);
    }
  }
}
