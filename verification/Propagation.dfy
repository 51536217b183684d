/**
 The fixed-point loop both engines run after every result (auto-complete byes, propagate
 winners): a bracket on its way to `BracketOf`, what one write keeps, and why a pass that
 changes nothing has arrived.
 */
module Propagation {
  import opened Wrappers
  import opened EngineTypes
  import opened Seeding
  import opened Bracket

  /** `m` carries part of what the finished match `f` carries, and nothing else. */
  ghost predicate PartOf(m: BracketMatch, f: BracketMatch) {
    && m.id == f.id && m.round == f.round && m.slot == f.slot && m.winnerTo == f.winnerTo
    && (m.a == f.a || (m.a.None? && f.round > 0))
    && (m.b == f.b || (m.b.None? && f.round > 0))
    && (m.outcome == f.outcome || (m.outcome.None? && f.round == 0 && IsBye(f)))
  }

  /** `ms` is on its way to the finished bracket `full`. */
  ghost predicate Partial(full: seq<BracketMatch>, ms: seq<BracketMatch>) {
    && |ms| == |full|
    && forall j :: 0 <= j < |ms| ==> PartOf(ms[j], full[j])
  }

  /** Match `j` sends its winner to a later match, where exactly that winner stands. */
  ghost predicate SendsWinner(full: seq<BracketMatch>, j: nat)
    requires j < |full|
  {
    full[j].winnerTo.Some? ==>
      var t := full[j].winnerTo.value;
      && j + 1 < t.matchId <= |full|
      && full[t.matchId - 1].round > 0
      && MatchSide(full[t.matchId - 1], t.side) == MatchWinner(full[j])
  }

  /** Side `s` of match `x` is fed by an earlier match. */
  ghost predicate Fed(full: seq<BracketMatch>, x: nat, s: Side)
    requires x < |full|
  {
    exists j :: 0 <= j < x && full[j].winnerTo == Some(Target(x + 1, s))
  }

  /** Finished: winners stand in their targets, and later rounds are fed on both sides. */
  ghost predicate Finished(full: seq<BracketMatch>) {
    && (forall j :: 0 <= j < |full| ==> full[j].id == j + 1)
    && (forall j :: 0 <= j < |full| ==> SendsWinner(full, j))
    && (forall x, s :: 0 <= x < |full| && full[x].round > 0 ==> Fed(full, x, s))
    && (forall x :: 0 <= x < |full| && full[x].round == 0 && IsBye(full[x])
          ==> full[x].outcome == Some(if full[x].a.Some? then WinA else WinB))
  }

  /** A round-0 bye whose outcome has not been written yet. */
  predicate PendingBye(m: BracketMatch) {
    m.round == 0 && m.outcome.None? && IsBye(m)
  }

  function WithSide(m: BracketMatch, s: Side, e: Entrant): BracketMatch {
    if s == SideA then m.(a := Some(e)) else m.(b := Some(e))
  }

  predicate Filled(ms: seq<BracketMatch>, t: Target) {
    1 <= t.matchId <= |ms| && MatchSide(ms[t.matchId - 1], t.side).Some?
  }

  /** The winner of match `j`, if any, has reached its target slot. */
  predicate Passed(ms: seq<BracketMatch>, j: nat)
    requires j < |ms|
  {
    ms[j].winnerTo.Some? && MatchWinner(ms[j]).Some? ==> Filled(ms, ms[j].winnerTo.value)
  }

  // ---------- writes only ever fill ----------

  predicate GrowsMatch(m: BracketMatch, n: BracketMatch) {
    && n.id == m.id && n.round == m.round && n.slot == m.slot && n.winnerTo == m.winnerTo
    && (m.a.Some? ==> n.a == m.a)
    && (m.b.Some? ==> n.b == m.b)
    && (m.outcome.Some? ==> n.outcome == m.outcome)
  }

  /** Every slot and outcome of `ms` that was written is unchanged in `ns`. */
  ghost predicate Grows(ms: seq<BracketMatch>, ns: seq<BracketMatch>) {
    |ns| == |ms| && forall j :: 0 <= j < |ms| ==> GrowsMatch(ms[j], ns[j])
  }

  function HolesIn(m: BracketMatch): nat {
    (if m.a.None? then 1 else 0) + (if m.b.None? then 1 else 0) + (if m.outcome.None? then 1 else 0)
  }

  function Holes(ms: seq<BracketMatch>): nat {
    if ms == [] then 0 else HolesIn(ms[0]) + Holes(ms[1..])
  }

  /** Progress: a pass that only fills, and fills something, leaves fewer holes. */
  lemma {:induction false} GrowsShrinksHoles(ms: seq<BracketMatch>, ns: seq<BracketMatch>)
    requires Grows(ms, ns)
    ensures Holes(ns) <= Holes(ms)
    ensures ns != ms ==> Holes(ns) < Holes(ms)
    decreases |ms|
  {
    if ms != [] {
      assert GrowsMatch(ms[0], ns[0]);
      GrowsShrinksHoles(ms[1..], ns[1..]);
      assert ms == [ms[0]] + ms[1..] && ns == [ns[0]] + ns[1..];
    }
  }

  lemma {:induction false} GrowsItself(ms: seq<BracketMatch>)
    ensures Grows(ms, ms)
  {
  }

  lemma {:induction false} GrowsTransitive(ms: seq<BracketMatch>, ns: seq<BracketMatch>, os: seq<BracketMatch>)
    requires Grows(ms, ns) && Grows(ns, os)
    ensures Grows(ms, os)
    ensures ms != ns ==> ms != os
  {
    forall j | 0 <= j < |ms| ensures GrowsMatch(ms[j], os[j]) {
      assert GrowsMatch(ms[j], ns[j]) && GrowsMatch(ns[j], os[j]);
    }
    GrowsShrinksHoles(ms, ns);
    GrowsShrinksHoles(ns, os);
  }

  // ---------- what the writes of one pass keep ----------

  /** Completing a bye. */
  lemma {:induction false} ByeKeepsPartial(full: seq<BracketMatch>, ms: seq<BracketMatch>, j: nat)
    requires Finished(full) && Partial(full, ms) && j < |ms| && PendingBye(ms[j])
    ensures var m := ms[j].(outcome := Some(if ms[j].a.Some? then WinA else WinB));
      Partial(full, ms[j := m]) && Grows(ms, ms[j := m]) && ms[j := m] != ms
  {
    var m := ms[j].(outcome := Some(if ms[j].a.Some? then WinA else WinB));
    assert PartOf(ms[j], full[j]);
    assert PartOf(m, full[j]);
    assert ms[j := m][j] != ms[j];
  }

  /** A winner seen in a partial bracket is the one who stands in its target. */
  lemma {:induction false} WinnerReaches(full: seq<BracketMatch>, ms: seq<BracketMatch>, j: nat)
    requires Finished(full) && Partial(full, ms) && j < |ms| && ms[j].winnerTo.Some?
    ensures var t := ms[j].winnerTo.value;
      && 1 <= t.matchId <= |ms|
      && full[t.matchId - 1].round > 0
      && (MatchWinner(ms[j]).Some? ==> MatchSide(full[t.matchId - 1], t.side) == MatchWinner(ms[j]))
  {
    assert PartOf(ms[j], full[j]);
    assert SendsWinner(full, j);
  }

  /** Propagating a winner into its slot. */
  lemma {:induction false} FillKeepsPartial(full: seq<BracketMatch>, ms: seq<BracketMatch>, t: Target, e: Entrant)
    requires Partial(full, ms) && 1 <= t.matchId <= |ms|
    requires full[t.matchId - 1].round > 0 && MatchSide(full[t.matchId - 1], t.side) == Some(e)
    ensures var j := t.matchId - 1; var ns := ms[j := WithSide(ms[j], t.side, e)];
      Partial(full, ns) && Grows(ms, ns) && (!Filled(ms, t) ==> ns != ms)
  {
    var j := t.matchId - 1;
    var m := WithSide(ms[j], t.side, e);
    assert PartOf(ms[j], full[j]);
    assert PartOf(m, full[j]);
    assert ms[j := m][j] == m;
  }

  // ---------- arriving ----------

  lemma {:induction false} FixpointSide(full: seq<BracketMatch>, ms: seq<BracketMatch>, x: nat, s: Side)
    requires Finished(full) && Partial(full, ms) && x < |ms| && full[x].round > 0
    requires ms[..x] == full[..x]
    requires forall j :: 0 <= j < |ms| ==> Passed(ms, j)
    ensures MatchSide(ms[x], s) == MatchSide(full[x], s)
  {
    assert Fed(full, x, s);
    var j :| 0 <= j < x && full[j].winnerTo == Some(Target(x + 1, s));
    assert ms[j] == ms[..x][j] == full[..x][j] == full[j];
    assert SendsWinner(full, j) && Passed(ms, j);
    assert PartOf(ms[x], full[x]);
  }

  lemma {:induction false} FixpointPrefix(full: seq<BracketMatch>, ms: seq<BracketMatch>, n: nat)
    requires Finished(full) && Partial(full, ms) && n <= |ms|
    requires forall j :: 0 <= j < |ms| ==> !PendingBye(ms[j])
    requires forall j :: 0 <= j < |ms| ==> Passed(ms, j)
    ensures ms[..n] == full[..n]
  {
    if n > 0 {
      var x := n - 1;
      FixpointPrefix(full, ms, x);
      assert PartOf(ms[x], full[x]) && !PendingBye(ms[x]);
      if full[x].round > 0 {
        FixpointSide(full, ms, x, SideA);
        FixpointSide(full, ms, x, SideB);
      }
      assert ms[..n] == ms[..x] + [ms[x]] && full[..n] == full[..x] + [full[x]];
    }
  }

  /** A pass that finds nothing to write has arrived. */
  lemma {:induction false} Fixpoint(full: seq<BracketMatch>, ms: seq<BracketMatch>)
    requires Finished(full) && Partial(full, ms)
    requires forall j :: 0 <= j < |ms| ==> !PendingBye(ms[j])
    requires forall j :: 0 <= j < |ms| ==> Passed(ms, j)
    ensures ms == full
  {
    FixpointPrefix(full, ms, |ms|);
    assert ms[..|ms|] == ms && full[..|ms|] == full;
  }

  // ---------- the recursive bracket is finished, and where the loop starts from ----------

  lemma {:induction false} TargetIsNext(k: nat, r: nat, h: nat, s: Side)
    requires r + 1 < k
    ensures TargetOf(k, r, if s == SideA then 2 * h else 2 * h + 1, 1) == Some(Target(Index(k, r + 1, h) + 1, s))
  {
    hide Index, Pow2;
    var i := if s == SideA then 2 * h else 2 * h + 1;
    assert i / 2 == h && (i % 2 == 0 <==> s == SideA);
  }

  /** Match `2h` (or `2h + 1`) of a round sends its winner to side A (or B) of match `h` of the next. */
  lemma {:induction false} MatchSends(sh: Sheet, res: map<int, Outcome>, r: nat, h: nat, s: Side)
    requires SheetShape(sh) && r + 1 < sh.k && h < Pow2(sh.k - r - 2)
    ensures var m := MatchOf(sh, res, r, if s == SideA then 2 * h else 2 * h + 1);
      && m.winnerTo == Some(Target(Index(sh.k, r + 1, h) + 1, s))
      && m.id < Index(sh.k, r + 1, h) + 1
      && MatchWinner(m) == MatchSide(MatchOf(sh, res, r + 1, h), s)
  {
    hide Pow2, Index, OutcomeAt;
    var i := if s == SideA then 2 * h else 2 * h + 1;
    RowDoubles(sh.k, r + 1);
    RowDoubles(sh.k, r);
    IndexMeans(sh.k, r, i);
    IndexMeans(sh.k, r + 1, h);
    TargetIsNext(sh.k, r, h, s);
    WinnerArrives(sh, res, r, i);
    hide Arrives, TargetOf;
  }

  lemma {:induction false} BracketSends(sh: Sheet, res: map<int, Outcome>, r: nat, i: nat)
    requires SheetShape(sh) && r < sh.k && i < Pow2(sh.k - r - 1)
    ensures SendsWinner(BracketOf(sh, res), Index(sh.k, r, i))
  {
    hide Arrives, Locate, MatchAt, BracketOf, OutcomeAt, Pow2, Index;
    BracketAt(sh, res, r, i);
    if r + 1 < sh.k {
      var h, s := i / 2, if i % 2 == 0 then SideA else SideB;
      assert i == if s == SideA then 2 * h else 2 * h + 1;
      RowDoubles(sh.k, r + 1);
      MatchSends(sh, res, r, h, s);
      BracketAt(sh, res, r + 1, h);
    }
  }

  lemma {:induction false} BracketFed(sh: Sheet, res: map<int, Outcome>, r: nat, i: nat, s: Side)
    requires SheetShape(sh) && 0 < r < sh.k && i < Pow2(sh.k - r - 1)
    ensures Fed(BracketOf(sh, res), Index(sh.k, r, i), s)
  {
    hide Arrives, Locate, MatchAt, BracketOf, OutcomeAt, Pow2, Index;
    RowDoubles(sh.k, r);
    MatchSends(sh, res, r - 1, i, s);
    var p := if s == SideA then 2 * i else 2 * i + 1;
    BracketAt(sh, res, r - 1, p);
    assert BracketOf(sh, res)[Index(sh.k, r - 1, p)].winnerTo == Some(Target(Index(sh.k, r, i) + 1, s));
  }

  /** Every slot of the recursive bracket holds the recursive winner of its feeder match. */
  lemma {:induction false} BracketFinished(sh: Sheet, res: map<int, Outcome>)
    requires SheetShape(sh)
    ensures Finished(BracketOf(sh, res))
  {
    var full := BracketOf(sh, res);
    forall j | 0 <= j < |full| ensures SendsWinner(full, j) {
      var (r, i) := Locate(sh.k, j);
      BracketSends(sh, res, r, i);
    }
    forall x, s | 0 <= x < |full| && full[x].round > 0 ensures Fed(full, x, s) {
      var (r, i) := Locate(sh.k, x);
      BracketFed(sh, res, r, i, s);
    }
  }

  lemma {:induction false} BlankIsPartial(sh: Sheet, ms: seq<BracketMatch>)
    requires SheetShape(sh) && |ms| == Pow2(sh.k) - 1
    requires forall j :: 0 <= j < |ms| ==> ms[j] == BlankMatch(sh, 1, j)
    ensures Partial(BracketOf(sh, map[]), ms)
  {
  }

  lemma {:induction false} RecordedMatch(sh: Sheet, res: map<int, Outcome>, id: int, o: Outcome, r: nat, i: nat)
    requires SheetShape(sh) && id !in res && r < sh.k && i < Pow2(sh.k - r - 1)
    requires Index(sh.k, r, i) + 1 == id ==> IsReady(MatchOf(sh, res, r, i))
    ensures var m := MatchOf(sh, res, r, i);
      PartOf(if m.id == id then m.(outcome := Some(o)) else m, MatchOf(sh, res[id := o], r, i))
  {
    hide Pow2, Index;
    var more := res[id := o];
    RowDoubles(sh.k, r);
    ArrivesMonotone(sh, res, more, r, 2 * i);
    ArrivesMonotone(sh, res, more, r, 2 * i + 1);
    assert r == 0 ==> Arrives(sh, res, r, 2 * i) == Arrives(sh, more, r, 2 * i);
    assert r == 0 ==> Arrives(sh, res, r, 2 * i + 1) == Arrives(sh, more, r, 2 * i + 1);
    hide Arrives;
  }

  lemma {:induction false} RecordedAt(sh: Sheet, res: map<int, Outcome>, id: int, o: Outcome, j: nat)
    requires SheetShape(sh) && Recordable(sh, res, id) && id !in res && j < Pow2(sh.k) - 1
    ensures var m := MatchAt(sh, res, j);
      PartOf(if j == id - 1 then m.(outcome := Some(o)) else m, MatchAt(sh, res[id := o], j))
  {
    hide Pow2, Arrives, OutcomeAt, PartOf;
    var (r, i) := Locate(sh.k, j);
    RecordedMatch(sh, res, id, o, r, i);
  }

  /** Writing one accepted outcome into the finished bracket starts the next one. */
  lemma {:induction false} RecordIsPartial(sh: Sheet, res: map<int, Outcome>, id: int, o: Outcome)
    requires SheetShape(sh) && Accepted(sh, res) && Recordable(sh, res, id) && o != Draw
    ensures var ms := BracketOf(sh, res);
      Partial(BracketOf(sh, res[id := o]), ms[id - 1 := ms[id - 1].(outcome := Some(o))])
  {
    var ms := BracketOf(sh, res);
    var ns := ms[id - 1 := ms[id - 1].(outcome := Some(o))];
    var full := BracketOf(sh, res[id := o]);
    AcceptedStep(sh, res, id, o);
    hide MatchAt, PartOf;
    forall j | 0 <= j < |ns| ensures PartOf(ns[j], full[j]) {
      RecordedAt(sh, res, id, o, j);
    }
  }
}
