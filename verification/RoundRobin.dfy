/** The circle method by in-place rotation: web/src/lib/engine/roundRobin.ts. */
module RoundRobin {
  import opened Wrappers
  import opened EngineTypes

  // ---------- where the rotation puts everybody ----------

  function Half(a: int): (q: int)
    ensures 2 * q <= a <= 2 * q + 1
  {
    a / 2
  }

  predicate Even(a: int) {
    a == 2 * Half(a)
  }

  /** `m` positions, position 0 fixed and the other `m - 1` rotating; `m` is even. */
  predicate Circle(m: int) {
    m >= 2 && Even(m)
  }

  /** Which starting position stands at index `j` after `t` rotations. */
  function Occupant(m: int, t: int, j: int): int {
    if j == 0 then 0 else if j > t then j - t else j - t + (m - 1)
  }

  /** Where starting position `x` stands after `t` rotations. */
  function Standing(m: int, t: int, x: int): int {
    if x == 0 then 0 else if x + t < m then x + t else x + t - (m - 1)
  }

  lemma {:induction false} OccupantStanding(m: int, t: int, j: int, x: int)
    requires Circle(m) && 0 <= t < m - 1 && 0 <= j < m && 0 <= x < m
    ensures Occupant(m, t, j) == x <==> Standing(m, t, x) == j
    ensures 0 <= Occupant(m, t, j) < m && 0 <= Standing(m, t, x) < m
  {
  }

  /** In round `t` the occupants of indices `i` and `m - 1 - i` meet. */
  datatype Fixture = Fixture(round: nat, slot: nat, x: int, y: int)

  function FixtureAt(m: int, t: nat, i: int, slot: nat): Fixture {
    Fixture(t, slot, Occupant(m, t, i), Occupant(m, t, m - 1 - i))
  }

  predicate Pairs(f: Fixture, x: int, y: int) {
    (f.x == x && f.y == y) || (f.x == y && f.y == x)
  }

  // ---------- each pair meets once: 2 is invertible modulo the odd m - 1 ----------

  /** The solution `t` of `2t = -(x + y)` modulo `m - 1`; with the fixed position, of `t = -y`. */
  function MeetingRound(m: int, x: int, y: int): int {
    if x == 0 then (if y == m - 1 then 0 else m - 1 - y)
    else if y == 0 then (if x == m - 1 then 0 else m - 1 - x)
    else
      var s := if x + y >= m - 1 then x + y - (m - 1) else x + y;
      if s == 0 || s == m - 1 then 0
      else if Even(m - 1 - s) then Half(m - 1 - s)
      else Half(2 * (m - 1) - s)
  }

  function MeetingIndex(m: int, x: int, y: int): int {
    var t := MeetingRound(m, x, y);
    if Standing(m, t, x) < Standing(m, t, y) then Standing(m, t, x) else Standing(m, t, y)
  }

  /** With the fixed position, the rounds run through the other indices once. */
  lemma {:induction false} FixedMeets(m: int, y: int, t: int)
    requires Circle(m) && 0 < y < m && 0 <= t < m - 1
    ensures 0 <= MeetingRound(m, 0, y) < m - 1
    ensures Standing(m, t, 0) + Standing(m, t, y) == m - 1 <==> t == MeetingRound(m, 0, y)
  {
    hide Half;
  }

  /** Between rotating positions, the solution of `2t = -(x + y)` is the only one. */
  lemma {:induction false} RotatingMeet(m: int, x: int, y: int, t: int)
    requires Circle(m) && 0 < x < m && 0 < y < m && x != y && 0 <= t < m - 1
    ensures 0 <= MeetingRound(m, x, y) < m - 1
    ensures Standing(m, t, x) + Standing(m, t, y) == m - 1 <==> t == MeetingRound(m, x, y)
  {
    hide Half;
  }

  lemma {:induction false} MeetingIsSymmetric(m: int, x: int, y: int)
    ensures x != y ==> MeetingRound(m, x, y) == MeetingRound(m, y, x)
  {
    hide Half;
  }

  /** Two positions sum to `m - 1` in exactly one round. */
  lemma {:induction false} MeetsExactlyOnce(m: int, x: int, y: int, t: int)
    requires Circle(m) && 0 <= x < m && 0 <= y < m && x != y && 0 <= t < m - 1
    ensures 0 <= MeetingRound(m, x, y) < m - 1
    ensures Standing(m, t, x) + Standing(m, t, y) == m - 1 <==> t == MeetingRound(m, x, y)
  {
    hide MeetingRound, Standing, Circle;
    if x == 0 {
      FixedMeets(m, y, t);
    } else if y == 0 {
      FixedMeets(m, x, t);
      MeetingIsSymmetric(m, x, y);
    } else {
      RotatingMeet(m, x, y, t);
    }
  }

  /** The smaller of two indices that sum to `m - 1` lies in the first half. */
  lemma {:induction false} MeetingInFirstHalf(m: int, x: int, y: int)
    requires Circle(m) && 0 <= x < m && 0 <= y < m && x != y
    ensures 0 <= MeetingIndex(m, x, y) < Half(m)
  {
    MeetsExactlyOnce(m, x, y, 0);
    var t := MeetingRound(m, x, y);
    MeetsExactlyOnce(m, x, y, t);
    OccupantStanding(m, t, 0, x);
    OccupantStanding(m, t, 0, y);
    hide MeetingRound, Standing, Occupant, Half;
  }

  /** The fixture of round `t`, index `i` is the pair `{x, y}` exactly at its meeting point. */
  lemma {:induction false} FixtureOfPair(m: int, x: int, y: int, t: nat, i: int, slot: nat)
    requires Circle(m) && 0 <= x < m && 0 <= y < m && x != y && t < m - 1 && 0 <= i < Half(m)
    ensures Pairs(FixtureAt(m, t, i, slot), x, y) <==> t == MeetingRound(m, x, y) && i == MeetingIndex(m, x, y)
  {
    MeetsExactlyOnce(m, x, y, t);
    OccupantStanding(m, t, i, x);
    OccupantStanding(m, t, i, y);
    OccupantStanding(m, t, m - 1 - i, x);
    OccupantStanding(m, t, m - 1 - i, y);
    hide MeetingRound, Occupant, Standing, Half;
  }

  // ---------- the schedule of n entrants ----------

  function Padded(n: nat): nat {
    if Even(n) then n else n + 1
  }

  predicate Real(n: nat, f: Fixture) {
    0 <= f.x < n && 0 <= f.y < n
  }

  /** The fixtures of round `t` at indices below `i`; a fixture with the dummy is skipped. */
  function RoundPart(n: nat, m: nat, t: nat, i: nat): seq<Fixture>
    decreases i, n, m, t
  {
    if i == 0 then []
    else
      var before := RoundPart(n, m, t, i - 1);
      var f := FixtureAt(m, t, i - 1, |before|);
      if Real(n, f) then before + [f] else before
  }

  /** The fixtures of the rounds before `t`. */
  function Rounds(n: nat, m: nat, t: nat): seq<Fixture>
    decreases t, n, m
  {
    if t == 0 then [] else Rounds(n, m, t - 1) + RoundPart(n, m, t - 1, Half(m))
  }

  function Schedule(n: nat): seq<Fixture> {
    if n == 0 then [] else Rounds(n, Padded(n), Padded(n) - 1)
  }

  // ---------- every pair exactly once ----------

  function Meetings(fs: seq<Fixture>, x: int, y: int): nat {
    if fs == [] then 0
    else Meetings(fs[..|fs| - 1], x, y) + if Pairs(fs[|fs| - 1], x, y) then 1 else 0
  }

  lemma {:induction false} MeetingsAppend(fs: seq<Fixture>, gs: seq<Fixture>, x: int, y: int)
    ensures Meetings(fs + gs, x, y) == Meetings(fs, x, y) + Meetings(gs, x, y)
    decreases |gs|
  {
    if gs == [] {
      assert fs + gs == fs;
    } else {
      var g := |gs| - 1;
      assert (fs + gs)[..|fs + gs| - 1] == fs + gs[..g];
      MeetingsAppend(fs, gs[..g], x, y);
    }
  }

  lemma {:induction false} MeetingsLast(fs: seq<Fixture>, f: Fixture, x: int, y: int)
    ensures Meetings(fs + [f], x, y) == Meetings(fs, x, y) + if Pairs(f, x, y) then 1 else 0
  {
    assert (fs + [f])[..|fs|] == fs;
  }

  /** A fixture that is skipped is not one of two entrants. */
  lemma {:induction false} MeetingsInRound(n: nat, m: nat, t: nat, i: nat, x: int, y: int)
    requires Circle(m) && n <= m && t < m - 1 && i <= Half(m)
    requires 0 <= x < n && 0 <= y < n && x != y
    ensures Meetings(RoundPart(n, m, t, i), x, y)
         == if t == MeetingRound(m, x, y) && MeetingIndex(m, x, y) < i then 1 else 0
  {
    hide MeetingRound, MeetingIndex, FixtureAt, Half, Meetings, Circle;
    MeetingInFirstHalf(m, x, y);
    if i > 0 {
      MeetingsInRound(n, m, t, i - 1, x, y);
      var before := RoundPart(n, m, t, i - 1);
      var f := FixtureAt(m, t, i - 1, |before|);
      FixtureOfPair(m, x, y, t, i - 1, |before|);
      MeetingsLast(before, f, x, y);
      assert Pairs(f, x, y) ==> Real(n, f);
      hide Real, Pairs;
    } else {
      NoMeetings(x, y);
    }
  }

  lemma {:induction false} NoMeetings(x: int, y: int)
    ensures Meetings([], x, y) == 0
  {
  }

  lemma {:induction false} MeetingsInRounds(n: nat, m: nat, t: nat, x: int, y: int)
    requires Circle(m) && n <= m && t <= m - 1
    requires 0 <= x < n && 0 <= y < n && x != y
    ensures Meetings(Rounds(n, m, t), x, y) == if MeetingRound(m, x, y) < t then 1 else 0
  {
    hide MeetingRound, MeetingIndex, RoundPart, Meetings, Half, Standing;
    MeetsExactlyOnce(m, x, y, 0);
    if t > 0 {
      MeetingsInRounds(n, m, t - 1, x, y);
      MeetingsInRound(n, m, t - 1, Half(m), x, y);
      MeetingInFirstHalf(m, x, y);
      MeetingsAppend(Rounds(n, m, t - 1), RoundPart(n, m, t - 1, Half(m)), x, y);
    } else {
      NoMeetings(x, y);
    }
  }

  lemma {:induction false} PaddedIsCircle(n: nat)
    requires n > 0
    ensures Circle(Padded(n)) && n <= Padded(n)
    ensures Half(Padded(n)) == if Even(n) then Half(n) else Half(n) + 1
  {
    hide Half;
  }

  /** Over all rounds every two entrants meet exactly once. */
  lemma {:induction false} EveryPairMeetsOnce(n: nat, x: nat, y: nat)
    requires x < n && y < n && x != y
    ensures Meetings(Schedule(n), x, y) == 1
  {
    hide Padded, MeetingRound, Rounds, RoundPart, Meetings, Circle, Standing;
    PaddedIsCircle(n);
    MeetingsInRounds(n, Padded(n), Padded(n) - 1, x, y);
    MeetsExactlyOnce(Padded(n), x, y, 0);
  }

  // ---------- nobody plays twice in a round ----------

  predicate Disjoint(f: Fixture, g: Fixture) {
    f.x != g.x && f.x != g.y && f.y != g.x && f.y != g.y
  }

  /** `f` is the fixture of round `t` at some index below `i`. */
  predicate InRound(m: int, t: nat, i: int, f: Fixture) {
    f.round == t && 0 <= f.x < m && 0 <= f.y < m && f.x != f.y
    && Standing(m, t, f.x) < i && Standing(m, t, f.x) + Standing(m, t, f.y) == m - 1
  }

  ghost predicate RoundOnce(fs: seq<Fixture>, n: nat, m: int, t: nat, i: int) {
    && (forall p :: 0 <= p < |fs| ==> InRound(m, t, i, fs[p]) && Real(n, fs[p]) && fs[p].slot == p)
    && (forall p, q :: 0 <= p < q < |fs| ==> Disjoint(fs[p], fs[q]))
  }

  lemma {:induction false} RoundPartOnce(n: nat, m: nat, t: nat, i: nat)
    requires Circle(m) && n <= m && t < m - 1 && i <= Half(m)
    ensures RoundOnce(RoundPart(n, m, t, i), n, m, t, i)
  {
    if i > 0 {
      RoundPartOnce(n, m, t, i - 1);
      var before := RoundPart(n, m, t, i - 1);
      var f := FixtureAt(m, t, i - 1, |before|);
      OccupantStanding(m, t, i - 1, f.x);
      OccupantStanding(m, t, m - i, f.y);
      forall p | 0 <= p < |before| ensures InRound(m, t, i, before[p]) && Disjoint(before[p], f) {
        assert InRound(m, t, i - 1, before[p]);
      }
    }
  }

  /** Within a round no entrant appears in two matches, and nobody meets themselves. */
  ghost predicate OncePerRound(fs: seq<Fixture>, n: nat, rounds: int) {
    && (forall p :: 0 <= p < |fs| ==> fs[p].round < rounds && Real(n, fs[p]) && fs[p].x != fs[p].y)
    && (forall p, q :: 0 <= p < q < |fs| && fs[p].round == fs[q].round ==> Disjoint(fs[p], fs[q]))
  }

  lemma {:induction false} RoundsOnce(n: nat, m: nat, t: nat)
    requires Circle(m) && n <= m && t <= m - 1
    ensures OncePerRound(Rounds(n, m, t), n, t)
  {
    if t > 0 {
      RoundsOnce(n, m, t - 1);
      RoundPartOnce(n, m, t - 1, Half(m));
      hide RoundPart;
      var before, part := Rounds(n, m, t - 1), RoundPart(n, m, t - 1, Half(m));
      forall p | 0 <= p < |part| ensures part[p].round == t - 1 && part[p].x != part[p].y {
        assert InRound(m, t - 1, Half(m), part[p]);
      }
    }
  }

  lemma {:induction false} ScheduleOncePerRound(n: nat)
    ensures OncePerRound(Schedule(n), n, Padded(n) - 1)
  {
    hide Padded, Rounds, RoundPart, Circle;
    if n > 0 {
      PaddedIsCircle(n);
      RoundsOnce(n, Padded(n), Padded(n) - 1);
    }
    hide OncePerRound;
  }

  // ---------- n(n-1)/2 matches ----------

  /** The index in round `t` at which the dummy (position `n` of an odd field) is skipped. */
  function ByeIndex(m: int, t: int, n: int): int {
    var j := Standing(m, t, n);
    if j < m - 1 - j then j else m - 1 - j
  }

  /** Index `i` of round `t` is the bye exactly when one of its two occupants is the dummy. */
  lemma {:induction false} ByeAt(n: nat, m: int, t: nat, i: nat, slot: nat)
    requires Circle(m) && n <= m <= n + 1 && t < m - 1 && i < Half(m)
    ensures Real(n, FixtureAt(m, t, i, slot)) <==> !(n < m && i == ByeIndex(m, t, n))
    ensures n < m ==> 0 <= ByeIndex(m, t, n) < Half(m)
  {
    OccupantStanding(m, t, i, 0);
    OccupantStanding(m, t, m - 1 - i, 0);
    if n < m {
      OccupantStanding(m, t, i, n);
      OccupantStanding(m, t, m - 1 - i, n);
    }
    hide Occupant, Standing, Half;
  }

  lemma {:induction false} RoundPartLength(n: nat, m: nat, t: nat, i: nat)
    requires Circle(m) && n <= m <= n + 1 && t < m - 1 && i <= Half(m)
    ensures |RoundPart(n, m, t, i)| == i - if n < m && ByeIndex(m, t, n) < i then 1 else 0
    ensures n < m ==> 0 <= ByeIndex(m, t, n) < Half(m)
  {
    ByeAt(n, m, t, 0, 0);
    hide ByeIndex, FixtureAt, Real, Half;
    if i > 0 {
      RoundPartLength(n, m, t, i - 1);
      ByeAt(n, m, t, i - 1, |RoundPart(n, m, t, i - 1)|);
    }
  }

  lemma {:induction false} Times(t: int, h: int)
    ensures t * h == (t - 1) * h + h
  {
  }

  lemma {:induction false} RoundsLength(n: nat, m: nat, t: nat)
    requires Circle(m) && n <= m <= n + 1 && t <= m - 1
    ensures |Rounds(n, m, t)| == t * (if n < m then Half(m) - 1 else Half(m))
  {
    hide RoundPart, Half, ByeIndex;
    var h := if n < m then Half(m) - 1 else Half(m);
    if t > 0 {
      RoundsLength(n, m, t - 1);
      RoundPartLength(n, m, t - 1, Half(m));
      Times(t, h);
    }
  }

  lemma {:induction false} EvenProduct(h: int)
    ensures 2 * ((2 * h - 1) * h) == (2 * h) * (2 * h - 1)
  {
  }

  lemma {:induction false} OddProduct(h: int)
    ensures 2 * ((2 * h + 1) * h) == (2 * h + 1) * (2 * h + 1 - 1)
  {
  }

  lemma {:induction false} ScheduleLength(n: nat)
    ensures 2 * |Schedule(n)| == if n == 0 then 0 else n * (n - 1)
  {
    hide Rounds, RoundPart, Half;
    if n > 0 {
      PaddedIsCircle(n);
      RoundsLength(n, Padded(n), Padded(n) - 1);
      var h := Half(n);
      if Even(n) { EvenProduct(h); } else { OddProduct(h); }
    }
  }

  lemma {:induction false} ScheduleNonEmpty(n: nat)
    requires n >= 2
    ensures |Schedule(n)| > 0
  {
    ScheduleLength(n);
    hide Schedule;
    assert n * (n - 1) >= 2 * (n - 1);
  }

  // ---------- the implementation ----------

  function Seat(entrants: seq<Entrant>, x: int): Option<Entrant> {
    if 0 <= x < |entrants| then Some(entrants[x]) else None
  }

  function MatchFor(f: Fixture, entrants: seq<Entrant>, id: int): BracketMatch {
    BracketMatch(id, f.round, f.slot, Seat(entrants, f.x), Seat(entrants, f.y), None, None)
  }

  /** `matches` lists the fixtures `fs`, numbered from `startId`. */
  ghost predicate Lists(matches: seq<BracketMatch>, fs: seq<Fixture>, entrants: seq<Entrant>, startId: int) {
    && |matches| == |fs|
    && forall q :: 0 <= q < |fs| ==> matches[q] == MatchFor(fs[q], entrants, startId + q)
  }

  /** After `t` rotations, index `j` holds the occupant the circle method says. */
  ghost predicate Rotated(positions: seq<Option<Entrant>>, entrants: seq<Entrant>, m: nat, t: nat) {
    && |positions| == m
    && forall j :: 0 <= j < m ==> positions[j] == Seat(entrants, Occupant(m, t, j))
  }

  lemma {:induction false} RotateOnce(positions: seq<Option<Entrant>>, entrants: seq<Entrant>, m: nat, t: nat)
    requires Circle(m) && t < m - 1 && Rotated(positions, entrants, m, t)
    ensures Rotated(positions[..1] + [positions[m - 1]] + positions[1..m - 1], entrants, m, t + 1)
  {
    var next := positions[..1] + [positions[m - 1]] + positions[1..m - 1];
    forall j | 0 <= j < m ensures next[j] == Seat(entrants, Occupant(m, t + 1, j)) {
      if j == 1 {
        assert Occupant(m, t + 1, 1) == Occupant(m, t, m - 1);
      } else if j > 1 {
        assert next[j] == positions[j - 1];
        assert Occupant(m, t + 1, j) == Occupant(m, t, j - 1);
      }
    }
  }

  /** Listing one more fixture. */
  lemma {:induction false} ListNext(ms: seq<BracketMatch>, before: seq<Fixture>, part: seq<Fixture>, f: Fixture,
      es: seq<Entrant>, startId: int)
    requires Lists(ms, before + part, es, startId)
    ensures Lists(ms + [MatchFor(f, es, startId + |ms|)], before + (part + [f]), es, startId)
  {
    assert before + (part + [f]) == (before + part) + [f];
    hide MatchFor;
  }

  /** Index `i` of a rotated circle holds a real fixture exactly when both its seats are taken. */
  lemma {:induction false} SeatsOfFixture(positions: seq<Option<Entrant>>, es: seq<Entrant>, t: nat, i: nat, slot: nat)
    requires Circle(|positions|) && Rotated(positions, es, |positions|, t) && t < |positions| - 1
      && i < Half(|positions|)
    ensures var f := FixtureAt(|positions|, t, i, slot);
      && positions[i] == Seat(es, f.x) && positions[|positions| - 1 - i] == Seat(es, f.y)
      && (Real(|es|, f) <==> positions[i].Some? && positions[|positions| - 1 - i].Some?)
  {
    OccupantStanding(|positions|, t, i, 0);
    OccupantStanding(|positions|, t, |positions| - 1 - i, 0);
    hide Occupant, Standing, Half;
  }

  /** One round: pair index `i` with index `paddedLen - 1 - i`, skipping the dummy. */
  method PlayRound(positions: seq<Option<Entrant>>, round: nat, soFar: seq<BracketMatch>, startId: int,
      ghost entrants: seq<Entrant>)
    returns (matches: seq<BracketMatch>)
    requires Circle(|positions|) && Rotated(positions, entrants, |positions|, round) && round < |positions| - 1
    requires Lists(soFar, Rounds(|entrants|, |positions|, round), entrants, startId)
    ensures Lists(matches, Rounds(|entrants|, |positions|, round + 1), entrants, startId)
  {
    hide FixtureAt, Seat, Rotated, Half, Real, Lists, RoundPart, Rounds, Circle;
    ghost var n, m := |entrants|, |positions|;
    ghost var before := Rounds(n, m, round);
    RoundsNext(n, m, round);
    assert before + [] == before;
    matches := soFar;
    var nextId := startId + |soFar|;
    var slot := 0;
    var i := 0;
    while i < Half(|positions|)
      invariant 0 <= i <= Half(m) && slot == |RoundPart(n, m, round, i)|
      invariant Lists(matches, before + RoundPart(n, m, round, i), entrants, startId)
      invariant nextId == startId + |matches|
    {
      var j := |positions| - 1 - i;
      var a, b := positions[i], positions[j];
      SeatsOfFixture(positions, entrants, round, i, slot);
      RoundPartNext(n, m, round, i);
      ghost var part := RoundPart(n, m, round, i);
      ghost var f := FixtureAt(m, round, i, slot);
      i := i + 1;
      if a.None? || b.None? {
        continue;
      }
      ListNext(matches, before, part, f, entrants, startId);
      assert f.round == round && f.slot == slot by { FixtureShape(m, round, i - 1, slot); }
      matches := matches + [BracketMatch(nextId, round, slot, a, b, None, None)];
      nextId := nextId + 1;
      slot := slot + 1;
    }
  }

  lemma {:induction false} RoundPartNext(n: nat, m: nat, t: nat, i: nat)
    ensures var part := RoundPart(n, m, t, i);
      var f := FixtureAt(m, t, i, |part|);
      RoundPart(n, m, t, i + 1) == if Real(n, f) then part + [f] else part
  {
    hide FixtureAt, Real;
  }

  lemma {:induction false} RoundsNext(n: nat, m: nat, t: nat)
    ensures RoundPart(n, m, t, 0) == [] && Rounds(n, m, t + 1) == Rounds(n, m, t) + RoundPart(n, m, t, Half(m))
  {
    hide Half, FixtureAt;
  }

  lemma {:induction false} FixtureShape(m: int, t: nat, i: int, slot: nat)
    ensures FixtureAt(m, t, i, slot).round == t && FixtureAt(m, t, i, slot).slot == slot
  {
  }

  /** Entrants in order, then dummies up to an even length. */
  method StartingPositions(entrants: seq<Entrant>, paddedLen: nat) returns (positions: seq<Option<Entrant>>)
    requires |entrants| <= paddedLen
    ensures |positions| == paddedLen && Rotated(positions, entrants, paddedLen, 0)
  {
    positions := seq(|entrants|, i requires 0 <= i < |entrants| => Some(entrants[i]));
    while |positions| < paddedLen
      invariant |entrants| <= |positions| <= paddedLen
      invariant forall j :: 0 <= j < |positions| ==> positions[j] == Seat(entrants, j)
    {
      positions := positions + [None];
    }
  }

  /** Keep position 0 fixed, rotate the rest clockwise: pop the last, splice it in at 1. */
  method Rotate(positions: seq<Option<Entrant>>, ghost entrants: seq<Entrant>, ghost t: nat)
    returns (next: seq<Option<Entrant>>)
    requires Circle(|positions|) && t < |positions| - 1 && Rotated(positions, entrants, |positions|, t)
    ensures |next| == |positions| && Rotated(next, entrants, |positions|, t + 1)
  {
    RotateOnce(positions, entrants, |positions|, t);
    var last := positions[|positions| - 1];
    next := positions[..|positions| - 1];
    next := next[..1] + [last] + next[1..];
    assert next == positions[..1] + [last] + positions[1..|positions| - 1];
  }

  method BuildRoundRobin(entrants: seq<Entrant>, startId: int) returns (matches: seq<BracketMatch>, rounds: int)
    ensures rounds == Padded(|entrants|) - 1
    ensures Lists(matches, Schedule(|entrants|), entrants, startId)
  {
    hide RoundPart, Half;
    var n := |entrants|;
    var paddedLen := if Even(n) then n else n + 1;
    if n > 0 { PaddedIsCircle(n); }
    hide Even;
    var positions := StartingPositions(entrants, paddedLen);
    rounds := paddedLen - 1;
    matches := [];
    var round := 0;
    while round < rounds
      invariant 0 <= round && (n > 0 ==> round <= rounds) && (n == 0 ==> round == 0)
      invariant |positions| == paddedLen && Rotated(positions, entrants, paddedLen, round)
      invariant Lists(matches, Rounds(n, paddedLen, round), entrants, startId)
    {
      hide Rotated, Lists, Rounds, Circle;
      matches := PlayRound(positions, round, matches, startId, entrants);
      positions := Rotate(positions, entrants, round);
      round := round + 1;
    }
  }

  // ---------- the same, of the match list ----------

  /** How many matches pit `id1` against `id2`. */
  function Encounters(ms: seq<BracketMatch>, id1: int, id2: int): nat {
    if ms == [] then 0
    else Encounters(ms[..|ms| - 1], id1, id2) + if Pits(ms[|ms| - 1], id1, id2) then 1 else 0
  }

  lemma {:induction false} ListedMeetings(ms: seq<BracketMatch>, fs: seq<Fixture>, es: seq<Entrant>, startId: int,
      x: nat, y: nat)
    requires Lists(ms, fs, es, startId) && DistinctIds(es) && x < |es| && y < |es|
    requires forall p :: 0 <= p < |fs| ==> Real(|es|, fs[p])
    ensures Encounters(ms, es[x].id, es[y].id) == Meetings(fs, x, y)
    decreases |fs|
  {
    if fs != [] {
      var last := |fs| - 1;
      ListedMeetings(ms[..last], fs[..last], es, startId, x, y);
      var f := fs[last];
      assert ms[last] == MatchFor(f, es, startId + last) && Real(|es|, f);
      IndexOfId(es, f.x, x);
      IndexOfId(es, f.x, y);
      IndexOfId(es, f.y, x);
      IndexOfId(es, f.y, y);
    }
  }

  /** Of the built matches: every two entrants meet in exactly one, and there are n(n-1)/2. */
  lemma {:induction false} BuiltRoundRobin(es: seq<Entrant>, ms: seq<BracketMatch>, startId: int, x: nat, y: nat)
    requires DistinctIds(es) && Lists(ms, Schedule(|es|), es, startId) && x < |es| && y < |es| && x != y
    ensures Encounters(ms, es[x].id, es[y].id) == 1
    ensures 2 * |ms| == |es| * (|es| - 1)
  {
    ScheduleOncePerRound(|es|);
    EveryPairMeetsOnce(|es|, x, y);
    ScheduleLength(|es|);
    hide Schedule;
    ListedMeetings(ms, Schedule(|es|), es, startId, x, y);
  }

  /** In the built list nobody plays twice in a round or against themselves, and the rounds are as many as promised. */
  lemma {:induction false} BuiltOncePerRound(ms: seq<BracketMatch>, es: seq<Entrant>, startId: int, p: nat, q: nat)
    requires DistinctIds(es) && Lists(ms, Schedule(|es|), es, startId) && p < |ms| && q < |ms|
    ensures ms[p].a.Some? && ms[p].b.Some? && ms[p].a.value.id != ms[p].b.value.id
    ensures ms[p].round < Padded(|es|) - 1
    ensures p < q && ms[p].round == ms[q].round ==>
      forall id :: !(Plays(ms[p], id) && Plays(ms[q], id))
  {
    var fs := Schedule(|es|);
    ScheduleOncePerRound(|es|);
    hide Schedule, Padded;
    assert ms[p] == MatchFor(fs[p], es, startId + p) && ms[q] == MatchFor(fs[q], es, startId + q);
    assert Real(|es|, fs[p]) && Real(|es|, fs[q]);
    IndexOfId(es, fs[p].x, fs[p].y);
    if p < q && fs[p].round == fs[q].round {
      assert Disjoint(fs[p], fs[q]);
      IndexOfId(es, fs[p].x, fs[q].x);
      IndexOfId(es, fs[p].x, fs[q].y);
      IndexOfId(es, fs[p].y, fs[q].x);
      IndexOfId(es, fs[p].y, fs[q].y);
    }
  }

  predicate Plays(m: BracketMatch, id: int) {
    (m.a.Some? && m.a.value.id == id) || (m.b.Some? && m.b.value.id == id)
  }
}
