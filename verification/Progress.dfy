/**
 Whether a tournament that is not complete has a match to play, and what a needless `advance` does
 (web/src/lib/engine/tournament.ts).
 */
module Progress {
  import opened Wrappers
  import opened EngineTypes
  import opened Seeding
  import opened Bracket
  import opened SingleElim
  import opened Knockout
  import opened Propagation
  import opened Swiss
  import opened SwissRun
  import RR = RoundRobin
  import opened TournamentEngine

  ghost predicate SomeReady(ms: seq<BracketMatch>) {
    exists j :: 0 <= j < |ms| && IsReady(ms[j])
  }

  // ---------- single elimination ----------

  /** No match at or below match `i` of round `r` is void. */
  ghost predicate Clear(sh: Sheet, res: map<int, Outcome>, r: nat, i: nat)
    requires SheetShape(sh) && r < sh.k && i < Pow2(sh.k - r - 1)
    decreases r, sh
  {
    && OutcomeAt(sh, res, r, i) != Some(Void)
    && (r > 0 ==> Clear(sh, res, r - 1, 2 * i) && Clear(sh, res, r - 1, 2 * i + 1))
  }

  /** An undecided match with no void match at or below it. */
  ghost predicate Alive(sh: Sheet, res: map<int, Outcome>, r: nat, i: nat)
    requires SheetShape(sh)
  {
    r < sh.k && i < Pow2(sh.k - r - 1) && OutcomeAt(sh, res, r, i).None? && Clear(sh, res, r, i)
  }

  ghost predicate ReadyAt(sh: Sheet, res: map<int, Outcome>, r: nat, i: nat)
    requires SheetShape(sh)
  {
    r < sh.k && i < Pow2(sh.k - r - 1) && IsReady(MatchOf(sh, res, r, i))
  }

  /** Below an undecided match without void results there is a match to play. */
  lemma {:induction false} AliveHasReady(sh: Sheet, res: map<int, Outcome>, r: nat, i: nat) returns (s: nat, j: nat)
    requires SheetShape(sh) && NoEmptyMatch(sh) && Accepted(sh, res) && Alive(sh, res, r, i)
    ensures ReadyAt(sh, res, s, j)
    decreases r
  {
    hide Pow2, Index, Accepted, TargetOf;
    RowDoubles(sh.k, r);
    if Arrives(sh, res, r, 2 * i).Some? && Arrives(sh, res, r, 2 * i + 1).Some? {
      s, j := r, i;
    } else {
      assert r > 0;
      var p := if Arrives(sh, res, r, 2 * i).None? then 2 * i else 2 * i + 1;
      WonIffDecisive(sh, res, r - 1, p);
      assert Arrives(sh, res, r, p).None? && Clear(sh, res, r - 1, p);
      assert OutcomeAt(sh, res, r - 1, p).None?;
      hide Arrives, NoEmptyMatch, Clear, OutcomeAt;
      s, j := AliveHasReady(sh, res, r - 1, p);
    }
  }

  /** Whoever arrives came through decided matches only, none of them void. */
  lemma {:induction false} ArrivalIsClear(sh: Sheet, res: map<int, Outcome>, r: nat, p: nat)
    requires SheetShape(sh) && Accepted(sh, res) && r < sh.k && p < Pow2(sh.k - r - 1)
    requires Arrives(sh, res, r + 1, p).Some?
    ensures Clear(sh, res, r, p)
    decreases r
  {
    WonIffDecisive(sh, res, r, p);
    if r > 0 {
      FedByWinners(sh, res, r, p);
      hide Arrives, OutcomeAt, Accepted;
      ArrivalIsClear(sh, res, r - 1, 2 * p);
      ArrivalIsClear(sh, res, r - 1, 2 * p + 1);
    }
  }

  lemma {:induction false} ReadyIsAlive(sh: Sheet, res: map<int, Outcome>, r: nat, i: nat)
    requires SheetShape(sh) && Accepted(sh, res) && ReadyAt(sh, res, r, i)
    ensures Alive(sh, res, r, i)
  {
    hide Arrives, OutcomeAt, Accepted;
    if r > 0 {
      ArrivalIsClear(sh, res, r - 1, 2 * i);
      ArrivalIsClear(sh, res, r - 1, 2 * i + 1);
    }
  }

  ghost predicate SomeAlive(sh: Sheet, res: map<int, Outcome>)
    requires SheetShape(sh)
  {
    exists r, i :: Alive(sh, res, r, i)
  }

  lemma {:induction false} LocateReady(sh: Sheet, res: map<int, Outcome>, j: nat) returns (r: nat, i: nat)
    requires SheetShape(sh) && j < |BracketOf(sh, res)| && IsReady(BracketOf(sh, res)[j])
    ensures ReadyAt(sh, res, r, i)
  {
    hide BracketOf, Arrives, OutcomeAt, MatchOf, IsReady, Pow2, Index;
    var ri := Locate(sh.k, j);
    r, i := ri.0, ri.1;
  }

  lemma {:induction false} ReadyPosition(sh: Sheet, res: map<int, Outcome>, r: nat, i: nat) returns (j: nat)
    requires SheetShape(sh) && ReadyAt(sh, res, r, i)
    ensures j < |BracketOf(sh, res)| && IsReady(BracketOf(sh, res)[j])
  {
    hide BracketOf, Arrives, OutcomeAt, MatchOf, IsReady, Pow2;
    BracketAt(sh, res, r, i);
    j := Index(sh.k, r, i);
  }

  /** A bracket has a match to play exactly when some undecided match has no void match at or below it. */
  lemma {:induction false} BracketProgress(sh: Sheet, res: map<int, Outcome>)
    requires SheetShape(sh) && NoEmptyMatch(sh) && Accepted(sh, res)
    ensures SomeReady(BracketOf(sh, res)) <==> SomeAlive(sh, res)
  {
    hide Alive, ReadyAt, Accepted, NoEmptyMatch, BracketOf, IsReady, Pow2;
    if SomeAlive(sh, res) {
      var r, i :| Alive(sh, res, r, i);
      var s, x := AliveHasReady(sh, res, r, i);
      var j := ReadyPosition(sh, res, s, x);
    }
    if SomeReady(BracketOf(sh, res)) {
      var j :| 0 <= j < |BracketOf(sh, res)| && IsReady(BracketOf(sh, res)[j]);
      var r, i := LocateReady(sh, res, j);
      ReadyIsAlive(sh, res, r, i);
    }
  }

  ghost predicate NoVoid(res: map<int, Outcome>) {
    forall id :: id in res ==> res[id] != Void
  }

  lemma {:induction false} NoVoidIsClear(sh: Sheet, res: map<int, Outcome>, r: nat, i: nat)
    requires SheetShape(sh) && NoVoid(res) && r < sh.k && i < Pow2(sh.k - r - 1)
    ensures Clear(sh, res, r, i)
    decreases r
  {
    if r > 0 {
      NoVoidIsClear(sh, res, r - 1, 2 * i);
      NoVoidIsClear(sh, res, r - 1, 2 * i + 1);
    }
  }

  /** Without void results, a bracket whose final is open has a match to play. */
  lemma {:induction false} OpenFinalIsAlive(sh: Sheet, res: map<int, Outcome>)
    requires SheetShape(sh) && NoVoid(res) && FinalOutcome(sh, res).None?
    ensures SomeAlive(sh, res)
  {
    NoVoidIsClear(sh, res, sh.k - 1, 0);
    hide Clear, OutcomeAt;
    assert Alive(sh, res, sh.k - 1, 0);
  }

  // ---------- Swiss ----------

  /** Any two entrants met before round `t`. */
  ghost predicate EveryoneMet(es: seq<Entrant>, ms: seq<BracketMatch>, t: int) {
    forall i, j :: 0 <= i < j < |es| ==> MetBefore(ms, t, es[i].id, es[j].id)
  }

  lemma {:induction false} NewPairHadNotMet(ms: seq<BracketMatch>, t: int, p: nat, x: int, y: int)
    requires NoRematch(ms) && p < |ms| && ms[p].round == t && Pits(ms[p], x, y)
    ensures !MetBefore(ms, t, x, y)
  {
    forall q | 0 <= q < |ms| && ms[q].round < t ensures !Pits(ms[q], x, y) {
    }
  }

  /** A round has a match exactly when some two entrants had not met before it. */
  lemma {:induction false} RoundEmptyMeans(es: seq<Entrant>, entries: seq<SwissEntry>, ms: seq<BracketMatch>, t: nat)
    requires DistinctIds(es) && SwissInv(es, entries, ms, t + 1)
    ensures NoMatchIn(ms, t) <==> EveryoneMet(es, ms, t)
  {
    SwissParts(es, entries, ms, t + 1);
    assert NoRematch(ms) && IdleHaveMet(es, ms, t + 1);
    hide SwissInv, NoRematch, MetBefore;
    if NoMatchIn(ms, t) {
      assert forall i :: 0 <= i < |es| ==> Idle(ms, t, es[i].id);
    } else {
      var p :| 0 <= p < |ms| && ms[p].round == t;
      assert ProperMatch(es, ms[p], p + 1, t + 1);
      var i :| 0 <= i < |es| && es[i] == ms[p].a.value;
      var j :| 0 <= j < |es| && es[j] == ms[p].b.value;
      NewPairHadNotMet(ms, t, p, es[i].id, es[j].id);
      NewPairHadNotMet(ms, t, p, es[j].id, es[i].id);
      assert i != j;
    }
  }

  /** While a Swiss tournament is not complete, it has a match to play exactly when its round is not empty. */
  lemma {:induction false} SwissReadyMeans(es: seq<Entrant>, ms: seq<BracketMatch>, t: nat, rounds: nat)
    requires Proper(es, ms, t + 1) && (forall r :: 0 <= r < t ==> RoundDecided(ms, r)) && t < rounds
    requires !(rounds == t + 1 && ms != [] && AllDecided(ms))
    requires t + 1 < rounds && RoundDecided(ms, t) ==> NoMatchIn(ms, t)
    ensures SomeReady(ms) <==> !NoMatchIn(ms, t)
  {
    if SomeReady(ms) {
      var q :| 0 <= q < |ms| && IsReady(ms[q]);
      OpenIsCurrent(es, ms, t, q);
    }
    if !NoMatchIn(ms, t) {
      assert !RoundDecided(ms, t) by {
        if RoundDecided(ms, t) { EarlierDecided(es, ms, t); }
      }
      var q :| 0 <= q < |ms| && ms[q].round == t && ms[q].outcome.None?;
      OpenIsCurrent(es, ms, t, q);
    }
  }

  lemma {:induction false} EarlierDecided(es: seq<Entrant>, ms: seq<BracketMatch>, t: nat)
    requires Proper(es, ms, t + 1) && forall r :: 0 <= r <= t ==> RoundDecided(ms, r)
    ensures AllDecided(ms)
  {
    forall j | 0 <= j < |ms| ensures ms[j].outcome.Some? {
      assert ProperMatch(es, ms[j], j + 1, t + 1);
      assert RoundDecided(ms, ms[j].round);
    }
  }

  // ---------- the three formats ----------

  /**
   Round robin: an incomplete tournament always has a match to play. Single elimination: it has one exactly
   when some undecided match has no void match at or below it, so always if nothing was void. Swiss: exactly
   when some two entrants had not met before the current round; otherwise only `advance` moves on.
   */
  lemma {:induction false} HasMatchToPlay(t: Tournament)
    requires t.Valid() && !t.complete
    ensures t.format.AllPlayAll? ==> SomeReady(t.matches)
    ensures t.format.SingleElimination? ==> (SomeReady(t.matches) <==> SomeAlive(SheetOf(t.entrants), t.results))
    ensures t.format.SingleElimination? && NoVoid(t.results) ==> SomeReady(t.matches)
    ensures t.format.SwissSystem? ==> (SomeReady(t.matches) <==> !EveryoneMet(t.entrants, t.matches, t.swissRound))
  {
    match t.format {
      case AllPlayAll =>
        var j :| 0 <= j < |t.matches| && t.matches[j].outcome.None?;
        RoundRobinSides(t);
        assert IsReady(t.matches[j]);
      case SingleElimination =>
        var sh := SheetOf(t.entrants);
        FieldFillsMatches(t.entrants);
        hide BracketOf, SheetOf, SomeReady, SomeAlive, Accepted, NoEmptyMatch, FinalOutcome;
        BracketProgress(sh, t.results);
        if NoVoid(t.results) { OpenFinalIsAlive(sh, t.results); }
      case SwissSystem(rounds) =>
        SwissParts(t.entrants, t.swissEntries, t.matches, t.swissRound + 1);
        hide SwissInv, SomeReady, NoMatchIn, RoundDecided, Proper, AllDecided;
        SwissReadyMeans(t.entrants, t.matches, t.swissRound, rounds);
        RoundEmptyMeans(t.entrants, t.swissEntries, t.matches, t.swissRound);
    }
  }

  lemma {:induction false} RoundRobinSides(t: Tournament)
    requires t.Valid() && t.format.AllPlayAll?
    ensures forall j :: 0 <= j < |t.matches| ==> t.matches[j].a.Some? && t.matches[j].b.Some?
  {
    var es := t.entrants;
    var start :| RR.Lists(start, RR.Schedule(|es|), es, 1) && SameFixtures(start, t.matches);
    RR.ScheduleOncePerRound(|es|);
    var fs := RR.Schedule(|es|);
    hide RR.Schedule;
    forall j | 0 <= j < |t.matches| ensures t.matches[j].a.Some? && t.matches[j].b.Some? {
      SameMatch(start, t.matches, j);
      assert start[j] == RR.MatchFor(fs[j], es, 1 + j) && RR.Real(|es|, fs[j]);
    }
  }

  // ---------- a needless advance ----------

  lemma {:induction false} TwoEntrantsOneMatch(es: seq<Entrant>, entries: seq<SwissEntry>, ms: seq<BracketMatch>)
    requires |es| == 2 && DistinctIds(es) && SwissInv(es, entries, ms, 1)
    ensures |ms| == 1 && ms[0].round == 0 && ms[0].a.Some? && ms[0].b.Some?
  {
    SwissParts(es, entries, ms, 1);
    RoundEmptyMeans(es, entries, ms, 0);
    assert |ms| > 1 && ms[0].round == ms[1].round && PlaysIn(ms[0], es[0].id) ==> !PlaysIn(ms[1], es[0].id);
    hide SwissInv, OncePerRound;
    assert !MetBefore(ms, 0, es[0].id, es[1].id) by {
      forall q | 0 <= q < |ms| ensures !(ms[q].round < 0) {}
    }
    assert ms != [];
    forall q | 0 <= q < |ms|
      ensures ms[q].round == 0 && ms[q].a.Some? && ms[q].b.Some? && PlaysIn(ms[q], es[0].id)
    {
      assert ProperMatch(es, ms[q], q + 1, 1);
    }
  }

  lemma {:induction false} FirstIsReady(t: Tournament)
    requires t.Valid() && t.format == SwissSystem(1) && |t.entrants| == 2 && t.Undecided()
    ensures t.Refusal(1, WinA).None?
  {
    hide SwissInv, Recorded, AllDecided, NoMatchIn;
    TwoEntrantsOneMatch(t.entrants, t.swissEntries, t.matches);
  }

  lemma {:induction false} WinIsDecided(t: Tournament)
    requires t.Valid() && t.format == SwissSystem(1) && |t.entrants| == 2
    requires |t.matches| > 0 && t.matches[0].outcome == Some(WinA)
    ensures t.Advanceable() && t.swissRound == 0 && RoundDecided(t.matches, 0) && !Barren(t.matches, 0)
  {
    hide SwissInv, Recorded, AllDecided, NoMatchIn;
    TwoEntrantsOneMatch(t.entrants, t.swissEntries, t.matches);
  }

  /**
   Two entrants, one Swiss round, one win recorded: the tallies are right, and one more call of the
   public `advance` counts the win twice.
   */
  method AdvanceCountsTwice(a: Entrant, b: Entrant) returns (t: Tournament)
    requires a.id != b.id
    ensures t.Valid() && t.format == SwissSystem(1) && t.entrants == [a, b] && t.results == map[1 := WinA]
    ensures !t.TalliesUpToDate()
  {
    assert DistinctIds([a, b]);
    hide t.Valid, t.TalliesUpToDate, t.Undecided, DistinctIds, RoundDecided, Barren;
    var made := Tournament.New(SwissSystem(1), [a, b]);
    t := made.value;
    FirstIsReady(t);
    var recorded := t.Record(1, WinA);
    WinIsDecided(t);
    t.Advance();
  }

  // ---------- standing still ----------

  /** With no match to play every result is refused, and only then. */
  lemma {:induction false} NothingToRecord(t: Tournament)
    ensures SomeReady(t.matches) <==> exists id :: t.Refusal(id, WinA).None?
    ensures !SomeReady(t.matches) ==> forall id, outcome :: t.Refusal(id, outcome).Some?
  {
    hide IsReady;
    if SomeReady(t.matches) {
      var j :| 0 <= j < |t.matches| && IsReady(t.matches[j]);
      assert t.Refusal(j + 1, WinA).None?;
    }
    if id :| t.Refusal(id, WinA).None? { assert IsReady(t.matches[id - 1]); }
  }

  lemma {:induction false} FourSlots(es: seq<Entrant>)
    requires |es| == 4
    ensures var sh := SheetOf(es); sh.k == 2 && |sh.slots| == 4 && forall p :: 0 <= p < 4 ==> sh.slots[p].Some?
  {
    assert CeilLog2(4) == 2 && Pow2(2) == 4;
    forall p | 0 <= p < 4 ensures SheetOf(es).slots[p].Some? { assert Reverse(2, p) < Pow2(2); }
  }

  lemma {:induction false} RowsOfThree(k: nat)
    requires k == 2
    ensures Pow2(k) == 4 && Pow2(k - 1) == 2 && Pow2(k - 2) == 1
    ensures Index(k, 0, 0) == 0 && Index(k, 0, 1) == 1 && Index(k, 1, 0) == 2
  {
    hide Pow2, Index;
    Pow2Doubles(k);
    Pow2Doubles(k - 1);
    Pow2Zero();
    IndexMeans(k, 0, 0);
    IndexMeans(k, 0, 1);
    IndexMeans(k, 1, 0);
  }

  /** The three matches of a full bracket of four. */
  lemma {:induction false} FourPlayers(sh: Sheet, res: map<int, Outcome>)
    requires SheetShape(sh) && sh.k == 2 && forall p :: 0 <= p < |sh.slots| ==> sh.slots[p].Some?
    ensures var ms := BracketOf(sh, res);
      && |ms| == 3 && (IsReady(ms[0]) <==> 1 !in res) && (IsReady(ms[1]) <==> 2 !in res)
      && (Lookup(res, 1) == Some(Void) ==> !IsReady(ms[2]))
    ensures FinalOutcome(sh, res) == Lookup(res, 3)
  {
    hide BracketOf, Locate, Index, Pow2;
    RowsOfThree(sh.k);
    BracketAt(sh, res, 0, 0);
    BracketAt(sh, res, 0, 1);
    BracketAt(sh, res, 1, 0);
  }

  lemma {:induction false} BracketIs(t: Tournament)
    requires t.Valid() && t.format == SingleElimination
    ensures t.matches == BracketOf(SheetOf(t.entrants), t.results)
    ensures t.complete <==> FinalOutcome(SheetOf(t.entrants), t.results).Some?
  {
    hide BracketOf, SheetOf, Accepted, Partial, FinalOutcome, DistinctIds;
  }

  lemma {:induction false} ReadyIsTaken(t: Tournament, id: int, outcome: Outcome)
    requires 1 <= id <= |t.matches| && IsReady(t.matches[id - 1]) && outcome != Draw
    ensures t.Refusal(id, outcome).None?
  {
  }

  lemma {:induction false} FirstTaken(t: Tournament)
    requires t.Valid() && t.format == SingleElimination && |t.entrants| == 4 && t.results == map[]
    ensures t.Refusal(1, Void).None?
  {
    hide *;
    FourSlots(t.entrants);
    BracketIs(t);
    FourPlayers(SheetOf(t.entrants), t.results);
    ReadyIsTaken(t, 1, Void);
  }

  lemma {:induction false} SecondTaken(t: Tournament)
    requires t.Valid() && t.format == SingleElimination && |t.entrants| == 4 && t.results == map[1 := Void]
    ensures t.Refusal(2, WinA).None?
  {
    hide *;
    FourSlots(t.entrants);
    BracketIs(t);
    FourPlayers(SheetOf(t.entrants), t.results);
    ReadyIsTaken(t, 2, WinA);
  }

  lemma {:induction false} NoneOfThree(ms: seq<BracketMatch>)
    requires |ms| == 3 && !IsReady(ms[0]) && !IsReady(ms[1]) && !IsReady(ms[2])
    ensures !SomeReady(ms)
  {
    hide IsReady;
  }

  lemma {:induction false} ThreeLookups(res: map<int, Outcome>)
    requires res == map[1 := Void][2 := WinA]
    ensures 1 in res && 2 in res && Lookup(res, 1) == Some(Void) && Lookup(res, 3).None?
  {
  }

  lemma {:induction false} ThirdClosed(t: Tournament)
    requires t.Valid() && t.format == SingleElimination && |t.entrants| == 4
    requires t.results == map[1 := Void][2 := WinA]
    ensures !t.complete && !SomeReady(t.matches)
  {
    hide *;
    FourSlots(t.entrants);
    BracketIs(t);
    FourPlayers(SheetOf(t.entrants), t.results);
    ThreeLookups(t.results);
    NoneOfThree(t.matches);
  }

  /**
   Four players, the first match void and the second won: nobody can reach the A side of the final, so the
   bracket is not complete and has nothing left to play.
   */
  method VoidClosesBracket(es: seq<Entrant>) returns (t: Tournament)
    requires |es| == 4 && DistinctIds(es)
    ensures t.Valid() && t.format == SingleElimination && t.entrants == es && t.results == map[1 := Void, 2 := WinA]
    ensures !t.complete && !SomeReady(t.matches)
  {
    hide *;
    var made := Tournament.New(SingleElimination, es);
    t := made.value;
    FirstTaken(t);
    var first := t.Record(1, Void);
    SecondTaken(t);
    var second := t.Record(2, WinA);
    ThirdClosed(t);
  }

  /** Such a bracket is closed off for good: `advance` changes nothing in it. */
  method AdvanceKeepsBracket(t: Tournament)
    requires t.Valid() && t.format.SingleElimination?
    modifies t
    ensures t.Valid() && t.matches == old(t.matches) && t.complete == old(t.complete) && t.results == old(t.results)
  {
    hide BracketOf, SheetOf, Accepted, Partial, FinalOutcome, DistinctIds;
    t.Advance();
  }

  lemma {:induction false} FirstRoundReady(t: Tournament)
    requires t.Valid() && t.format.SwissSystem? && |t.entrants| == 2 && t.Undecided() && t.swissRound == 0
    ensures t.Refusal(1, WinA).None? && RoundDecided(t.Written(1, WinA), 0)
  {
    hide SwissInv, Recorded, AllDecided, NoMatchIn;
    TwoEntrantsOneMatch(t.entrants, t.swissEntries, t.matches);
  }

  lemma {:induction false} NotBothIdle(es: seq<Entrant>, ms: seq<BracketMatch>, t: nat)
    requires |es| >= 2 && t > 0 && IdleHaveMet(es, ms, t)
    ensures !Idle(ms, 0, es[0].id) || !Idle(ms, 0, es[1].id)
  {
    assert !MetBefore(ms, 0, es[0].id, es[1].id);
  }

  /** Two entrants alone have met in the first round. */
  lemma {:induction false} TwoMeetFirst(es: seq<Entrant>, entries: seq<SwissEntry>, ms: seq<BracketMatch>)
    requires |es| == 2 && DistinctIds(es) && SwissInv(es, entries, ms, 2)
    ensures EveryoneMet(es, ms, 1)
  {
    SwissParts(es, entries, ms, 2);
    NotBothIdle(es, ms, 2);
    hide SwissInv, Proper;
    assert !NoMatchIn(ms, 0);
    var q :| 0 <= q < |ms| && ms[q].round == 0;
    ProperAt(es, ms, 2, q);
    assert Pits(ms[q], es[0].id, es[1].id);
  }

  lemma {:induction false} ProperAt(es: seq<Entrant>, ms: seq<BracketMatch>, t: int, q: nat)
    requires Proper(es, ms, t) && q < |ms|
    ensures ProperMatch(es, ms[q], q + 1, t)
  {
  }

  lemma {:induction false} TwoHaveMet(t: Tournament)
    requires t.Valid() && t.format == SwissSystem(3) && |t.entrants| == 2 && t.swissRound == 1
    ensures !t.complete && !SomeReady(t.matches)
  {
    hide Recorded, AllDecided, NoMatchIn, RoundDecided, SwissInv, SomeReady, EveryoneMet;
    TwoMeetFirst(t.entrants, t.swissEntries, t.matches);
    HasMatchToPlay(t);
  }

  /** Two entrants, three Swiss rounds, one win: the second round is empty and nothing can be played. */
  method EmptySwissRound(a: Entrant, b: Entrant) returns (t: Tournament)
    requires a.id != b.id
    ensures t.Valid() && t.format == SwissSystem(3) && t.entrants == [a, b] && t.results == map[1 := WinA]
    ensures t.swissRound == 1 && !t.complete && !SomeReady(t.matches)
  {
    assert DistinctIds([a, b]);
    hide t.Valid, t.TalliesUpToDate, t.Undecided, t.Refusal, DistinctIds, RoundDecided, SomeReady;
    var made := Tournament.New(SwissSystem(3), [a, b]);
    t := made.value;
    FirstRoundReady(t);
    var recorded := t.Record(1, WinA);
    TwoHaveMet(t);
  }

  /** A Swiss tournament always has a match: the first round is never empty. */
  lemma {:induction false} SomeMatchIn(es: seq<Entrant>, entries: seq<SwissEntry>, ms: seq<BracketMatch>, t: nat)
    requires |es| >= 2 && SwissInv(es, entries, ms, t + 1)
    ensures ms != []
  {
    NotBothIdle(es, ms, t + 1);
  }

  /** Whoever had met before a round has met before the next, with matches added. */
  lemma {:induction false} MetStays(es: seq<Entrant>, ms: seq<BracketMatch>, ns: seq<BracketMatch>, t: nat)
    requires EveryoneMet(es, ms, t) && |ms| <= |ns| && ns[..|ms|] == ms
    ensures EveryoneMet(es, ns, t + 1)
  {
    forall i, j | 0 <= i < j < |es| ensures MetBefore(ns, t + 1, es[i].id, es[j].id) {
      assert MetBefore(ms, t, es[i].id, es[j].id);
      var q :| 0 <= q < |ms| && ms[q].round < t && Pits(ms[q], es[i].id, es[j].id);
      assert ns[..|ms|][q] == ns[q];
    }
  }

  /** With everyone met before the current round, nothing is ready, and only the last round completes. */
  lemma {:induction false} NobodyLeft(t: Tournament)
    requires t.Valid() && t.format.SwissSystem? && EveryoneMet(t.entrants, t.matches, t.swissRound)
    ensures !SomeReady(t.matches) && RoundDecided(t.matches, t.swissRound)
    ensures t.complete <==> t.format.rounds == t.swissRound + 1
  {
    var es, ms, r := t.entrants, t.matches, t.swissRound;
    SwissParts(es, t.swissEntries, ms, r + 1);
    SomeMatchIn(es, t.swissEntries, ms, r);
    RoundEmptyMeans(es, t.swissEntries, ms, r);
    hide SwissInv, EveryoneMet, Proper, Recorded;
    EarlierDecided(es, ms, r);
  }

  /**
   An empty Swiss round is left by one call of `advance`, and the next one is empty too; in the last round the
   tournament is then complete.
   */
  method LeaveEmptyRound(t: Tournament)
    requires t.Valid() && t.format.SwissSystem? && !t.complete && !SomeReady(t.matches)
    modifies t
    ensures t.Valid() && t.swissRound == old(t.swissRound) + 1 && !SomeReady(t.matches)
    ensures t.complete <==> t.format.rounds == t.swissRound + 1
  {
    hide t.Valid, EveryoneMet, SomeReady, RoundDecided;
    HasMatchToPlay(t);
    NobodyLeft(t);
    SwissIsAdvanceable(t);
    ghost var ms, r := t.matches, t.swissRound;
    t.Advance();
    MetStays(t.entrants, ms, t.matches, r);
    NobodyLeft(t);
  }

  lemma {:induction false} SwissIsAdvanceable(t: Tournament)
    requires t.Valid() && t.format.SwissSystem?
    ensures t.Advanceable() && t.swissRound < t.format.rounds
  {
    hide SwissInv, Recorded, RoundDecided, AllDecided, NoMatchIn;
  }

  // ---------- what a recorded result counts ----------

  /** Matches beyond those of the recorded results are open, and every match of the two formats has two players. */
  lemma {:induction false} BeyondIsOpen(t: Tournament, n: nat)
    requires t.Valid() && !t.format.SingleElimination? && forall id :: id in t.results ==> id <= n
    ensures forall q :: n <= q < |t.matches| ==> t.matches[q].outcome.None?
  {
    hide SwissInv, RoundDecided, AllDecided, NoMatchIn, DistinctIds;
  }

  lemma {:induction false} ResultsInRange(t: Tournament)
    requires t.Valid() && !t.format.SingleElimination?
    ensures forall id :: id in t.results ==> 1 <= id <= |t.matches|
  {
    hide SwissInv, RoundDecided, AllDecided, NoMatchIn, DistinctIds;
  }

  lemma {:induction false} DifferentPlayers(t: Tournament, j: nat)
    requires t.Valid() && j < |t.matches| && IsReady(t.matches[j])
    ensures t.matches[j].a.value.id != t.matches[j].b.value.id
  {
    hide t.Valid;
    t.ValidIsConsistent();
    assert Between(t.entrants, t.matches[j]);
  }

  /**
   In round robin and Swiss every outcome of a ready match is accepted, draws included, and the recount then shows
   it: a win and a loss, a draw for both, or nothing for a void match, and no change to anybody else.
   */
  method RecordCounts(t: Tournament, id: int, outcome: Outcome) returns (r: Result<(), TournamentError>)
    requires t.Valid() && !t.format.SingleElimination? && 1 <= id <= |t.matches| && IsReady(t.matches[id - 1])
    modifies t
    ensures r.Ok? && t.Valid() && t.results == old(t.results)[id := outcome]
    ensures forall e ::
      RowFor(e, t.matches, |t.matches|)
      == RowAfter(RowFor(e, old(t.matches), |old(t.matches)|), old(t.matches)[id - 1], outcome)
  {
    hide t.Valid, RowFor, RowAfter;
    ghost var ms := t.matches;
    ResultsInRange(t);
    DifferentPlayers(t, id - 1);
    r := t.Record(id, outcome);
    BeyondIsOpen(t, |ms|);
    forall e ensures RowFor(e, t.matches, |t.matches|) == RowAfter(RowFor(e, ms, |ms|), ms[id - 1], outcome) {
      OutcomeCounts(ms, t.matches, id - 1, outcome, e);
    }
  }
}
