/** The tournament driver: the class of web/src/lib/engine/tournament.ts. */
module TournamentEngine {
  import opened Wrappers
  import opened EngineTypes
  import opened Sorting
  import opened Seeding
  import opened Bracket
  import opened Propagation
  import opened SingleElim
  import opened Knockout
  import opened Placement
  import RR = RoundRobin
  import opened Swiss
  import opened SwissRun

  datatype Format = SingleElimination | AllPlayAll | SwissSystem(rounds: nat)

  datatype TournamentError =
    | TooFewEntrants | DuplicateEntrant | InvalidSwissRounds
    | UnknownMatch | NotRecordable | DrawNotAllowed

  /** A winner on its way to a slot. */
  datatype Update = Update(target: Target, winner: Entrant)

  ghost predicate ValidUpdate(full: seq<BracketMatch>, ms: seq<BracketMatch>, u: Update) {
    && 1 <= u.target.matchId <= |ms| == |full|
    && full[u.target.matchId - 1].round > 0
    && MatchSide(full[u.target.matchId - 1], u.target.side) == Some(u.winner)
    && !Filled(ms, u.target)
  }

  // ---------- outcomes and recorded results ----------

  /** Outcomes are exactly the recorded results: what round robin and Swiss keep. */
  ghost predicate Recorded(ms: seq<BracketMatch>, res: map<int, Outcome>) {
    && (forall j :: 0 <= j < |ms| ==> ms[j].outcome == Lookup(res, j + 1))
    && forall id :: id in res ==> 1 <= id <= |ms|
  }

  lemma {:induction false} RecordedWrite(ms: seq<BracketMatch>, res: map<int, Outcome>, j: nat, o: Outcome)
    requires Recorded(ms, res) && j < |ms|
    ensures Recorded(ms[j := ms[j].(outcome := Some(o))], res[j + 1 := o])
  {
  }

  lemma {:induction false} RecordedGrows(ms: seq<BracketMatch>, ns: seq<BracketMatch>, res: map<int, Outcome>)
    requires Recorded(ms, res) && |ms| <= |ns| && ns[..|ms|] == ms
    requires forall q :: |ms| <= q < |ns| ==> ns[q].outcome.None?
    ensures Recorded(ns, res)
  {
    forall j | 0 <= j < |ns| ensures ns[j].outcome == Lookup(res, j + 1) {
      if j < |ms| { assert ns[j] == ns[..|ms|][j] == ms[j]; }
    }
  }

  lemma {:induction false} NothingRecorded(ms: seq<BracketMatch>)
    requires forall j :: 0 <= j < |ms| ==> ms[j].outcome.None?
    ensures Recorded(ms, map[])
  {
  }

  // ---------- completeness tests of the three formats ----------

  predicate FinalDecided(ms: seq<BracketMatch>) {
    exists j :: 0 <= j < |ms| && ms[j].winnerTo.None? && ms[j].outcome.Some?
  }

  function CountPlayable(ms: seq<BracketMatch>): nat {
    if ms == [] then 0 else (if IsBye(ms[0]) then 0 else 1) + CountPlayable(ms[1..])
  }

  function CountDecided(ms: seq<BracketMatch>): nat {
    if ms == [] then 0 else (if ms[0].outcome.Some? then 1 else 0) + CountDecided(ms[1..])
  }

  predicate SwissComplete(ms: seq<BracketMatch>, round: nat, rounds: nat) {
    rounds == round + 1 && CountPlayable(ms) > 0 && CountPlayable(ms) == CountDecided(ms)
  }

  predicate NoMatchIn(ms: seq<BracketMatch>, t: int) {
    forall q :: 0 <= q < |ms| ==> ms[q].round != t
  }

  lemma {:induction false} CountsAgree(ms: seq<BracketMatch>)
    requires forall j :: 0 <= j < |ms| ==> ms[j].a.Some? && ms[j].b.Some?
    ensures CountPlayable(ms) == |ms| && CountDecided(ms) <= |ms|
    ensures CountDecided(ms) == |ms| <==> AllDecided(ms)
    decreases |ms|
  {
    if ms != [] {
      CountsAgree(ms[1..]);
      assert ms == [ms[0]] + ms[1..];
      if AllDecided(ms[1..]) && ms[0].outcome.Some? {
        forall j | 0 <= j < |ms| ensures ms[j].outcome.Some? {
          if j > 0 { assert ms[1..][j - 1].outcome.Some?; }
        }
      }
      if AllDecided(ms) {
        forall j | 0 <= j < |ms[1..]| ensures ms[1..][j].outcome.Some? { assert ms[j + 1].outcome.Some?; }
      }
    }
  }

  lemma {:induction false} OpenMeans(es: seq<Entrant>, ms: seq<BracketMatch>, t: nat)
    requires Proper(es, ms, t + 1)
    ensures (exists j :: 0 <= j < |ms| && ms[j].round == t && IsReady(ms[j])) <==> !RoundDecided(ms, t)
  {
    if !RoundDecided(ms, t) {
      var q :| 0 <= q < |ms| && ms[q].round == t && ms[q].outcome.None?;
      assert ProperMatch(es, ms[q], q + 1, t + 1);
      assert IsReady(ms[q]);
    }
  }

  lemma {:induction false} CompleteMeans(es: seq<Entrant>, ms: seq<BracketMatch>, t: nat, rounds: nat)
    requires Proper(es, ms, t + 1)
    ensures SwissComplete(ms, t, rounds) <==> rounds == t + 1 && ms != [] && AllDecided(ms)
  {
    forall j | 0 <= j < |ms| ensures ms[j].a.Some? && ms[j].b.Some? {
      assert ProperMatch(es, ms[j], j + 1, t + 1);
    }
    CountsAgree(ms);
    hide CountPlayable, CountDecided;
  }

  /** On a bracket, the completeness test asks whether the final is decided. */
  lemma {:induction false} FinalDecidedMeans(sh: Sheet, res: map<int, Outcome>)
    requires SheetShape(sh)
    ensures FinalDecided(BracketOf(sh, res)) <==> FinalOutcome(sh, res).Some?
  {
    var ms := BracketOf(sh, res);
    var last := Pow2(sh.k) - 2;
    FinalIsLast(sh, res, last);
    hide Arrives, OutcomeAt;
    forall j | 0 <= j < |ms| ensures ms[j].winnerTo.None? <==> j == last {
      FinalIsLast(sh, res, j);
    }
    assert ms[last].outcome == FinalOutcome(sh, res);
    hide BracketOf;
  }

  // ---------- pairing a Swiss round ----------

  /** `ns` are the matches of the greedy pairs, each with the best-ranked opponent still free and not yet met. */
  ghost predicate ListsRound(ns: seq<BracketMatch>, entries: seq<SwissEntry>, startId: int, t: nat) {
    && IndexOrder(PairingOrder(entries), |entries|)
    && RoundMatches(ns, entries, RoundPairs(entries), startId, t)
    && forall q :: 0 <= q < |RoundPairs(entries)| ==> BestFree(entries, RoundPairs(entries), q)
  }

  lemma {:induction false} RoundIsListed(es: seq<Entrant>, entries: seq<SwissEntry>, ns: seq<BracketMatch>,
      startId: int, t: nat)
    requires DistinctIds(es) && Roster(es, entries) && IndexOrder(PairingOrder(entries), |entries|)
    requires RoundMatches(ns, entries, RoundPairs(entries), startId, t)
    ensures ListsRound(ns, entries, startId, t)
  {
    hide BestFree, RoundPairs, PairingOrder, RoundMatches;
    assert DistinctEntries(entries);
    forall q | 0 <= q < |RoundPairs(entries)| ensures BestFree(entries, RoundPairs(entries), q) {
      PairsAreBestFree(entries, q);
    }
  }

  /** Only matches of round `t` are new, and they are open. */
  ghost predicate NewMatches(ms: seq<BracketMatch>, all: seq<BracketMatch>, t: nat) {
    && |ms| <= |all| && all[..|ms|] == ms
    && forall q :: |ms| <= q < |all| ==> all[q].round == t && all[q].outcome.None?
  }

  ghost predicate SameTallies(entries: seq<SwissEntry>, marked: seq<SwissEntry>) {
    |marked| == |entries| && forall i, k :: 0 <= i < |marked| ==> TallyIn(marked[i], k) == TallyIn(entries[i], k)
  }

  /** Pairing round `t`: the invariant holds again, and the new matches are the listed round. */
  ghost predicate RoundAdded(es: seq<Entrant>, entries: seq<SwissEntry>, marked: seq<SwissEntry>, ms: seq<BracketMatch>,
      all: seq<BracketMatch>, t: nat) {
    && NewMatches(ms, all, t) && SameTallies(entries, marked) && SwissInv(es, marked, all, t + 1)
    && ListsRound(all[|ms|..], entries, |ms| + 1, t)
  }

  lemma {:induction false} OrderIsIndexOrder(entries: seq<SwissEntry>)
    ensures IndexOrder(PairingOrder(entries), |entries|)
  {
    PairingOrderIsPermutation(entries);
    hide PairingOrder, NoDup;
  }

  lemma {:induction false} PairsCount(out: seq<SwissPair>, entries: seq<SwissEntry>, pairs: seq<(int, int)>,
      startId: int)
    requires ListsPairs(out, entries, pairs, startId)
    ensures |out| == |pairs|
  {
  }

  lemma {:induction false} MatchesCount(ns: seq<BracketMatch>, entries: seq<SwissEntry>, pairs: seq<(int, int)>,
      startId: int, t: nat)
    requires RoundMatches(ns, entries, pairs, startId, t)
    ensures |ns| == |pairs|
  {
  }

  lemma {:induction false} RoundEntered(es: seq<Entrant>, entries: seq<SwissEntry>, ms: seq<BracketMatch>,
      ns: seq<BracketMatch>, t: nat)
    requires DistinctIds(es) && SwissInv(es, entries, ms, t) && IndexOrder(PairingOrder(entries), |entries|)
    requires RoundMatches(ns, entries, RoundPairs(entries), |ms| + 1, t)
    ensures forall q :: 0 <= q < |RoundPairs(entries)| ==>
      0 <= RoundPairs(entries)[q].0 < |entries| && 0 <= RoundPairs(entries)[q].1 < |entries|
    ensures RoundAdded(es, entries, MarkPlayed(entries, RoundPairs(entries)), ms, ms + ns, t)
  {
    RoundPairsAreGood(entries);
    SwissParts(es, entries, ms, t);
    var pairs := RoundPairs(entries);
    assert FreshPairs(entries, pairs);
    hide *;
    PairsInRange(entries, pairs);
    assert Pairing(es, entries, ms, t, pairs, ns) by { PairingHolds(es, entries, ms, t, pairs, ns); }
    PairingKeepsInv(es, entries, ms, t, pairs, ns);
    RoundIsListed(es, entries, ns, |ms| + 1, t);
    assert (ms + ns)[|ms|..] == ns;
    MatchesAreNew(entries, ms, ns, pairs, t);
    MarkingKeepsTallies(entries, pairs);
    RoundAddedBy(es, entries, MarkPlayed(entries, pairs), ms, ms + ns, t);
  }

  lemma {:induction false} PairsInRange(entries: seq<SwissEntry>, pairs: seq<(int, int)>)
    requires FreshPairs(entries, pairs)
    ensures forall q :: 0 <= q < |pairs| ==> 0 <= pairs[q].0 < |entries| && 0 <= pairs[q].1 < |entries|
  {
  }

  lemma {:induction false} PairingHolds(es: seq<Entrant>, entries: seq<SwissEntry>, ms: seq<BracketMatch>, t: nat,
      pairs: seq<(int, int)>, ns: seq<BracketMatch>)
    requires DistinctIds(es) && SwissInv(es, entries, ms, t)
    requires GoodRound(entries, pairs) && RoundMatches(ns, entries, pairs, |ms| + 1, t)
    ensures Pairing(es, entries, ms, t, pairs, ns)
  {
  }

  lemma {:induction false} MatchesAreNew(entries: seq<SwissEntry>, ms: seq<BracketMatch>, ns: seq<BracketMatch>,
      pairs: seq<(int, int)>, t: nat)
    requires RoundMatches(ns, entries, pairs, |ms| + 1, t)
    ensures NewMatches(ms, ms + ns, t)
  {
    var all := ms + ns;
    assert all[..|ms|] == ms;
    forall q | |ms| <= q < |all| ensures all[q].round == t && all[q].outcome.None? {
      assert all[q] == ns[q - |ms|];
    }
  }

  lemma {:induction false} MarkingKeepsTallies(entries: seq<SwissEntry>, pairs: seq<(int, int)>)
    requires forall q :: 0 <= q < |pairs| ==> 0 <= pairs[q].0 < |entries| && 0 <= pairs[q].1 < |entries|
    ensures SameTallies(entries, MarkPlayed(entries, pairs))
  {
    var marked := MarkPlayed(entries, pairs);
    hide MarkPlayed;
    forall i, k | 0 <= i < |marked| ensures TallyIn(marked[i], k) == TallyIn(entries[i], k) {
      assert marked[i].(played := {}) == entries[i].(played := {});
    }
  }

  lemma {:induction false} RoundAddedBy(es: seq<Entrant>, entries: seq<SwissEntry>, marked: seq<SwissEntry>,
      ms: seq<BracketMatch>, all: seq<BracketMatch>, t: nat)
    requires NewMatches(ms, all, t) && SameTallies(entries, marked) && SwissInv(es, marked, all, t + 1)
    requires |ms| <= |all| && ListsRound(all[|ms|..], entries, |ms| + 1, t)
    ensures RoundAdded(es, entries, marked, ms, all, t)
  {
    hide NewMatches, SameTallies, SwissInv, ListsRound;
  }

  /** What the first round of a fresh Swiss tournament leaves. */
  lemma {:induction false} FirstRound(es: seq<Entrant>, entries: seq<SwissEntry>, marked: seq<SwissEntry>,
      all: seq<BracketMatch>)
    requires RoundAdded(es, entries, marked, [], all, 0) && TalliesExact(es, entries, [], 0)
    ensures SwissInv(es, marked, all, 1) && Proper(es, all, 1) && Recorded(all, map[])
    ensures TalliesExact(es, marked, all, ClosedRounds(all, 0)) && (RoundDecided(all, 0) ==> NoMatchIn(all, 0))
    ensures forall j :: 0 <= j < |all| ==> all[j].outcome.None?
  {
    hide ListsRound, SwissInv, TalliesExact, TallyIn;
    assert Proper(es, [], 0);
    NextRoundPaired(es, entries, marked, [], all, 0);
    SwissParts(es, marked, all, 1);
    NothingRecorded(all);
    hide Proper, Recorded, RoundDecided;
  }

  // ---------- standings ----------

  datatype Standing = Standing(id: int, wins: nat, draws: nat, losses: nat)

  /** More wins, then fewer losses, then the smaller id. */
  predicate StandingLe(x: Standing, y: Standing) {
    || x.wins > y.wins
    || (x.wins == y.wins && (x.losses < y.losses || (x.losses == y.losses && x.id <= y.id)))
  }

  /** Wins (or draws, or losses) of `id` over the first `n` matches. */
  function Tot(ms: seq<BracketMatch>, n: nat, id: int, k: Kind): nat
    requires n <= |ms|
  {
    if n == 0 then 0 else Tot(ms, n - 1, id, k) + Worth(ms[n - 1], id, k)
  }

  function RowFor(id: int, ms: seq<BracketMatch>, n: nat): Standing
    requires n <= |ms|
  {
    Standing(id, Tot(ms, n, id, Won), Tot(ms, n, id, Drew), Tot(ms, n, id, Lost))
  }

  /** The recount after the first `n` matches, in roster order. */
  function Recount(es: seq<Entrant>, ms: seq<BracketMatch>, n: nat): (rows: seq<Standing>)
    requires n <= |ms|
    ensures |rows| == |es| && forall i :: 0 <= i < |es| ==> rows[i] == RowFor(es[i].id, ms, n)
  {
    if es == [] then [] else [RowFor(es[0].id, ms, n)] + Recount(es[1..], ms, n)
  }

  function CreditRows(rows: seq<Standing>, ia: nat, ib: nat, o: Outcome): seq<Standing>
    requires ia < |rows| && ib < |rows|
  {
    match o
    case WinA =>
      var r := rows[ia := rows[ia].(wins := rows[ia].wins + 1)];
      r[ib := r[ib].(losses := r[ib].losses + 1)]
    case WinB =>
      var r := rows[ib := rows[ib].(wins := rows[ib].wins + 1)];
      r[ia := r[ia].(losses := r[ia].losses + 1)]
    case Draw =>
      var r := rows[ia := rows[ia].(draws := rows[ia].draws + 1)];
      r[ib := r[ib].(draws := r[ib].draws + 1)]
    case Void => rows
  }

  lemma {:induction false} Recount0(es: seq<Entrant>, ms: seq<BracketMatch>)
    ensures Recount(es, [], 0) == Recount(es, ms, 0)
  {
  }

  lemma {:induction false} RecountSkip(es: seq<Entrant>, ms: seq<BracketMatch>, n: nat)
    requires n < |ms| && (ms[n].outcome.None? || ms[n].a.None? || ms[n].b.None?)
    ensures Recount(es, ms, n + 1) == Recount(es, ms, n)
  {
  }

  /** What one match adds to one row. */
  lemma {:induction false} CreditsRow(rows: seq<Standing>, ia: nat, ib: nat, i: nat, m: BracketMatch)
    requires ia < |rows| && ib < |rows| && i < |rows| && ia != ib
    requires m.a.Some? && m.b.Some? && m.outcome.Some?
    requires m.a.value.id == rows[i].id <==> i == ia
    requires m.b.value.id == rows[i].id <==> i == ib
    ensures var next := CreditRows(rows, ia, ib, m.outcome.value);
      |next| == |rows| && next[i] == Standing(rows[i].id, rows[i].wins + Worth(m, rows[i].id, Won),
        rows[i].draws + Worth(m, rows[i].id, Drew), rows[i].losses + Worth(m, rows[i].id, Lost))
  {
  }

  lemma {:induction false} RowGrows(id: int, ms: seq<BracketMatch>, n: nat)
    requires n < |ms|
    ensures var row := RowFor(id, ms, n);
      RowFor(id, ms, n + 1) == Standing(id, row.wins + Worth(ms[n], id, Won),
        row.draws + Worth(ms[n], id, Drew), row.losses + Worth(ms[n], id, Lost))
  {
    hide Worth;
  }

  lemma {:induction false} RecountStep(es: seq<Entrant>, ms: seq<BracketMatch>, n: nat, ia: nat, ib: nat)
    requires DistinctIds(es) && n < |ms| && ia < |es| && ib < |es| && ia != ib
    requires ms[n].a == Some(es[ia]) && ms[n].b == Some(es[ib]) && ms[n].outcome.Some?
    ensures Recount(es, ms, n + 1) == CreditRows(Recount(es, ms, n), ia, ib, ms[n].outcome.value)
  {
    hide CreditRows, Worth, Recount, Tot, DistinctIds;
    var rows := Recount(es, ms, n);
    var next := CreditRows(rows, ia, ib, ms[n].outcome.value);
    forall i | 0 <= i < |es| ensures |next| == |es| && RowFor(es[i].id, ms, n + 1) == next[i] {
      assert rows[i] == RowFor(es[i].id, ms, n);
      IndexOfId(es, i, ia);
      IndexOfId(es, i, ib);
      RowGrows(es[i].id, ms, n);
      CreditsRow(rows, ia, ib, i, ms[n]);
    }
    assert |next| == |es| by { assert 0 <= ia < |es|; }
    hide RowFor;
  }

  /** A recount over all matches is the count over all rounds. */
  lemma {:induction false} TotIsBefore(ms: seq<BracketMatch>, n: nat, t: int, id: int, k: Kind)
    requires n <= |ms| && forall q :: 0 <= q < |ms| ==> ms[q].round < t
    ensures Tot(ms, n, id, k) == Before(ms, n, t, id, k)
  {
    hide Worth;
    if n > 0 { TotIsBefore(ms, n - 1, t, id, k); }
  }

  /** Whenever a Swiss round closes, the incremental tallies equal the standings. */
  lemma {:induction false} TalliesMatchStandings(es: seq<Entrant>, entries: seq<SwissEntry>, ms: seq<BracketMatch>,
      t: nat, i: nat)
    requires SwissInv(es, entries, ms, t + 1) && RoundDecided(ms, t) && i < |es|
    requires TalliesExact(es, entries, ms, ClosedRounds(ms, t))
    ensures var row := Recount(es, ms, |ms|)[i];
      row == Standing(entries[i].entrant.id, entries[i].wins, entries[i].draws, entries[i].losses)
  {
    SwissParts(es, entries, ms, t + 1);
    forall q | 0 <= q < |ms| ensures ms[q].round < t + 1 { assert ProperMatch(es, ms[q], q + 1, t + 1); }
    hide SwissInv, Before, Tot, Proper;
    forall k ensures TallyIn(entries[i], k) == Tot(ms, |ms|, es[i].id, k) {
      TotIsBefore(ms, |ms|, t + 1, es[i].id, k);
    }
    assert TallyIn(entries[i], Won) == Tot(ms, |ms|, es[i].id, Won);
    assert TallyIn(entries[i], Drew) == Tot(ms, |ms|, es[i].id, Drew);
    assert TallyIn(entries[i], Lost) == Tot(ms, |ms|, es[i].id, Lost);
  }

  class Tournament {
    const format: Format
    const entrants: seq<Entrant>
    /** The values of the match map in insertion order; the key of `matches[j]` is `j + 1`. */
    var matches: seq<BracketMatch>
    var nextId: int
    var complete: bool
    var swissEntries: seq<SwissEntry>
    var swissRound: nat
    /** Every result recorded so far. */
    ghost var results: map<int, Outcome>

    // ---------- invariant ----------

    ghost function Full(): seq<BracketMatch>
      reads this
    {
      BracketOf(SheetOf(entrants), results)
    }

    /** What holds of the matches while an advance is due: everything but its effects. */
    ghost predicate Advanceable()
      reads this
    {
      AdvanceableWith(matches, results)
    }

    /** The same of a match list and a set of results that are yet to be written. */
    ghost predicate AdvanceableWith(ms: seq<BracketMatch>, res: map<int, Outcome>)
      reads this`nextId, this`swissRound, this`swissEntries, this`complete
    {
      && |entrants| >= 2 && DistinctIds(entrants)
      && nextId == |ms| + 1
      && match format
         case SingleElimination => Accepted(SheetOf(entrants), res) && Partial(BracketOf(SheetOf(entrants), res), ms)
         case AllPlayAll =>
           && Recorded(ms, res)
           && exists start :: RR.Lists(start, RR.Schedule(|entrants|), entrants, 1) && SameFixtures(start, ms)
         case SwissSystem(rounds) =>
           && swissRound < rounds && Recorded(ms, res)
           && SwissInv(entrants, swissEntries, ms, swissRound + 1)
           && (forall r :: 0 <= r < swissRound ==> RoundDecided(ms, r))
           && (complete ==> AllDecided(ms))
    }

    ghost predicate Valid()
      reads this
    {
      && Advanceable()
      && match format
         case SingleElimination => matches == Full() && complete == FinalOutcome(SheetOf(entrants), results).Some?
         case AllPlayAll => complete == AllDecided(matches)
         case SwissSystem(rounds) =>
           && complete == (rounds == swissRound + 1 && matches != [] && AllDecided(matches))
           && (swissRound + 1 < rounds && RoundDecided(matches, swissRound) ==> NoMatchIn(matches, swissRound))
    }

    /** The Swiss tallies are exact for every round that has been fully decided. */
    ghost predicate TalliesUpToDate()
      reads this
    {
      format.SwissSystem? ==> TalliesExact(entrants, swissEntries, matches, ClosedRounds(matches, swissRound))
    }

    /** The Swiss tallies are exact for every round before the current one. */
    ghost predicate RoundsCounted()
      reads this
    {
      RoundsCountedWith(matches)
    }

    ghost predicate RoundsCountedWith(ms: seq<BracketMatch>)
      reads this`swissRound, this`swissEntries
    {
      format.SwissSystem? ==> TalliesExact(entrants, swissEntries, ms, swissRound)
    }

    // ---------- single elimination: one pass of the fixed-point loop ----------

    method CompleteByes(ghost full: seq<BracketMatch>) returns (changed: bool)
      requires Finished(full) && Partial(full, matches)
      modifies this`matches
      ensures Partial(full, matches) && Grows(old(matches), matches)
      ensures changed <==> matches != old(matches)
      ensures forall j :: 0 <= j < |matches| ==> !PendingBye(matches[j])
    {
      changed := false;
      var j := 0;
      while j < |matches|
        invariant 0 <= j <= |matches|
        invariant Partial(full, matches) && Grows(old(matches), matches)
        invariant changed <==> matches != old(matches)
        invariant forall i :: 0 <= i < j ==> !PendingBye(matches[i])
      {
        var m := matches[j];
        ghost var before := matches;
        hide Partial, Finished, Grows, MatchWinner;
        if m.round == 0 && m.outcome.None? {
          if m.a.Some? && m.b.None? {
            ByeKeepsPartial(full, matches, j);
            matches := matches[j := m.(outcome := Some(WinA))];
            GrowsTransitive(old(matches), before, matches);
            changed := true;
          } else if m.a.None? && m.b.Some? {
            ByeKeepsPartial(full, matches, j);
            matches := matches[j := m.(outcome := Some(WinB))];
            GrowsTransitive(old(matches), before, matches);
            changed := true;
          }
        }
        j := j + 1;
      }
    }

    method CollectUpdates(ghost full: seq<BracketMatch>) returns (updates: seq<Update>)
      requires Finished(full) && Partial(full, matches)
      ensures forall i :: 0 <= i < |updates| ==> ValidUpdate(full, matches, updates[i])
      ensures updates == [] ==> forall j :: 0 <= j < |matches| ==> Passed(matches, j)
    {
      updates := [];
      assert |full| == |matches|;
      hide Partial, Finished;
      var j := 0;
      while j < |matches|
        invariant 0 <= j <= |matches|
        invariant forall i :: 0 <= i < |updates| ==> ValidUpdate(full, matches, updates[i])
        invariant updates == [] ==> forall i :: 0 <= i < j ==> Passed(matches, i)
      {
        var m := matches[j];
        if m.outcome.Some? && m.winnerTo.Some? {
          WinnerReaches(full, matches, j);
          var winner := MatchWinner(m);
          var t := m.winnerTo.value;
          if winner.Some? {
            var target := matches[t.matchId - 1];
            var occupied := if t.side == SideA then target.a.Some? else target.b.Some?;
            if !occupied {
              updates := updates + [Update(t, winner.value)];
            }
          }
        }
        j := j + 1;
      }
    }

    method ApplyUpdates(ghost full: seq<BracketMatch>, updates: seq<Update>)
      requires Partial(full, matches)
      requires forall i :: 0 <= i < |updates| ==> ValidUpdate(full, matches, updates[i])
      modifies this`matches
      ensures Partial(full, matches) && Grows(old(matches), matches)
      ensures updates != [] <==> matches != old(matches)
    {
      var i := 0;
      ghost var start := matches;
      while i < |updates|
        invariant 0 <= i <= |updates| && |matches| == |start|
        invariant Partial(full, matches) && Grows(start, matches)
        invariant i > 0 <==> matches != start
      {
        var u := updates[i];
        var t := u.target;
        ghost var before := matches;
        assert ValidUpdate(full, start, u);
        FillKeepsPartial(full, matches, t, u.winner);
        hide Partial, Grows;
        matches := matches[t.matchId - 1 := WithSide(matches[t.matchId - 1], t.side, u.winner)];
        GrowsTransitive(start, before, matches);
        i := i + 1;
      }
    }

    /**
     Runs passes until nothing changes. It terminates because every changing pass fills a hole;
     it only ever fills, so each slot is written at most once; and it stops exactly at the
     recursive bracket of the recorded results.
     */
    method AdvanceSingleElim()
      requires Partial(Full(), matches)
      modifies this`matches
      ensures matches == Full() && Partial(Full(), matches) && Grows(old(matches), matches)
    {
      hide BracketOf, SheetOf, Finished, Partial, Grows, Holes;
      ghost var full, start := Full(), matches;
      BracketFinished(SheetOf(entrants), results);
      GrowsItself(start);
      while true
        invariant Partial(full, matches) && Grows(start, matches)
        decreases Holes(matches)
      {
        ghost var before := matches;
        var changed := CompleteByes(full);
        ghost var middle := matches;
        var updates := CollectUpdates(full);
        ApplyUpdates(full, updates);
        GrowsTransitive(before, middle, matches);
        GrowsTransitive(start, before, matches);
        changed := changed || updates != [];
        if !changed {
          Fixpoint(full, matches);
          break;
        }
        GrowsShrinksHoles(before, matches);
      }
    }

    // ---------- Swiss rounds ----------

    /** Enters one match per pair of the current round. */
    method EnterRound(pairs: seq<SwissPair>, ghost entries: seq<SwissEntry>, ghost picks: seq<(int, int)>)
      returns (ghost ns: seq<BracketMatch>)
      requires ListsPairs(pairs, entries, picks, |matches| + 1)
      modifies this`matches
      ensures matches == old(matches) + ns && RoundMatches(ns, entries, picks, |old(matches)| + 1, swissRound)
    {
      ns := [];
      ghost var ms := matches;
      var q := 0;
      while q < |pairs|
        invariant 0 <= q <= |pairs| == |picks| && matches == ms + ns
        invariant |ns| == q && RoundMatches(ns, entries, picks[..q], |ms| + 1, swissRound)
      {
        var p := pairs[q];
        var m := BracketMatch(p.id, swissRound, 0, Some(p.a), Some(p.b), None, None);
        assert ms + (ns + [m]) == (ms + ns) + [m];
        assert picks[..q + 1] == picks[..q] + [picks[q]];
        matches := matches + [m];
        ns := ns + [m];
        q := q + 1;
      }
      assert picks[..q] == picks;
    }

    /** Pairs the next round and enters its matches. */
    method PairNextRound()
      requires DistinctIds(entrants) && nextId == |matches| + 1
      requires SwissInv(entrants, swissEntries, matches, swissRound)
      modifies this`matches, this`nextId, this`swissEntries
      ensures nextId == |matches| + 1
      ensures RoundAdded(entrants, old(swissEntries), swissEntries, old(matches), matches, swissRound)
    {
      ghost var entries, ms := swissEntries, matches;
      OrderIsIndexOrder(entries);
      hide *;
      ghost var picks := RoundPairs(entries);
      var pairs, marked := PairSwissRound(swissEntries, nextId);
      PairsCount(pairs, entries, picks, nextId);
      nextId := nextId + |pairs|;
      ghost var ns := EnterRound(pairs, entries, picks);
      MatchesCount(ns, entries, picks, |ms| + 1, swissRound);
      RoundEntered(entrants, entries, ms, ns, swissRound);
      swissEntries := marked;
    }

    method SwissRoundOpen() returns (open: bool)
      ensures open <==> exists j :: 0 <= j < |matches| && matches[j].round == swissRound && IsReady(matches[j])
    {
      var j := 0;
      while j < |matches|
        invariant 0 <= j <= |matches|
        invariant forall i :: 0 <= i < j ==> !(matches[i].round == swissRound && IsReady(matches[i]))
      {
        if matches[j].round == swissRound && matches[j].outcome.None? && IsReady(matches[j]) {
          return true;
        }
        j := j + 1;
      }
      open := false;
    }

    /** Where each entrant stands in the roster, and so in the Swiss entries. */
    method IndexById() returns (at: map<int, nat>)
      requires DistinctIds(entrants)
      ensures forall i :: 0 <= i < |entrants| ==> entrants[i].id in at && at[entrants[i].id] == i
    {
      at := map[];
      var i := 0;
      while i < |entrants|
        invariant 0 <= i <= |entrants|
        invariant forall x :: 0 <= x < i ==> entrants[x].id in at && at[entrants[x].id] == x
      {
        at := at[entrants[i].id := i];
        i := i + 1;
      }
    }

    /** Adds the results of the current round to the tallies, once per call. */
    method ApplySwissResults()
      requires DistinctIds(entrants) && Roster(entrants, swissEntries) && Proper(entrants, matches, swissRound + 1)
      modifies this`swissEntries
      ensures Applied(entrants, old(swissEntries), swissEntries, matches, |matches|, swissRound)
    {
      var at := IndexById();
      ghost var before := swissEntries;
      hide DistinctIds, Worth, CreditMatch;
      var n := 0;
      while n < |matches|
        invariant 0 <= n <= |matches| && |swissEntries| == |entrants|
        invariant Applied(entrants, before, swissEntries, matches, n, swissRound)
      {
        var m := matches[n];
        assert ProperMatch(entrants, m, n + 1, swissRound + 1);
        if m.round == swissRound && m.outcome.Some? {
          ghost var a :| 0 <= a < |entrants| && entrants[a] == m.a.value;
          ghost var b :| 0 <= b < |entrants| && entrants[b] == m.b.value;
          var ia, ib := at[m.a.value.id], at[m.b.value.id];
          AppliedStep(entrants, before, swissEntries, matches, n, swissRound, ia, ib);
          swissEntries := CreditMatch(swissEntries, ia, ib, m.outcome.value);
        } else {
          AppliedSkip(entrants, before, swissEntries, matches, n, swissRound);
        }
        n := n + 1;
      }
    }

    // ---------- advance ----------

    /** `some`: a decided match that feeds no other. */
    method SomeFinalDecided() returns (found: bool)
      ensures found <==> FinalDecided(matches)
    {
      var j := 0;
      while j < |matches|
        invariant 0 <= j <= |matches|
        invariant forall i :: 0 <= i < j ==> !(matches[i].winnerTo.None? && matches[i].outcome.Some?)
      {
        if matches[j].winnerTo.None? && matches[j].outcome.Some? { return true; }
        j := j + 1;
      }
      found := false;
    }

    /** `every`: all matches are decided. */
    method EveryDecided() returns (all: bool)
      ensures all <==> AllDecided(matches)
    {
      var j := 0;
      while j < |matches|
        invariant 0 <= j <= |matches| && AllDecided(matches[..j])
      {
        if matches[j].outcome.None? { return false; }
        assert matches[..j + 1] == matches[..j] + [matches[j]];
        j := j + 1;
      }
      assert matches[..j] == matches;
      all := true;
    }

    /** The two filters whose sizes are compared. */
    method CountMatches() returns (total: nat, decided: nat)
      ensures total == CountPlayable(matches) && decided == CountDecided(matches)
    {
      total, decided := 0, 0;
      var j := |matches|;
      while j > 0
        invariant 0 <= j <= |matches|
        invariant total == CountPlayable(matches[j..]) && decided == CountDecided(matches[j..])
      {
        j := j - 1;
        assert matches[j..] == [matches[j]] + matches[j + 1..];
        if !IsBye(matches[j]) { total := total + 1; }
        if matches[j].outcome.Some? { decided := decided + 1; }
      }
      assert matches[0..] == matches;
    }

    /** The final is decided; or every fixture is; or every match of the last Swiss round and before it is. */
    method RecomputeComplete()
      requires format.SingleElimination? ==> matches == Full()
      requires format.AllPlayAll? ==> matches != []
      requires format.SwissSystem? ==> Proper(entrants, matches, swissRound + 1)
      modifies this`complete
      ensures complete == match format
        case SingleElimination => FinalOutcome(SheetOf(entrants), results).Some?
        case AllPlayAll => AllDecided(matches)
        case SwissSystem(rounds) => rounds == swissRound + 1 && matches != [] && AllDecided(matches)
    {
      match format {
        case SingleElimination =>
          complete := SomeFinalDecided();
          FinalDecidedMeans(SheetOf(entrants), results);
          hide FinalDecided, BracketOf, SheetOf, FinalOutcome;
        case AllPlayAll =>
          var all := EveryDecided();
          complete := |matches| > 0 && all;
        case SwissSystem(rounds) =>
          var total, decided := CountMatches();
          complete := rounds == swissRound + 1 && total > 0 && total == decided;
          CompleteMeans(entrants, matches, swissRound, rounds);
          hide Proper, CountPlayable, CountDecided, AllDecided;
      }
    }

    /** Closes the current round: its results go into the tallies, a second time if they already were. */
    method CloseRound()
      requires DistinctIds(entrants) && RoundDecided(matches, swissRound)
      requires SwissInv(entrants, swissEntries, matches, swissRound + 1)
      modifies this`swissEntries
      ensures SwissInv(entrants, swissEntries, matches, swissRound + 1) && Proper(entrants, matches, swissRound + 1)
      ensures old(TalliesExact(entrants, swissEntries, matches, swissRound)) ==>
        TalliesExact(entrants, swissEntries, matches, swissRound + 1)
      ensures old(TalliesExact(entrants, swissEntries, matches, swissRound + 1)) ==>
        (TalliesExact(entrants, swissEntries, matches, swissRound + 1) <==> Barren(matches, swissRound))
    {
      ghost var before := swissEntries;
      SwissParts(entrants, before, matches, swissRound + 1);
      hide SwissInv, TalliesExact, Applied, Barren, Proper, Roster;
      ApplySwissResults();
      RoundClosed(entrants, before, swissEntries, matches, swissRound);
    }

    /** Opens the next round of a Swiss tournament. */
    method OpenRound()
      requires DistinctIds(entrants) && nextId == |matches| + 1 && Proper(entrants, matches, swissRound + 1)
      requires SwissInv(entrants, swissEntries, matches, swissRound + 1)
      requires forall r :: 0 <= r <= swissRound ==> RoundDecided(matches, r)
      modifies this`matches, this`nextId, this`swissEntries, this`swissRound
      ensures nextId == |matches| + 1 && swissRound == old(swissRound) + 1
      ensures SwissInv(entrants, swissEntries, matches, swissRound + 1)
      ensures forall r :: 0 <= r < swissRound ==> RoundDecided(matches, r)
      ensures |old(matches)| <= |matches| && matches[..|old(matches)|] == old(matches)
      ensures forall q :: |old(matches)| <= q < |matches| ==> matches[q].outcome.None?
      ensures RoundDecided(matches, swissRound) ==> NoMatchIn(matches, swissRound)
      ensures old(TalliesExact(entrants, swissEntries, matches, swissRound + 1)) ==>
        TalliesExact(entrants, swissEntries, matches, ClosedRounds(matches, swissRound))
    {
      ghost var ms, before := matches, swissEntries;
      swissRound := swissRound + 1;
      hide SwissInv, TalliesExact, Proper, RoundDecided, TallyIn, ListsRound;
      PairNextRound();
      NextRoundPaired(entrants, before, swissEntries, ms, matches, swissRound);
    }

    /** The Swiss part of `advance`: close the round, then pair the next one if any is left. */
    method AdvanceSwiss(rounds: nat)
      requires format == SwissSystem(rounds) && DistinctIds(entrants) && nextId == |matches| + 1 && swissRound < rounds
      requires SwissInv(entrants, swissEntries, matches, swissRound + 1) && RoundDecided(matches, swissRound)
      requires forall r :: 0 <= r < swissRound ==> RoundDecided(matches, r)
      modifies this`matches, this`nextId, this`swissEntries, this`swissRound
      ensures nextId == |matches| + 1 && swissRound < rounds
      ensures SwissInv(entrants, swissEntries, matches, swissRound + 1)
      ensures forall r :: 0 <= r < swissRound ==> RoundDecided(matches, r)
      ensures |old(matches)| <= |matches| && matches[..|old(matches)|] == old(matches)
      ensures forall q :: |old(matches)| <= q < |matches| ==> matches[q].outcome.None?
      ensures swissRound == if old(swissRound) + 1 < rounds then old(swissRound) + 1 else old(swissRound)
      ensures swissRound + 1 < rounds && RoundDecided(matches, swissRound) ==> NoMatchIn(matches, swissRound)
      ensures old(RoundsCounted()) ==> TalliesUpToDate()
      ensures old(TalliesExact(entrants, swissEntries, matches, swissRound + 1)) ==>
        if old(swissRound) + 1 < rounds
        then (Barren(old(matches), old(swissRound)) ==> TalliesUpToDate())
        else (TalliesUpToDate() <==> Barren(old(matches), old(swissRound)))
    {
      hide SwissInv, TalliesExact, Barren, Proper, RoundDecided, NoMatchIn;
      ghost var ms := matches;
      CloseRound();
      if swissRound + 1 < rounds {
        OpenRound();
      } else {
        assert matches[..|ms|] == ms;
      }
    }

    /** The current round once `ms` has been looked at: a decided round that is not the last is left. */
    ghost function RoundAfter(ms: seq<BracketMatch>, t: nat): nat {
      if format.SwissSystem? && RoundDecided(ms, t) && t + 1 < format.rounds then t + 1 else t
    }

    /** Everything that follows from a result: byes and winners move up, rounds close and open. */
    method Advance()
      requires Advanceable()
      modifies this`matches, this`nextId, this`complete, this`swissEntries, this`swissRound
      ensures Valid()
      ensures format.SingleElimination? ==> Grows(old(matches), matches)
      ensures format.AllPlayAll? ==> matches == old(matches)
      ensures |old(matches)| <= |matches| && (format.SwissSystem? ==> matches[..|old(matches)|] == old(matches))
      ensures old(RoundsCounted()) ==> TalliesUpToDate()
      ensures format.SwissSystem? && old(Valid() && TalliesUpToDate()) ==>
        (TalliesUpToDate() <==>
          !RoundDecided(old(matches), old(swissRound)) || old(swissRound) + 1 < format.rounds
          || Barren(old(matches), old(swissRound)))
      ensures swissRound == RoundAfter(old(matches), old(swissRound))
    {
      hide Worth, Partial, BracketOf, Accepted, TalliesExact, SwissInv, Proper;
      match format {
        case SingleElimination =>
          AdvanceSingleElim();
        case AllPlayAll =>
          RR.ScheduleNonEmpty(|entrants|);
        case SwissSystem(rounds) =>
          SwissParts(entrants, swissEntries, matches, swissRound + 1);
          var open := SwissRoundOpen();
          OpenMeans(entrants, matches, swissRound);
          if open { return; }
          ghost var ms := matches;
          AdvanceSwiss(rounds);
          RecordedGrows(ms, matches, results);
          SwissParts(entrants, swissEntries, matches, swissRound + 1);
      }
      RecomputeComplete();
    }

    // ---------- recording ----------

    /** Why a result is refused, if it is. */
    ghost function Refusal(id: int, outcome: Outcome): Option<TournamentError>
      reads this
    {
      if !(1 <= id <= |matches|) then Some(UnknownMatch)
      else if !IsReady(matches[id - 1]) then Some(NotRecordable)
      else if format.SingleElimination? && outcome == Draw then Some(DrawNotAllowed)
      else None
    }

    ghost function Written(id: int, outcome: Outcome): seq<BracketMatch>
      requires 1 <= id <= |matches|
      reads this
    {
      matches[id - 1 := matches[id - 1].(outcome := Some(outcome))]
    }

    lemma {:induction false} BracketWrite(id: int, outcome: Outcome)
      requires Valid() && Refusal(id, outcome).None? && format.SingleElimination?
      ensures AdvanceableWith(Written(id, outcome), results[id := outcome])
    {
      hide Partial, BracketOf, Accepted, SheetOf, Recordable, FinalOutcome, DistinctIds;
      ReadyIsRecordable(SheetOf(entrants), results, id);
      RecordIsPartial(SheetOf(entrants), results, id, outcome);
      AcceptedStep(SheetOf(entrants), results, id, outcome);
    }

    lemma {:induction false} RoundRobinWrite(id: int, outcome: Outcome)
      requires Valid() && Refusal(id, outcome).None? && format.AllPlayAll?
      ensures AdvanceableWith(Written(id, outcome), results[id := outcome])
    {
      hide Recorded, RR.Lists, RR.Schedule, DistinctIds;
      RecordedWrite(matches, results, id - 1, outcome);
      var start :| RR.Lists(start, RR.Schedule(|entrants|), entrants, 1) && SameFixtures(start, matches);
      assert SameFixtures(start, Written(id, outcome));
    }

    lemma {:induction false} SwissWrite(id: int, outcome: Outcome)
      requires Valid() && Refusal(id, outcome).None? && format.SwissSystem?
      ensures AdvanceableWith(Written(id, outcome), results[id := outcome])
      ensures TalliesUpToDate() ==> RoundsCountedWith(Written(id, outcome))
    {
      assert !AllDecided(matches);
      hide TalliesExact, SwissInv, RoundDecided, Proper, Recorded, DistinctIds, NoMatchIn, AllDecided;
      RecordedWrite(matches, results, id - 1, outcome);
      ResultRecorded(entrants, swissEntries, matches, swissRound, id - 1, outcome);
    }

    /** Writes one accepted outcome, after which an advance is due. */
    method WriteOutcome(id: int, outcome: Outcome)
      requires Valid() && Refusal(id, outcome).None?
      modifies this`matches, this`results
      ensures Advanceable()
      ensures matches == old(Written(id, outcome)) && results == old(results)[id := outcome]
      ensures old(TalliesUpToDate()) ==> RoundsCounted()
    {
      hide Valid, AdvanceableWith, TalliesExact;
      match format {
        case SingleElimination => BracketWrite(id, outcome);
        case AllPlayAll => RoundRobinWrite(id, outcome);
        case SwissSystem(_) => SwissWrite(id, outcome);
      }
      matches := matches[id - 1 := matches[id - 1].(outcome := Some(outcome))];
      results := results[id := outcome];
    }

    method Record(id: int, outcome: Outcome) returns (r: Result<(), TournamentError>)
      requires Valid()
      modifies this
      ensures Valid()
      ensures match old(Refusal(id, outcome))
        case Some(e) => r == Err(e) && unchanged(this)
        case None => r.Ok? && results == old(results)[id := outcome]
                     && |old(matches)| <= |matches| && matches[id - 1].outcome == Some(outcome)
      ensures r.Ok? && format.AllPlayAll? ==>
        matches == old(matches)[id - 1 := old(matches)[id - 1].(outcome := Some(outcome))]
      ensures r.Ok? && format.SwissSystem? ==>
        matches[..|old(matches)|] == old(matches)[id - 1 := old(matches)[id - 1].(outcome := Some(outcome))]
      ensures r.Ok? <==>
        old(1 <= id <= |matches| && matches[id - 1].outcome.None? && matches[id - 1].a.Some? && matches[id - 1].b.Some?)
        && !(format.SingleElimination? && outcome == Draw)
      ensures r == Err(UnknownMatch) <==> old(!(1 <= id <= |matches|))
      ensures r == Err(NotRecordable) <==> old(
        1 <= id <= |matches| && !(matches[id - 1].outcome.None? && matches[id - 1].a.Some? && matches[id - 1].b.Some?))
      ensures r.Ok? ==> swissRound == old(RoundAfter(Written(id, outcome), swissRound))
      ensures old(TalliesUpToDate()) ==> TalliesUpToDate()
    {
      hide Advanceable, Valid, Full, RoundDecided, Grows, TalliesUpToDate, RoundsCounted;
      if !(1 <= id <= |matches|) { return Err(UnknownMatch); }
      var m := matches[id - 1];
      if !IsReady(m) { return Err(NotRecordable); }
      if format.SingleElimination? && outcome == Draw { return Err(DrawNotAllowed); }
      hide IsReady;
      WriteOutcome(id, outcome);
      ghost var written := matches;
      Advance();
      if format.SingleElimination? {
        GrowsKeeps(written, matches, id - 1);
      } else if format.SwissSystem? {
        assert matches[id - 1] == matches[..|written|][id - 1] == written[id - 1];
      }
      r := Ok(());
    }

    // ---------- construction ----------

    constructor Blank(format: Format, entrants: seq<Entrant>)
      ensures this.format == format && this.entrants == entrants
      ensures matches == [] && nextId == 1 && !complete && swissEntries == [] && swissRound == 0 && results == map[]
    {
      this.format, this.entrants := format, entrants;
      matches, nextId, complete := [], 1, false;
      swissEntries, swissRound := [], 0;
      results := map[];
    }

    static method IdsUnique(entrants: seq<Entrant>) returns (unique: bool)
      ensures unique <==> DistinctIds(entrants)
    {
      var seen: set<int> := {};
      var i := 0;
      while i < |entrants|
        invariant 0 <= i <= |entrants|
        invariant seen == set x | 0 <= x < i :: entrants[x].id
        invariant forall x, y :: 0 <= x < y < i ==> entrants[x].id != entrants[y].id
      {
        if entrants[i].id in seen { return false; }
        seen := seen + {entrants[i].id};
        i := i + 1;
      }
      unique := true;
    }

    static method New(format: Format, entrants: seq<Entrant>) returns (r: Result<Tournament, TournamentError>)
      ensures |entrants| < 2 ==> r == Err(TooFewEntrants)
      ensures |entrants| >= 2 && !DistinctIds(entrants) ==> r == Err(DuplicateEntrant)
      ensures |entrants| >= 2 && DistinctIds(entrants) ==>
        if format.SwissSystem? && format.rounds == 0 then r == Err(InvalidSwissRounds)
        else r.Ok? && fresh(r.value) && r.value.Valid() && r.value.TalliesUpToDate()
             && r.value.format == format && r.value.entrants == entrants && r.value.results == map[]
             && r.value.Undecided() && r.value.swissRound == 0
    {
      if |entrants| < 2 { return Err(TooFewEntrants); }
      var unique := IdsUnique(entrants);
      if !unique { return Err(DuplicateEntrant); }
      if format.SwissSystem? && format.rounds == 0 { return Err(InvalidSwissRounds); }
      var t := new Tournament.Blank(format, entrants);
      hide DistinctIds;
      match format {
        case SingleElimination => t.StartSingleElim();
        case AllPlayAll => t.StartRoundRobin();
        case SwissSystem(_) => t.StartSwiss();
      }
      r := Ok(t);
    }

    /** Nothing has been decided, except the byes of a bracket. */
    ghost predicate Undecided()
      reads this
    {
      !complete && (!format.SingleElimination? ==> forall j :: 0 <= j < |matches| ==> matches[j].outcome.None?)
    }

    ghost predicate Untouched()
      reads this
    {
      && |entrants| >= 2 && DistinctIds(entrants) && results == map[]
      && matches == [] && nextId == 1 && !complete && swissEntries == [] && swissRound == 0
    }

    method StartSingleElim()
      requires format.SingleElimination? && Untouched()
      modifies this
      ensures Valid() && results == map[] && Undecided() && swissRound == 0
    {
      hide Partial, BracketOf, Accepted, Grows, BlankMatch, SheetOf, Pow2, FinalOutcome;
      var built, rounds := BuildSingleElim(entrants, nextId);
      nextId := nextId + |built|;
      matches := built;
      BlankIsPartial(SheetOf(entrants), matches);
      NothingAccepted(SheetOf(entrants));
      AdvanceSingleElim();
      RecomputeComplete();
      FinalStartsOpen(entrants);
    }

    method StartRoundRobin()
      requires format.AllPlayAll? && Untouched()
      modifies this
      ensures Valid() && results == map[] && Undecided() && swissRound == 0
    {
      var built, rounds := RR.BuildRoundRobin(entrants, nextId);
      nextId := nextId + |built|;
      matches := built;
      RR.ScheduleNonEmpty(|entrants|);
      assert SameFixtures(built, matches);
      NothingRecorded(matches);
      assert matches != [] ==> matches[0].outcome.None?;
      RecomputeComplete();
    }

    /** One entry per entrant, with nothing played yet. */
    static method FreshEntries(es: seq<Entrant>) returns (entries: seq<SwissEntry>)
      ensures |entries| == |es| && forall i :: 0 <= i < |es| ==> entries[i] == SwissEntry(es[i], 0, 0, 0, {})
    {
      entries := [];
      while |entries| < |es|
        invariant |entries| <= |es|
        invariant forall i :: 0 <= i < |entries| ==> entries[i] == SwissEntry(es[i], 0, 0, 0, {})
      {
        entries := entries + [SwissEntry(es[|entries|], 0, 0, 0, {})];
      }
    }

    method StartSwiss()
      requires format.SwissSystem? && format.rounds > 0 && Untouched()
      modifies this
      ensures Valid() && TalliesUpToDate() && results == map[] && Undecided() && swissRound == 0
    {
      hide SwissInv, RoundAdded, DistinctIds, Valid, TalliesUpToDate, Undecided, Proper;
      swissEntries := FreshEntries(entrants);
      ghost var entries := swissEntries;
      NothingPlayed(entrants, entries);
      PairNextRound();
      FirstRoundPaired(entries);
      RecomputeComplete();
      SwissStarted(entries);
    }

    lemma {:induction false} FirstRoundPaired(entries: seq<SwissEntry>)
      requires RoundAdded(entrants, entries, swissEntries, [], matches, 0) && TalliesExact(entrants, entries, [], 0)
      ensures Proper(entrants, matches, 1)
    {
      hide RoundAdded, TalliesExact, Proper;
      FirstRound(entrants, entries, swissEntries, matches);
    }

    lemma {:induction false} SwissStarted(entries: seq<SwissEntry>)
      requires format.SwissSystem? && format.rounds > 0 && |entrants| >= 2 && DistinctIds(entrants)
      requires results == map[] && nextId == |matches| + 1 && swissRound == 0
      requires RoundAdded(entrants, entries, swissEntries, [], matches, 0) && TalliesExact(entrants, entries, [], 0)
      requires complete == (format.rounds == 1 && matches != [] && AllDecided(matches))
      ensures Valid() && TalliesUpToDate() && Undecided()
    {
      hide SwissInv, TalliesExact, Proper, RoundAdded, Recorded, RoundDecided, NoMatchIn, DistinctIds;
      FirstRound(entrants, entries, swissEntries, matches);
      assert matches != [] ==> matches[0].outcome.None?;
    }

    // ---------- reading ----------

    method Pending() returns (ids: seq<int>)
      requires Valid()
      ensures forall id :: id in ids <==> 1 <= id <= |matches| && IsReady(matches[id - 1])
      ensures forall i, j :: 0 <= i < j < |ids| ==> ids[i] < ids[j]
    {
      IdsInOrder();
      hide Valid;
      ids := ReadyIds(matches);
    }

    static method ReadyIds(ms: seq<BracketMatch>) returns (ids: seq<int>)
      requires forall j :: 0 <= j < |ms| ==> ms[j].id == j + 1
      ensures forall id :: id in ids <==> 1 <= id <= |ms| && IsReady(ms[id - 1])
      ensures forall i, j :: 0 <= i < j < |ids| ==> ids[i] < ids[j]
    {
      hide IsReady;
      ids := [];
      var j := 0;
      while j < |ms|
        invariant 0 <= j <= |ms|
        invariant forall id :: id in ids <==> 1 <= id <= j && IsReady(ms[id - 1])
        invariant forall x, y :: 0 <= x < y < |ids| ==> ids[x] < ids[y]
        invariant forall x :: 0 <= x < |ids| ==> ids[x] <= j
      {
        if IsReady(ms[j]) { ids := ids + [ms[j].id]; }
        j := j + 1;
      }
    }

    /** The keys of the match map are 1, 2, 3, ... in insertion order. */
    lemma {:induction false} IdsInOrder()
      requires Valid()
      ensures forall j :: 0 <= j < |matches| ==> matches[j].id == j + 1
    {
      match format {
        case SingleElimination =>
          hide Arrives, OutcomeAt, Locate;
        case AllPlayAll =>
          var start :| RR.Lists(start, RR.Schedule(|entrants|), entrants, 1) && SameFixtures(start, matches);
          forall j | 0 <= j < |matches| ensures matches[j].id == j + 1 { SameMatch(start, matches, j); }
        case SwissSystem(_) =>
          SwissParts(entrants, swissEntries, matches, swissRound + 1);
          forall j | 0 <= j < |matches| ensures matches[j].id == j + 1 {
            assert ProperMatch(entrants, matches[j], j + 1, swissRound + 1);
          }
      }
    }

    method ChampionId() returns (c: Option<int>)
      ensures c == ChampionOf(matches)
    {
      var j := 0;
      while j < |matches|
        invariant 0 <= j <= |matches| && ChampionOf(matches) == ChampionOf(matches[j..])
      {
        if matches[j].winnerTo.None? && matches[j].outcome.Some? {
          var w := MatchWinner(matches[j]);
          return if w.Some? then Some(w.value.id) else None;
        }
        assert matches[j..][1..] == matches[j + 1..];
        j := j + 1;
      }
      c := None;
    }

    method SeedTable() returns (keys: seq<int>, seedOf: map<int, int>)
      ensures keys == Ids(entrants) && seedOf == SeedMap(entrants)
    {
      keys, seedOf := [], map[];
      var i := 0;
      while i < |entrants|
        invariant 0 <= i <= |entrants| && |keys| == i && seedOf == SeedMap(entrants[..i])
        invariant forall x :: 0 <= x < i ==> keys[x] == entrants[x].id
      {
        keys := keys + [entrants[i].id];
        seedOf := seedOf[entrants[i].id := entrants[i].seed];
        assert entrants[..i + 1][..i] == entrants[..i];
        i := i + 1;
      }
      assert entrants[..i] == entrants;
    }

    method ElimTable() returns (elimRound: map<int, nat>)
      ensures elimRound == ElimRounds(matches, |matches|)
    {
      elimRound := map[];
      var j := 0;
      while j < |matches|
        invariant 0 <= j <= |matches| && elimRound == ElimRounds(matches, j)
      {
        var loser := MatchLoser(matches[j]);
        if loser.Some? { elimRound := elimRound[loser.value.id := matches[j].round]; }
        j := j + 1;
      }
    }

    method SingleElimOrder() returns (order: seq<int>)
      ensures order == WinnerIds(entrants, matches)
    {
      var keys, seedOf := SeedTable();
      var elimRound := ElimTable();
      var champ := ChampionId();
      order := OrderIds(keys, champ, elimRound, seedOf);
    }

    /** The match list is consistent with the roster: what `standings` relies on. */
    ghost predicate Consistent()
      reads this
    {
      DistinctIds(entrants) && forall j :: 0 <= j < |matches| ==> Between(entrants, matches[j])
    }

    lemma {:induction false} ValidIsConsistent()
      requires Valid()
      ensures Consistent()
    {
      match format {
        case SingleElimination => BracketConsistent(entrants, results);
        case AllPlayAll =>
          var start :| RR.Lists(start, RR.Schedule(|entrants|), entrants, 1) && SameFixtures(start, matches);
          RoundRobinConsistent(entrants, start, matches);
        case SwissSystem(_) =>
          SwissParts(entrants, swissEntries, matches, swissRound + 1);
          forall j | 0 <= j < |matches| ensures ProperMatch(entrants, matches[j], j + 1, swissRound + 1) {}
      }
    }

    /** Adds one match to the running recount. */
    static method AddToRecount(es: seq<Entrant>, ms: seq<BracketMatch>, j: nat, at: map<int, nat>, rows: seq<Standing>)
      returns (next: seq<Standing>)
      requires j < |ms| && DistinctIds(es) && Between(es, ms[j])
      requires forall i :: 0 <= i < |es| ==> es[i].id in at && at[es[i].id] == i
      requires rows == Recount(es, ms, j)
      ensures next == Recount(es, ms, j + 1)
    {
      var m := ms[j];
      assert |rows| == |es|;
      hide Recount, CreditRows, DistinctIds;
      if m.outcome.Some? && m.a.Some? && m.b.Some? {
        RecountStep(es, ms, j, at[m.a.value.id], at[m.b.value.id]);
        next := CreditRows(rows, at[m.a.value.id], at[m.b.value.id], m.outcome.value);
      } else {
        RecountSkip(es, ms, j);
        next := rows;
      }
    }

    method RecountAll() returns (rows: seq<Standing>)
      requires Consistent()
      ensures rows == Recount(entrants, matches, |matches|)
    {
      rows := Recount(entrants, [], 0);
      Recount0(entrants, matches);
      var at := IndexById();
      hide Recount, DistinctIds, Between;
      var j := 0;
      while j < |matches|
        invariant 0 <= j <= |matches| && rows == Recount(entrants, matches, j)
      {
        rows := AddToRecount(entrants, matches, j, at, rows);
        j := j + 1;
      }
    }

    /** A full recount: one row per entrant, best first. */
    method Standings() returns (rows: seq<Standing>)
      requires Valid()
      ensures multiset(rows) == multiset(Recount(entrants, matches, |matches|)) && SortedBy(rows, StandingLe)
    {
      ValidIsConsistent();
      hide *;
      rows := RecountAll();
      StandingLeOrders();
      SortSorted(rows, StandingLe);
      rows := SortBy(rows, StandingLe);
    }

    /** The placement order: of the bracket, or by the recount. */
    method Winners() returns (order: seq<int>)
      requires Valid()
      ensures format.SingleElimination? ==> order == WinnerIds(entrants, matches)
      ensures !format.SingleElimination? ==> Ranked(order, entrants, matches)
    {
      if format.SingleElimination? {
        order := SingleElimOrder();
      } else {
        assert DistinctIds(entrants);
        hide Valid, DistinctIds;
        var rows := Standings();
        order := [];
        var i := 0;
        while i < |rows|
          invariant 0 <= i <= |rows| && |order| == i
          invariant forall x :: 0 <= x < i ==> order[x] == rows[x].id
        {
          order := order + [rows[i].id];
          i := i + 1;
        }
        RowsRank(entrants, matches, rows, order);
      }
    }
  }

  /** `order` is a permutation of the field, each entrant's record no worse than the next one's. */
  ghost predicate Ranked(order: seq<int>, es: seq<Entrant>, ms: seq<BracketMatch>) {
    && multiset(order) == multiset(Ids(es))
    && forall i, j :: 0 <= i < j < |order| ==> StandingLe(RowFor(order[i], ms, |ms|), RowFor(order[j], ms, |ms|))
  }

  /**
   What `Ranked` comes to: more wins stand before fewer; with equal wins, fewer losses before more; and with equal
   losses too, the smaller id before the larger.
   */
  lemma {:induction false} RankedMeans(order: seq<int>, es: seq<Entrant>, ms: seq<BracketMatch>, i: nat, j: nat)
    requires Ranked(order, es, ms) && i < j < |order|
    ensures var x, y, n := order[i], order[j], |ms|;
      && Tot(ms, n, x, Won) >= Tot(ms, n, y, Won)
      && (Tot(ms, n, x, Won) == Tot(ms, n, y, Won) ==> Tot(ms, n, x, Lost) <= Tot(ms, n, y, Lost))
      && (Tot(ms, n, x, Won) == Tot(ms, n, y, Won) && Tot(ms, n, x, Lost) == Tot(ms, n, y, Lost) ==> x <= y)
  {
    assert StandingLe(RowFor(order[i], ms, |ms|), RowFor(order[j], ms, |ms|));
    hide Tot;
  }

  // ---------- what one outcome counts ----------

  /** A decided match is a win for its winner, a loss for its loser, and a draw for both players of a draw. */
  lemma {:induction false} WorthMeans(m: BracketMatch, id: int)
    requires m.a.Some? && m.b.Some? && m.a.value.id != m.b.value.id && m.outcome.Some?
    ensures Worth(m, id, Won) == if MatchWinner(m).Some? && MatchWinner(m).value.id == id then 1 else 0
    ensures Worth(m, id, Lost) == if MatchLoser(m).Some? && MatchLoser(m).value.id == id then 1 else 0
    ensures Worth(m, id, Drew) == if m.outcome == Some(Draw) && (m.a.value.id == id || m.b.value.id == id) then 1 else 0
  {
  }

  lemma {:induction false} TotAfterWrite(ms: seq<BracketMatch>, n: nat, j: nat, o: Outcome, id: int, k: Kind)
    requires n <= |ms| && j < |ms| && ms[j].outcome.None?
    ensures var now := ms[j].(outcome := Some(o));
      Tot(ms[j := now], n, id, k) == Tot(ms, n, id, k) + if j < n then Worth(now, id, k) else 0
  {
    if n > 0 { TotAfterWrite(ms, n - 1, j, o, id, k); }
  }

  lemma {:induction false} TotOfOpen(ms: seq<BracketMatch>, ns: seq<BracketMatch>, n: nat, id: int, k: Kind)
    requires |ms| <= n <= |ns| && ns[..|ms|] == ms && forall q :: |ms| <= q < |ns| ==> ns[q].outcome.None?
    ensures Tot(ns, n, id, k) == Tot(ms, |ms|, id, k)
  {
    if n > |ms| { TotOfOpen(ms, ns, n - 1, id, k); } else { TotOfPrefix(ms, ns, n, id, k); }
  }

  lemma {:induction false} TotOfPrefix(ms: seq<BracketMatch>, ns: seq<BracketMatch>, n: nat, id: int, k: Kind)
    requires n <= |ms| <= |ns| && ns[..|ms|] == ms
    ensures Tot(ns, n, id, k) == Tot(ms, n, id, k)
  {
    if n > 0 {
      TotOfPrefix(ms, ns, n - 1, id, k);
      assert ns[n - 1] == ns[..|ms|][n - 1] == ms[n - 1];
    }
  }

  /** The record of `id` after match `m` ended with `o`. */
  function RowAfter(row: Standing, m: BracketMatch, o: Outcome): Standing
    requires m.a.Some? && m.b.Some?
  {
    var (a, b) := (m.a.value.id == row.id, m.b.value.id == row.id);
    match o
    case WinA => if a then row.(wins := row.wins + 1) else if b then row.(losses := row.losses + 1) else row
    case WinB => if b then row.(wins := row.wins + 1) else if a then row.(losses := row.losses + 1) else row
    case Draw => if a || b then row.(draws := row.draws + 1) else row
    case Void => row
  }

  /** One recorded outcome raises one count of each of its players by one, and nobody else's. */
  lemma {:induction false} OutcomeCounts(ms: seq<BracketMatch>, ns: seq<BracketMatch>, j: nat, o: Outcome, id: int)
    requires j < |ms| && IsReady(ms[j]) && ms[j].a.value.id != ms[j].b.value.id
    requires |ms| <= |ns| && ns[..|ms|] == ms[j := ms[j].(outcome := Some(o))]
    requires forall q :: |ms| <= q < |ns| ==> ns[q].outcome.None?
    ensures RowFor(id, ns, |ns|) == RowAfter(RowFor(id, ms, |ms|), ms[j], o)
  {
    var now := ms[j].(outcome := Some(o));
    var written := ms[j := now];
    hide Tot, Worth;
    WorthMeans(now, id);
    forall k ensures Tot(ns, |ns|, id, k) == Tot(ms, |ms|, id, k) + Worth(now, id, k) {
      TotOfOpen(written, ns, |ns|, id, k);
      TotAfterWrite(ms, |ms|, j, o, id, k);
    }
    assert Tot(ns, |ns|, id, Won) == Tot(ms, |ms|, id, Won) + Worth(now, id, Won);
    assert Tot(ns, |ns|, id, Drew) == Tot(ms, |ms|, id, Drew) + Worth(now, id, Drew);
    assert Tot(ns, |ns|, id, Lost) == Tot(ms, |ms|, id, Lost) + Worth(now, id, Lost);
  }

  lemma {:induction false} StandingLeOrders()
    ensures TotalPreorder(StandingLe)
  {
  }

  lemma {:induction false} RowInRecount(es: seq<Entrant>, ms: seq<BracketMatch>, rows: seq<Standing>, i: nat)
    returns (b: nat)
    requires multiset(rows) == multiset(Recount(es, ms, |ms|)) && i < |rows|
    ensures b < |es| && rows[i] == RowFor(es[b].id, ms, |ms|)
  {
    var base := Recount(es, ms, |ms|);
    SameElements(rows, base);
    hide Recount, RowFor;
    assert rows[i] in base;
    b :| 0 <= b < |base| && base[b] == rows[i];
  }

  lemma {:induction false} RecountNoDup(es: seq<Entrant>, ms: seq<BracketMatch>)
    requires DistinctIds(es)
    ensures NoDup(Recount(es, ms, |ms|))
  {
    hide Recount, Tot;
  }

  lemma {:induction false} RankedIds(es: seq<Entrant>, ms: seq<BracketMatch>, rows: seq<Standing>, order: seq<int>)
    requires DistinctIds(es) && multiset(rows) == multiset(Recount(es, ms, |ms|))
    requires |order| == |rows| && forall i :: 0 <= i < |rows| ==> order[i] == rows[i].id
    ensures multiset(order) == multiset(Ids(es))
  {
    var base := Recount(es, ms, |ms|);
    RecountNoDup(es, ms);
    PermutationNoDup(base, rows);
    SameElements(rows, base);
    IdsNoDup(es);
    hide Recount, Tot;
    forall i, j | 0 <= i < j < |order| ensures order[i] != order[j] {
      var a := RowInRecount(es, ms, rows, i);
      var b := RowInRecount(es, ms, rows, j);
      assert rows[i] != rows[j];
    }
    forall x ensures x in order <==> x in Ids(es) {
      if x in order {
        var i :| 0 <= i < |order| && order[i] == x;
        var b := RowInRecount(es, ms, rows, i);
        assert Ids(es)[b] == x;
      }
      if x in Ids(es) {
        var b :| 0 <= b < |es| && Ids(es)[b] == x;
        assert base[b] in rows;
        var i :| 0 <= i < |rows| && rows[i] == base[b];
        assert order[i] == x;
      }
    }
    hide NoDup;
    SamePermutation(order, Ids(es));
  }

  /** Sorting the recount ranks the field. */
  lemma {:induction false} RowsRank(es: seq<Entrant>, ms: seq<BracketMatch>, rows: seq<Standing>, order: seq<int>)
    requires DistinctIds(es) && multiset(rows) == multiset(Recount(es, ms, |ms|)) && SortedBy(rows, StandingLe)
    requires |order| == |rows| && forall i :: 0 <= i < |rows| ==> order[i] == rows[i].id
    ensures Ranked(order, es, ms)
  {
    RankedIds(es, ms, rows, order);
    hide Recount, StandingLe, Tot;
    forall i | 0 <= i < |rows| ensures rows[i] == RowFor(order[i], ms, |ms|) {
      var b := RowInRecount(es, ms, rows, i);
    }
    hide RowFor;
  }

  /** Before any result, the final of a field of two or more is open. */
  lemma {:induction false} FinalStartsOpen(es: seq<Entrant>)
    requires |es| >= 2
    ensures FinalOutcome(SheetOf(es), map[]).None?
  {
    var sh := SheetOf(es);
    if sh.k == 1 {
      assert Pow2(1) == 2;
      assert |es| <= Pow2(sh.k);
      SeatOfRank(es, 0);
      SeatOfRank(es, 1);
      assert Reverse(1, 0) == 0 && Reverse(1, 1) == 1;
    }
  }

  lemma {:induction false} ReadyIsRecordable(sh: Sheet, res: map<int, Outcome>, id: int)
    requires SheetShape(sh) && 1 <= id <= |BracketOf(sh, res)|
    ensures IsReady(BracketOf(sh, res)[id - 1]) <==> Recordable(sh, res, id)
  {
    hide Arrives, Locate, OutcomeAt;
  }

  lemma {:induction false} GrowsKeeps(ms: seq<BracketMatch>, ns: seq<BracketMatch>, j: nat)
    requires Grows(ms, ns) && j < |ms| && ms[j].outcome.Some?
    ensures ns[j].outcome == ms[j].outcome
  {
    assert GrowsMatch(ms[j], ns[j]);
  }

  lemma {:induction false} NothingPlayed(es: seq<Entrant>, entries: seq<SwissEntry>)
    requires |entries| == |es| && forall i :: 0 <= i < |es| ==> entries[i] == SwissEntry(es[i], 0, 0, 0, {})
    ensures SwissInv(es, entries, [], 0) && TalliesExact(es, entries, [], 0) && Proper(es, [], 0)
  {
  }

  /** A match is between two different entrants of the field. */
  predicate Between(es: seq<Entrant>, m: BracketMatch) {
    m.a.Some? && m.b.Some? ==> m.a.value in es && m.b.value in es && m.a.value.id != m.b.value.id
  }

  lemma {:induction false} BracketMatchBetween(es: seq<Entrant>, res: map<int, Outcome>, r: nat, i: nat)
    requires DistinctIds(es) && r < SheetOf(es).k && i < Pow2(SheetOf(es).k - r - 1)
    ensures Between(es, MatchOf(SheetOf(es), res, r, i))
  {
    hide SheetOf, Arrives, OutcomeAt, Pow2, Index, TargetOf, DistinctIds, DistinctSeats;
    var sh := SheetOf(es);
    FieldSeats(es);
    RowDoubles(sh.k, r);
    if Arrives(sh, res, r, 2 * i).Some? && Arrives(sh, res, r, 2 * i + 1).Some? {
      ArrivalInField(es, res, r, 2 * i);
      ArrivalInField(es, res, r, 2 * i + 1);
      SidesDiffer(sh, res, r, i);
    }
  }

  lemma {:induction false} BracketConsistent(es: seq<Entrant>, res: map<int, Outcome>)
    requires DistinctIds(es)
    ensures forall j :: 0 <= j < |BracketOf(SheetOf(es), res)| ==> Between(es, BracketOf(SheetOf(es), res)[j])
  {
    var ms := BracketOf(SheetOf(es), res);
    hide SheetOf, Arrives, OutcomeAt, MatchOf, BracketOf, Between;
    forall j | 0 <= j < |ms| ensures Between(es, ms[j]) {
      var (r, i) := Locate(SheetOf(es).k, j);
      BracketMatchBetween(es, res, r, i);
    }
  }

  lemma {:induction false} RoundRobinConsistent(es: seq<Entrant>, start: seq<BracketMatch>, ms: seq<BracketMatch>)
    requires DistinctIds(es) && RR.Lists(start, RR.Schedule(|es|), es, 1) && SameFixtures(start, ms)
    ensures forall j :: 0 <= j < |ms| ==> Between(es, ms[j])
  {
    var fs := RR.Schedule(|es|);
    RR.ScheduleOncePerRound(|es|);
    forall j | 0 <= j < |ms| ensures Between(es, ms[j]) {
      SameMatch(start, ms, j);
      assert start[j] == RR.MatchFor(fs[j], es, 1 + j) && RR.Real(|es|, fs[j]) && fs[j].x != fs[j].y;
      IndexOfId(es, fs[j].x, fs[j].y);
    }
  }
}
