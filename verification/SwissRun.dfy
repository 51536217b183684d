/**
 Swiss tournaments over whole runs: what every pairing and every recorded result keeps, and
 what the incremental tallies are (web/src/lib/engine/tournament.ts, Swiss branches).
 */
module SwissRun {
  import opened Wrappers
  import opened EngineTypes
  import opened Swiss

  // ---------- what the match list says ----------

  ghost predicate Met(ms: seq<BracketMatch>, id1: int, id2: int) {
    exists q :: 0 <= q < |ms| && Pits(ms[q], id1, id2)
  }

  ghost predicate MetBefore(ms: seq<BracketMatch>, t: int, id1: int, id2: int) {
    exists q :: 0 <= q < |ms| && ms[q].round < t && Pits(ms[q], id1, id2)
  }

  predicate PlaysIn(m: BracketMatch, id: int) {
    m.a.Some? && m.b.Some? && (m.a.value.id == id || m.b.value.id == id)
  }

  /** `id` has no match in round `t`. */
  ghost predicate Idle(ms: seq<BracketMatch>, t: int, id: int) {
    forall q :: 0 <= q < |ms| && ms[q].round == t ==> !PlaysIn(ms[q], id)
  }

  // ---------- the invariant, part by part; `t` rounds have been paired ----------

  ghost predicate Roster(es: seq<Entrant>, entries: seq<SwissEntry>) {
    |entries| == |es| && forall i :: 0 <= i < |es| ==> entries[i].entrant == es[i]
  }

  predicate ProperMatch(es: seq<Entrant>, m: BracketMatch, id: int, t: int) {
    && m.id == id && m.round < t && m.winnerTo == None
    && m.a.Some? && m.b.Some? && m.a.value in es && m.b.value in es && m.a.value.id != m.b.value.id
  }

  ghost predicate Proper(es: seq<Entrant>, ms: seq<BracketMatch>, t: int) {
    forall q :: 0 <= q < |ms| ==> ProperMatch(es, ms[q], q + 1, t)
  }

  /** The played sets are exactly the opponents met. */
  ghost predicate PlayedExact(es: seq<Entrant>, entries: seq<SwissEntry>, ms: seq<BracketMatch>) {
    |entries| == |es| &&
    forall i, id :: 0 <= i < |es| ==> (id in entries[i].played <==> Met(ms, es[i].id, id))
  }

  ghost predicate NoRematch(ms: seq<BracketMatch>) {
    forall p, q, x, y :: 0 <= p < q < |ms| && Pits(ms[p], x, y) ==> !Pits(ms[q], x, y)
  }

  ghost predicate OncePerRound(ms: seq<BracketMatch>) {
    forall p, q, x :: 0 <= p < q < |ms| && ms[p].round == ms[q].round && PlaysIn(ms[p], x) ==> !PlaysIn(ms[q], x)
  }

  /** Any two entrants idle in the same round had already met. */
  ghost predicate IdleHaveMet(es: seq<Entrant>, ms: seq<BracketMatch>, t: int) {
    forall r, i, j :: 0 <= r < t && 0 <= i < j < |es| && Idle(ms, r, es[i].id) && Idle(ms, r, es[j].id)
      ==> MetBefore(ms, r, es[i].id, es[j].id)
  }

  ghost predicate SwissInv(es: seq<Entrant>, entries: seq<SwissEntry>, ms: seq<BracketMatch>, t: int) {
    && Roster(es, entries) && Proper(es, ms, t) && PlayedExact(es, entries, ms)
    && NoRematch(ms) && OncePerRound(ms) && IdleHaveMet(es, ms, t)
  }

  /** The played relation is symmetric, because a match has two players. */
  lemma {:induction false} PlayedSymmetric(es: seq<Entrant>, entries: seq<SwissEntry>, ms: seq<BracketMatch>, t: int,
      i: nat, j: nat)
    requires SwissInv(es, entries, ms, t) && i < |es| && j < |es|
    ensures es[j].id in entries[i].played <==> es[i].id in entries[j].played
  {
    if Met(ms, es[i].id, es[j].id) {
      var q :| 0 <= q < |ms| && Pits(ms[q], es[i].id, es[j].id);
      assert Pits(ms[q], es[j].id, es[i].id);
    }
    if Met(ms, es[j].id, es[i].id) {
      var q :| 0 <= q < |ms| && Pits(ms[q], es[j].id, es[i].id);
      assert Pits(ms[q], es[i].id, es[j].id);
    }
  }

  // ---------- pairing a round keeps the invariant ----------

  /** The matches a round's pairs are turned into. */
  ghost predicate RoundMatches(ns: seq<BracketMatch>, entries: seq<SwissEntry>, pairs: seq<(int, int)>, startId: int,
      t: nat) {
    && |ns| == |pairs|
    && forall q :: 0 <= q < |pairs| ==>
        && 0 <= pairs[q].0 < |entries| && 0 <= pairs[q].1 < |entries|
        && ns[q] == BracketMatch(startId + q, t, 0, Some(entries[pairs[q].0].entrant),
                                 Some(entries[pairs[q].1].entrant), None, None)
  }

  /** The premises of a pairing step, bundled. */
  ghost predicate Pairing(es: seq<Entrant>, entries: seq<SwissEntry>, ms: seq<BracketMatch>, t: nat,
      pairs: seq<(int, int)>, ns: seq<BracketMatch>) {
    && DistinctIds(es) && SwissInv(es, entries, ms, t)
    && GoodRound(entries, pairs) && RoundMatches(ns, entries, pairs, |ms| + 1, t)
  }

  lemma {:induction false} NewProper(es: seq<Entrant>, entries: seq<SwissEntry>, ms: seq<BracketMatch>, t: nat,
      pairs: seq<(int, int)>, ns: seq<BracketMatch>)
    requires Pairing(es, entries, ms, t, pairs, ns)
    ensures Proper(es, ms + ns, t + 1)
  {
    hide PlayedExact, NoRematch, OncePerRound, IdleHaveMet;
    forall q | 0 <= q < |ms + ns| ensures ProperMatch(es, (ms + ns)[q], q + 1, t + 1) {
      if q < |ms| {
        assert ProperMatch(es, ms[q], q + 1, t);
      } else {
        var (i, j) := pairs[q - |ms|];
        assert es[i] in es && es[j] in es;
        if i < j { assert es[i].id != es[j].id; } else { assert es[j].id != es[i].id; }
      }
    }
  }

  lemma {:induction false} MetAppend(ms: seq<BracketMatch>, ns: seq<BracketMatch>, x: int, y: int)
    ensures Met(ms + ns, x, y) <==> Met(ms, x, y) || Met(ns, x, y)
  {
    if Met(ms, x, y) {
      var q :| 0 <= q < |ms| && Pits(ms[q], x, y);
      assert Pits((ms + ns)[q], x, y);
    }
    if Met(ns, x, y) {
      var q :| 0 <= q < |ns| && Pits(ns[q], x, y);
      assert Pits((ms + ns)[|ms| + q], x, y);
    }
    if Met(ms + ns, x, y) {
      var q :| 0 <= q < |ms + ns| && Pits((ms + ns)[q], x, y);
      if q < |ms| { assert Pits(ms[q], x, y); } else { assert Pits(ns[q - |ms|], x, y); }
    }
  }

  /** Among the new matches, meeting means being in the same pair. */
  lemma {:induction false} NewMet(es: seq<Entrant>, entries: seq<SwissEntry>, pairs: seq<(int, int)>,
      ns: seq<BracketMatch>, startId: int, t: nat, i: nat, id: int)
    requires DistinctIds(es) && Roster(es, entries) && RoundMatches(ns, entries, pairs, startId, t) && i < |es|
    ensures Met(ns, es[i].id, id) <==> MeetsIn(entries, pairs, i, id)
  {
    if Met(ns, es[i].id, id) {
      var q :| 0 <= q < |ns| && Pits(ns[q], es[i].id, id);
      IndexOfId(es, i, pairs[q].0);
      IndexOfId(es, i, pairs[q].1);
      assert MeetsInPair(entries, pairs[q], i, id);
    }
    if MeetsIn(entries, pairs, i, id) {
      var q :| 0 <= q < |pairs| && MeetsInPair(entries, pairs[q], i, id);
      assert Pits(ns[q], es[i].id, id);
    }
  }

  lemma {:induction false} NewPlayed(es: seq<Entrant>, entries: seq<SwissEntry>, ms: seq<BracketMatch>, t: nat,
      pairs: seq<(int, int)>, ns: seq<BracketMatch>)
    requires Pairing(es, entries, ms, t, pairs, ns)
    ensures Roster(es, MarkPlayed(entries, pairs)) && PlayedExact(es, MarkPlayed(entries, pairs), ms + ns)
  {
    hide NoRematch, OncePerRound, IdleHaveMet, Proper, Met, MeetsIn;
    var marked := MarkPlayed(entries, pairs);
    hide MarkPlayed;
    forall i | 0 <= i < |es| ensures marked[i].entrant == es[i] {
      assert marked[i].(played := {}) == entries[i].(played := {});
    }
    forall i, id | 0 <= i < |es| ensures id in marked[i].played <==> Met(ms + ns, es[i].id, id) {
      MarkPlayedExactly(entries, pairs, i, id);
      MetAppend(ms, ns, es[i].id, id);
      NewMet(es, entries, pairs, ns, |ms| + 1, t, i, id);
    }
  }

  /** A new match is between two entrants who had not met. */
  lemma {:induction false} NewMatchFresh(es: seq<Entrant>, entries: seq<SwissEntry>, ms: seq<BracketMatch>, t: nat,
      pairs: seq<(int, int)>, ns: seq<BracketMatch>, p: nat, q: nat, x: int, y: int)
    requires Pairing(es, entries, ms, t, pairs, ns) && q < |ns| && p < |ms| && Pits(ms[p], x, y)
    ensures !Pits(ns[q], x, y)
  {
    hide NoRematch, OncePerRound, IdleHaveMet, Proper;
    var (i, j) := pairs[q];
    assert entries[j].entrant.id !in entries[i].played;
    assert !Met(ms, es[i].id, es[j].id);
    assert !Pits(ms[p], es[i].id, es[j].id);
  }

  /** No entrant plays two new matches. */
  lemma {:induction false} NewMatchesDisjoint(es: seq<Entrant>, entries: seq<SwissEntry>, ms: seq<BracketMatch>, t: nat,
      pairs: seq<(int, int)>, ns: seq<BracketMatch>, p: nat, q: nat, x: int)
    requires Pairing(es, entries, ms, t, pairs, ns) && p < q < |ns| && PlaysIn(ns[p], x)
    ensures !PlaysIn(ns[q], x)
  {
    hide NoRematch, OncePerRound, IdleHaveMet, Proper, PlayedExact;
    var i := if entries[pairs[p].0].entrant.id == x then pairs[p].0 else pairs[p].1;
    assert InPair(pairs[p], i);
    assert !InPair(pairs[q], i);
    IndexOfId(es, i, pairs[q].0);
    IndexOfId(es, i, pairs[q].1);
  }

  lemma {:induction false} NewNoRematch(es: seq<Entrant>, entries: seq<SwissEntry>, ms: seq<BracketMatch>, t: nat,
      pairs: seq<(int, int)>, ns: seq<BracketMatch>)
    requires Pairing(es, entries, ms, t, pairs, ns)
    ensures NoRematch(ms + ns)
  {
    hide IdleHaveMet, PlayedExact, GoodRound, Roster, RoundMatches, OncePerRound, Proper;
    var all := ms + ns;
    forall p, q, x, y | 0 <= p < q < |all| && Pits(all[p], x, y) ensures !Pits(all[q], x, y) {
      if q >= |ms| {
        if p < |ms| {
          NewMatchFresh(es, entries, ms, t, pairs, ns, p, q - |ms|, x, y);
        } else {
          NewMatchesDisjoint(es, entries, ms, t, pairs, ns, p - |ms|, q - |ms|, x);
        }
      }
    }
  }

  lemma {:induction false} OldRoundDiffers(es: seq<Entrant>, entries: seq<SwissEntry>, ms: seq<BracketMatch>, t: nat,
      pairs: seq<(int, int)>, ns: seq<BracketMatch>, p: nat, q: nat)
    requires Pairing(es, entries, ms, t, pairs, ns) && p < |ms| && q < |ns|
    ensures ms[p].round != ns[q].round
  {
    hide IdleHaveMet, PlayedExact, GoodRound, Roster, NoRematch, OncePerRound;
    assert ProperMatch(es, ms[p], p + 1, t);
    NewRound(es, entries, ms, t, pairs, ns, q);
  }

  lemma {:induction false} NewOncePerRound(es: seq<Entrant>, entries: seq<SwissEntry>, ms: seq<BracketMatch>, t: nat,
      pairs: seq<(int, int)>, ns: seq<BracketMatch>)
    requires Pairing(es, entries, ms, t, pairs, ns)
    ensures OncePerRound(ms + ns)
  {
    hide IdleHaveMet, PlayedExact, GoodRound, Roster, RoundMatches, NoRematch, Proper;
    var all := ms + ns;
    forall p, q, x | 0 <= p < q < |all| && all[p].round == all[q].round && PlaysIn(all[p], x)
      ensures !PlaysIn(all[q], x) {
      if q < |ms| {
        assert !PlaysIn(ms[q], x);
      } else {
        if p < |ms| { OldRoundDiffers(es, entries, ms, t, pairs, ns, p, q - |ms|); }
        NewMatchesDisjoint(es, entries, ms, t, pairs, ns, p - |ms|, q - |ms|, x);
      }
    }
  }

  lemma {:induction false} NewRound(es: seq<Entrant>, entries: seq<SwissEntry>, ms: seq<BracketMatch>, t: nat,
      pairs: seq<(int, int)>, ns: seq<BracketMatch>, q: nat)
    requires Pairing(es, entries, ms, t, pairs, ns) && q < |ns|
    ensures ns[q].round == t
  {
  }

  /** Idle in the new round means left over by the pairing. */
  lemma {:induction false} IdleIsUnpaired(es: seq<Entrant>, entries: seq<SwissEntry>, ms: seq<BracketMatch>, t: nat,
      pairs: seq<(int, int)>, ns: seq<BracketMatch>, i: nat)
    requires Pairing(es, entries, ms, t, pairs, ns) && i < |es| && Idle(ms + ns, t, es[i].id)
    ensures !Paired(pairs, i)
  {
    hide NoRematch, OncePerRound, IdleHaveMet, Proper, PlayedExact;
    forall q | 0 <= q < |pairs| ensures !InPair(pairs[q], i) {
      assert (ms + ns)[|ms| + q] == ns[q];
      assert !PlaysIn((ms + ns)[|ms| + q], es[i].id);
    }
  }

  lemma {:induction false} NewIdleHaveMet(es: seq<Entrant>, entries: seq<SwissEntry>, ms: seq<BracketMatch>, t: nat,
      pairs: seq<(int, int)>, ns: seq<BracketMatch>, i: nat, j: nat)
    requires Pairing(es, entries, ms, t, pairs, ns) && i < j < |es|
    requires Idle(ms + ns, t, es[i].id) && Idle(ms + ns, t, es[j].id)
    ensures MetBefore(ms + ns, t, es[i].id, es[j].id)
  {
    hide NoRematch, OncePerRound, IdleHaveMet;
    IdleIsUnpaired(es, entries, ms, t, pairs, ns, i);
    IdleIsUnpaired(es, entries, ms, t, pairs, ns, j);
    assert entries[j].entrant.id in entries[i].played;
    assert Met(ms, es[i].id, es[j].id);
    var q :| 0 <= q < |ms| && Pits(ms[q], es[i].id, es[j].id);
    assert ProperMatch(es, ms[q], q + 1, t) && (ms + ns)[q] == ms[q];
  }

  lemma {:induction false} OldIdleHaveMet(es: seq<Entrant>, entries: seq<SwissEntry>, ms: seq<BracketMatch>, t: nat,
      pairs: seq<(int, int)>, ns: seq<BracketMatch>, r: nat, i: nat, j: nat)
    requires Pairing(es, entries, ms, t, pairs, ns) && r < t && i < j < |es|
    requires Idle(ms + ns, r, es[i].id) && Idle(ms + ns, r, es[j].id)
    ensures MetBefore(ms + ns, r, es[i].id, es[j].id)
  {
    hide NoRematch, OncePerRound, PlayedExact, Roster;
    forall q | 0 <= q < |ms| && ms[q].round == r ensures !PlaysIn(ms[q], es[i].id) && !PlaysIn(ms[q], es[j].id) {
      assert (ms + ns)[q] == ms[q];
    }
    assert Idle(ms, r, es[i].id) && Idle(ms, r, es[j].id);
    assert MetBefore(ms, r, es[i].id, es[j].id);
    var q :| 0 <= q < |ms| && ms[q].round < r && Pits(ms[q], es[i].id, es[j].id);
    assert (ms + ns)[q] == ms[q];
  }

  /** Pairing one more round keeps every safety property of the run. */
  lemma {:induction false} PairingKeepsInv(es: seq<Entrant>, entries: seq<SwissEntry>, ms: seq<BracketMatch>, t: nat,
      pairs: seq<(int, int)>, ns: seq<BracketMatch>)
    requires Pairing(es, entries, ms, t, pairs, ns)
    ensures SwissInv(es, MarkPlayed(entries, pairs), ms + ns, t + 1)
  {
    hide NoRematch, OncePerRound, PlayedExact, Roster, Proper, Idle, MetBefore, GoodRound, RoundMatches;
    NewProper(es, entries, ms, t, pairs, ns);
    NewPlayed(es, entries, ms, t, pairs, ns);
    NewNoRematch(es, entries, ms, t, pairs, ns);
    NewOncePerRound(es, entries, ms, t, pairs, ns);
    forall r, i, j | 0 <= r < t + 1 && 0 <= i < j < |es| && Idle(ms + ns, r, es[i].id) && Idle(ms + ns, r, es[j].id)
      ensures MetBefore(ms + ns, r, es[i].id, es[j].id)
    {
      if r == t {
        NewIdleHaveMet(es, entries, ms, t, pairs, ns, i, j);
      } else {
        OldIdleHaveMet(es, entries, ms, t, pairs, ns, r, i, j);
      }
    }
  }

  // ---------- recording a result keeps the invariant ----------

  /** `ns` is `ms` with possibly other outcomes. */
  ghost predicate SameFixtures(ms: seq<BracketMatch>, ns: seq<BracketMatch>) {
    |ns| == |ms| && forall q :: 0 <= q < |ms| ==> ns[q].(outcome := None) == ms[q].(outcome := None)
  }

  lemma {:induction false} SameMatch(ms: seq<BracketMatch>, ns: seq<BracketMatch>, q: nat)
    requires SameFixtures(ms, ns) && q < |ms|
    ensures ns[q].round == ms[q].round && ns[q].id == ms[q].id && ns[q].winnerTo == ms[q].winnerTo
    ensures ns[q].a == ms[q].a && ns[q].b == ms[q].b
    ensures forall x, y :: Pits(ns[q], x, y) == Pits(ms[q], x, y)
    ensures forall x :: PlaysIn(ns[q], x) == PlaysIn(ms[q], x)
  {
    assert ns[q].(outcome := None) == ms[q].(outcome := None);
  }

  lemma {:induction false} SameMet(ms: seq<BracketMatch>, ns: seq<BracketMatch>, t: int, x: int, y: int)
    requires SameFixtures(ms, ns)
    ensures Met(ms, x, y) ==> Met(ns, x, y)
    ensures MetBefore(ms, t, x, y) ==> MetBefore(ns, t, x, y)
  {
    if Met(ms, x, y) {
      var q :| 0 <= q < |ms| && Pits(ms[q], x, y);
      SameMatch(ms, ns, q);
      assert Pits(ns[q], x, y);
    }
    if MetBefore(ms, t, x, y) {
      var q :| 0 <= q < |ms| && ms[q].round < t && Pits(ms[q], x, y);
      SameMatch(ms, ns, q);
      assert Pits(ns[q], x, y);
    }
  }

  lemma {:induction false} SameIdle(ms: seq<BracketMatch>, ns: seq<BracketMatch>, t: int, x: int)
    requires SameFixtures(ms, ns) && Idle(ns, t, x)
    ensures Idle(ms, t, x)
  {
    forall q | 0 <= q < |ms| && ms[q].round == t ensures !PlaysIn(ms[q], x) {
      SameMatch(ms, ns, q);
    }
  }

  lemma {:induction false} SameSafety(es: seq<Entrant>, ms: seq<BracketMatch>, ns: seq<BracketMatch>, t: int)
    requires SameFixtures(ms, ns) && Proper(es, ms, t) && NoRematch(ms) && OncePerRound(ms)
    ensures Proper(es, ns, t) && NoRematch(ns) && OncePerRound(ns)
  {
    forall q | 0 <= q < |ns| ensures ProperMatch(es, ns[q], q + 1, t) {
      SameMatch(ms, ns, q);
      assert ProperMatch(es, ms[q], q + 1, t);
    }
    forall p, q, x, y | 0 <= p < q < |ns| && Pits(ns[p], x, y) ensures !Pits(ns[q], x, y) {
      SameMatch(ms, ns, p);
      SameMatch(ms, ns, q);
    }
    forall p, q, x | 0 <= p < q < |ns| && ns[p].round == ns[q].round && PlaysIn(ns[p], x) ensures !PlaysIn(ns[q], x) {
      SameMatch(ms, ns, p);
      SameMatch(ms, ns, q);
    }
  }

  /** Outcomes do not matter to who met whom and when. */
  lemma {:induction false} RecordKeepsInv(es: seq<Entrant>, entries: seq<SwissEntry>, ms: seq<BracketMatch>,
      ns: seq<BracketMatch>, t: int)
    requires SwissInv(es, entries, ms, t) && SameFixtures(ms, ns)
    ensures SwissInv(es, entries, ns, t)
  {
    assert SameFixtures(ns, ms);
    SameSafety(es, ms, ns, t);
    hide Proper, NoRematch, OncePerRound, Idle, Met, MetBefore, SameFixtures;
    forall i, id | 0 <= i < |es| ensures id in entries[i].played <==> Met(ns, es[i].id, id) {
      SameMet(ms, ns, 0, es[i].id, id);
      SameMet(ns, ms, 0, es[i].id, id);
    }
    forall r, i, j | 0 <= r < t && 0 <= i < j < |es| && Idle(ns, r, es[i].id) && Idle(ns, r, es[j].id)
      ensures MetBefore(ns, r, es[i].id, es[j].id)
    {
      SameIdle(ms, ns, r, es[i].id);
      SameIdle(ms, ns, r, es[j].id);
      SameMet(ms, ns, r, es[i].id, es[j].id);
    }
  }

  // ---------- tallies ----------

  datatype Kind = Won | Drew | Lost

  /** How many wins (or draws, or losses) one decided match is worth to `id`. */
  function Worth(m: BracketMatch, id: int, k: Kind): nat {
    if m.outcome.None? || m.a.None? || m.b.None? then 0
    else
      var asA, asB := if m.a.value.id == id then 1 else 0, if m.b.value.id == id then 1 else 0;
      match (m.outcome.value, k)
      case (WinA, Won) => asA
      case (WinA, Lost) => asB
      case (WinB, Won) => asB
      case (WinB, Lost) => asA
      case (Draw, Drew) => asA + asB
      case _ => 0
  }

  /** Over the first `n` matches, those of round `t`. */
  function InRound(ms: seq<BracketMatch>, n: nat, t: int, id: int, k: Kind): nat
    requires n <= |ms|
  {
    if n == 0 then 0
    else InRound(ms, n - 1, t, id, k) + if ms[n - 1].round == t then Worth(ms[n - 1], id, k) else 0
  }

  /** Over the first `n` matches, those of the rounds before `t`. */
  function Before(ms: seq<BracketMatch>, n: nat, t: int, id: int, k: Kind): nat
    requires n <= |ms|
  {
    if n == 0 then 0
    else Before(ms, n - 1, t, id, k) + if ms[n - 1].round < t then Worth(ms[n - 1], id, k) else 0
  }

  function TallyIn(e: SwissEntry, k: Kind): nat {
    match k
    case Won => e.wins
    case Drew => e.draws
    case Lost => e.losses
  }

  /** The incremental tallies equal a recount over the rounds before `t`. */
  ghost predicate TalliesExact(es: seq<Entrant>, entries: seq<SwissEntry>, ms: seq<BracketMatch>, t: int) {
    |entries| == |es| && forall i, k :: 0 <= i < |es| ==> TallyIn(entries[i], k) == Before(ms, |ms|, t, es[i].id, k)
  }

  /** Entries after the first `n` matches' results of round `t` have been applied once more. */
  ghost predicate Applied(es: seq<Entrant>, entries: seq<SwissEntry>, now: seq<SwissEntry>, ms: seq<BracketMatch>,
      n: nat, t: int) {
    && n <= |ms| && |entries| == |now| == |es|
    && (forall i, k :: 0 <= i < |es| ==> TallyIn(now[i], k) == TallyIn(entries[i], k) + InRound(ms, n, t, es[i].id, k))
    && (forall i :: 0 <= i < |es| ==> now[i].entrant == entries[i].entrant && now[i].played == entries[i].played)
  }

  predicate RoundDecided(ms: seq<BracketMatch>, t: int) {
    forall q :: 0 <= q < |ms| && ms[q].round == t ==> ms[q].outcome.Some?
  }

  /** Rounds counted so far: the current one only once all its matches are decided. */
  function ClosedRounds(ms: seq<BracketMatch>, t: nat): nat {
    if RoundDecided(ms, t) then t + 1 else t
  }

  lemma {:induction false} BeforeStep(ms: seq<BracketMatch>, n: nat, t: int, id: int, k: Kind)
    requires n <= |ms|
    ensures Before(ms, n, t + 1, id, k) == Before(ms, n, t, id, k) + InRound(ms, n, t, id, k)
  {
    hide Worth;
    if n > 0 { BeforeStep(ms, n - 1, t, id, k); }
  }

  /** Applying the results of a closed round brings the tallies up to that round. */
  lemma {:induction false} ApplyKeepsTallies(es: seq<Entrant>, entries: seq<SwissEntry>, now: seq<SwissEntry>,
      ms: seq<BracketMatch>, t: int)
    requires TalliesExact(es, entries, ms, t) && Applied(es, entries, now, ms, |ms|, t)
    ensures TalliesExact(es, now, ms, t + 1)
  {
    hide Before, InRound, TallyIn;
    forall i, k | 0 <= i < |es| ensures TallyIn(now[i], k) == Before(ms, |ms|, t + 1, es[i].id, k) {
      BeforeStep(ms, |ms|, t, es[i].id, k);
    }
  }

  /** Matches outside the counted rounds, or without an outcome, do not count. */
  lemma {:induction false} BeforeIgnores(ms: seq<BracketMatch>, ns: seq<BracketMatch>, n: nat, m: nat, t: int, id: int,
      k: Kind)
    requires m <= n <= |ns| && m <= |ms|
    requires forall q :: 0 <= q < m ==> ns[q] == ms[q] || (ns[q].round >= t && ms[q].round >= t)
    requires forall q :: m <= q < n ==> ns[q].round >= t || ns[q].outcome.None?
    ensures Before(ns, n, t, id, k) == Before(ms, m, t, id, k)
    decreases n
  {
    if n > m {
      BeforeIgnores(ms, ns, n - 1, m, t, id, k);
    } else if n > 0 {
      BeforeIgnores(ms, ns, n - 1, m - 1, t, id, k);
      hide Worth;
      assert ns[n - 1] == ms[n - 1] || (ns[n - 1].round >= t && ms[n - 1].round >= t);
    }
  }

  lemma {:induction false} TalliesIgnore(es: seq<Entrant>, entries: seq<SwissEntry>, ms: seq<BracketMatch>,
      ns: seq<BracketMatch>, t: int)
    requires TalliesExact(es, entries, ms, t) && |ms| <= |ns|
    requires forall q :: 0 <= q < |ms| ==> ns[q] == ms[q] || (ns[q].round >= t && ms[q].round >= t)
    requires forall q :: |ms| <= q < |ns| ==> ns[q].round >= t || ns[q].outcome.None?
    ensures TalliesExact(es, entries, ns, t)
  {
    hide Before, TallyIn;
    forall i, k | 0 <= i < |es| ensures TallyIn(entries[i], k) == Before(ns, |ns|, t, es[i].id, k) {
      BeforeIgnores(ms, ns, |ns|, |ms|, t, es[i].id, k);
    }
  }

  /** A round without matches adds nothing. */
  lemma {:induction false} EmptyRound(es: seq<Entrant>, entries: seq<SwissEntry>, ms: seq<BracketMatch>, t: int)
    requires TalliesExact(es, entries, ms, t) && forall q :: 0 <= q < |ms| ==> ms[q].round != t
    ensures TalliesExact(es, entries, ms, t + 1)
  {
    hide Before, TallyIn;
    forall i, k | 0 <= i < |es| ensures TallyIn(entries[i], k) == Before(ms, |ms|, t + 1, es[i].id, k) {
      BeforeStep(ms, |ms|, t, es[i].id, k);
      BarrenRound(ms, |ms|, t, es[i].id, k);
    }
  }

  /** A freshly paired round leaves the tallies exact, whether or not it has any match. */
  lemma {:induction false} PairingKeepsTallies(es: seq<Entrant>, entries: seq<SwissEntry>, now: seq<SwissEntry>,
      ms: seq<BracketMatch>, ns: seq<BracketMatch>, t: nat)
    requires TalliesExact(es, entries, ms, t) && Proper(es, ms, t)
    requires |now| == |entries| && forall i, k :: 0 <= i < |now| ==> TallyIn(now[i], k) == TallyIn(entries[i], k)
    requires |ms| <= |ns| && ns[..|ms|] == ms
    requires forall q :: |ms| <= q < |ns| ==> ns[q].round == t && ns[q].outcome.None?
    ensures RoundDecided(ns, t) ==> forall q :: 0 <= q < |ns| ==> ns[q].round != t
    ensures TalliesExact(es, now, ns, ClosedRounds(ns, t))
  {
    hide Before, TallyIn;
    forall q | 0 <= q < |ms| ensures ns[q] == ms[q] && ms[q].round < t {
      assert ns[..|ms|][q] == ns[q];
      assert ProperMatch(es, ms[q], q + 1, t);
    }
    TalliesIgnore(es, entries, ms, ns, t);
    assert TalliesExact(es, now, ns, t);
    NewRoundOpenOrEmpty(es, ms, ns, t);
    if RoundDecided(ns, t) {
      EmptyRound(es, now, ns, t);
    }
  }

  lemma {:induction false} DecidedPrefix(ms: seq<BracketMatch>, ns: seq<BracketMatch>, r: int, t: int)
    requires |ms| <= |ns| && ns[..|ms|] == ms && RoundDecided(ms, r) && r < t
    requires forall q :: |ms| <= q < |ns| ==> ns[q].round == t
    ensures RoundDecided(ns, r)
  {
    forall q | 0 <= q < |ns| && ns[q].round == r ensures ns[q].outcome.Some? {
      assert ns[q] == ns[..|ms|][q] == ms[q];
    }
  }

  // ---------- applying the results of a round, as the driver does ----------

  /** One match's credit, given where its players sit. */
  function CreditMatch(entries: seq<SwissEntry>, ia: nat, ib: nat, o: Outcome): seq<SwissEntry>
    requires ia < |entries| && ib < |entries|
  {
    match o
    case WinA =>
      var e := entries[ia := entries[ia].(wins := entries[ia].wins + 1)];
      e[ib := e[ib].(losses := e[ib].losses + 1)]
    case WinB =>
      var e := entries[ib := entries[ib].(wins := entries[ib].wins + 1)];
      e[ia := e[ia].(losses := e[ia].losses + 1)]
    case Draw =>
      var e := entries[ia := entries[ia].(draws := entries[ia].draws + 1)];
      e[ib := e[ib].(draws := e[ib].draws + 1)]
    case Void => entries
  }

  lemma {:induction false} CreditIsWorth(es: seq<Entrant>, entries: seq<SwissEntry>, ia: nat, ib: nat, m: BracketMatch,
      i: nat)
    requires DistinctIds(es) && |entries| == |es| && ia < |es| && ib < |es| && ia != ib && i < |es|
    requires m.a == Some(es[ia]) && m.b == Some(es[ib]) && m.outcome.Some?
    ensures var next := CreditMatch(entries, ia, ib, m.outcome.value);
      && |next| == |entries|
      && (forall k :: TallyIn(next[i], k) == TallyIn(entries[i], k) + Worth(m, es[i].id, k))
      && next[i].entrant == entries[i].entrant && next[i].played == entries[i].played
  {
    IndexOfId(es, i, ia);
    IndexOfId(es, i, ib);
    hide DistinctIds;
  }

  lemma {:induction false} CreditLength(entries: seq<SwissEntry>, ia: nat, ib: nat, o: Outcome)
    requires ia < |entries| && ib < |entries|
    ensures |CreditMatch(entries, ia, ib, o)| == |entries|
  {
  }

  lemma {:induction false} AppliedStep(es: seq<Entrant>, entries: seq<SwissEntry>, now: seq<SwissEntry>,
      ms: seq<BracketMatch>, n: nat, t: int, ia: nat, ib: nat)
    requires DistinctIds(es) && n < |ms| && Applied(es, entries, now, ms, n, t)
    requires ms[n].round == t && ms[n].outcome.Some? && ia < |es| && ib < |es| && ia != ib
    requires ms[n].a == Some(es[ia]) && ms[n].b == Some(es[ib])
    ensures Applied(es, entries, CreditMatch(now, ia, ib, ms[n].outcome.value), ms, n + 1, t)
  {
    var next := CreditMatch(now, ia, ib, ms[n].outcome.value);
    CreditLength(now, ia, ib, ms[n].outcome.value);
    hide CreditMatch, Worth, TallyIn;
    forall i, k | 0 <= i < |es|
      ensures TallyIn(next[i], k) == TallyIn(entries[i], k) + InRound(ms, n + 1, t, es[i].id, k)
    {
      CreditIsWorth(es, now, ia, ib, ms[n], i);
    }
    forall i | 0 <= i < |es| ensures next[i].entrant == entries[i].entrant && next[i].played == entries[i].played {
      CreditIsWorth(es, now, ia, ib, ms[n], i);
    }
  }

  lemma {:induction false} AppliedSkip(es: seq<Entrant>, entries: seq<SwissEntry>, now: seq<SwissEntry>,
      ms: seq<BracketMatch>, n: nat, t: int)
    requires n < |ms| && Applied(es, entries, now, ms, n, t)
    requires ms[n].round != t || ms[n].outcome.None?
    ensures Applied(es, entries, now, ms, n + 1, t)
  {
    hide TallyIn;
    forall i, k | 0 <= i < |es|
      ensures TallyIn(now[i], k) == TallyIn(entries[i], k) + InRound(ms, n + 1, t, es[i].id, k)
    {
    }
  }

  /** Crediting results does not touch who met whom. */
  lemma {:induction false} AppliedKeepsInv(es: seq<Entrant>, entries: seq<SwissEntry>, now: seq<SwissEntry>,
      ms: seq<BracketMatch>, t: int, r: int)
    requires SwissInv(es, entries, ms, t) && Applied(es, entries, now, ms, |ms|, r)
    ensures SwissInv(es, now, ms, t)
  {
    hide Proper, NoRematch, OncePerRound, IdleHaveMet, Met;
  }

  lemma {:induction false} SwissParts(es: seq<Entrant>, entries: seq<SwissEntry>, ms: seq<BracketMatch>, t: int)
    requires SwissInv(es, entries, ms, t)
    ensures Proper(es, ms, t) && Roster(es, entries)
  {
  }

  /** After a pairing, a round without an open match has no match at all. */
  lemma {:induction false} NewRoundOpenOrEmpty(es: seq<Entrant>, ms: seq<BracketMatch>, ns: seq<BracketMatch>, t: int)
    requires Proper(es, ms, t) && |ms| <= |ns| && ns[..|ms|] == ms
    requires forall q :: |ms| <= q < |ns| ==> ns[q].round == t && ns[q].outcome.None?
    ensures RoundDecided(ns, t) ==> forall q :: 0 <= q < |ns| ==> ns[q].round != t
  {
    forall q | 0 <= q < |ms| ensures ns[q].round < t {
      assert ns[..|ms|][q] == ns[q];
      assert ProperMatch(es, ms[q], q + 1, t);
    }
  }

  // ---------- applying a round twice ----------

  /** No match of round `t` gave anybody anything: all void (or undecided). */
  ghost predicate Barren(ms: seq<BracketMatch>, t: int) {
    forall q :: 0 <= q < |ms| && ms[q].round == t ==> ms[q].outcome.None? || ms[q].outcome == Some(Void)
  }

  lemma {:induction false} BarrenRound(ms: seq<BracketMatch>, n: nat, t: int, id: int, k: Kind)
    requires n <= |ms| && Barren(ms, t)
    ensures InRound(ms, n, t, id, k) == 0
  {
    if n > 0 { BarrenRound(ms, n - 1, t, id, k); }
  }

  lemma {:induction false} FruitfulRound(ms: seq<BracketMatch>, n: nat, t: int, id: int, k: Kind, q: nat)
    requires q < n <= |ms| && ms[q].round == t && Worth(ms[q], id, k) > 0
    ensures InRound(ms, n, t, id, k) > 0
    decreases n
  {
    hide Worth;
    if q < n - 1 { FruitfulRound(ms, n - 1, t, id, k, q); }
  }

  lemma {:induction false} SecondIsHarmless(es: seq<Entrant>, entries: seq<SwissEntry>, again: seq<SwissEntry>,
      ms: seq<BracketMatch>, t: nat)
    requires TalliesExact(es, entries, ms, t + 1) && Applied(es, entries, again, ms, |ms|, t) && Barren(ms, t)
    ensures TalliesExact(es, again, ms, t + 1)
  {
    hide Before, InRound, Barren, TallyIn;
    forall i, k | 0 <= i < |es| ensures TallyIn(again[i], k) == Before(ms, |ms|, t + 1, es[i].id, k) {
      BarrenRound(ms, |ms|, t, es[i].id, k);
    }
  }

  lemma {:induction false} SecondCountsTwice(es: seq<Entrant>, entries: seq<SwissEntry>, again: seq<SwissEntry>,
      ms: seq<BracketMatch>, t: nat, q: nat)
    requires TalliesExact(es, entries, ms, t + 1) && Applied(es, entries, again, ms, |ms|, t) && Proper(es, ms, t + 1)
    requires q < |ms| && ms[q].round == t && ms[q].outcome.Some? && ms[q].outcome != Some(Void)
    ensures !TalliesExact(es, again, ms, t + 1)
  {
    assert ProperMatch(es, ms[q], q + 1, t + 1);
    var i :| 0 <= i < |es| && es[i] == ms[q].a.value;
    var k := match ms[q].outcome.value case WinA => Won case WinB => Lost case _ => Drew;
    assert Worth(ms[q], es[i].id, k) > 0;
    hide Before, InRound, Proper, TallyIn, Worth;
    FruitfulRound(ms, |ms|, t, es[i].id, k, q);
    assert TallyIn(again[i], k) > TallyIn(entries[i], k) == Before(ms, |ms|, t + 1, es[i].id, k);
  }

  /**
   Results are applied when a round closes. A second application, which a further public
   `advance()` makes after the last round, leaves the tallies exact if and only if every
   match of that round is void: otherwise it counts the round twice.
   */
  lemma {:induction false} SecondApplication(es: seq<Entrant>, entries: seq<SwissEntry>, again: seq<SwissEntry>,
      ms: seq<BracketMatch>, t: nat)
    requires SwissInv(es, entries, ms, t + 1) && TalliesExact(es, entries, ms, t + 1)
    requires RoundDecided(ms, t) && Applied(es, entries, again, ms, |ms|, t)
    ensures TalliesExact(es, again, ms, t + 1) <==> Barren(ms, t)
  {
    hide NoRematch, OncePerRound, PlayedExact, IdleHaveMet, Proper, TalliesExact, Applied;
    if Barren(ms, t) {
      SecondIsHarmless(es, entries, again, ms, t);
    } else {
      var q :| 0 <= q < |ms| && ms[q].round == t && !(ms[q].outcome.None? || ms[q].outcome == Some(Void));
      SecondCountsTwice(es, entries, again, ms, t, q);
    }
  }

  /** Closing a round, in one statement: what applying its results does to the tallies. */
  lemma {:induction false} RoundClosed(es: seq<Entrant>, entries: seq<SwissEntry>, now: seq<SwissEntry>,
      ms: seq<BracketMatch>, t: nat)
    requires SwissInv(es, entries, ms, t + 1) && RoundDecided(ms, t) && Applied(es, entries, now, ms, |ms|, t)
    ensures SwissInv(es, now, ms, t + 1) && Proper(es, ms, t + 1)
    ensures TalliesExact(es, entries, ms, t) ==> TalliesExact(es, now, ms, t + 1)
    ensures TalliesExact(es, entries, ms, t + 1) ==> (TalliesExact(es, now, ms, t + 1) <==> Barren(ms, t))
  {
    SwissParts(es, entries, ms, t + 1);
    hide SwissInv, TalliesExact, Applied, Barren, Proper, RoundDecided;
    AppliedKeepsInv(es, entries, now, ms, t + 1, t);
    if TalliesExact(es, entries, ms, t) { ApplyKeepsTallies(es, entries, now, ms, t); }
    if TalliesExact(es, entries, ms, t + 1) { SecondApplication(es, entries, now, ms, t); }
  }

  /** Pairing the next round, in one statement. */
  lemma {:induction false} NextRoundPaired(es: seq<Entrant>, entries: seq<SwissEntry>, now: seq<SwissEntry>,
      ms: seq<BracketMatch>, ns: seq<BracketMatch>, t: nat)
    requires Proper(es, ms, t) && (forall r :: 0 <= r < t ==> RoundDecided(ms, r))
    requires |now| == |entries| && forall i, k :: 0 <= i < |now| ==> TallyIn(now[i], k) == TallyIn(entries[i], k)
    requires |ms| <= |ns| && ns[..|ms|] == ms
    requires forall q :: |ms| <= q < |ns| ==> ns[q].round == t && ns[q].outcome.None?
    ensures RoundDecided(ns, t) ==> forall q :: 0 <= q < |ns| ==> ns[q].round != t
    ensures forall r :: 0 <= r < t ==> RoundDecided(ns, r)
    ensures TalliesExact(es, entries, ms, t) ==> TalliesExact(es, now, ns, ClosedRounds(ns, t))
  {
    hide TallyIn, Proper, TalliesExact;
    if TalliesExact(es, entries, ms, t) { PairingKeepsTallies(es, entries, now, ms, ns, t); }
    NewRoundOpenOrEmpty(es, ms, ns, t);
    forall r | 0 <= r < t ensures RoundDecided(ns, r) {
      DecidedPrefix(ms, ns, r, t);
    }
  }

  /** A match that is still open belongs to the current round. */
  lemma {:induction false} OpenIsCurrent(es: seq<Entrant>, ms: seq<BracketMatch>, t: nat, q: nat)
    requires Proper(es, ms, t + 1) && (forall r :: 0 <= r < t ==> RoundDecided(ms, r))
    requires q < |ms| && ms[q].outcome.None?
    ensures ms[q].round == t && !RoundDecided(ms, t) && IsReady(ms[q])
  {
    assert ProperMatch(es, ms[q], q + 1, t + 1);
    assert RoundDecided(ms, ms[q].round) || ms[q].round >= t;
  }

  /** Recording a result of the current round, in one statement. */
  lemma {:induction false} ResultRecorded(es: seq<Entrant>, entries: seq<SwissEntry>, ms: seq<BracketMatch>, t: nat,
      q: nat, o: Outcome)
    requires SwissInv(es, entries, ms, t + 1) && (forall r :: 0 <= r < t ==> RoundDecided(ms, r))
    requires q < |ms| && ms[q].outcome.None?
    ensures var ns := ms[q := ms[q].(outcome := Some(o))];
      && SwissInv(es, entries, ns, t + 1) && (forall r :: 0 <= r < t ==> RoundDecided(ns, r))
      && (TalliesExact(es, entries, ms, ClosedRounds(ms, t)) ==> TalliesExact(es, entries, ns, t))
  {
    var ns := ms[q := ms[q].(outcome := Some(o))];
    SwissParts(es, entries, ms, t + 1);
    OpenIsCurrent(es, ms, t, q);
    assert SameFixtures(ms, ns);
    hide SwissInv, Proper, TalliesExact, SameFixtures;
    RecordKeepsInv(es, entries, ms, ns, t + 1);
    if TalliesExact(es, entries, ms, t) { TalliesIgnore(es, entries, ms, ns, t); }
    forall r | 0 <= r < t ensures RoundDecided(ns, r) {
      assert RoundDecided(ms, r);
    }
  }
}
