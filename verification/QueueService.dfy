/** The matchmaking service: amp-server/src/queue.rs. */
module QueueServices {
  import opened Wrappers
  import opened Sorting
  import opened Rules
  import opened QueueEntries
  import opened Pairing
  import opened MatchQueues
  import opened QueueIndex
  import opened ServiceRules
  import opened StakeTiers

  // ---------- ordering buckets ----------

  predicate TextLe(s: string, t: string)
    decreases |s|
  {
    s == [] || (t != [] && (s[0] < t[0] || (s[0] == t[0] && TextLe(s[1..], t[1..]))))
  }

  predicate KeyLe(k: Key, l: Key) {
    if k.0 == l.0 then TextLe(k.1, l.1) else TextLe(k.0, l.0)
  }

  lemma {:induction false} TextLeOrders(s: string, t: string)
    ensures (TextLe(s, t) || TextLe(t, s)) && (TextLe(s, t) && TextLe(t, s) ==> s == t)
    decreases |s|
  {
    if s != [] && t != [] {
      TextLeOrders(s[1..], t[1..]);
      assert s == [s[0]] + s[1..] && t == [t[0]] + t[1..];
    }
  }

  lemma {:induction false} TextLeTransitive(s: string, t: string, u: string)
    requires TextLe(s, t) && TextLe(t, u)
    ensures TextLe(s, u)
    decreases |s|
  {
    if s != [] && t != [] && u != [] && s[0] == t[0] == u[0] { TextLeTransitive(s[1..], t[1..], u[1..]); }
  }

  lemma {:induction false} KeyLeIsPreorder()
    ensures TotalPreorder(KeyLe)
  {
    hide TextLe;
    forall k, l ensures KeyLe(k, l) || KeyLe(l, k) {
      TextLeOrders(k.0, l.0);
      TextLeOrders(k.1, l.1);
    }
    forall k, l, m | KeyLe(k, l) && KeyLe(l, m) ensures KeyLe(k, m) {
      TextLeOrders(k.0, l.0);
      if k.0 != l.0 && l.0 != m.0 { TextLeTransitive(k.0, l.0, m.0); }
      if k.0 == l.0 == m.0 { TextLeTransitive(k.1, l.1, m.1); }
    }
  }

  method KeysInOrder(keys: set<Key>) returns (s: seq<Key>)
    ensures forall k :: k in s <==> k in keys
    ensures SortedBy(s, KeyLe)
  {
    s := [];
    var rest := keys;
    while rest != {}
      invariant rest <= keys
      invariant forall k :: k in s <==> k in keys && k !in rest
    {
      var k := Pick(rest);
      s := s + [k];
      rest := rest - {k};
    }
    hide SortBy, KeyLe, TotalPreorder;
    var sorted := SortBy(s, KeyLe);
    KeyLeIsPreorder();
    SortSorted(s, KeyLe);
    assert multiset(sorted) == multiset(s);
    forall k: Key ensures k in sorted <==> k in s { assert k in multiset(sorted) <==> k in multiset(s); }
    s := sorted;
  }

  ghost predicate IsEarliest(t: nat, times: set<nat>) {
    t in times && forall u :: u in times ==> t <= u
  }

  method Earliest(times: set<nat>) returns (t: nat)
    requires times != {}
    ensures IsEarliest(t, times)
  {
    t := Pick(times);
    var rest := times - {t};
    while rest != {}
      invariant t in times && rest <= times
      invariant forall u :: u in times && u !in rest ==> t <= u
    {
      var u := Pick(rest);
      if u < t { t := u; }
      rest := rest - {u};
    }
  }

  // ---------- what a tick has taken out so far ----------

  function Flat(pairs: seq<(QueueEntry, QueueEntry)>): (s: seq<QueueEntry>)
    ensures |s| == 2 * |pairs|
    decreases |pairs|
  {
    if pairs == [] then [] else Flat(pairs[..|pairs| - 1]) + [pairs[|pairs| - 1].0, pairs[|pairs| - 1].1]
  }

  /** `before` is split into what is still queued and what has been paired; nobody is paired twice. */
  ghost predicate Conserved(before: set<QueueEntry>, now: set<QueueEntry>, pairs: seq<(QueueEntry, QueueEntry)>) {
    && (forall x :: x in before <==> x in now || x in Flat(pairs))
    && (forall x :: x in Flat(pairs) ==> x !in now)
    && OnePerPlayer(Flat(pairs))
  }

  /** Partners come from the same bucket. */
  ghost predicate SameBuckets(pairs: seq<(QueueEntry, QueueEntry)>) {
    forall p :: p in pairs ==> KeyOf(p.0) == KeyOf(p.1)
  }

  lemma {:induction false} FlatAppend(pairs: seq<(QueueEntry, QueueEntry)>, a: QueueEntry, b: QueueEntry)
    ensures Flat(pairs + [(a, b)]) == Flat(pairs) + [a, b]
  {
    assert (pairs + [(a, b)])[..|pairs|] == pairs;
  }

  lemma {:induction false} ConservedStep(before: set<QueueEntry>, now: set<QueueEntry>,
      pairs: seq<(QueueEntry, QueueEntry)>, a: QueueEntry, b: QueueEntry)
    requires OneEach(before) && Conserved(before, now, pairs) && a in now && b in now && Player(a) != Player(b)
    ensures Conserved(before, now - {a} - {b}, pairs + [(a, b)])
  {
    FlatAppend(pairs, a, b);
    var f, g := Flat(pairs), Flat(pairs) + [a, b];
    hide Flat;
    forall i | 0 <= i < |f| ensures Player(f[i]) != Player(a) && Player(f[i]) != Player(b) {
      assert f[i] in f && f[i] in before && a in before && b in before;
    }
    assert forall i :: 0 <= i < |g| ==> g[i] == if i < |f| then f[i] else if i == |f| then a else b;
    assert forall x :: x in g <==> x in f || x == a || x == b;
    forall i, j | 0 <= i < j < |g| ensures Player(g[i]) != Player(g[j]) {}
  }

  // ---------- whom a tick pairs ----------

  /** The entries still queued once these pairs have been taken. */
  ghost function Left(start: set<QueueEntry>, pairs: seq<(QueueEntry, QueueEntry)>): set<QueueEntry> {
    set x | x in start && x !in Flat(pairs)
  }

  /**
   A pair taken from the entries `left`, by ratings alone: within the window, nobody of their bucket rated strictly
   between the two, and nobody rated below them near anyone.
   */
  ghost predicate WellPicked(left: set<QueueEntry>, a: QueueEntry, b: QueueEntry, window: real) {
    && a in left && b in left && KeyOf(a) == KeyOf(b) && Mmr(a) <= Mmr(b) && Near(a, b, window)
    && (forall x :: x in left && KeyOf(x) == KeyOf(a) ==> Mmr(x) <= Mmr(a) || Mmr(b) <= Mmr(x))
    && (forall x, y :: x in left && y in left && KeyOf(x) == KeyOf(y) == KeyOf(a) && Mmr(x) < Mmr(a) ==>
          !Near(x, y, window))
  }

  /** The pair is well picked at the window that a queued time of its bucket opens, the longest wait if `longest`. */
  ghost predicate PickedAt(cfg: Config, left: set<QueueEntry>, a: QueueEntry, b: QueueEntry, now: nat, longest: bool) {
    exists t: nat ::
      && Queued(left, KeyOf(a), t)
      && (longest ==> forall x :: x in left && KeyOf(x) == KeyOf(a) ==> t <= Time(x))
      && WellPicked(left, a, b, WindowForWait(cfg, Minus(now, t)))
  }

  /** Every pair was well picked among the entries that the earlier pairs had left. */
  ghost predicate AllPicked(cfg: Config, start: set<QueueEntry>, pairs: seq<(QueueEntry, QueueEntry)>, now: nat,
      longest: bool)
  {
    forall q :: 0 <= q < |pairs| ==>
      PickedAt(cfg, Left(start, pairs[..q]), pairs[q].0, pairs[q].1, now, longest)
  }

  lemma {:induction false} LeftIsQueued(start: set<QueueEntry>, now: set<QueueEntry>,
      pairs: seq<(QueueEntry, QueueEntry)>)
    requires Conserved(start, now, pairs)
    ensures now == Left(start, pairs)
  {
    hide Flat, OnePerPlayer;
  }

  lemma {:induction false} PickedEitherWay(cfg: Config, left: set<QueueEntry>, a: QueueEntry, b: QueueEntry, now: nat,
      exact: bool, longest: bool)
    requires PickedAt(cfg, left, a, b, now, exact) && (longest ==> exact)
    ensures PickedAt(cfg, left, a, b, now, longest)
  {
    hide WellPicked, Queued;
  }

  lemma {:induction false} OneMorePicked(cfg: Config, start: set<QueueEntry>, pairs: seq<(QueueEntry, QueueEntry)>,
      a: QueueEntry, b: QueueEntry, now: nat, longest: bool)
    requires AllPicked(cfg, start, pairs, now, longest) && PickedAt(cfg, Left(start, pairs), a, b, now, longest)
    ensures AllPicked(cfg, start, pairs + [(a, b)], now, longest)
  {
    hide PickedAt, Left;
    var more := pairs + [(a, b)];
    forall q | 0 <= q < |more| ensures PickedAt(cfg, Left(start, more[..q]), more[q].0, more[q].1, now, longest) {
      if q < |pairs| { assert more[..q] == pairs[..q]; } else { assert more[..q] == pairs; }
    }
  }

  /** The entries of a bucket are those of the queue with its key. */
  lemma {:induction false} BucketEntries(bs: Buckets, s: set<QueueEntry>, k: Key)
    requires QueueOk(bs) && Lists(bs, s) && k in bs
    ensures BucketOk(k, bs[k]) && forall x :: x in bs[k] <==> x in s && KeyOf(x) == k
  {
    hide Sorted, OnePerPlayer, Apart;
    assert BucketOk(k, bs[k]);
    forall x ensures x in bs[k] <==> x in s && KeyOf(x) == k { assert In(bs, x) <==> x in s; }
  }

  lemma {:induction false} NobodyBetween(b: seq<QueueEntry>, i: nat, x: QueueEntry)
    requires Sorted(b) && i + 1 < |b| && x in b
    ensures Mmr(x) <= Mmr(b[i]) || Mmr(b[i + 1]) <= Mmr(x)
  {
    hide Mmr;
    var p :| 0 <= p < |b| && b[p] == x;
    assert p < i ==> Mmr(b[p]) <= Mmr(b[i]);
    assert p > i + 1 ==> Mmr(b[i + 1]) <= Mmr(b[p]);
  }

  lemma {:induction false} NobodyBelow(b: seq<QueueEntry>, i: nat, x: QueueEntry, y: QueueEntry, window: real, now: nat)
    requires Sorted(b) && i < |b| && x in b && y in b && Mmr(x) < Mmr(b[i])
    requires forall h :: 0 <= h < i ==> NoPartner(b, h, RulesetFor(window), now)
    ensures !Near(x, y, window)
  {
    hide *;
    var p :| 0 <= p < |b| && b[p] == x;
    var q :| 0 <= q < |b| && b[q] == y;
    LowNotNear(b, i, p, q, window, now);
  }

  /** In a well-formed queue the first best pair of a bucket is well picked. */
  lemma {:induction false} FirstBestIsWellPicked(bs: Buckets, s: set<QueueEntry>, k: Key, i: nat, j: nat, window: real,
      now: nat)
    requires QueueOk(bs) && Lists(bs, s) && k in bs && FirstBest(bs[k], i, j, RulesetFor(window), now)
    ensures WellPicked(s, bs[k][i], bs[k][j], window)
  {
    hide QueueOk, Lists, BucketOk, RulesetFor, Near, Pairable, BestPartner, NoPartner, ClosestLater, KeyOf, Mmr;
    var b := bs[k];
    BucketEntries(bs, s, k);
    FirstBestIsNeighbours(k, b, i, j, window, now);
    BucketIsSorted(k, b);
    assert b[i] in b && b[j] in b;
    forall x | x in s && KeyOf(x) == k ensures Mmr(x) <= Mmr(b[i]) || Mmr(b[j]) <= Mmr(x) {
      NobodyBetween(b, i, x);
    }
    forall x, y | x in s && y in s && KeyOf(x) == KeyOf(y) == k && Mmr(x) < Mmr(b[i]) ensures !Near(x, y, window) {
      NobodyBelow(b, i, x, y, window, now);
    }
  }

  lemma {:induction false} BucketIsSorted(k: Key, b: seq<QueueEntry>)
    requires BucketOk(k, b)
    ensures Sorted(b) && forall i :: 0 <= i < |b| - 1 ==> Mmr(b[i]) <= Mmr(b[i + 1])
  {
  }

  lemma {:induction false} LowNotNear(b: seq<QueueEntry>, i: nat, p: nat, q: nat, window: real, now: nat)
    requires Sorted(b) && i < |b| && p < |b| && q < |b| && Mmr(b[p]) < Mmr(b[i])
    requires forall h :: 0 <= h < i ==> NoPartner(b, h, RulesetFor(window), now)
    ensures !Near(b[p], b[q], window)
  {
    hide RulesetFor, Pairable;
    assert p < i;
    ServicePairs(b[p], b[q], window, now);
    ServicePairs(b[q], b[p], window, now);
    assert NoPartner(b, p, RulesetFor(window), now);
    if q < p { assert NoPartner(b, q, RulesetFor(window), now); }
    PairableIsSymmetric(b[p], b[q], RulesetFor(window), now);
  }

  // ---------- the service ----------

  /** The set of entries a queue holds. */
  ghost predicate Lists(bs: Buckets, s: set<QueueEntry>) {
    forall x :: In(bs, x) <==> x in s
  }

  /** No pairing is left in a bucket that is still indexed, at the window its longest wait opens. */
  ghost predicate Exhausted(cfg: Config, bs: Buckets, w: Waits, k: Key, now: nat) {
    k in w ==>
      forall t :: IsEarliest(t, w[k]) ==> NoPair(BucketAt(bs, k), RulesetFor(WindowForWait(cfg, Minus(now, t))), now)
  }

  class QueueService {
    const cfg: Config
    const queue: MatchQueue
    var waits: Waits
    var members: Members
    /** The queued entries. */
    ghost var entries: set<QueueEntry>

    ghost predicate Valid()
      reads this, queue
    {
      && queue.Valid() && Lists(queue.buckets, entries)
      && IndexOk(entries, members, waits)
    }

    /** `waits` holds exactly the queued times. */
    ghost predicate Exact()
      reads this
    {
      WaitsCover(entries, waits)
    }

    constructor (cfg: Config)
      ensures Valid() && Exact() && entries == {} && this.cfg == cfg && fresh(queue)
    {
      this.cfg := cfg;
      queue := new MatchQueue();
      waits, members, entries := map[], map[], {};
    }

    /** Drops one player from the side index, as every removal does. */
    method Forget(player: string)
      modifies this`waits, this`members
      ensures waits ==
        if player !in old(members) then old(waits)
        else DropTime(old(waits), old(members)[player].0, old(members)[player].1)
      ensures members == old(members) - {player}
    {
      if player in members {
        var (bucket, t) := members[player];
        if bucket in waits && t in waits[bucket] {
          waits := waits[bucket := waits[bucket] - {t}];
          if waits[bucket] == {} { waits := waits - {bucket}; }
        }
      }
      members := members - {player};
    }

    /** Takes one queued entry out of the side index. */
    method ForgetEntry(x: QueueEntry)
      requires x in entries && IndexOk(entries, members, waits)
      modifies this`waits, this`members, this`entries
      ensures entries == old(entries) - {x} && IndexOk(entries, members, waits)
      ensures old(Exact()) ==> (Exact() <==> !Tied(old(entries), x))
      ensures DistinctTimes(old(entries)) ==> DistinctTimes(entries)
      ensures OnlyBucket(old(waits), waits, KeyOf(x))
    {
      ForgettingKeeps(x);
      hide IndexOk, WaitsCover, Tied, DistinctTimes, OnlyBucket, DropTime, KeyOf, Time, Player;
      Forget(Player(x));
      entries := entries - {x};
    }

    lemma {:induction false} ForgettingKeeps(x: QueueEntry)
      requires x in entries && IndexOk(entries, members, waits)
      ensures Player(x) in members && members[Player(x)] == (KeyOf(x), Time(x))
      ensures var less := DropTime(waits, KeyOf(x), Time(x));
        && IndexOk(entries - {x}, members - {Player(x)}, less) && OnlyBucket(waits, less, KeyOf(x))
        && (WaitsCover(entries, waits) ==> (WaitsCover(entries - {x}, less) <==> !Tied(entries, x)))
        && (DistinctTimes(entries) ==> DistinctTimes(entries - {x}))
    {
      hide *;
      RemoveKeepsIndex(entries, members, waits, x);
    }

    lemma {:induction false} OthersOf(x: QueueEntry)
      requires x in entries && IndexOk(entries, members, waits)
      ensures Others(entries, Player(x)) == entries - {x}
      ensures Alone(entries, Player(x)) <==> !Tied(entries, x)
    {
      OthersWithout(entries, x);
    }

    lemma {:induction false} NobodyToForget(player: string)
      requires IndexOk(entries, members, waits) && player !in members
      ensures Others(entries, player) == entries && Alone(entries, player)
    {
      OthersAll(entries, members, player);
    }

    lemma {:induction false} AddingKeeps(e: QueueEntry)
      requires IndexOk(entries, members, waits) && forall x :: x in entries ==> Player(x) != Player(e)
      ensures var more := AddTime(waits, KeyOf(e), Time(e));
        && IndexOk(entries + {e}, members[Player(e) := (KeyOf(e), Time(e))], more)
        && (WaitsCover(entries, waits) ==> WaitsCover(entries + {e}, more))
        && (DistinctTimes(entries) ==> (DistinctTimes(entries + {e}) <==> !Tied(entries + {e}, e)))
    {
      hide *;
      AddKeepsIndex(entries, members, waits, e);
    }

    lemma {:induction false} PairNotTied(a: QueueEntry, b: QueueEntry)
      requires a in entries && b in entries
      ensures DistinctTimes(entries) ==> !Tied(entries, a) && !Tied(entries - {a}, b)
    {
      DistinctMeansAlone2(entries, a, b);
    }

    lemma {:induction false} StandsAlone(player: string)
      ensures DistinctTimes(entries) ==> Alone(entries, player)
    {
      DistinctMeansAlone(entries, player);
    }
  
    method ForgetPlayer(player: string)
      requires IndexOk(entries, members, waits)
      modifies this`waits, this`members, this`entries
      ensures entries == Others(old(entries), player) && IndexOk(entries, members, waits)
      ensures old(Exact()) ==> (Exact() <==> Alone(old(entries), player))
      ensures DistinctTimes(old(entries)) ==> DistinctTimes(entries)
    {
      if player in members {
        ghost var x :| x in entries && Player(x) == player;
        OthersOf(x);
        ForgettingKeeps(x);
        hide IndexOk, WaitsCover, Tied, DistinctTimes, OnlyBucket, DropTime, Others, Alone;
        Forget(player);
        entries := entries - {x};
      } else {
        NobodyToForget(player);
        hide IndexOk, WaitsCover, DistinctTimes, Others, Alone;
        Forget(player);
        assert members == old(members);
      }
    }

    // ---------- joining and leaving ----------

    lemma {:induction false} LeavingMeans(player: string)
      requires Valid()
      ensures Holds(queue.buckets, player) <==> Others(entries, player) != entries
      ensures forall x :: x in Others(entries, player) <==> x in entries && Player(x) != player
    {
      hide IndexOk, QueueOk, In;
    }

    method Leave(player: string) returns (removed: bool)
      requires Valid()
      modifies this, queue
      ensures Valid() && entries == Others(old(entries), player)
      ensures removed <==> entries != old(entries)
      ensures old(Exact()) ==> (Exact() <==> Alone(old(entries), player))
      ensures DistinctTimes(old(entries)) ==> DistinctTimes(entries)
    {
      hide IndexOk, WaitsCover, DistinctTimes, Alone, QueueOk, Without, Holds, In, Others;
      LeavingMeans(player);
      removed := queue.RemovePlayer(player);
      ForgetPlayer(player);
    }

    /** Writes the stake tier into the ticket's ruleset. */
    static method Stamp(entry: QueueEntry) returns (e: QueueEntry)
      ensures e == Stamped(entry) && Player(e) == Player(entry)
      ensures FromCatalog(entry) ==> Tiered(e)
    {
      e := entry;
      if e.stakeWei > 0 {
        e := e.(ticket := e.ticket.(rulesetId := e.canonicalRuleset + Mark + Decimal(e.stakeWei)));
      }
    }

    method Enqueue(e: QueueEntry)
      requires Valid()
      modifies this, queue
      ensures Valid() && entries == Others(old(entries), Player(e)) + {e}
      ensures old(Exact()) && DistinctTimes(old(entries)) ==> Exact() && (DistinctTimes(entries) <==> !Tied(entries, e))
    {
      StandsAlone(Player(e));
      hide IndexOk, WaitsCover, DistinctTimes, Tied, QueueOk, Alone, KeyOf, Player, Time;
      ForgetPlayer(Player(e));
      var replaced := queue.Push(e);
      AddingKeeps(e);
      var bucket := KeyOf(e);
      waits := waits[bucket := TimesOf(waits, bucket) + {Time(e)}];
      members := members[Player(e) := (bucket, Time(e))];
      entries := entries + {e};
    }

    /** Queues an entry under its stake tier, in place of any earlier entry of the player. */
    method Join(entry: QueueEntry)
      requires Valid()
      modifies this, queue
      ensures Valid() && entries == Others(old(entries), Player(entry)) + {Stamped(entry)}
      ensures old(Exact()) && DistinctTimes(old(entries)) ==>
        Exact() && (DistinctTimes(entries) <==> !Tied(entries, Stamped(entry)))
      ensures FromCatalog(entry) && (forall x :: x in old(entries) ==> Tiered(x)) ==>
        forall x :: x in entries ==> Tiered(x)
    {
      hide Valid, WaitsCover, DistinctTimes, Tied, Stamped, Tiered, FromCatalog, Player;
      var e := Stamp(entry);
      Enqueue(e);
    }
  
    /** The depth shown to players is the number of queued entries. */
    method Depth() returns (n: nat)
      requires Valid()
      ensures n == |entries|
    {
      CountIsExact(queue.buckets, entries);
      hide QueueOk;
      n := queue.totalCount;
    }

    // ---------- ticking ----------

    /** One attempt at the bucket's current window, on the queue alone. */
    method TakePair(key: Key, now: nat, active: nat) returns (out: Option<(QueueEntry, QueueEntry)>)
      requires queue.Valid() && Lists(queue.buckets, entries) && key in waits && waits[key] != {}
      modifies queue
      ensures queue.Valid() && OnlyBucketMoves(old(queue.buckets), queue.buckets, key)
      ensures out.None? ==> queue.buckets == old(queue.buckets) && queue.totalCount == old(queue.totalCount)
      ensures out.None? ==> active >= cfg.maxActiveMatches || Exhausted(cfg, queue.buckets, waits, key, now)
      ensures out.Some? ==> active < cfg.maxActiveMatches && queue.totalCount == old(queue.totalCount) - 2
      ensures out.Some? ==> ProperPair(entries, key, out.value.0, out.value.1)
      ensures out.Some? ==> Lists(queue.buckets, entries - {out.value.0} - {out.value.1})
      ensures out.Some? ==> exists t: nat ::
        IsEarliest(t, waits[key]) && WellPicked(entries, out.value.0, out.value.1, WindowForWait(cfg, Minus(now, t)))
    {
      var earliest := Earliest(waits[key]);
      var ruleset := RulesetFor(WindowForWait(cfg, Minus(now, earliest)));
      hide RulesetFor, WindowForWait, QueueOk, NoPair, FirstBest, Evaluate, Exhausted, IsEarliest, OnlyBucketMoves,
        Lists, In, ProperPair, WellPicked;
      ghost var was := queue.buckets;
      SameMoves(was, key);
      var found, i, j := queue.TryMatchBucket(key, ruleset, cfg.maxActiveMatches, active, now);
      hide RemovePair;
      if found.None? {
        if active < cfg.maxActiveMatches { ExhaustedBy(cfg, queue.buckets, waits, key, earliest, now); }
        out := None;
      } else {
        TakenPair(was, queue.buckets, entries, key, i, j, ruleset, now);
        FirstBestIsWellPicked(was, entries, key, i, j, WindowForWait(cfg, Minus(now, earliest)), now);
        out := Some((found.value.entryA, found.value.entryB));
      }
    }

    method ForgetBoth(key: Key, a: QueueEntry, b: QueueEntry)
      requires IndexOk(entries, members, waits) && ProperPair(entries, key, a, b)
      modifies this`waits, this`members, this`entries
      ensures entries == old(entries) - {a} - {b} && IndexOk(entries, members, waits)
      ensures old(Exact()) && DistinctTimes(old(entries)) ==> Exact() && DistinctTimes(entries)
      ensures OnlyBucket(old(waits), waits, key)
    {
      hide IndexOk, WaitsCover, DistinctTimes, Tied, OnlyBucket;
      PairNotTied(a, b);
      ghost var w0 := waits;
      ForgetEntry(a);
      ghost var w1 := waits;
      ForgetEntry(b);
      OnlyBucketTwice(w0, w1, waits, key);
    }

    /** The earliest indexed time is a queued one, and the earliest of all when the index is exact. */
    lemma {:induction false} PickedByIndex(key: Key, a: QueueEntry, b: QueueEntry, now: nat)
      requires IndexOk(entries, members, waits) && key in waits && ProperPair(entries, key, a, b)
      requires exists t: nat ::
        IsEarliest(t, waits[key]) && WellPicked(entries, a, b, WindowForWait(cfg, Minus(now, t)))
      ensures PickedAt(cfg, entries, a, b, now, Exact())
    {
      hide WellPicked, WindowForWait, MembersOk, OneEach;
      var t: nat :| IsEarliest(t, waits[key]) && WellPicked(entries, a, b, WindowForWait(cfg, Minus(now, t)));
      assert Queued(entries, key, t);
      if Exact() {
        forall x | x in entries && KeyOf(x) == key ensures t <= Time(x) { assert Time(x) in TimesOf(waits, key); }
      }
    }

    /** One attempt at a bucket; a pair leaves both the queue and the index. */
    method PairOnce(key: Key, now: nat, active: nat) returns (out: Option<(QueueEntry, QueueEntry)>)
      requires Valid() && key in waits
      modifies this, queue
      ensures Valid() && OnlyBucket(old(waits), waits, key) && OnlyBucketMoves(old(queue.buckets), queue.buckets, key)
      ensures old(Exact()) && DistinctTimes(old(entries)) ==> Exact() && DistinctTimes(entries)
      ensures out.None? ==> entries == old(entries) && queue.totalCount == old(queue.totalCount)
      ensures out.None? ==> active >= cfg.maxActiveMatches || Exhausted(cfg, queue.buckets, waits, key, now)
      ensures out.Some? ==> active < cfg.maxActiveMatches && queue.totalCount == old(queue.totalCount) - 2
      ensures out.Some? ==> ProperPair(old(entries), key, out.value.0, out.value.1)
      ensures out.Some? ==> entries == old(entries) - {out.value.0} - {out.value.1}
      ensures out.Some? ==> PickedAt(cfg, old(entries), out.value.0, out.value.1, now, old(Exact()))
    {
      assert waits[key] != {};
      hide IndexOk, WaitsCover, DistinctTimes, Exhausted, OnlyBucketMoves, Lists, ProperPair, WellPicked, PickedAt,
        IsEarliest;
      out := TakePair(key, now, active);
      if out.Some? {
        PickedByIndex(key, out.value.0, out.value.1, now);
        ForgetBoth(key, out.value.0, out.value.1);
      }
    }
  
    /** Pairs one bucket until nothing more can be paired or the cap is reached. */
    method TickBucket(key: Key, now: nat, active: nat, pairs: seq<(QueueEntry, QueueEntry)>,
        ghost start: set<QueueEntry>, ghost longest: bool)
      returns (more: seq<(QueueEntry, QueueEntry)>)
      requires Valid() && OneEach(start) && Conserved(start, entries, pairs) && SameBuckets(pairs)
      requires pairs != [] ==> active + |pairs| <= cfg.maxActiveMatches
      requires AllPicked(cfg, start, pairs, now, longest) && (longest ==> Exact() && DistinctTimes(entries))
      modifies this, queue
      ensures Valid() && Conserved(start, entries, more) && SameBuckets(more)
      ensures AllPicked(cfg, start, more, now, longest)
      ensures |pairs| <= |more| && queue.totalCount + 2 * |more| == old(queue.totalCount) + 2 * |pairs|
      ensures more != [] ==> active + |more| <= cfg.maxActiveMatches
      ensures active + |more| >= cfg.maxActiveMatches || Exhausted(cfg, queue.buckets, waits, key, now)
      ensures OnlyBucket(old(waits), waits, key) && OnlyBucketMoves(old(queue.buckets), queue.buckets, key)
      ensures old(Exact()) && DistinctTimes(old(entries)) ==> Exact() && DistinctTimes(entries)
    {
      more := pairs;
      hide Valid, WaitsCover, DistinctTimes, Conserved, OneEach, AllPicked, PickedAt;
      while key in waits
        invariant Valid() && Conserved(start, entries, more) && SameBuckets(more)
        invariant AllPicked(cfg, start, more, now, longest) && (longest ==> Exact() && DistinctTimes(entries))
        invariant |pairs| <= |more| && queue.totalCount + 2 * |more| == old(queue.totalCount) + 2 * |pairs|
        invariant more != [] ==> active + |more| <= cfg.maxActiveMatches
        invariant OnlyBucket(old(waits), waits, key) && OnlyBucketMoves(old(queue.buckets), queue.buckets, key)
        invariant old(Exact()) && DistinctTimes(old(entries)) ==> Exact() && DistinctTimes(entries)
        decreases queue.totalCount
      {
        hide OnlyBucket, OnlyBucketMoves, Exhausted;
        ghost var w, bs := waits, queue.buckets;
        ghost var now0 := entries;
        LeftIsQueued(start, now0, more);
        ghost var exact := Exact();
        var out := PairOnce(key, now, active + |more|);
        OnlyTransitive(old(waits), w, waits, old(queue.buckets), bs, queue.buckets, key);
        if out.None? { return; }
        ConservedStep(start, now0, more, out.value.0, out.value.1);
        PickedEitherWay(cfg, now0, out.value.0, out.value.1, now, exact, longest);
        OneMorePicked(cfg, start, more, out.value.0, out.value.1, now, longest);
        more := more + [out.value];
      }
    }

    /**
     One matchmaker tick. Every entry is afterwards either still queued or in exactly one pair, no player is
     paired twice, partners share a bucket, the cap holds, and unless it was reached no indexed bucket has
     a pairing left at its window.
     */
    method Tick(now: nat, active: nat) returns (pairs: seq<(QueueEntry, QueueEntry)>)
      requires Valid()
      modifies this, queue
      ensures Valid() && Conserved(old(entries), entries, pairs) && SameBuckets(pairs)
      ensures AllPicked(cfg, old(entries), pairs, now, old(Exact()) && DistinctTimes(old(entries)))
      ensures queue.totalCount + 2 * |pairs| == old(queue.totalCount)
      ensures pairs != [] ==> active + |pairs| <= cfg.maxActiveMatches
      ensures active + |pairs| >= cfg.maxActiveMatches || forall k :: k in waits ==>
        Exhausted(cfg, queue.buckets, waits, k, now)
      ensures old(Exact()) && DistinctTimes(old(entries)) ==> Exact() && DistinctTimes(entries)
    {
      pairs := [];
      ghost var start, w0, longest := entries, waits, Exact() && DistinctTimes(entries);
      NothingPaired(start);
      assert OneEach(start);
      var keys := KeysInOrder(waits.Keys);
      assert AllExhausted(cfg, queue.buckets, waits, keys, 0, now) && waits.Keys <= w0.Keys;
      hide Valid, WaitsCover, DistinctTimes, Conserved, OneEach, Exhausted, AllExhausted, SameBuckets, OnlyBucket,
        OnlyBucketMoves, PickedAt;
      var i := 0;
      while i < |keys|
        invariant 0 <= i <= |keys|
        invariant Valid() && Conserved(start, entries, pairs) && SameBuckets(pairs)
        invariant AllPicked(cfg, start, pairs, now, longest) && (longest ==> Exact() && DistinctTimes(entries))
        invariant queue.totalCount + 2 * |pairs| == old(queue.totalCount)
        invariant pairs != [] ==> active + |pairs| <= cfg.maxActiveMatches
        invariant waits.Keys <= w0.Keys
        invariant active + |pairs| >= cfg.maxActiveMatches || AllExhausted(cfg, queue.buckets, waits, keys, i, now)
        invariant old(Exact()) && DistinctTimes(old(entries)) ==> Exact() && DistinctTimes(entries)
      {
        ghost var w, bs := waits, queue.buckets;
        pairs := TickBucket(keys[i], now, active, pairs, start, longest);
        KeysOnlyShrink(w0, w, waits, keys[i]);
        if active + |pairs| < cfg.maxActiveMatches {
          NextExhausted(cfg, bs, queue.buckets, w, waits, keys, i, now);
        }
        i := i + 1;
      }
      if active + |pairs| < cfg.maxActiveMatches {
        EveryKeyExhausted(cfg, queue.buckets, waits, w0, keys, now);
      }
    }
  
    // ---------- stale entries ----------

    /** The buckets whose index shows a wait since `limit` or earlier. */
    method StaleBuckets(limit: nat) returns (stale: set<Key>)
      ensures forall k :: k in stale <==> HasStale(waits, limit, k)
    {
      stale := {};
      var rest := waits.Keys;
      while rest != {}
        invariant rest <= waits.Keys
        invariant forall k :: k in stale <==> k !in rest && HasStale(waits, limit, k)
      {
        var k := Pick(rest);
        var found := exists t :: t in waits[k] && t <= limit;
        assert TimesOf(waits, k) == waits[k];
        assert found <==> HasStale(waits, limit, k);
        if found { stale := stale + {k}; }
        rest := rest - {k};
      }
    }

    /** Splits the drained entries; the stale ones also leave the index. */
    method Sift(all: seq<QueueEntry>, buckets: set<Key>, limit: nat)
      returns (stale: seq<QueueEntry>, keep: seq<QueueEntry>)
      requires IndexOk(entries, members, waits) && OnePerPlayer(all) && (forall x :: x in all <==> x in entries)
      modifies this`waits, this`members, this`entries
      ensures IndexOk(entries, members, waits)
      ensures forall x :: x in stale <==> x in old(entries) && Time(x) <= limit && KeyOf(x) in buckets
      ensures forall x :: x in entries <==> x in old(entries) && x !in stale
      ensures (forall x :: x in keep <==> x in entries) && OnePerPlayer(keep) && OnePerPlayer(stale)
      ensures old(Exact()) && DistinctTimes(old(entries)) ==> Exact() && DistinctTimes(entries)
    {
      stale, keep := [], [];
      var i := 0;
      ghost var start := entries;
      hide IndexOk, WaitsCover, DistinctTimes, Tied, OnlyBucket;
      while i < |all|
        invariant 0 <= i <= |all| && IndexOk(entries, members, waits)
        invariant forall x :: x in stale <==> x in all[..i] && Time(x) <= limit && KeyOf(x) in buckets
        invariant forall x :: x in keep <==> x in all[..i] && x !in stale
        invariant forall x :: x in entries <==> x in start && x !in stale
        invariant OnePerPlayer(keep) && OnePerPlayer(stale)
        invariant old(Exact()) && DistinctTimes(start) ==> Exact() && DistinctTimes(entries)
      {
        var e := all[i];
        assert all[..i + 1] == all[..i] + [e];
        NotYetSeen(all, i);
        assert e in all && e !in stale && e !in keep;
        AppendOnePerPlayer(stale, all, i);
        AppendOnePerPlayer(keep, all, i);
        hide OnePerPlayer;
        if KeyOf(e) in buckets && Time(e) <= limit {
          DistinctNotTied(entries, e);
          ForgetEntry(e);
          stale := stale + [e];
        } else {
          keep := keep + [e];
        }
        i := i + 1;
      }
      assert all[..i] == all;
    }

    method PushAll(keep: seq<QueueEntry>)
      requires queue.Valid() && queue.buckets == map[] && OnePerPlayer(keep)
      modifies queue
      ensures queue.Valid() && forall x :: In(queue.buckets, x) <==> x in keep
    {
      var i := 0;
      while i < |keep|
        invariant 0 <= i <= |keep| && queue.Valid()
        invariant forall x :: In(queue.buckets, x) <==> x in keep[..i]
      {
        assert keep[..i + 1] == keep[..i] + [keep[i]];
        NotYetSeen(keep, i);
        hide QueueOk, In, Player, OnePerPlayer;
        var replaced := queue.Push(keep[i]);
        i := i + 1;
      }
      assert keep[..i] == keep;
    }

    /**
     Pulls out the entries that have waited past the threshold, from the buckets whose index shows such a
     wait. With an exact index that is every stale entry.
     */
    method TakeStale(now: nat, threshold: nat) returns (stale: seq<QueueEntry>)
      requires Valid()
      modifies this, queue
      ensures Valid() && OnePerPlayer(stale)
      ensures forall x :: x in entries <==> x in old(entries) && x !in stale
      ensures forall x :: x in stale <==> (x in old(entries) && IsStale(old(waits), Minus(now, threshold), x))
      ensures old(Exact()) ==> forall x :: x in entries ==> Time(x) > Minus(now, threshold)
      ensures old(Exact()) && DistinctTimes(old(entries)) ==> Exact() && DistinctTimes(entries)
    {
      var limit := Minus(now, threshold);
      var buckets := StaleBuckets(limit);
      CoverFindsStale(entries, waits, limit);
      hide WaitsCover, DistinctTimes, HasStale, QueueOk, In;
      if buckets == {} { return []; }
      var all := queue.DrainAll();
      hide IndexOk;
      var keep;
      stale, keep := Sift(all, buckets, limit);
      PushAll(keep);
    }
  }

  /** The index shows a wait since `limit` or earlier in bucket `k`. */
  ghost predicate HasStale(w: Waits, limit: nat, k: Key) {
    exists t :: t in TimesOf(w, k) && t <= limit
  }

  ghost predicate IsStale(w: Waits, limit: nat, x: QueueEntry) {
    Time(x) <= limit && HasStale(w, limit, KeyOf(x))
  }

  lemma {:induction false} CoverFindsStale(s: set<QueueEntry>, w: Waits, limit: nat)
    ensures WaitsCover(s, w) ==> forall x :: x in s && Time(x) <= limit ==> HasStale(w, limit, KeyOf(x))
  {
    if WaitsCover(s, w) {
      forall x | x in s && Time(x) <= limit ensures HasStale(w, limit, KeyOf(x)) {
        assert Time(x) in TimesOf(w, KeyOf(x));
      }
    }
  }

  lemma {:induction false} NotYetSeen(all: seq<QueueEntry>, i: nat)
    requires OnePerPlayer(all) && i < |all|
    ensures forall x :: x in all[..i] ==> Player(x) != Player(all[i])
  {
  }

  lemma {:induction false} AppendOnePerPlayer(part: seq<QueueEntry>, all: seq<QueueEntry>, i: nat)
    requires OnePerPlayer(all) && i < |all| && OnePerPlayer(part) && forall x :: x in part ==> x in all[..i]
    ensures OnePerPlayer(part + [all[i]])
  {
    NotYetSeen(all, i);
    var r := part + [all[i]];
    forall x, y | 0 <= x < y < |r| ensures Player(r[x]) != Player(r[y]) {
      assert part != [] && x < |part| ==> part[x] in part;
    }
  }

  lemma {:induction false} DistinctNotTied(s: set<QueueEntry>, x: QueueEntry)
    requires x in s
    ensures DistinctTimes(s) ==> !Tied(s, x)
  {
  }

  /** With catalog ruleset ids, partners have equal positive stakes or none at all. */
  lemma {:induction false} PairsShareStakes(before: set<QueueEntry>, after: set<QueueEntry>,
      pairs: seq<(QueueEntry, QueueEntry)>, i: nat)
    requires Conserved(before, after, pairs) && SameBuckets(pairs) && i < |pairs|
    requires forall x :: x in before ==> Tiered(x)
    ensures var (a, b) := pairs[i];
      a in before && b in before && Player(a) != Player(b)
      && (a.stakeWei == b.stakeWei || (a.stakeWei <= 0 && b.stakeWei <= 0))
      && (a.stakeWei > 0 ==> a.canonicalRuleset == b.canonicalRuleset)
  {
    var (a, b) := pairs[i];
    FlatAt(pairs, i);
    hide Flat, Tiered;
    assert Flat(pairs)[2 * i] in Flat(pairs) && Flat(pairs)[2 * i + 1] in Flat(pairs);
    assert pairs[i] in pairs;
    SameBucketSameStake(a, b);
  }

  lemma {:induction false} FlatAt(pairs: seq<(QueueEntry, QueueEntry)>, i: nat)
    requires i < |pairs|
    ensures Flat(pairs)[2 * i] == pairs[i].0 && Flat(pairs)[2 * i + 1] == pairs[i].1
    decreases |pairs|
  {
    if i < |pairs| - 1 { FlatAt(pairs[..|pairs| - 1], i); }
  }

  lemma {:induction false} NothingPaired(s: set<QueueEntry>)
    ensures Conserved(s, s, []) && SameBuckets([])
  {
  }

  ghost predicate AllExhausted(cfg: Config, bs: Buckets, w: Waits, keys: seq<Key>, n: nat, now: nat) {
    n <= |keys| && forall x :: 0 <= x < n ==> Exhausted(cfg, bs, w, keys[x], now)
  }

  lemma {:induction false} KeysOnlyShrink(w0: Waits, w: Waits, v: Waits, k: Key)
    requires w.Keys <= w0.Keys && OnlyBucket(w, v, k) && k in w0
    ensures v.Keys <= w0.Keys
  {
    hide TimesOf;
    forall l | l in v.Keys ensures l in w0.Keys {
      if l != k { assert l in w; }
    }
  }

  lemma {:induction false} NextExhausted(cfg: Config, bs: Buckets, cs: Buckets, w: Waits, v: Waits, keys: seq<Key>,
      i: nat, now: nat)
    requires i < |keys| && OnlyBucket(w, v, keys[i]) && OnlyBucketMoves(bs, cs, keys[i])
    requires AllExhausted(cfg, bs, w, keys, i, now) && Exhausted(cfg, cs, v, keys[i], now)
    ensures AllExhausted(cfg, cs, v, keys, i + 1, now)
  {
    hide Exhausted, OnlyBucket, OnlyBucketMoves;
    forall x | 0 <= x < i + 1 ensures Exhausted(cfg, cs, v, keys[x], now) {
      if x < i { StaysExhausted(cfg, bs, cs, w, v, keys[i], keys[x], now); }
    }
  }

  lemma {:induction false} EveryKeyExhausted(cfg: Config, bs: Buckets, v: Waits, w0: Waits, keys: seq<Key>, now: nat)
    requires v.Keys <= w0.Keys && (forall k :: k in keys <==> k in w0.Keys)
      && AllExhausted(cfg, bs, v, keys, |keys|, now)
    ensures forall k :: k in v ==> Exhausted(cfg, bs, v, k, now)
  {
    hide Exhausted;
    forall k | k in v ensures Exhausted(cfg, bs, v, k, now) {
      assert k in v.Keys && k in w0.Keys && k in keys;
    }
  }

  lemma {:induction false} ExhaustedBy(cfg: Config, bs: Buckets, w: Waits, k: Key, t: nat, now: nat)
    requires k in w && IsEarliest(t, w[k])
    requires NoPair(BucketAt(bs, k), RulesetFor(WindowForWait(cfg, Minus(now, t))), now)
    ensures Exhausted(cfg, bs, w, k, now)
  {
    hide NoPair, RulesetFor, WindowForWait;
    forall u | IsEarliest(u, w[k]) ensures u == t {}
  }

  lemma {:induction false} OnlyTransitive(w1: Waits, w2: Waits, w3: Waits, b1: Buckets, b2: Buckets, b3: Buckets,
      k: Key)
    requires OnlyBucket(w1, w2, k) && OnlyBucket(w2, w3, k) && OnlyBucketMoves(b1, b2, k) && OnlyBucketMoves(b2, b3, k)
    ensures OnlyBucket(w1, w3, k) && OnlyBucketMoves(b1, b3, k)
  {
    hide TimesOf, BucketAt;
  }

  /** Work on bucket `k` does not reopen another bucket. */
  lemma {:induction false} StaysExhausted(cfg: Config, bs: Buckets, cs: Buckets, w: Waits, v: Waits, k: Key, l: Key,
      now: nat)
    requires OnlyBucket(w, v, k) && OnlyBucketMoves(bs, cs, k) && Exhausted(cfg, bs, w, l, now)
    requires l == k ==> Exhausted(cfg, cs, v, k, now)
    ensures Exhausted(cfg, cs, v, l, now)
  {
    hide NoPair, RulesetFor, WindowForWait;
    if l != k && l in v { assert v[l] == TimesOf(v, l) == TimesOf(w, l) == w[l]; }
  }

  /** Two queued entries of different players in the same bucket. */
  ghost predicate ProperPair(s: set<QueueEntry>, k: Key, a: QueueEntry, b: QueueEntry) {
    a in s && b in s && Player(a) != Player(b) && KeyOf(a) == KeyOf(b) == k
  }

  /** Only one bucket changes. */
  ghost predicate OnlyBucketMoves(bs: Buckets, cs: Buckets, k: Key) {
    forall l :: l != k ==> BucketAt(cs, l) == BucketAt(bs, l)
  }

  lemma {:induction false} SameMoves(bs: Buckets, k: Key)
    ensures OnlyBucketMoves(bs, bs, k)
  {
  }

  /** The pair that was found is taken out of the queue, and nothing else is. */
  lemma {:induction false} TakenPair(bs: Buckets, cs: Buckets, s: set<QueueEntry>, k: Key, i: nat, j: nat, rs: RuleSet,
      now: nat)
    requires QueueOk(bs) && Lists(bs, s) && k in bs && FirstBest(bs[k], i, j, rs, now)
    requires cs == bs[k := RemovePair(bs[k], i, j)]
    requires forall x :: In(cs, x) <==> In(bs, x) && x != bs[k][i] && x != bs[k][j]
    ensures ProperPair(s, k, bs[k][i], bs[k][j])
    ensures Lists(cs, s - {bs[k][i]} - {bs[k][j]}) && OnlyBucketMoves(bs, cs, k)
  {
    var a, b := bs[k][i], bs[k][j];
    assert BucketOk(k, bs[k]) && Pairable(a, b, rs, now);
    hide Evaluate, QueueOk, FirstBest, RemovePair;
    assert KeyOf(a) == k && KeyOf(b) == k;
    assert In(bs, a) && In(bs, b);
    hide In, Pairable;
  }

  lemma {:induction false} OnlyBucketTwice(w1: Waits, w2: Waits, w3: Waits, k: Key)
    requires OnlyBucket(w1, w2, k) && OnlyBucket(w2, w3, k)
    ensures OnlyBucket(w1, w3, k)
  {
    hide TimesOf;
  }

  lemma {:induction false} DistinctMeansAlone2(s: set<QueueEntry>, a: QueueEntry, b: QueueEntry)
    requires a in s && b in s
    ensures DistinctTimes(s) ==> !Tied(s, a) && !Tied(s - {a}, b)
  {
    if DistinctTimes(s) { assert !Tied(s, a) && !Tied(s, b); }
  }

  lemma {:induction false} DistinctMeansAlone(s: set<QueueEntry>, player: string)
    ensures DistinctTimes(s) ==> Alone(s, player)
  {
    hide Tied;
  }
}
