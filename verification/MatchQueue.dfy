/** The bucketed matchmaking queue: amp-match-core/src/queue.rs. */
module MatchQueues {
  import opened Wrappers
  import opened Sums
  import opened Rules
  import opened QueueEntries
  import opened Pairing
  import opened ServiceRules

  datatype MatchOutcome = MatchOutcome(entryA: QueueEntry, entryB: QueueEntry, quality: Quality)

  /** Any element of a set; the hash map's iteration order is not modelled. */
  method Pick<T>(s: set<T>) returns (x: T)
    requires s != {}
    ensures x in s
  {
    x :| x in s;
  }

  lemma {:induction false} SizesUpdate(bs: Buckets, k: Key, b: seq<QueueEntry>)
    ensures Total(Sizes(bs[k := b])) == Total(Sizes(bs)) - |BucketAt(bs, k)| + |b|
    ensures |BucketAt(bs, k)| <= Total(Sizes(bs))
  {
    TotalUpdate(Sizes(bs), k, |b|);
    assert Sizes(bs[k := b]) == Sizes(bs)[k := |b|];
    hide Total;
  }

  ghost predicate Holds(bs: Buckets, player: string) {
    exists x :: In(bs, x) && Player(x) == player
  }

  /** Some bucket, outside those still to be visited, loses an entry. */
  ghost predicate Shrinks(bs: Buckets, player: string, unvisited: set<Key>) {
    exists k :: k in bs && k !in unvisited && |Retain(bs[k], player)| < |bs[k]|
  }

  /** The queue while it is being filtered: the `unvisited` buckets are as they were. */
  ghost function Partly(bs: Buckets, player: string, unvisited: set<Key>): Buckets {
    map k | k in bs :: if k in unvisited then bs[k] else Retain(bs[k], player)
  }

  class MatchQueue {
    var buckets: Buckets
    var totalCount: nat

    ghost predicate Valid()
      reads this
    {
      QueueOk(buckets) && totalCount == Total(Sizes(buckets))
    }

    constructor ()
      ensures Valid() && buckets == map[]
    {
      buckets, totalCount := map[], 0;
      assert Sizes(map[]) == map[];
    }

    /** Filters every bucket, in any order, and keeps the count. */
    method RetainOthers(player: string) returns (removed: bool)
      requires totalCount == Total(Sizes(buckets))
      modifies this
      ensures buckets == Without(old(buckets), player) && totalCount == Total(Sizes(buckets))
      ensures removed <==> Shrinks(old(buckets), player, {})
    {
      ghost var was := buckets;
      removed := false;
      var keys := buckets.Keys;
      hide Retain, Sizes, Total, Shrinks, Partly, Without;
      PartlyEnds(was, player);
      while keys != {}
        invariant keys <= was.Keys && buckets == Partly(was, player, keys)
        invariant totalCount == Total(Sizes(buckets))
        invariant removed <==> Shrinks(was, player, keys)
      {
        var k := Pick(keys);
        ShrinksStep(was, player, keys, k);
        PartlyStep(was, player, keys, k);
        var kept := Retain(buckets[k], player);
        var gone := |buckets[k]| - |kept|;
        SizesUpdate(buckets, k, kept);
        buckets := buckets[k := kept];
        totalCount := Minus(totalCount, gone);
        removed := removed || gone > 0;
        keys := keys - {k};
      }
    }

    method RemovePlayer(player: string) returns (removed: bool)
      requires Valid()
      modifies this
      ensures Valid() && buckets == Without(old(buckets), player)
      ensures forall x :: In(buckets, x) <==> In(old(buckets), x) && Player(x) != player
      ensures removed <==> Holds(old(buckets), player)
    {
      WithoutKeepsOk(buckets, player);
      RemovedMeans(buckets, player);
      hide QueueOk, Total, Sizes, Holds, Shrinks, Without;
      removed := RetainOthers(player);
    }

    lemma {:induction false} BucketIsSorted(key: Key)
      requires Valid()
      ensures Sorted(BucketAt(buckets, key))
    {
      assert key in buckets ==> BucketOk(key, buckets[key]);
    }

    lemma {:induction false} AddKeeps(pos: nat, entry: QueueEntry)
      requires Valid() && Fits(BucketAt(buckets, KeyOf(entry)), pos, Mmr(entry))
      requires forall x :: In(buckets, x) ==> Player(x) != Player(entry)
      ensures var key := KeyOf(entry);
        var more := buckets[key := InsertAt(BucketAt(buckets, key), pos, entry)];
        && QueueOk(more) && totalCount + 1 == Total(Sizes(more))
        && forall x :: In(more, x) <==> x == entry || In(buckets, x)
    {
      hide QueueOk, Total, Sizes;
      AddKeepsOk(buckets, pos, entry);
      SizesUpdate(buckets, KeyOf(entry), InsertAt(BucketAt(buckets, KeyOf(entry)), pos, entry));
      hide In;
    }

    lemma {:induction false} TakeKeeps(key: Key, i: nat, j: nat)
      requires Valid() && key in buckets && i < j < |buckets[key]|
      ensures var less := buckets[key := RemovePair(buckets[key], i, j)];
        && QueueOk(less) && totalCount - 2 == Total(Sizes(less))
        && forall x :: In(less, x) <==> In(buckets, x) && x != buckets[key][i] && x != buckets[key][j]
    {
      var bucket := buckets[key];
      assert BucketOk(key, bucket);
      RemovePairKeepsOk(key, bucket, i, j);
      ShrinkKeepsOk(buckets, key, RemovePair(bucket, i, j));
      SizesUpdate(buckets, key, RemovePair(bucket, i, j));
      assert Homed(key, bucket) && bucket[i] in bucket && bucket[j] in bucket;
      hide QueueOk, BucketOk, Total, Sizes, RemovePair;
    }

    /** Enqueues; any earlier entry of the same player is replaced. */
    method Push(entry: QueueEntry) returns (replaced: bool)
      requires Valid()
      modifies this
      ensures Valid()
      ensures replaced <==> Holds(old(buckets), Player(entry))
      ensures forall x :: In(buckets, x) <==> x == entry || (In(old(buckets), x) && Player(x) != Player(entry))
    {
      hide QueueOk, Total, Sizes, Fits, InsertAt, In, Sorted, Without, Holds;
      replaced := RemovePlayer(Player(entry));
      var key := KeyOf(entry);
      var bucket := BucketAt(buckets, key);
      BucketIsSorted(key);
      var pos := FindPosition(bucket, Mmr(entry));
      AddKeeps(pos, entry);
      FitsInside(bucket, pos, Mmr(entry));
      buckets := buckets[key := InsertAt(bucket, pos, entry)];
      totalCount := totalCount + 1;
    }

    method ContainsPlayer(player: string) returns (found: bool)
      requires Valid()
      ensures found <==> Holds(buckets, player)
    {
      found := exists k :: k in buckets && exists i :: 0 <= i < |buckets[k]| && Player(buckets[k][i]) == player;
      if found {
        var k, i :| k in buckets && 0 <= i < |buckets[k]| && Player(buckets[k][i]) == player;
        assert BucketOk(k, buckets[k]);
        assert In(buckets, buckets[k][i]);
      }
    }

    /** Empties the queue; no player appears twice in what comes out. */
    method DrainAll() returns (all: seq<QueueEntry>)
      requires Valid()
      modifies this
      ensures Valid() && buckets == map[]
      ensures forall x :: x in all <==> In(old(buckets), x)
      ensures OnePerPlayer(all)
    {
      all := [];
      ghost var was := buckets;
      var keys := buckets.Keys;
      while keys != {}
        invariant keys <= was.Keys && buckets == was
        invariant forall x :: x in all <==> In(was, x) && KeyOf(x) !in keys
        invariant OnePerPlayer(all)
      {
        var k := Pick(keys);
        assert BucketOk(k, was[k]);
        DrainStep(was, all, k);
        hide QueueOk, BucketOk, OnePerPlayer;
        forall x ensures x in all + was[k] <==> In(was, x) && KeyOf(x) !in keys - {k} {}
        all := all + buckets[k];
        keys := keys - {k};
      }
      buckets, totalCount := map[], 0;
      assert Sizes(map[]) == map[];
    }

    /**
     One pairing from the named bucket: none exactly when the cap is reached or brute force finds none,
     otherwise the lowest anchor's first best partner, taken out of the bucket.
     */
    method TryMatchBucket(key: Key, rs: RuleSet, maxActive: nat, currentActive: nat, now: nat)
      returns (out: Option<MatchOutcome>, ghost i: nat, ghost j: nat)
      requires Valid()
      modifies this
      ensures Valid()
      ensures out.None? <==> currentActive >= maxActive || NoPair(BucketAt(old(buckets), key), rs, now)
      ensures out.None? ==> buckets == old(buckets) && totalCount == old(totalCount)
      ensures out.Some? ==>
        var b := BucketAt(old(buckets), key);
        && FirstBest(b, i, j, rs, now) && out.value.entryA == b[i] && out.value.entryB == b[j]
        && out.value.quality == Evaluate(b[i].ticket, b[j].ticket, rs, now).quality
        && key in old(buckets) && buckets == old(buckets)[key := RemovePair(b, i, j)]
          && totalCount == old(totalCount) - 2
        && forall x :: In(buckets, x) <==> In(old(buckets), x) && x != b[i] && x != b[j]
      ensures out.Some? ==> forall window :: rs == RulesetFor(window) ==>
        Neighbours(BucketAt(old(buckets), key), i, j, window)
    {
      out, i, j := None, 0, 0;
      if currentActive >= maxActive { return; }
      if key !in buckets { return; }
      var bucket := buckets[key];
      assert BucketOk(key, bucket);
      if |bucket| < 2 {
        assert NoPair(bucket, rs, now) by { hide Evaluate; }
        return;
      }
      var pick := FindPair(bucket, rs, now);
      hide NoPair, QueueOk, Evaluate, RulesetFor, Neighbours;
      if pick.Some? {
        i, j := pick.value.0, pick.value.1;
        var a, b := pick.value.0, pick.value.1;
        var quality := EvaluateRules(bucket[a].ticket, bucket[b].ticket, rs, now);
        TakeKeeps(key, a, b);
        NeighboursTaken(key, bucket, a, b, rs, now);
        hide Total, Sizes, RemovePair, BucketOk, In;
        buckets := buckets[key := RemovePair(bucket, a, b)];
        totalCount := totalCount - 2;
        out := Some(MatchOutcome(bucket[a], bucket[b], quality.quality));
      }
    }
  }

  /** Under the service's rules the first best pair of a bucket is a pair of neighbours. */
  lemma {:induction false} NeighboursTaken(k: Key, b: seq<QueueEntry>, i: nat, j: nat, rs: RuleSet, now: nat)
    requires BucketOk(k, b) && FirstBest(b, i, j, rs, now)
    ensures forall window :: rs == RulesetFor(window) ==> Neighbours(b, i, j, window)
  {
    hide BucketOk, FirstBest, Neighbours, RulesetFor;
    forall window | rs == RulesetFor(window) ensures Neighbours(b, i, j, window) {
      FirstBestIsNeighbours(k, b, i, j, window, now);
    }
  }

  lemma {:induction false} FitsInside(b: seq<QueueEntry>, pos: int, mmr: real)
    requires Fits(b, pos, mmr)
    ensures 0 <= pos <= |b|
  {
  }

  lemma {:induction false} PartlyEnds(bs: Buckets, player: string)
    ensures Partly(bs, player, bs.Keys) == bs && !Shrinks(bs, player, bs.Keys)
    ensures Partly(bs, player, {}) == Without(bs, player)
  {
    hide Retain;
  }

  lemma {:induction false} PartlyStep(bs: Buckets, player: string, keys: set<Key>, k: Key)
    requires k in keys && k in bs
    ensures k in Partly(bs, player, keys) && Partly(bs, player, keys)[k] == bs[k]
    ensures Partly(bs, player, keys - {k}) == Partly(bs, player, keys)[k := Retain(bs[k], player)]
  {
    hide Retain;
  }

  lemma {:induction false} ShrinksStep(bs: Buckets, player: string, keys: set<Key>, k: Key)
    requires k in keys && k in bs
    ensures Shrinks(bs, player, keys - {k}) <==> Shrinks(bs, player, keys) || |Retain(bs[k], player)| < |bs[k]|
  {
    hide Retain;
    if Shrinks(bs, player, keys) {
      var l :| l in bs && l !in keys && |Retain(bs[l], player)| < |bs[l]|;
      assert l !in keys - {k};
    }
  }

  lemma {:induction false} RemovedMeans(bs: Buckets, player: string)
    requires QueueOk(bs)
    ensures Holds(bs, player) <==> Shrinks(bs, player, {})
  {
    if Holds(bs, player) {
      var x :| In(bs, x) && Player(x) == player;
      assert |Retain(bs[KeyOf(x)], player)| < |bs[KeyOf(x)]|;
    }
    if Shrinks(bs, player, {}) {
      var k :| k in bs && |Retain(bs[k], player)| < |bs[k]|;
      var x :| x in bs[k] && Player(x) == player;
      assert BucketOk(k, bs[k]);
      assert In(bs, x);
    }
  }

  /** Appending the next bucket keeps one entry per player. */
  lemma {:induction false} DrainStep(bs: Buckets, all: seq<QueueEntry>, k: Key)
    requires QueueOk(bs) && k in bs && OnePerPlayer(all)
    requires forall x :: x in all ==> In(bs, x) && KeyOf(x) != k
    ensures OnePerPlayer(all + bs[k])
  {
    var b := bs[k];
    var r := all + b;
    assert BucketOk(k, b);
    forall i, j | 0 <= i < j < |r| ensures Player(r[i]) != Player(r[j]) {
      if i < |all| <= j {
        assert all[i] in all && In(bs, b[j - |all|]);
        BucketsApart(bs, all[i], b[j - |all|]);
      } else if j >= |all| {
        assert Player(b[i - |all|]) != Player(b[j - |all|]);
      }
    }
  }
}
