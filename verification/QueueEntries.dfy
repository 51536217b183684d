/** Queue entries and their buckets: the data of amp-match-core/src/queue.rs. */
module QueueEntries {
  import opened Wrappers
  import opened Sums
  import Sorting
  import Sets
  import opened Rules

  type Key = (string, string)

  datatype QueueEntry = QueueEntry(ticketId: int, stakeWei: int, canonicalRuleset: string, ticket: PlayerTicket)

  type Buckets = map<Key, seq<QueueEntry>>

  function KeyOf(e: QueueEntry): Key { (e.ticket.gameId, e.ticket.rulesetId) }
  function Player(e: QueueEntry): string { e.ticket.playerId }
  function Mmr(e: QueueEntry): real { e.ticket.mmr }

  function BucketAt(bs: Buckets, k: Key): seq<QueueEntry> {
    if k in bs then bs[k] else []
  }

  /** The entry is queued, in the bucket its ticket names. */
  predicate In(bs: Buckets, e: QueueEntry) {
    e in BucketAt(bs, KeyOf(e))
  }

  // ---------- the representation ----------

  ghost predicate Sorted(b: seq<QueueEntry>) {
    forall i, j :: 0 <= i < j < |b| ==> Mmr(b[i]) <= Mmr(b[j])
  }

  ghost predicate Homed(k: Key, b: seq<QueueEntry>) {
    forall i :: 0 <= i < |b| ==> KeyOf(b[i]) == k
  }

  ghost predicate OnePerPlayer(b: seq<QueueEntry>) {
    forall i, j :: 0 <= i < j < |b| ==> Player(b[i]) != Player(b[j])
  }

  ghost predicate NoShared(b: seq<QueueEntry>, c: seq<QueueEntry>) {
    forall i, j :: 0 <= i < |b| && 0 <= j < |c| ==> Player(b[i]) != Player(c[j])
  }

  ghost predicate BucketOk(k: Key, b: seq<QueueEntry>) {
    Sorted(b) && Homed(k, b) && OnePerPlayer(b)
  }

  ghost predicate Apart(bs: Buckets) {
    forall k, l :: k in bs && l in bs && k != l ==> NoShared(bs[k], bs[l])
  }

  ghost predicate QueueOk(bs: Buckets) {
    (forall k :: k in bs ==> BucketOk(k, bs[k])) && Apart(bs)
  }

  ghost function Sizes(bs: Buckets): map<Key, nat> {
    map k | k in bs :: |bs[k]|
  }

  lemma {:induction false} BucketsApart(bs: Buckets, x: QueueEntry, y: QueueEntry)
    requires QueueOk(bs) && In(bs, x) && In(bs, y) && KeyOf(x) != KeyOf(y)
    ensures Player(x) != Player(y)
  {
    var b, c := bs[KeyOf(x)], bs[KeyOf(y)];
    assert NoShared(b, c);
    var i :| 0 <= i < |b| && b[i] == x;
    var j :| 0 <= j < |c| && c[j] == y;
  }

  /** Each player has at most one entry in the whole queue. */
  lemma {:induction false} OneEntryPerPlayer(bs: Buckets, x: QueueEntry, y: QueueEntry)
    requires QueueOk(bs) && In(bs, x) && In(bs, y) && Player(x) == Player(y)
    ensures x == y
  {
    if KeyOf(x) != KeyOf(y) {
      BucketsApart(bs, x, y);
      assert false;
    }
    var b := bs[KeyOf(x)];
    assert BucketOk(KeyOf(x), b);
    var i :| 0 <= i < |b| && b[i] == x;
    var j :| 0 <= j < |b| && b[j] == y;
  }

  // ---------- dropping a player ----------

  function Retain(b: seq<QueueEntry>, player: string): (r: seq<QueueEntry>)
    ensures |r| <= |b|
    ensures |r| == |b| <==> forall x :: x in b ==> Player(x) != player
    ensures forall x :: x in r <==> x in b && Player(x) != player
    decreases |b|
  {
    if b == [] then []
    else
      var n := |b| - 1;
      var r := Retain(b[..n], player);
      assert b == b[..n] + [b[n]];
      if Player(b[n]) == player then r else r + [b[n]]
  }

  /** `e` may stand after every entry of `b`. */
  ghost predicate Follows(k: Key, b: seq<QueueEntry>, e: QueueEntry) {
    KeyOf(e) == k && forall x :: x in b ==> Mmr(x) <= Mmr(e) && Player(x) != Player(e)
  }

  lemma {:induction false} AppendKeepsOk(k: Key, b: seq<QueueEntry>, e: QueueEntry)
    requires BucketOk(k, b) && Follows(k, b, e)
    ensures BucketOk(k, b + [e])
  {
    var r := b + [e];
    assert forall i :: 0 <= i < |r| ==> r[i] == if i < |b| then b[i] else e;
    forall i | 0 <= i < |b| ensures Mmr(b[i]) <= Mmr(e) && Player(b[i]) != Player(e) { assert b[i] in b; }
    hide KeyOf, Mmr, Player;
  }

  lemma {:induction false} LastFollows(k: Key, b: seq<QueueEntry>)
    requires BucketOk(k, b) && b != []
    ensures BucketOk(k, b[..|b| - 1]) && Follows(k, b[..|b| - 1], b[|b| - 1])
  {
  }

  lemma {:induction false} RetainKeepsOk(k: Key, b: seq<QueueEntry>, player: string)
    requires BucketOk(k, b)
    ensures BucketOk(k, Retain(b, player))
    decreases |b|
  {
    if b != [] {
      var n := |b| - 1;
      LastFollows(k, b);
      RetainKeepsOk(k, b[..n], player);
      var r := Retain(b[..n], player);
      assert Follows(k, r, b[n]);
      AppendKeepsOk(k, r, b[n]);
      hide BucketOk, Follows;
    }
  }

  /** A queue without any entry of one player. */
  ghost function Without(bs: Buckets, player: string): Buckets {
    map k | k in bs :: Retain(bs[k], player)
  }

  lemma {:induction false} WithoutKeepsOk(bs: Buckets, player: string)
    requires QueueOk(bs)
    ensures QueueOk(Without(bs, player))
    ensures forall x :: In(Without(bs, player), x) <==> In(bs, x) && Player(x) != player
  {
    var r := Without(bs, player);
    hide Retain, BucketOk;
    forall k | k in r ensures BucketOk(k, r[k]) {
      assert BucketOk(k, bs[k]);
      RetainKeepsOk(k, bs[k], player);
    }
    forall k, l | k in r && l in r && k != l ensures NoShared(r[k], r[l]) {
      assert NoShared(bs[k], bs[l]);
      RetainApart(bs[k], bs[l], player);
    }
  }

  lemma {:induction false} RetainApart(b: seq<QueueEntry>, c: seq<QueueEntry>, player: string)
    requires NoShared(b, c)
    ensures NoShared(Retain(b, player), Retain(c, player))
  {
    var r, s := Retain(b, player), Retain(c, player);
    forall i, j | 0 <= i < |r| && 0 <= j < |s| ensures Player(r[i]) != Player(s[j]) {
      assert r[i] in b && s[j] in c;
    }
  }

  // ---------- adding an entry ----------

  function InsertAt(b: seq<QueueEntry>, pos: nat, e: QueueEntry): seq<QueueEntry>
    requires pos <= |b|
  {
    b[..pos] + [e] + b[pos..]
  }

  ghost predicate Fits(b: seq<QueueEntry>, pos: int, mmr: real) {
    && 0 <= pos <= |b|
    && (forall i :: 0 <= i < pos ==> Mmr(b[i]) <= mmr)
    && (forall i :: pos <= i < |b| ==> mmr <= Mmr(b[i]))
  }

  /** Bisection: a position that keeps the bucket sorted. */
  method FindPosition(b: seq<QueueEntry>, mmr: real) returns (pos: nat)
    requires Sorted(b)
    ensures Fits(b, pos, mmr)
  {
    var lo, hi := 0, |b|;
    while lo < hi
      invariant 0 <= lo <= hi <= |b|
      invariant forall i :: 0 <= i < lo ==> Mmr(b[i]) < mmr
      invariant forall i :: hi <= i < |b| ==> mmr < Mmr(b[i])
    {
      var mid := lo + (hi - lo) / 2;
      if Mmr(b[mid]) == mmr { return mid; }
      if Mmr(b[mid]) < mmr { lo := mid + 1; } else { hi := mid; }
    }
    pos := lo;
  }

  lemma {:induction false} InsertIndex(b: seq<QueueEntry>, pos: nat, e: QueueEntry)
    requires pos <= |b|
    ensures var r := InsertAt(b, pos, e);
      && |r| == |b| + 1
      && (forall i :: 0 <= i < |r| ==> r[i] == if i < pos then b[i] else if i == pos then e else b[i - 1])
      && (forall x :: x in r <==> x == e || x in b)
  {
    assert b == b[..pos] + b[pos..];
  }

  lemma {:induction false} InsertKeepsOk(k: Key, b: seq<QueueEntry>, pos: nat, e: QueueEntry)
    requires BucketOk(k, b) && Fits(b, pos, Mmr(e)) && KeyOf(e) == k
    requires forall i :: 0 <= i < |b| ==> Player(b[i]) != Player(e)
    ensures BucketOk(k, InsertAt(b, pos, e))
    ensures forall x :: x in InsertAt(b, pos, e) <==> x == e || x in b
  {
    InsertIndex(b, pos, e);
    hide InsertAt;
    var r := InsertAt(b, pos, e);
    forall i, j | 0 <= i < j < |r| ensures Mmr(r[i]) <= Mmr(r[j]) && Player(r[i]) != Player(r[j]) {
      var x, y := if i < pos then i else i - 1, if j < pos then j else j - 1;
      assert i != pos && j != pos ==> Mmr(b[x]) <= Mmr(b[y]) && Player(b[x]) != Player(b[y]);
    }
  }

  lemma {:induction false} AddKeepsOk(bs: Buckets, pos: nat, e: QueueEntry)
    requires QueueOk(bs) && Fits(BucketAt(bs, KeyOf(e)), pos, Mmr(e))
    requires forall x :: In(bs, x) ==> Player(x) != Player(e)
    ensures var r := bs[KeyOf(e) := InsertAt(BucketAt(bs, KeyOf(e)), pos, e)];
      QueueOk(r) && forall x :: In(r, x) <==> x == e || In(bs, x)
  {
    var k := KeyOf(e);
    var b := BucketAt(bs, k);
    var r := bs[k := InsertAt(b, pos, e)];
    forall l, i | l in bs && 0 <= i < |bs[l]| ensures Player(bs[l][i]) != Player(e) {
      assert BucketOk(l, bs[l]);
      assert In(bs, bs[l][i]);
    }
    assert k in bs ==> BucketOk(k, bs[k]);
    InsertKeepsOk(k, b, pos, e);
    hide InsertAt, BucketOk;
    forall l, m | l in r && m in r && l != m ensures NoShared(r[l], r[m]) {
      if l != k && m != k { assert NoShared(bs[l], bs[m]); }
      else {
        forall i, j | 0 <= i < |r[l]| && 0 <= j < |r[m]| ensures Player(r[l][i]) != Player(r[m][j]) {
          assert l == k ==> r[l][i] == e || r[l][i] in b;
          assert m == k ==> r[m][j] == e || r[m][j] in b;
          assert k in bs && l in bs && m in bs ==> NoShared(bs[l], bs[m]);
        }
      }
    }
  }

  // ---------- the count ----------

  lemma {:induction false} SmallerQueueOk(bs: Buckets, k: Key)
    requires QueueOk(bs)
    ensures QueueOk(bs - {k})
  {
    hide BucketOk, NoShared;
  }

  lemma {:induction false} BucketSize(k: Key, b: seq<QueueEntry>)
    requires BucketOk(k, b)
    ensures |set x | x in b| == |b|
  {
    assert Sorting.NoDup(b);
    Sets.SetOfNoDup(b);
  }

  lemma {:induction false} SplitSize<T>(s: set<T>, part: set<T>)
    requires part <= s
    ensures |s| == |s - part| + |part|
  {
    assert s == (s - part) + part;
  }

  lemma {:induction false} SizesWithout(bs: Buckets, k: Key)
    requires k in bs
    ensures Total(Sizes(bs)) == |bs[k]| + Total(Sizes(bs - {k}))
  {
    TotalPick(Sizes(bs), k);
    assert Sizes(bs) - {k} == Sizes(bs - {k});
    hide Total;
  }

  ghost function Here(b: seq<QueueEntry>): set<QueueEntry> {
    set x | x in b
  }

  lemma {:induction false} EntriesWithout(bs: Buckets, s: set<QueueEntry>, k: Key)
    requires QueueOk(bs) && k in bs && forall x :: In(bs, x) <==> x in s
    ensures Here(bs[k]) <= s && |Here(bs[k])| == |bs[k]|
    ensures QueueOk(bs - {k}) && forall x :: In(bs - {k}, x) <==> x in s - Here(bs[k])
  {
    var b := bs[k];
    assert BucketOk(k, b);
    BucketSize(k, b);
    SmallerQueueOk(bs, k);
    hide BucketOk, QueueOk;
    forall x ensures x in b <==> In(bs, x) && KeyOf(x) == k {}
    assert Here(b) == set x | x in b;
    forall x ensures In(bs - {k}, x) <==> x in s - Here(b) {}
  }

  /** The count kept by the queue is the number of distinct entries in it. */
  lemma {:induction false} CountIsExact(bs: Buckets, s: set<QueueEntry>)
    requires QueueOk(bs) && forall x :: In(bs, x) <==> x in s
    ensures Total(Sizes(bs)) == |s|
    decreases |bs|
  {
    if bs == map[] {
      assert Sizes(bs) == map[] && s == {};
    } else {
      var k :| k in bs;
      EntriesWithout(bs, s, k);
      SizesWithout(bs, k);
      SplitSize(s, Here(bs[k]));
      hide QueueOk, Total, Sizes, Here, In;
      CountIsExact(bs - {k}, s - Here(bs[k]));
    }
  }
}
