/** The search for one pairing in a bucket, against brute force: amp-match-core/src/queue.rs. */
module Pairing {
  import opened Wrappers
  import opened Rules
  import opened QueueEntries

  function Score(x: QueueEntry, y: QueueEntry, rs: RuleSet, now: nat): real {
    Evaluate(x.ticket, y.ticket, rs, now).quality.total
  }

  /** Two entries may be paired: different players, close enough, and the rules give a positive score. */
  predicate Pairable(x: QueueEntry, y: QueueEntry, rs: RuleSet, now: nat) {
    && Player(x) != Player(y) && Abs(Mmr(x) - Mmr(y)) <= rs.maxSkillDiff
    && Evaluate(x.ticket, y.ticket, rs, now).passes && Score(x, y, rs, now) > 0.0
  }

  lemma {:induction false} PairableIsSymmetric(x: QueueEntry, y: QueueEntry, rs: RuleSet, now: nat)
    ensures Pairable(x, y, rs, now) <==> Pairable(y, x, rs, now)
    ensures Score(x, y, rs, now) == Score(y, x, rs, now)
  {
    EvaluateIsSymmetric(x.ticket, y.ticket, rs, now);
    hide Evaluate;
  }

  /** `j` is the first of the best-scoring partners of anchor `i`. */
  ghost predicate BestPartner(b: seq<QueueEntry>, i: nat, j: nat, rs: RuleSet, now: nat) {
    && i < j < |b| && Pairable(b[i], b[j], rs, now)
    && forall l :: i < l < |b| && Pairable(b[i], b[l], rs, now) ==>
        Score(b[i], b[l], rs, now) <= Score(b[i], b[j], rs, now)
          && (l < j ==> Score(b[i], b[l], rs, now) < Score(b[i], b[j], rs, now))
  }

  ghost predicate NoPartner(b: seq<QueueEntry>, i: nat, rs: RuleSet, now: nat) {
    i < |b| ==> forall l :: i < l < |b| ==> !Pairable(b[i], b[l], rs, now)
  }

  /** Anchor `i` is the lowest with a partner at all, and `j` is its first best partner. */
  ghost predicate FirstBest(b: seq<QueueEntry>, i: nat, j: nat, rs: RuleSet, now: nat) {
    BestPartner(b, i, j, rs, now) && forall h :: 0 <= h < i ==> NoPartner(b, h, rs, now)
  }

  /** Brute force: no two entries of the bucket, in either order, may be paired. */
  ghost predicate NoPair(b: seq<QueueEntry>, rs: RuleSet, now: nat) {
    forall x, y :: x in b && y in b ==> !Pairable(x, y, rs, now)
  }

  lemma {:induction false} NoPairMeans(b: seq<QueueEntry>, rs: RuleSet, now: nat)
    requires forall i :: 0 <= i < |b| ==> NoPartner(b, i, rs, now)
    ensures NoPair(b, rs, now)
  {
    hide Pairable;
    forall x, y | x in b && y in b ensures !Pairable(x, y, rs, now) {
      var i :| 0 <= i < |b| && b[i] == x;
      var j :| 0 <= j < |b| && b[j] == y;
      PairableIsSymmetric(x, y, rs, now);
      assert NoPartner(b, i, rs, now) && NoPartner(b, j, rs, now);
      if i == j { NotWithItself(x, rs, now); }
    }
  }

  lemma {:induction false} NotWithItself(x: QueueEntry, rs: RuleSet, now: nat)
    ensures !Pairable(x, x, rs, now)
  {
    hide Evaluate;
  }

  lemma {:induction false} OutOfReach(b: seq<QueueEntry>, i: nat, j: nat, l: nat, rs: RuleSet, now: nat)
    requires Sorted(b) && i < j <= l < |b| && Mmr(b[j]) > Mmr(b[i]) + rs.maxSkillDiff
    ensures !Pairable(b[i], b[l], rs, now)
  {
    hide Evaluate;
    assert j < l ==> Mmr(b[j]) <= Mmr(b[l]);
    assert Mmr(b[i]) <= Mmr(b[j]);
  }

  /** The best partner among the positions before `n`. */
  ghost predicate BestBefore(b: seq<QueueEntry>, i: nat, n: nat, best: Option<nat>, rs: RuleSet, now: nat) {
    && i < n <= |b|
    && match best
       case None => forall l :: i < l < n ==> !Pairable(b[i], b[l], rs, now)
       case Some(j) =>
         && i < j < n && Pairable(b[i], b[j], rs, now)
         && forall l :: i < l < n && Pairable(b[i], b[l], rs, now) ==>
              Score(b[i], b[l], rs, now) <= Score(b[i], b[j], rs, now)
                && (l < j ==> Score(b[i], b[l], rs, now) < Score(b[i], b[j], rs, now))
  }

  /** Scans forward from an anchor and stops as soon as sortedness rules out every later candidate. */
  method ScanPartners(b: seq<QueueEntry>, i: nat, rs: RuleSet, now: nat) returns (best: Option<nat>)
    requires Sorted(b) && i < |b|
    ensures BestBefore(b, i, |b|, best, rs, now)
  {
    var hi := Mmr(b[i]) + rs.maxSkillDiff;
    best := None;
    var bestScore := 0.0;
    var j := i + 1;
    hide Evaluate;
    while j < |b|
      invariant i < j <= |b| && BestBefore(b, i, j, best, rs, now)
      invariant bestScore == if best.Some? then Score(b[i], b[best.value], rs, now) else 0.0
    {
      if Mmr(b[j]) > hi {
        forall l | j <= l < |b| ensures !Pairable(b[i], b[l], rs, now) { OutOfReach(b, i, j, l, rs, now); }
        return;
      }
      if Player(b[j]) != Player(b[i]) {
        var v := EvaluateRules(b[i].ticket, b[j].ticket, rs, now);
        assert Mmr(b[i]) <= Mmr(b[j]);
        if v.passes && v.quality.total > bestScore {
          bestScore := v.quality.total;
          best := Some(j);
        }
      }
      j := j + 1;
    }
  }

  /**
   One pass over the anchors. Nothing is returned exactly when brute force finds no pair; otherwise the
   lowest anchor's first best partner is.
   */
  method FindPair(b: seq<QueueEntry>, rs: RuleSet, now: nat) returns (pick: Option<(nat, nat)>)
    requires Sorted(b)
    ensures pick.None? <==> NoPair(b, rs, now)
    ensures pick.Some? ==> FirstBest(b, pick.value.0, pick.value.1, rs, now)
  {
    hide Pairable;
    var i := 0;
    while i < |b|
      invariant 0 <= i <= |b| && forall h :: 0 <= h < i ==> NoPartner(b, h, rs, now)
    {
      var best := ScanPartners(b, i, rs, now);
      if best.Some? {
        assert Pairable(b[i], b[best.value], rs, now) && b[i] in b && b[best.value] in b;
        return Some((i, best.value));
      }
      assert NoPartner(b, i, rs, now);
      i := i + 1;
    }
    NoPairMeans(b, rs, now);
    pick := None;
  }

  // ---------- taking the pair out ----------

  function RemoveAt(b: seq<QueueEntry>, i: nat): seq<QueueEntry>
    requires i < |b|
  {
    b[..i] + b[i + 1..]
  }

  lemma {:induction false} RemoveIndex(b: seq<QueueEntry>, i: nat)
    requires i < |b|
    ensures |RemoveAt(b, i)| == |b| - 1
    ensures forall j :: 0 <= j < |b| - 1 ==> RemoveAt(b, i)[j] == b[if j < i then j else j + 1]
  {
  }

  lemma {:induction false} RemoveKeepsOk(k: Key, b: seq<QueueEntry>, i: nat)
    requires BucketOk(k, b) && i < |b|
    ensures BucketOk(k, RemoveAt(b, i))
    ensures forall x :: x in RemoveAt(b, i) <==> x in b && x != b[i]
  {
    RemoveIndex(b, i);
    var r := RemoveAt(b, i);
    hide RemoveAt;
    forall x ensures x in r <==> x in b && x != b[i] {
      if x in b && x != b[i] {
        var j :| 0 <= j < |b| && b[j] == x;
        assert r[if j < i then j else j - 1] == x;
      }
      if x in r {
        var j :| 0 <= j < |r| && r[j] == x;
        var at := if j < i then j else j + 1;
        assert b[at] == x;
        assert Player(b[at]) != Player(b[i]) by {
          if at < i { assert Player(b[at]) != Player(b[i]); } else { assert Player(b[i]) != Player(b[at]); }
        }
      }
    }
  }

  function RemovePair(b: seq<QueueEntry>, i: nat, j: nat): seq<QueueEntry>
    requires i < j < |b|
  {
    RemoveAt(RemoveAt(b, j), i)
  }

  lemma {:induction false} RemovePairKeepsOk(k: Key, b: seq<QueueEntry>, i: nat, j: nat)
    requires BucketOk(k, b) && i < j < |b|
    ensures BucketOk(k, RemovePair(b, i, j)) && |RemovePair(b, i, j)| == |b| - 2
    ensures forall x :: x in RemovePair(b, i, j) <==> x in b && x != b[i] && x != b[j]
  {
    RemoveIndex(b, j);
    RemoveKeepsOk(k, b, j);
    RemoveKeepsOk(k, RemoveAt(b, j), i);
    hide BucketOk;
  }

  /** Shrinking one bucket keeps the queue well formed. */
  lemma {:induction false} ShrinkKeepsOk(bs: Buckets, k: Key, c: seq<QueueEntry>)
    requires QueueOk(bs) && k in bs && BucketOk(k, c) && forall x :: x in c ==> x in bs[k]
    ensures QueueOk(bs[k := c])
  {
    var r := bs[k := c];
    forall l, m | l in r && m in r && l != m ensures NoShared(r[l], r[m]) {
      assert NoShared(bs[l], bs[m]);
      forall i, j | 0 <= i < |r[l]| && 0 <= j < |r[m]| ensures Player(r[l][i]) != Player(r[m][j]) {
        assert r[l][i] in bs[l] && r[m][j] in bs[m];
      }
    }
    hide BucketOk;
  }
}
