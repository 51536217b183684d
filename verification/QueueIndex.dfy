/** The side index the server keeps next to its queue: amp-server/src/queue.rs. */
module QueueIndex {
  import opened Wrappers
  import opened Rules
  import opened QueueEntries

  type Waits = map<Key, set<nat>>
  type Members = map<string, (Key, nat)>

  function Time(e: QueueEntry): nat { e.ticket.enqueuedAtMs }

  function TimesOf(w: Waits, k: Key): set<nat> {
    if k in w then w[k] else {}
  }

  /** Takes one time out of a bucket's set, and the set out of the map when it runs empty. */
  function DropTime(w: Waits, k: Key, t: nat): Waits {
    if k in w && t in w[k] then
      if w[k] == {t} then w - {k} else w[k := w[k] - {t}]
    else w
  }

  function AddTime(w: Waits, k: Key, t: nat): Waits {
    w[k := TimesOf(w, k) + {t}]
  }

  // ---------- what the index says about the queued entries `s` ----------

  ghost predicate OneEach(s: set<QueueEntry>) {
    forall x, y :: x in s && y in s && Player(x) == Player(y) ==> x == y
  }

  ghost predicate Queued(s: set<QueueEntry>, k: Key, t: nat) {
    exists x :: x in s && KeyOf(x) == k && Time(x) == t
  }

  /** `members` matches the queue entry for entry. */
  ghost predicate MembersOk(s: set<QueueEntry>, m: Members) {
    && (forall x :: x in s ==> Player(x) in m && m[Player(x)] == (KeyOf(x), Time(x)))
    && (forall p :: p in m ==> exists x :: x in s && Player(x) == p)
  }

  /** `waits` holds no empty set and no stale time. */
  ghost predicate WaitsOk(s: set<QueueEntry>, w: Waits) {
    forall k :: k in w ==> w[k] != {} && forall t :: t in w[k] ==> Queued(s, k, t)
  }

  /** `waits` holds the time of every queued entry. */
  ghost predicate WaitsCover(s: set<QueueEntry>, w: Waits) {
    forall x :: x in s ==> Time(x) in TimesOf(w, KeyOf(x))
  }

  /** Another entry waits in the same bucket since the same time. */
  ghost predicate Tied(s: set<QueueEntry>, x: QueueEntry) {
    exists y :: y in s && y != x && KeyOf(y) == KeyOf(x) && Time(y) == Time(x)
  }

  ghost predicate DistinctTimes(s: set<QueueEntry>) {
    forall x :: x in s ==> !Tied(s, x)
  }

  // ---------- removing and adding one entry ----------

  lemma {:induction false} RemoveKeepsMembers(s: set<QueueEntry>, m: Members, x: QueueEntry)
    requires OneEach(s) && MembersOk(s, m) && x in s
    ensures MembersOk(s - {x}, m - {Player(x)}) && OneEach(s - {x})
    ensures Player(x) in m && m[Player(x)] == (KeyOf(x), Time(x))
  {
    var r, n := s - {x}, m - {Player(x)};
    forall p | p in n ensures exists y :: y in r && Player(y) == p {
      var y :| y in s && Player(y) == p;
      assert y in r;
    }
  }

  lemma {:induction false} RemoveKeepsWaits(s: set<QueueEntry>, w: Waits, x: QueueEntry)
    requires WaitsOk(s, w) && x in s
    ensures WaitsOk(s - {x}, DropTime(w, KeyOf(x), Time(x)))
  {
    var r, v := s - {x}, DropTime(w, KeyOf(x), Time(x));
    forall k, t | k in v && t in v[k] ensures Queued(r, k, t) {
      assert k in w && t in w[k];
      assert Queued(s, k, t);
      var y :| y in s && KeyOf(y) == k && Time(y) == t;
      assert y in r;
    }
  }

  lemma {:induction false} DropTimeMeans(w: Waits, k: Key, t: nat, l: Key, u: nat)
    ensures u in TimesOf(DropTime(w, k, t), l) <==> u in TimesOf(w, l) && !(l == k && u == t)
  {
  }

  /** Dropping a time keeps the cover exactly when nobody else in the bucket shares it. */
  lemma {:induction false} RemoveKeepsCover(s: set<QueueEntry>, w: Waits, x: QueueEntry)
    requires WaitsCover(s, w) && x in s
    ensures WaitsCover(s - {x}, DropTime(w, KeyOf(x), Time(x))) <==> !Tied(s, x)
  {
    var r, v := s - {x}, DropTime(w, KeyOf(x), Time(x));
    hide DropTime;
    if Tied(s, x) {
      var y :| y in s && y != x && KeyOf(y) == KeyOf(x) && Time(y) == Time(x);
      DropTimeMeans(w, KeyOf(x), Time(x), KeyOf(y), Time(y));
      assert y in r;
    } else {
      forall y | y in r ensures Time(y) in TimesOf(v, KeyOf(y)) {
        DropTimeMeans(w, KeyOf(x), Time(x), KeyOf(y), Time(y));
        assert y in s;
      }
    }
  }

  /** Two entries that joined one bucket at the same time: when one leaves, the other's wait is lost. */
  lemma {:induction false} TiedTimeIsLost(x: QueueEntry, y: QueueEntry)
    requires Player(x) != Player(y) && KeyOf(x) == KeyOf(y) && Time(x) == Time(y)
    ensures var w := map[KeyOf(x) := {Time(x)}];
      WaitsCover({x, y}, w) && !WaitsCover({y}, DropTime(w, KeyOf(x), Time(x)))
  {
    var w := map[KeyOf(x) := {Time(x)}];
    assert y in {y} && KeyOf(y) !in DropTime(w, KeyOf(x), Time(x));
  }

  lemma {:induction false} RemoveKeepsDistinct(s: set<QueueEntry>, x: QueueEntry)
    requires DistinctTimes(s)
    ensures DistinctTimes(s - {x})
  {
    forall y | y in s - {x} ensures !Tied(s - {x}, y) { assert !Tied(s, y); }
  }

  /** The index agrees with the queued entries. */
  ghost predicate IndexOk(s: set<QueueEntry>, m: Members, w: Waits) {
    OneEach(s) && MembersOk(s, m) && WaitsOk(s, w)
  }

  /** Nothing changes in the other buckets. */
  ghost predicate OnlyBucket(w: Waits, v: Waits, k: Key) {
    forall l :: l != k ==> TimesOf(v, l) == TimesOf(w, l) && (l in v <==> l in w)
  }

  lemma {:induction false} DropOnlyBucket(w: Waits, k: Key, t: nat)
    ensures OnlyBucket(w, DropTime(w, k, t), k)
  {
  }

  /** Everything that dropping one entry from the index does. */
  lemma {:induction false} RemoveKeepsIndex(s: set<QueueEntry>, m: Members, w: Waits, x: QueueEntry)
    requires IndexOk(s, m, w) && x in s
    ensures Player(x) in m && m[Player(x)] == (KeyOf(x), Time(x))
    ensures IndexOk(s - {x}, m - {Player(x)}, DropTime(w, KeyOf(x), Time(x)))
    ensures WaitsCover(s, w) ==> (WaitsCover(s - {x}, DropTime(w, KeyOf(x), Time(x))) <==> !Tied(s, x))
    ensures DistinctTimes(s) ==> DistinctTimes(s - {x})
    ensures OnlyBucket(w, DropTime(w, KeyOf(x), Time(x)), KeyOf(x))
  {
    hide OneEach, WaitsOk, MembersOk, Tied, DistinctTimes, WaitsCover, DropTime, OnlyBucket;
    RemoveKeepsMembers(s, m, x);
    RemoveKeepsWaits(s, w, x);
    DropOnlyBucket(w, KeyOf(x), Time(x));
    if WaitsCover(s, w) { RemoveKeepsCover(s, w, x); }
    if DistinctTimes(s) { RemoveKeepsDistinct(s, x); }
  }

  /** The entries of everyone else. */
  ghost function Others(s: set<QueueEntry>, player: string): set<QueueEntry> {
    set x | x in s && Player(x) != player
  }

  /** The player shares no join time with anyone in the same bucket. */
  ghost predicate Alone(s: set<QueueEntry>, player: string) {
    forall x :: x in s && Player(x) == player ==> !Tied(s, x)
  }

  lemma {:induction false} OthersWithout(s: set<QueueEntry>, x: QueueEntry)
    requires OneEach(s) && x in s
    ensures Others(s, Player(x)) == s - {x}
    ensures Alone(s, Player(x)) <==> !Tied(s, x)
  {
    hide Tied;
  }

  lemma {:induction false} OthersAll(s: set<QueueEntry>, m: Members, player: string)
    requires MembersOk(s, m) && player !in m
    ensures Others(s, player) == s && Alone(s, player)
  {
    hide Tied;
  }

  lemma {:induction false} AddKeepsMembers(s: set<QueueEntry>, m: Members, e: QueueEntry)
    requires OneEach(s) && MembersOk(s, m) && forall x :: x in s ==> Player(x) != Player(e)
    ensures MembersOk(s + {e}, m[Player(e) := (KeyOf(e), Time(e))]) && OneEach(s + {e})
  {
    var r, n := s + {e}, m[Player(e) := (KeyOf(e), Time(e))];
    forall p | p in n ensures exists y :: y in r && Player(y) == p {
      if p == Player(e) { assert e in r; }
      else {
        var y :| y in s && Player(y) == p;
        assert y in r;
      }
    }
  }

  lemma {:induction false} AddKeepsWaits(s: set<QueueEntry>, w: Waits, e: QueueEntry)
    requires WaitsOk(s, w)
    ensures WaitsOk(s + {e}, AddTime(w, KeyOf(e), Time(e)))
    ensures WaitsCover(s, w) ==> WaitsCover(s + {e}, AddTime(w, KeyOf(e), Time(e)))
  {
    var r, v := s + {e}, AddTime(w, KeyOf(e), Time(e));
    forall k, t | k in v && t in v[k] ensures Queued(r, k, t) {
      if k == KeyOf(e) && t == Time(e) { assert e in r; }
      else {
        assert Queued(s, k, t);
        var y :| y in s && KeyOf(y) == k && Time(y) == t;
        assert y in r;
      }
    }
  }

  lemma {:induction false} AddKeepsDistinct(s: set<QueueEntry>, e: QueueEntry)
    requires DistinctTimes(s) && !Tied(s + {e}, e)
    ensures DistinctTimes(s + {e})
  {
    forall x | x in s + {e} ensures !Tied(s + {e}, x) {
      if x != e {
        assert !Tied(s, x);
        forall y | y in s + {e} && y != x && KeyOf(y) == KeyOf(x) ensures Time(y) != Time(x) {
          if y == e { assert x in s + {e}; }
        }
      }
    }
  }

  /** Equality: with distinct join times, `waits` is exactly the queued times of every bucket. */
  lemma {:induction false} WaitsAreQueuedTimes(s: set<QueueEntry>, w: Waits, k: Key, t: nat)
    requires WaitsOk(s, w) && WaitsCover(s, w)
    ensures t in TimesOf(w, k) <==> Queued(s, k, t)
  {
  }

  /** Everything that adding one entry to the index does. */
  lemma {:induction false} AddKeepsIndex(s: set<QueueEntry>, m: Members, w: Waits, e: QueueEntry)
    requires IndexOk(s, m, w) && forall x :: x in s ==> Player(x) != Player(e)
    ensures IndexOk(s + {e}, m[Player(e) := (KeyOf(e), Time(e))], AddTime(w, KeyOf(e), Time(e)))
    ensures WaitsCover(s, w) ==> WaitsCover(s + {e}, AddTime(w, KeyOf(e), Time(e)))
    ensures DistinctTimes(s) ==> (DistinctTimes(s + {e}) <==> !Tied(s + {e}, e))
  {
    AddKeepsMembers(s, m, e);
    hide OneEach, WaitsOk, MembersOk, Tied, WaitsCover, AddTime;
    AddKeepsWaits(s, w, e);
    assert e in s + {e};
    if DistinctTimes(s) && !Tied(s + {e}, e) { AddKeepsDistinct(s, e); }
  }
}
