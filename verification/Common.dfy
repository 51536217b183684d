/** Optional values and fallible results, shared by every module. */
module Wrappers {
  datatype Option<+T> = None | Some(value: T)

  datatype Result<+T, +E> = Ok(value: T) | Err(error: E)
}

/** The library sort of both engines (stable, by a comparison), as an insertion sort. */
module Sorting {

  /** `le` is a total preorder: what a comparison passed to `sort` has to be. */
  ghost predicate TotalPreorder<T(!new)>(le: (T, T) -> bool) {
    && (forall x, y :: le(x, y) || le(y, x))
    && (forall x, y, z :: le(x, y) && le(y, z) ==> le(x, z))
  }

  ghost predicate SortedBy<T>(s: seq<T>, le: (T, T) -> bool) {
    forall i, j :: 0 <= i < j < |s| ==> le(s[i], s[j])
  }

  function Insert<T>(x: T, s: seq<T>, le: (T, T) -> bool): (r: seq<T>)
    ensures multiset(r) == multiset{x} + multiset(s)
    ensures |r| == |s| + 1
  {
    if |s| == 0 || le(x, s[0]) then [x] + s
    else
      assert s == [s[0]] + s[1..];
      [s[0]] + Insert(x, s[1..], le)
  }

  function SortBy<T>(s: seq<T>, le: (T, T) -> bool): (r: seq<T>)
    ensures multiset(r) == multiset(s)
    ensures |r| == |s|
  {
    if |s| == 0 then []
    else
      assert s == [s[0]] + s[1..];
      Insert(s[0], SortBy(s[1..], le), le)
  }

  lemma {:induction false} SameElements<T>(s: seq<T>, t: seq<T>)
    requires multiset(s) == multiset(t)
    ensures forall x :: x in s <==> x in t
  {
    forall x ensures x in s <==> x in t {
      assert x in s <==> x in multiset(s);
      assert x in t <==> x in multiset(t);
    }
  }

  lemma {:induction false} InsertSorted<T(!new)>(x: T, s: seq<T>, le: (T, T) -> bool)
    requires TotalPreorder(le) && SortedBy(s, le)
    ensures SortedBy(Insert(x, s, le), le)
  {
    if |s| == 0 || le(x, s[0]) {
      forall i, j | 0 <= i < j < |s| + 1 ensures le(([x] + s)[i], ([x] + s)[j]) {
        if i == 0 && j > 1 { assert le(s[0], s[j - 1]); }
      }
    } else {
      InsertSorted(x, s[1..], le);
      var r := Insert(x, s[1..], le);
      SameElements(r, [x] + s[1..]);
      forall y | y in r ensures le(s[0], y) {
        assert y in [x] + s[1..];
      }
    }
  }

  /** What `sort` promises: the result is ordered (its contract says it is a permutation). */
  lemma {:induction false} SortSorted<T(!new)>(s: seq<T>, le: (T, T) -> bool)
    requires TotalPreorder(le)
    ensures SortedBy(SortBy(s, le), le)
  {
    if |s| > 0 {
      SortSorted(s[1..], le);
      InsertSorted(s[0], SortBy(s[1..], le), le);
    }
  }

  ghost predicate NoTies<T>(s: seq<T>, le: (T, T) -> bool) {
    forall i, j :: 0 <= i < |s| && 0 <= j < |s| && le(s[i], s[j]) && le(s[j], s[i]) ==> s[i] == s[j]
  }

  lemma {:induction false} SameHead<T>(s: seq<T>, t: seq<T>, le: (T, T) -> bool)
    requires |s| > 0 && |t| > 0 && multiset(s) == multiset(t)
    requires SortedBy(s, le) && SortedBy(t, le) && NoTies(s, le)
    ensures s[0] == t[0]
  {
    SameElements(s, t);
    assert s[0] in t && t[0] in s;
    var i :| 0 <= i < |t| && t[i] == s[0];
    var j :| 0 <= j < |s| && s[j] == t[0];
    if i > 0 && j > 0 {
      assert le(s[0], s[j]) && le(t[0], t[i]);
    }
  }

  lemma {:induction false} SameLength<T>(s: seq<T>, t: seq<T>)
    requires multiset(s) == multiset(t)
    ensures |s| == |t|
  {
    assert |multiset(s)| == |s| && |multiset(t)| == |t|;
  }

  lemma {:induction false} SameTails<T>(s: seq<T>, t: seq<T>)
    requires |s| > 0 && |t| > 0 && s[0] == t[0] && multiset(s) == multiset(t)
    ensures multiset(s[1..]) == multiset(t[1..])
  {
    assert s == [s[0]] + s[1..] && t == [t[0]] + t[1..];
    assert multiset(s[1..]) == multiset(s) - multiset{s[0]};
    assert multiset(t[1..]) == multiset(t) - multiset{t[0]};
  }

  /** Two ordered permutations of one another are equal when no two distinct elements tie. */
  lemma {:induction false} SortedUnique<T>(s: seq<T>, t: seq<T>, le: (T, T) -> bool)
    requires SortedBy(s, le) && SortedBy(t, le) && NoTies(s, le)
    requires multiset(s) == multiset(t)
    ensures s == t
  {
    SameLength(s, t);
    if |s| > 0 {
      SameHead(s, t, le);
      SameTails(s, t);
      SortedUnique(s[1..], t[1..], le);
      assert s == [s[0]] + s[1..] && t == [t[0]] + t[1..];
    }
  }

  ghost predicate NoDup<T>(s: seq<T>) {
    forall i, j :: 0 <= i < j < |s| ==> s[i] != s[j]
  }

  lemma {:induction false} NoDupCount<T>(s: seq<T>, x: T)
    requires NoDup(s)
    ensures multiset(s)[x] <= 1
  {
    if |s| > 0 {
      assert s == [s[0]] + s[1..];
      NoDupCount(s[1..], x);
      if x == s[0] { assert x !in s[1..]; }
    }
  }

  /** A permutation of a sequence without repetitions has no repetitions. */
  lemma {:induction false} PermutationNoDup<T>(s: seq<T>, t: seq<T>)
    requires NoDup(s) && multiset(s) == multiset(t)
    ensures NoDup(t)
  {
    forall i, j | 0 <= i < j < |t| ensures t[i] != t[j] {
      if t[i] == t[j] {
        assert t == t[..j] + [t[j]] + t[j + 1..];
        assert t[i] in t[..j];
        NoDupCount(s, t[j]);
        assert false;
      }
    }
  }

  lemma {:induction false} NoTiesTransfers<T>(s: seq<T>, t: seq<T>, le: (T, T) -> bool)
    requires NoTies(s, le) && multiset(s) == multiset(t)
    ensures NoTies(t, le)
  {
    SameElements(s, t);
    forall i, j | 0 <= i < |t| && 0 <= j < |t| && le(t[i], t[j]) && le(t[j], t[i]) ensures t[i] == t[j] {
      assert t[i] in s && t[j] in s;
    }
  }

  /** Two lists without repetition and with the same elements are permutations of each other. */
  lemma {:induction false} SamePermutation(s: seq<int>, t: seq<int>)
    requires NoDup(s) && NoDup(t) && forall x :: x in s <==> x in t
    ensures multiset(s) == multiset(t)
  {
    forall x ensures multiset(s)[x] == multiset(t)[x] {
      NoDupCount(s, x);
      NoDupCount(t, x);
      assert x in s <==> x in multiset(s);
      assert x in t <==> x in multiset(t);
    }
  }

  /** A sort does not depend on the order of its input when no two distinct elements tie. */
  lemma {:induction false} SortOrderInsensitive<T(!new)>(s: seq<T>, t: seq<T>, le: (T, T) -> bool)
    requires TotalPreorder(le) && multiset(s) == multiset(t) && NoTies(s, le)
    ensures SortBy(s, le) == SortBy(t, le)
  {
    SortSorted(s, le);
    SortSorted(t, le);
    NoTiesTransfers(s, SortBy(s, le), le);
    SortedUnique(SortBy(s, le), SortBy(t, le), le);
  }
}

/** Sizes of finite sets. */
module Sets {
  import Sorting

  ghost function Image<X, Y>(s: set<X>, f: X -> Y): set<Y> {
    set x | x in s :: f(x)
  }

  /** An injective image has as many elements as the set. */
  lemma {:induction false} ImageSize<X, Y>(s: set<X>, f: X -> Y)
    requires forall x, y :: x in s && y in s && f(x) == f(y) ==> x == y
    ensures |Image(s, f)| == |s|
    decreases |s|
  {
    if |s| == 0 {
      assert s == {};
      assert Image(s, f) == {};
    } else {
      var x :| x in s;
      ImageSize(s - {x}, f);
      assert f(x) !in Image(s - {x}, f);
      assert Image(s, f) == Image(s - {x}, f) + {f(x)};
    }
  }

  lemma {:induction false} SetOfNoDup<X>(s: seq<X>)
    requires Sorting.NoDup(s)
    ensures |set x | x in s| == |s|
    decreases |s|
  {
    if s == [] {
      assert (set x | x in s) == {};
    } else {
      var n := |s| - 1;
      SetOfNoDup(s[..n]);
      assert s == s[..n] + [s[n]];
      assert (set x | x in s) == (set x | x in s[..n]) + {s[n]};
      assert s[n] !in s[..n];
    }
  }
}

/** Finite sums over the values of a map: the totals the escrow contracts must back. */
module Sums {

  function Get<K>(m: map<K, nat>, k: K): nat {
    if k in m then m[k] else 0
  }

  ghost function Total<K>(m: map<K, nat>): nat
    decreases |m|
  {
    if m == map[] then 0
    else
      var k :| k in m;
      m[k] + Total(m - {k})
  }

  lemma {:induction false} TotalPick<K>(m: map<K, nat>, k: K)
    requires k in m
    ensures Total(m) == m[k] + Total(m - {k})
    decreases |m|
  {
    var c :| c in m && Total(m) == m[c] + Total(m - {c});
    if c != k {
      TotalPick(m - {c}, k);
      TotalPick(m - {k}, c);
      assert m - {c} - {k} == m - {k} - {c};
    }
  }

  /** Writing one key changes the total by exactly the change at that key. */
  lemma {:induction false} TotalUpdate<K>(m: map<K, nat>, k: K, v: nat)
    ensures Total(m[k := v]) == Total(m) - Get(m, k) + v
    ensures Get(m, k) <= Total(m)
  {
    TotalPick(m[k := v], k);
    if k in m {
      TotalPick(m, k);
      assert m[k := v] - {k} == m - {k};
    } else {
      assert m[k := v] - {k} == m;
    }
  }
}
