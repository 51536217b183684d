/** Bit-reversal bracket seeding: web/src/lib/engine/seeding.ts and its Rust twin. */
module Seeding {

  function Pow2(k: nat): (p: nat)
    ensures p > 0
  {
    if k == 0 then 1 else 2 * Pow2(k - 1)
  }

  lemma {:induction false} Pow2Grows(j: nat, k: nat)
    requires j <= k
    ensures Pow2(j) <= Pow2(k)
    decreases k
  {
    if j < k { Pow2Grows(j, k - 1); }
  }

  /** The number of rounds: the least `k` with `n <= 2^k`. */
  function CeilLog2(n: nat): (k: nat)
    ensures n <= Pow2(k)
    ensures k > 0 ==> Pow2(k - 1) < n
  {
    if n <= 1 then 0 else 1 + CeilLog2((n + 1) / 2)
  }

  /** `Math.log2` and `trailing_zeros`, which agree on the powers of two they are applied to. */
  function Log2(p: nat): nat {
    if p <= 1 then 0 else 1 + Log2(p / 2)
  }

  lemma {:induction false} Log2OfPow2(k: nat)
    ensures Log2(Pow2(k)) == k
  {
    if k > 0 { Log2OfPow2(k - 1); }
  }

  method NextPow2(n: nat) returns (p: nat)
    ensures p == Pow2(CeilLog2(n))
  {
    p := 1;
    ghost var k := 0;
    while p < n
      invariant p == Pow2(k)
      invariant k > 0 ==> Pow2(k - 1) < n
      decreases n - p
    {
      p := 2 * p;
      k := k + 1;
    }
    var c := CeilLog2(n);
    if k < c { Pow2Grows(k, c - 1); }
    if c < k { Pow2Grows(c, k - 1); }
  }

  /** The low `k` bits of `x`, mirrored. */
  function Reverse(k: nat, x: nat): (r: nat)
    ensures r < Pow2(k)
  {
    if k == 0 then 0
    else (if x % 2 == 1 then Pow2(k - 1) else 0) + Reverse(k - 1, x / 2)
  }

  lemma {:induction false} Pow2Zero()
    ensures Pow2(0) == 1
  {
  }

  lemma {:induction false} Pow2Doubles(k: nat)
    requires k > 0
    ensures Pow2(k) == 2 * Pow2(k - 1)
  {
  }

  /** The lowest bit of the argument is the highest bit of the mirror image. */
  lemma {:induction false} ReverseStep(k: nat, v: nat, b: nat)
    requires k > 0 && b < 2
    ensures Reverse(k, 2 * v + b) == (if b == 1 then Pow2(k - 1) else 0) + Reverse(k - 1, v)
  {
    hide Pow2;
    assert (2 * v + b) / 2 == v && (2 * v + b) % 2 == b;
  }

  lemma {:induction false} MulStep(r: nat, p: nat, b: nat)
    ensures (2 * r + b) * p == r * (2 * p) + b * p
  {
  }

  /** The bits gathered so far in `r`, followed by the mirror image of what is left of the argument. */
  ghost function Gathered(r: nat, left: nat, v: nat): nat {
    r * Pow2(left) + Reverse(left, v)
  }

  lemma {:induction false} GatheredEnds(k: nat, x: nat)
    ensures Gathered(0, k, x) == Reverse(k, x)
  {
    hide Pow2, Reverse;
  }

  lemma {:induction false} GatheredDone(r: nat, v: nat)
    ensures Gathered(r, 0, v) == r
  {
    assert Pow2(0) == 1;
  }

  lemma {:induction false} GatherBit(r: nat, left: nat, v: nat)
    requires left > 0
    ensures Gathered(2 * r + v % 2, left - 1, v / 2) == Gathered(r, left, v)
  {
    hide Pow2, Reverse;
    var h, b := v / 2, v % 2;
    Pow2Doubles(left);
    ReverseStep(left, h, b);
    MulStep(r, Pow2(left - 1), b);
  }

  method BitReverse(x: nat, k: nat) returns (r: nat)
    ensures r == Reverse(k, x)
  {
    hide Gathered;
    r := 0;
    var v := x;
    var i := 0;
    GatheredEnds(k, x);
    while i < k
      invariant 0 <= i <= k && Gathered(r, k - i, v) == Reverse(k, x)
    {
      GatherBit(r, k - i, v);
      r := 2 * r + v % 2;
      v := v / 2;
      i := i + 1;
    }
    GatheredDone(r, v);
  }

  lemma {:induction false} OneBit(x: nat, bit: bool)
    requires x < Pow2(0)
    ensures Reverse(1, x + if bit then Pow2(0) else 0) == 2 * Reverse(0, x) + if bit then 1 else 0
  {
    assert Reverse(1, 1) == 1 && Reverse(1, 0) == 0;
  }

  lemma {:induction false} TopBitStep(k: nat, v: nat, b: nat, bit: bool)
    requires k > 0 && v < Pow2(k - 1) && b < 2
    ensures Reverse(k + 1, 2 * v + b + if bit then Pow2(k) else 0) == 2 * Reverse(k, 2 * v + b) + if bit then 1 else 0
    decreases k, 0
  {
    hide Reverse, Pow2;
    var top := if bit then Pow2(k - 1) else 0;
    Pow2Doubles(k);
    ReverseTopBit(k - 1, v, bit);
    ReverseStep(k, v, b);
    ReverseStep(k + 1, v + top, b);
  }

  /** Setting bit `k` of the argument sets the lowest bit of the mirror image. */
  lemma {:induction false} ReverseTopBit(k: nat, x: nat, bit: bool)
    requires x < Pow2(k)
    ensures Reverse(k + 1, x + if bit then Pow2(k) else 0) == 2 * Reverse(k, x) + if bit then 1 else 0
    decreases k, 1
  {
    hide Reverse, Pow2;
    if k > 0 {
      Pow2Doubles(k);
      var v, b := x / 2, x % 2;
      TopBitStep(k, v, b, bit);
    } else {
      OneBit(x, bit);
    }
  }

  /** Bit reversal is its own inverse. */
  lemma {:induction false} ReverseInvolution(k: nat, x: nat)
    requires x < Pow2(k)
    ensures Reverse(k, Reverse(k, x)) == x
  {
    if k > 0 {
      ReverseInvolution(k - 1, x / 2);
      ReverseTopBit(k - 1, Reverse(k - 1, x / 2), x % 2 == 1);
    }
  }

  /** `p >> r`: for a slot `p`, the number of the block of `2^r` consecutive slots it lies in. */
  function Shr(p: nat, r: nat): nat {
    if r == 0 then p else Shr(p, r - 1) / 2
  }

  /** Block `i` of the next size up holds the blocks `2i` and `2i + 1`. */
  lemma {:induction false} ShrHalves(p: nat, r: nat)
    ensures Shr(p, r) == 2 * Shr(p, r + 1) || Shr(p, r) == 2 * Shr(p, r + 1) + 1
    ensures forall i: nat :: Shr(p, r) == 2 * i || Shr(p, r) == 2 * i + 1 ==> Shr(p, r + 1) == i
  {
    hide Pow2;
  }

  lemma {:induction false} ShrBound(p: nat, r: nat, k: nat)
    requires r <= k && p < Pow2(k)
    ensures Shr(p, r) < Pow2(k - r)
  {
    if r > 0 { ShrBound(p, r - 1, k); }
  }

  lemma {:induction false} ShrOfPow2(k: nat, r: nat)
    requires r <= k
    ensures Shr(Pow2(k), r) == Pow2(k - r)
  {
    if r > 0 { ShrOfPow2(k, r - 1); }
  }

  lemma {:induction false} ShrOfHalf(p: nat, r: nat)
    requires r > 0
    ensures Shr(p, r) == Shr(p / 2, r - 1)
  {
    if r > 1 { ShrOfHalf(p, r - 1); }
  }

  lemma {:induction false} ShrMerge(p: nat, q: nat, r: nat, s: nat)
    requires r <= s && Shr(p, r) == Shr(q, r)
    ensures Shr(p, s) == Shr(q, s)
    decreases s
  {
    if r < s { ShrMerge(p, q, r, s - 1); }
  }

  /** A seed among the top `2^j` sits in the block numbered by its own mirror image. */
  lemma {:induction false} TopSeedBlock(k: nat, j: nat, q: nat)
    requires j <= k && q < Pow2(j)
    ensures Shr(Reverse(k, q), k - j) == Reverse(j, q)
    decreases k
  {
    if j < k {
      Pow2Grows(j, k - 1);
      // q has bit k-1 clear, so the mirror image of q over k bits is even
      ReverseTopBit(k - 1, q, false);
      ShrOfHalf(Reverse(k, q), k - j);
      TopSeedBlock(k - 1, j, q);
    }
  }

  /** The top `2^j` seeds lie in distinct blocks of `2^(k-j)` slots. */
  lemma {:induction false} TopSeedsSpread(k: nat, j: nat, q1: nat, q2: nat)
    requires j <= k && q1 < Pow2(j) && q2 < Pow2(j) && q1 != q2
    ensures Shr(Reverse(k, q1), k - j) != Shr(Reverse(k, q2), k - j)
  {
    TopSeedBlock(k, j, q1);
    TopSeedBlock(k, j, q2);
    ReverseInvolution(j, q1);
    ReverseInvolution(j, q2);
  }

  ghost predicate IsPermutation(s: seq<nat>) {
    && (forall i :: 0 <= i < |s| ==> s[i] < |s|)
    && (forall i, j :: 0 <= i < j < |s| ==> s[i] != s[j])
  }

  method SeedSlots(size: nat, ghost k: nat) returns (out: seq<nat>)
    requires size == Pow2(k)
    ensures |out| == size && forall s :: 0 <= s < size ==> out[s] == Reverse(k, s)
    ensures IsPermutation(out)
    ensures forall s :: 0 <= s < size ==> out[out[s]] == s
  {
    Log2OfPow2(k);
    var bits := Log2(size);
    out := [];
    var s := 1;
    while s <= size
      invariant 1 <= s <= size + 1
      invariant |out| == s - 1
      invariant forall i :: 0 <= i < |out| ==> out[i] == Reverse(k, i)
    {
      var slot := BitReverse(s - 1, bits);
      out := out + [slot];
      s := s + 1;
    }
    forall i | 0 <= i < size ensures out[out[i]] == i {
      ReverseInvolution(k, i);
    }
    forall i, j | 0 <= i < j < size ensures out[i] != out[j] {
      ReverseInvolution(k, i);
      ReverseInvolution(k, j);
    }
  }
}
