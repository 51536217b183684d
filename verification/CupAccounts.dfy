/** What the tournament cup contract holds for each cup, and how each kind of write moves it. */
module CupAccounts {
  import opened Wrappers
  import opened Sums
  import opened EscrowTypes
  import opened CupSpec

  /** The claimed shares among the first `n` placements. */
  ghost function ClaimedSum(c: Cup, cl: set<nat>, n: nat): nat
    requires n <= |c.payoutBps|
    decreases n, cl
  {
    if n == 0 then 0 else ClaimedSum(c, cl, n - 1) + if n - 1 in cl then Share(c, n - 1) else 0
  }

  /** All shares of the first `n` placements. */
  ghost function ShareSum(c: Cup, n: nat): nat
    requires n <= |c.payoutBps|
    decreases n, c
  {
    if n == 0 then 0 else ShareSum(c, n - 1) + Share(c, n - 1)
  }

  /** What the contract still keeps of a cup's pool; `int` until shown never to be negative. */
  ghost function Kept(c: Cup, cl: set<nat>): int {
    if c.state == Refunded then 0 else c.prizePool - ClaimedSum(c, cl, |c.payoutBps|)
  }

  ghost function Held(c: Cup, cl: set<nat>): nat {
    if Kept(c, cl) < 0 then 0 else Kept(c, cl)
  }

  /** What winners or sponsor can still draw from a cup. */
  ghost function Due(c: Cup, cl: set<nat>): int {
    match c.state
    case Funding => c.prizePool
    case Refunded => 0
    case _ => ShareSum(c, |c.payoutBps|) - ClaimedSum(c, cl, |c.payoutBps|)
  }

  ghost function HeldIn(s: Vault, token: Address, id: nat): nat {
    if CupAt(s, id).token == token then Held(CupAt(s, id), ClaimedOf(s.claimed, id)) else 0
  }

  ghost function HeldMap(s: Vault, token: Address): map<nat, nat> {
    map id | id in s.cups :: HeldIn(s, token, id)
  }

  ghost function Surplus(s: Vault, token: Address): int {
    Balance(s, token) - Total(HeldMap(s, token))
  }

  // ---------- arithmetic of shares ----------

  lemma {:induction false} ClaimAdds(c: Cup, cl: set<nat>, p: nat, n: nat)
    requires n <= |c.payoutBps| && p !in cl && p < |c.payoutBps|
    ensures ClaimedSum(c, cl + {p}, n) == ClaimedSum(c, cl, n) + if p < n then Share(c, p) else 0
    decreases n
  {
    hide Share;
    if n > 0 { ClaimAdds(c, cl, p, n - 1); }
  }

  /** Claims never exceed the shares, and reach them when nothing is left to claim. */
  lemma {:induction false} ClaimsWithinShares(c: Cup, cl: set<nat>, n: nat)
    requires n <= |c.payoutBps|
    ensures ClaimedSum(c, cl, n) <= ShareSum(c, n)
    ensures AllClaimed(cl, n) ==> ClaimedSum(c, cl, n) == ShareSum(c, n)
    decreases n
  {
    hide Share;
    if n > 0 { ClaimsWithinShares(c, cl, n - 1); }
  }

  lemma {:induction false} NothingClaimed(c: Cup, n: nat)
    requires n <= |c.payoutBps|
    ensures ClaimedSum(c, {}, n) == 0
    decreases n
  {
    if n > 0 { NothingClaimed(c, n - 1); }
  }

  /** The state of a cup does not matter to its shares. */
  lemma {:induction false} SameShares(c: Cup, c': Cup, cl: set<nat>, n: nat)
    requires c'.prizePool == c.prizePool && c'.payoutBps == c.payoutBps && n <= |c.payoutBps|
    ensures ClaimedSum(c', cl, n) == ClaimedSum(c, cl, n)
    decreases n
  {
    if n > 0 { SameShares(c, c', cl, n - 1); }
  }

  lemma {:induction false} ShareRounding(c: Cup, p: nat)
    requires p < |c.payoutBps|
    ensures 10000 * Share(c, p) <= c.prizePool * c.payoutBps[p] <= 10000 * Share(c, p) + 9999
  {
  }

  /** All shares together fall short of the pool by less than one unit each. */
  lemma {:induction false} SharesFillPool(c: Cup, n: nat)
    requires n <= |c.payoutBps|
    ensures 10000 * ShareSum(c, n) <= c.prizePool * BpsSum(c.payoutBps, n)
    ensures c.prizePool * BpsSum(c.payoutBps, n) <= 10000 * ShareSum(c, n) + 9999 * n
    decreases n
  {
    if n > 0 {
      SharesFillPool(c, n - 1);
      ShareRounding(c, n - 1);
      hide Share;
      assert c.prizePool * BpsSum(c.payoutBps, n) == c.prizePool * BpsSum(c.payoutBps, n - 1)
        + c.prizePool * c.payoutBps[n - 1];
    }
  }

  ghost predicate BpsOk(bps: seq<nat>) {
    1 <= |bps| <= MaxPlacements && BpsError(bps).None?
  }

  /** A proper cup can always cover its unclaimed shares, and what no one can ever claim is fewer units
      than there are placements. */
  lemma {:induction false} PoolCovers(c: Cup, cl: set<nat>)
    requires BpsOk(c.payoutBps)
    ensures var n := |c.payoutBps|;
      && ClaimedSum(c, cl, n) <= ShareSum(c, n) <= c.prizePool
      && c.prizePool - ShareSum(c, n) < n
      && 0 <= Kept(c, cl) == Held(c, cl)
  {
    SharesFillPool(c, |c.payoutBps|);
    ClaimsWithinShares(c, cl, |c.payoutBps|);
    hide ClaimedSum, ShareSum, BpsSum;
  }

  // ---------- single writes ----------

  /** Rewriting one cup moves the total held in a token by exactly the difference. */
  lemma {:induction false} CupWrite(s: Vault, s': Vault, id: nat, t: Address)
    requires s'.cups == s.cups[id := CupAt(s', id)]
    requires forall i :: i != id ==> ClaimedOf(s'.claimed, i) == ClaimedOf(s.claimed, i)
    requires id !in s.cups ==> HeldIn(s, t, id) == 0
    ensures Total(HeldMap(s', t)) == Total(HeldMap(s, t)) - HeldIn(s, t, id) + HeldIn(s', t, id)
  {
    hide Held, ClaimedOf;
    TotalUpdate(HeldMap(s, t), id, HeldIn(s', t, id));
    assert HeldMap(s', t) == HeldMap(s, t)[id := HeldIn(s', t, id)];
    hide Total;
  }

  lemma {:induction false} SameHeld(s: Vault, s': Vault, t: Address)
    requires s'.cups == s.cups && s'.claimed == s.claimed
    ensures HeldMap(s', t) == HeldMap(s, t)
  {
    hide Held;
  }
}
