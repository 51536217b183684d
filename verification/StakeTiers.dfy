/** Stake-qualified ruleset ids: amp-server/src/queue.rs. */
module StakeTiers {
  import opened Rules
  import opened QueueEntries

  const Mark := "@stake:"

  // ---------- decimal text ----------

  function Digit(d: nat): char
    requires d < 10
  {
    "0123456789"[d]
  }

  function Decimal(n: nat): (s: string)
    ensures |s| >= 1 && '@' !in s
  {
    if n < 10 then [Digit(n)] else Decimal(n / 10) + [Digit(n % 10)]
  }

  lemma {:induction false} DigitInjective(c: nat, d: nat)
    requires c < 10 && d < 10 && Digit(c) == Digit(d)
    ensures c == d
  {
  }

  lemma {:induction false} DecimalInjective(m: nat, n: nat)
    requires Decimal(m) == Decimal(n)
    ensures m == n
    decreases m
  {
    var s, t := Decimal(m), Decimal(n);
    DigitInjective(m % 10, n % 10) by {
      assert s[|s| - 1] == Digit(m % 10);
      assert t[|t| - 1] == Digit(n % 10);
    }
    if m >= 10 && n >= 10 {
      assert s[..|s| - 1] == Decimal(m / 10) && t[..|t| - 1] == Decimal(n / 10);
      DecimalInjective(m / 10, n / 10);
    } else {
      assert (m < 10) == (|s| == 1) && (n < 10) == (|t| == 1);
    }
  }

  /** The number that decimal digits spell. */
  function Spelled(s: string): int {
    if s == [] then 0 else 10 * Spelled(s[..|s| - 1]) + (s[|s| - 1] as int - '0' as int)
  }

  /** The text of a stake spells the stake, in digits, without leading zeros. */
  lemma {:induction false} DecimalSpells(n: nat)
    ensures Spelled(Decimal(n)) == n && (forall i :: 0 <= i < |Decimal(n)| ==> '0' <= Decimal(n)[i] <= '9')
    ensures n > 0 ==> Decimal(n)[0] != '0'
    decreases n
  {
    var s := Decimal(n);
    if n >= 10 {
      DecimalSpells(n / 10);
      assert s[..|s| - 1] == Decimal(n / 10);
    } else {
      assert s[..|s| - 1] == [] && Spelled([]) == 0;
    }
  }

  // ---------- the mark ----------

  ghost predicate MarkAt(s: string, i: int) {
    0 <= i && i + |Mark| <= |s| && s[i..i + |Mark|] == Mark
  }

  /** A catalog ruleset id never contains the mark. */
  ghost predicate Unmarked(s: string) {
    forall i :: 0 <= i < |s| ==> !MarkAt(s, i)
  }

  function StakeId(ruleset: string, stake: nat): string {
    ruleset + Mark + Decimal(stake)
  }

  lemma {:induction false} StakeIdIsMarked(ruleset: string, stake: nat)
    ensures MarkAt(StakeId(ruleset, stake), |ruleset|)
  {
    var s := StakeId(ruleset, stake);
    assert s[|ruleset|..|ruleset| + |Mark|] == Mark;
  }

  lemma {:induction false} MarkChars(s: string, i: nat, k: nat)
    requires MarkAt(s, i) && k < |Mark|
    ensures s[i + k] == Mark[k] && (k > 0 ==> s[i + k] != '@')
  {
    assert s[i..i + |Mark|][k] == s[i + k];
  }

  lemma {:induction false} MarkInside(ruleset: string, stake: nat, i: nat)
    requires i + |Mark| <= |ruleset|
    ensures MarkAt(StakeId(ruleset, stake), i) <==> MarkAt(ruleset, i)
  {
    assert ruleset[i..i + |Mark|] == StakeId(ruleset, stake)[i..i + |Mark|];
  }

  /** The first mark of a stamped id is the one that was stamped. */
  lemma {:induction false} FirstMark(ruleset: string, stake: nat, i: nat)
    requires Unmarked(ruleset) && i < |ruleset|
    ensures !MarkAt(StakeId(ruleset, stake), i)
  {
    var s := StakeId(ruleset, stake);
    assert s[|ruleset|] == '@';
    if i + |Mark| <= |ruleset| {
      MarkInside(ruleset, stake, i);
    } else if MarkAt(s, i) {
      MarkChars(s, i, |ruleset| - i);
      assert false;
    }
  }

  /** The stamped id determines the ruleset and the stake. */
  lemma {:induction false} StakeIdInjective(r: string, m: nat, q: string, n: nat)
    requires Unmarked(r) && Unmarked(q) && StakeId(r, m) == StakeId(q, n)
    ensures r == q && m == n
  {
    var s := StakeId(r, m);
    StakeIdIsMarked(r, m);
    StakeIdIsMarked(q, n);
    if |q| < |r| { FirstMark(r, m, |q|); assert false; }
    if |r| < |q| { FirstMark(q, n, |r|); assert false; }
    assert s[..|r|] == r && s[..|q|] == q;
    assert s[|r| + |Mark|..] == Decimal(m) && s[|q| + |Mark|..] == Decimal(n);
    DecimalInjective(m, n);
  }

  // ---------- entries ----------

  /** What `join` does to an entry before it is queued. */
  function Stamped(e: QueueEntry): QueueEntry {
    if e.stakeWei > 0 then e.(ticket := e.ticket.(rulesetId := StakeId(e.canonicalRuleset, e.stakeWei))) else e
  }

  /** The entry names catalog rulesets. */
  ghost predicate FromCatalog(e: QueueEntry) {
    if e.stakeWei > 0 then Unmarked(e.canonicalRuleset) else Unmarked(e.ticket.rulesetId)
  }

  /** The entry carries the bucket id its stake calls for. */
  ghost predicate Tiered(e: QueueEntry) {
    FromCatalog(e) && (e.stakeWei > 0 ==> e.ticket.rulesetId == StakeId(e.canonicalRuleset, e.stakeWei))
  }

  /** Two entries may share a bucket only at the same stake, or with none. */
  lemma {:induction false} SameBucketSameStake(x: QueueEntry, y: QueueEntry)
    requires Tiered(x) && Tiered(y) && KeyOf(x) == KeyOf(y)
    ensures x.stakeWei == y.stakeWei || (x.stakeWei <= 0 && y.stakeWei <= 0)
    ensures x.stakeWei > 0 ==> x.canonicalRuleset == y.canonicalRuleset
  {
    if x.stakeWei > 0 { StakeIdIsMarked(x.canonicalRuleset, x.stakeWei); }
    if y.stakeWei > 0 { StakeIdIsMarked(y.canonicalRuleset, y.stakeWei); }
    hide StakeId;
    if x.stakeWei > 0 && y.stakeWei > 0 {
      StakeIdInjective(x.canonicalRuleset, x.stakeWei, y.canonicalRuleset, y.stakeWei);
    }
  }

  /** Stamping moves a staked entry to its stake's bucket and changes nothing else; an entry without stake stays. */
  lemma {:induction false} StampMeans(e: QueueEntry)
    ensures Stamped(e).(ticket := e.ticket) == e
    ensures Stamped(e).ticket.(rulesetId := e.ticket.rulesetId) == e.ticket
    ensures Stamped(e).ticket.rulesetId == if e.stakeWei <= 0 then e.ticket.rulesetId
      else e.canonicalRuleset + "@stake:" + Decimal(e.stakeWei)
  {
  }

  /** Staked entries of one game meet in a bucket exactly when ruleset and stake are the same. */
  lemma {:induction false} StakedBuckets(x: QueueEntry, y: QueueEntry)
    requires FromCatalog(x) && FromCatalog(y) && x.stakeWei > 0 && y.stakeWei > 0
    ensures KeyOf(Stamped(x)) == KeyOf(Stamped(y))
      <==> x.ticket.gameId == y.ticket.gameId && x.canonicalRuleset == y.canonicalRuleset && x.stakeWei == y.stakeWei
  {
    hide StakeId, Unmarked;
    if KeyOf(Stamped(x)) == KeyOf(Stamped(y)) {
      StakeIdInjective(x.canonicalRuleset, x.stakeWei, y.canonicalRuleset, y.stakeWei);
    }
  }
}
