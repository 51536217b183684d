/** Tickets, rule sets and rule evaluation: amp-match-core/src/types.rs and rules.rs. */
module Rules {
  import opened Wrappers
  import opened Sorting

  datatype PlayerTicket = PlayerTicket(
    playerId: string, gameId: string, rulesetId: string, mmr: real, region: string, preferredRole: string,
    language: string, maxPingMs: nat, enqueuedAtMs: nat)

  datatype RuleType =
    | LatencyType | SkillType | TeamBalanceType | RegionType | LanguageType | ScheduleType | InventoryType | PartyType
    | AvoidanceType | PreferenceType | CustomType | PingBasedType | SkillDecayType | RecentMatchesType
      | ConnectionQualityType

  /** Parameters; the kinds that always pass with a full score carry none here. */
  datatype RuleParams =
    | Latency(maxPingMs: nat, allowRegionOverride: bool)
    | Skill(timeDecay: bool, decayRate: real)
    | TeamBalance(requiredRoles: seq<string>, maxDuplicates: nat, flexSlots: nat)
    | Region(allowedRegions: seq<string>)
    | Language(preferSame: bool)
    | Preference(preferNewOpponents: bool)
    | PingBased(pingLimitMs: nat, regionOverride: bool)
    | SkillDecay(minMmr: real)
    | AlwaysPass

  datatype Rule = Rule(ruleType: RuleType, params: RuleParams, weight: real, hard: bool, priority: nat)

  datatype BackfillPolicy = BackfillPolicy(
    enabled: bool, maxTimeMs: nat, skillToleranceMultiplier: real, roleFlexibility: bool, connectionTolerance: bool)

  datatype RuleSet = RuleSet(rules: seq<Rule>, backfill: Option<BackfillPolicy>, maxSkillDiff: real)

  datatype Quality = Quality(total: real, skill: real, role: real, region: real, latency: real, language: real)

  datatype Verdict = Verdict(passes: bool, quality: Quality)

  datatype Single = Single(passes: bool, score: real)

  function Abs(x: real): real { if x < 0.0 then -x else x }
  function Min(x: real, y: real): real { if x <= y then x else y }
  function Max(x: real, y: real): real { if x >= y then x else y }
  function MinNat(x: nat, y: nat): nat { if x <= y then x else y }
  function MaxNat(x: nat, y: nat): nat { if x >= y then x else y }

  /** Subtraction that stops at zero. */
  function Minus(x: nat, y: nat): nat { if x <= y then 0 else x - y }

  // ---------- single rules ----------

  predicate Between(a: string, b: string, x: string, y: string) {
    (a == x && b == y) || (a == y && b == x)
  }

  function EstimatePing(a: string, b: string): real {
    if a == b then 20.0
    else if Between(a, b, "na", "eu") then 90.0
    else if Between(a, b, "na", "sa") then 120.0
    else if Between(a, b, "na", "as") then 180.0
    else if Between(a, b, "eu", "as") then 160.0
    else if Between(a, b, "eu", "sa") then 170.0
    else if Between(a, b, "as", "sa") then 250.0
    else 150.0
  }

  lemma {:induction false} PingIsSymmetric(a: string, b: string)
    ensures EstimatePing(a, b) == EstimatePing(b, a) >= 20.0
  {
  }

  function EvaluateSkill(a: PlayerTicket, b: PlayerTicket, effectiveMax: real): Single {
    var diff := Abs(a.mmr - b.mmr);
    var maxDiff := Max(effectiveMax, 1.0);
    Single(diff <= effectiveMax, Max(1.0 - Min(diff / maxDiff, 1.0), 0.0))
  }

  function EvaluateLatency(maxPingMs: nat, allowOverride: bool, a: PlayerTicket, b: PlayerTicket): Single {
    var limit := MinNat(MinNat(a.maxPingMs, b.maxPingMs), maxPingMs);
    PingIsSymmetric(a.region, b.region);
    var ping := EstimatePing(a.region, b.region);
    if ping <= limit as real then Single(true, 1.0 - Min(ping / (limit as real), 1.0))
    else if allowOverride then Single(true, 0.3)
    else Single(false, 0.0)
  }

  function EvaluateRegion(allowed: seq<string>, a: PlayerTicket, b: PlayerTicket): Single {
    if a.region == b.region then Single(true, 1.0)
    else if a.region in allowed && b.region in allowed then Single(true, 0.5)
    else Single(false, 0.0)
  }

  function EvaluateTeamBalance(p: RuleParams, a: PlayerTicket, b: PlayerTicket): Single
    requires p.TeamBalance?
  {
    if p.requiredRoles == [] then Single(true, 1.0)
    else if a.preferredRole == b.preferredRole && p.maxDuplicates > 0 then Single(true, 0.6)
    else
      var both := a.preferredRole in p.requiredRoles && b.preferredRole in p.requiredRoles;
      Single(both || p.flexSlots > 0, if both then 1.0 else 0.5)
  }

  function EvaluateSkillDecay(minMmr: real, a: PlayerTicket, b: PlayerTicket): Single {
    Single(a.mmr >= minMmr && b.mmr >= minMmr, if Abs(a.mmr - b.mmr) < 200.0 then 1.0 else 0.5)
  }

  function EvaluateSingle(rule: Rule, a: PlayerTicket, b: PlayerTicket, effective: real): Single {
    match rule.params
    case Skill(_, _) => EvaluateSkill(a, b, effective)
    case Latency(maxPingMs, allowOverride) => EvaluateLatency(maxPingMs, allowOverride, a, b)
    case PingBased(limit, allowOverride) => EvaluateLatency(limit, allowOverride, a, b)
    case Region(allowed) => EvaluateRegion(allowed, a, b)
    case Language(preferSame) => Single(true, if !preferSame || a.language == b.language then 1.0 else 0.5)
    case TeamBalance(_, _, _) => EvaluateTeamBalance(rule.params, a, b)
    case Preference(preferNew) => Single(true, if preferNew then 0.8 else 1.0)
    case SkillDecay(minMmr) => EvaluateSkillDecay(minMmr, a, b)
    case AlwaysPass => Single(true, 1.0)
  }

  // ---------- the rule chain ----------

  function EffectiveSkillDiff(rules: seq<Rule>, base: real, durationMs: nat): real
    decreases |rules|
  {
    if rules == [] then base
    else if rules[0].params.Skill? && rules[0].params.timeDecay && rules[0].params.decayRate > 0.0 then
      base + rules[0].params.decayRate * (durationMs as real / 60000.0) * base
    else EffectiveSkillDiff(rules[1..], base, durationMs)
  }

  function Accumulate(q: Quality, ruleType: RuleType, weighted: real): Quality {
    var q := q.(total := q.total + weighted);
    match ruleType
    case SkillType => q.(skill := q.skill + weighted)
    case SkillDecayType => q.(skill := q.skill + weighted)
    case LatencyType => q.(latency := q.latency + weighted)
    case PingBasedType => q.(latency := q.latency + weighted)
    case RegionType => q.(region := q.region + weighted)
    case LanguageType => q.(language := q.language + weighted)
    case TeamBalanceType => q.(role := q.role + weighted)
    case _ => q
  }

  function Weighted(score: real, weight: real): real {
    score * weight
  }

  /** What the evaluation loop carries from rule to rule. */
  datatype Chain = Chain(quality: Quality, failed: Option<RuleType>, weight: real)

  function Judge(c: Chain, rule: Rule, a: PlayerTicket, b: PlayerTicket, effective: real): Chain {
    var r := EvaluateSingle(rule, a, b, effective);
    Chain(Accumulate(c.quality, rule.ruleType, Weighted(r.score, rule.weight)),
          if rule.hard && !r.passes && c.failed.None? then Some(rule.ruleType) else c.failed,
          c.weight + rule.weight)
  }

  /** The chain stops at the first hard rule after a hard failure. */
  function RunChain(rules: seq<Rule>, a: PlayerTicket, b: PlayerTicket, effective: real, c: Chain): Chain
    decreases |rules|
  {
    if rules == [] || (rules[0].hard && c.failed.Some?) then c
    else RunChain(rules[1..], a, b, effective, Judge(c, rules[0], a, b, effective))
  }

  const EmptyChain := Chain(Quality(0.0, 0.0, 0.0, 0.0, 0.0, 0.0), None, 0.0)

  function MaxWait(a: PlayerTicket, b: PlayerTicket, now: nat): nat {
    MaxNat(Minus(now, a.enqueuedAtMs), Minus(now, b.enqueuedAtMs))
  }

  function BackfillActive(rs: RuleSet, wait: nat): bool {
    rs.backfill.Some? && rs.backfill.value.enabled && wait > rs.backfill.value.maxTimeMs
  }

  function ApplyBackfill(q: Quality, policy: BackfillPolicy, a: PlayerTicket, b: PlayerTicket,
      effective: real): Quality {
    var skill := if Abs(a.mmr - b.mmr) <= effective * policy.skillToleranceMultiplier then Max(q.skill * 0.7, 0.2)
      else q.skill;
    var role := if policy.roleFlexibility then Max(q.role * 0.8, 0.3) else q.role;
    var latency := if policy.connectionTolerance then Max(q.latency * 0.8, 0.2) else q.latency;
    Quality(skill + role + q.region + latency + q.language, skill, role, q.region, latency, q.language)
  }

  function SkillFamily(t: RuleType): bool {
    t == SkillType || t == SkillDecayType
  }

  function Conclude(rs: RuleSet, c: Chain, a: PlayerTicket, b: PlayerTicket, effective: real, wait: nat): Verdict {
    var active := BackfillActive(rs, wait);
    var q := if active then ApplyBackfill(c.quality, rs.backfill.value, a, b, effective) else c.quality;
    var total := if c.weight > 0.0 then q.total / c.weight else q.total;
    Verdict(c.failed.None? || (active && SkillFamily(c.failed.value)), q.(total := Min(Max(total, 0.0), 1.0)))
  }

  /** The verdict on a pair, as a fold over the rules. */
  function Evaluate(a: PlayerTicket, b: PlayerTicket, rs: RuleSet, now: nat): Verdict {
    var wait := MaxWait(a, b, now);
    var effective := EffectiveSkillDiff(rs.rules, rs.maxSkillDiff, wait);
    Conclude(rs, RunChain(rs.rules, a, b, effective, EmptyChain), a, b, effective, wait)
  }

  method ComputeEffectiveSkillDiff(rs: RuleSet, durationMs: nat) returns (diff: real)
    ensures diff == EffectiveSkillDiff(rs.rules, rs.maxSkillDiff, durationMs)
  {
    var base := rs.maxSkillDiff;
    var i := 0;
    while i < |rs.rules|
      invariant 0 <= i <= |rs.rules|
      invariant EffectiveSkillDiff(rs.rules, base, durationMs) == EffectiveSkillDiff(rs.rules[i..], base, durationMs)
    {
      var rule := rs.rules[i];
      assert rs.rules[i..][1..] == rs.rules[i + 1..];
      if rule.params.Skill? && rule.params.timeDecay && rule.params.decayRate > 0.0 {
        var minutes := durationMs as real / 60000.0;
        return base + rule.params.decayRate * minutes * base;
      }
      i := i + 1;
    }
    diff := base;
  }

  /** The loop of `evaluate_rules`. */
  method EvaluateRules(a: PlayerTicket, b: PlayerTicket, rs: RuleSet, now: nat) returns (v: Verdict)
    ensures v == Evaluate(a, b, rs, now)
  {
    var wait := MaxWait(a, b, now);
    var effective := ComputeEffectiveSkillDiff(rs, wait);
    hide EvaluateSingle, EffectiveSkillDiff, Accumulate, Conclude;
    var c := EmptyChain;
    var i := 0;
    while i < |rs.rules|
      invariant 0 <= i <= |rs.rules|
      invariant RunChain(rs.rules, a, b, effective, EmptyChain) == RunChain(rs.rules[i..], a, b, effective, c)
    {
      var rule := rs.rules[i];
      assert rs.rules[i..][1..] == rs.rules[i + 1..];
      if rule.hard && c.failed.Some? { break; }
      c := Judge(c, rule, a, b, effective);
      i := i + 1;
    }
    v := Conclude(rs, c, a, b, effective, wait);
  }

  // ---------- symmetry ----------

  lemma {:induction false} SingleIsSymmetric(rule: Rule, a: PlayerTicket, b: PlayerTicket, effective: real)
    ensures EvaluateSingle(rule, a, b, effective) == EvaluateSingle(rule, b, a, effective)
  {
    PingIsSymmetric(a.region, b.region);
    hide EstimatePing;
  }

  lemma {:induction false} JudgeIsSymmetric(c: Chain, rule: Rule, a: PlayerTicket, b: PlayerTicket, effective: real)
    ensures Judge(c, rule, a, b, effective) == Judge(c, rule, b, a, effective)
  {
    SingleIsSymmetric(rule, a, b, effective);
    hide EvaluateSingle, Accumulate, Weighted;
  }

  lemma {:induction false} ChainIsSymmetric(rules: seq<Rule>, a: PlayerTicket, b: PlayerTicket, effective: real,
      c: Chain)
    ensures RunChain(rules, a, b, effective, c) == RunChain(rules, b, a, effective, c)
    decreases |rules|
  {
    hide Judge;
    if rules != [] {
      JudgeIsSymmetric(c, rules[0], a, b, effective);
      ChainIsSymmetric(rules[1..], a, b, effective, Judge(c, rules[0], a, b, effective));
    }
  }

  /** Which ticket is the anchor does not matter. */
  lemma {:induction false} EvaluateIsSymmetric(a: PlayerTicket, b: PlayerTicket, rs: RuleSet, now: nat)
    ensures Evaluate(a, b, rs, now) == Evaluate(b, a, rs, now)
  {
    ChainIsSymmetric(rs.rules, a, b, EffectiveSkillDiff(rs.rules, rs.maxSkillDiff, MaxWait(a, b, now)), EmptyChain);
    hide RunChain, EffectiveSkillDiff;
  }

  // ---------- what the verdict means ----------

  /** The first hard rule, in order, that the pair does not meet. */
  function FirstFailure(rules: seq<Rule>, a: PlayerTicket, b: PlayerTicket, effective: real): (f: Option<RuleType>)
    ensures f.None? <==>
      forall i :: 0 <= i < |rules| && rules[i].hard ==> EvaluateSingle(rules[i], a, b, effective).passes
    decreases |rules|
  {
    if rules == [] then None
    else if rules[0].hard && !EvaluateSingle(rules[0], a, b, effective).passes then Some(rules[0].ruleType)
    else
      var f := FirstFailure(rules[1..], a, b, effective);
      assert forall i :: 0 < i < |rules| ==> rules[i] == rules[1..][i - 1];
      f
  }

  lemma {:induction false} ChainFindsFirstFailure(rules: seq<Rule>, a: PlayerTicket, b: PlayerTicket, effective: real,
      c: Chain)
    ensures RunChain(rules, a, b, effective, c).failed == if c.failed.Some? then c.failed
      else FirstFailure(rules, a, b, effective)
    decreases |rules|
  {
    hide EvaluateSingle, Accumulate;
    if rules != [] && !(rules[0].hard && c.failed.Some?) {
      ChainFindsFirstFailure(rules[1..], a, b, effective, Judge(c, rules[0], a, b, effective));
    }
  }

  /**
   A pair passes exactly when it meets every hard rule or, once backfill is active, when the first hard rule
   it misses is about skill. The score lies between 0 and 1.
   */
  lemma {:induction false} VerdictMeans(a: PlayerTicket, b: PlayerTicket, rs: RuleSet, now: nat)
    ensures var effective := EffectiveSkillDiff(rs.rules, rs.maxSkillDiff, MaxWait(a, b, now));
      var f := FirstFailure(rs.rules, a, b, effective);
      Evaluate(a, b, rs, now).passes <==> f.None? || (BackfillActive(rs, MaxWait(a, b, now)) && SkillFamily(f.value))
    ensures 0.0 <= Evaluate(a, b, rs, now).quality.total <= 1.0
  {
    var effective := EffectiveSkillDiff(rs.rules, rs.maxSkillDiff, MaxWait(a, b, now));
    ChainFindsFirstFailure(rs.rules, a, b, effective, EmptyChain);
    hide RunChain, EffectiveSkillDiff, FirstFailure;
  }

  // ---------- what the scores mean ----------

  lemma {:induction false} PositiveProduct(s: real, m: real)
    requires m > 0.0
    ensures s * m > 0.0 <==> s > 0.0
  {
  }

  lemma {:induction false} RatioSigns(q: real, d: real, m: real)
    requires m > 0.0 && d >= 0.0 && q * m == d
    ensures q >= 0.0 && (q < 1.0 <==> d < m)
  {
    assert -q * m == -(q * m) && (1.0 - q) * m == m - q * m;
    PositiveProduct(-q, m);
    PositiveProduct(1.0 - q, m);
  }

  lemma {:induction false} Ratio(d: real, m: real)
    requires m > 0.0 && d >= 0.0
    ensures d / m * m == d && d / m >= 0.0 && (d / m < 1.0 <==> d < m)
  {
    RatioSigns(d / m, d, m);
  }

  /** The part of `m` that `d` leaves, as a fraction of `m`. */
  lemma {:induction false} PartLeft(d: real, m: real)
    requires m > 0.0 && 0.0 <= d
    ensures var part := Max(1.0 - Min(d / m, 1.0), 0.0);
      0.0 <= part <= 1.0 && part * m == (if d < m then m - d else 0.0)
  {
    Ratio(d, m);
    assert d < m ==> (1.0 - d / m) * m == m - d / m * m;
  }

  /** The skill rule asks for the rating window; its score is the part of the window that the distance leaves. */
  lemma {:induction false} SkillMeans(a: PlayerTicket, b: PlayerTicket, window: real)
    ensures var r, d, m := EvaluateSkill(a, b, window), Abs(a.mmr - b.mmr), Max(window, 1.0);
      (r.passes <==> d <= window) && 0.0 <= r.score <= 1.0 && r.score * m == (if d < m then m - d else 0.0)
  {
    PartLeft(Abs(a.mmr - b.mmr), Max(window, 1.0));
  }

  /**
   The latency rule asks for the least of the three limits, unless regions may be overridden; its score is the part
   of that limit that the estimated ping leaves, and 0.3 for an override.
   */
  lemma {:induction false} LatencyMeans(limit: nat, allowOverride: bool, a: PlayerTicket, b: PlayerTicket)
    ensures var r, ping := EvaluateLatency(limit, allowOverride, a, b), EstimatePing(a.region, b.region);
      var met := ping <= limit as real && ping <= a.maxPingMs as real && ping <= b.maxPingMs as real;
      && (r.passes <==> met || allowOverride)
      && (!met ==> r.score == if allowOverride then 0.3 else 0.0)
      && (met ==> forall least: nat {:trigger least as real} ::
            (least == limit || least == a.maxPingMs || least == b.maxPingMs)
            && least <= limit && least <= a.maxPingMs && least <= b.maxPingMs ==>
              r.score * least as real == least as real - ping)
  {
    var least := MinNat(MinNat(a.maxPingMs, b.maxPingMs), limit);
    var ping := EstimatePing(a.region, b.region);
    PingIsSymmetric(a.region, b.region);
    hide EstimatePing;
    if ping <= least as real {
      Ratio(ping, least as real);
      PartLeft(ping, least as real);
    }
  }

  /** The region rule asks for the same region or two allowed ones, the former for the full score. */
  lemma {:induction false} RegionMeans(allowed: seq<string>, a: PlayerTicket, b: PlayerTicket)
    ensures var r := EvaluateRegion(allowed, a, b);
      && (r.passes <==> a.region == b.region || (a.region in allowed && b.region in allowed))
      && (r.score == 1.0 <==> a.region == b.region) && (r.score > 0.0 <==> r.passes)
  {
  }

  /** The rule widens the rating window with the wait. */
  predicate Widening(rule: Rule) {
    rule.params.Skill? && rule.params.timeDecay && rule.params.decayRate > 0.0
  }

  lemma {:induction false} PerMinute(rate: real, m: real, n: real, base: real)
    requires 60000.0 * m == n
    ensures 60000.0 * (rate * m * base) == rate * n * base
  {
    assert 60000.0 * (rate * m * base) == (rate * (60000.0 * m)) * base;
  }

  /**
   Without a widening rule the window is the base; otherwise the first one adds its rate of the base for every
   minute waited.
   */
  lemma {:induction false} WindowMeans(rules: seq<Rule>, base: real, durationMs: nat)
    ensures var w := EffectiveSkillDiff(rules, base, durationMs);
      && ((forall i :: 0 <= i < |rules| ==> !Widening(rules[i])) ==> w == base)
      && (forall i :: 0 <= i < |rules| && Widening(rules[i]) && (forall h :: 0 <= h < i ==> !Widening(rules[h])) ==>
            60000.0 * (w - base) == rules[i].params.decayRate * durationMs as real * base)
    decreases |rules|
  {
    if rules != [] {
      if Widening(rules[0]) {
        PerMinute(rules[0].params.decayRate, durationMs as real / 60000.0, durationMs as real, base);
      } else {
        WindowMeans(rules[1..], base, durationMs);
        assert forall i :: 0 < i < |rules| ==> rules[i] == rules[1..][i - 1];
        forall i | 0 <= i < |rules| && Widening(rules[i]) && (forall h :: 0 <= h < i ==> !Widening(rules[h]))
          ensures 60000.0 * (EffectiveSkillDiff(rules, base, durationMs) - base)
               == rules[i].params.decayRate * durationMs as real * base
        {
          assert Widening(rules[1..][i - 1]) && forall h :: 0 <= h < i - 1 ==> !Widening(rules[1..][h]);
        }
      }
    }
  }

  /**
   Backfill touches only the three tolerated parts of a score: skill within the widened window, role and latency when
   the policy bends on them. Each is cut to its share, but never below its floor; the total is the sum of the parts.
   */
  lemma {:induction false} BackfillMeans(q: Quality, policy: BackfillPolicy, a: PlayerTicket, b: PlayerTicket,
      window: real)
    ensures var r := ApplyBackfill(q, policy, a, b, window);
      && r.total == r.skill + r.role + r.region + r.latency + r.language
      && r.region == q.region && r.language == q.language
      && (Abs(a.mmr - b.mmr) > window * policy.skillToleranceMultiplier ==> r.skill == q.skill)
      && (Abs(a.mmr - b.mmr) <= window * policy.skillToleranceMultiplier ==>
            r.skill >= 0.2 && 10.0 * r.skill >= 7.0 * q.skill && (r.skill == 0.2 || 10.0 * r.skill == 7.0 * q.skill))
      && (!policy.roleFlexibility ==> r.role == q.role)
      && (policy.roleFlexibility ==>
            r.role >= 0.3 && 10.0 * r.role >= 8.0 * q.role && (r.role == 0.3 || 10.0 * r.role == 8.0 * q.role))
      && (!policy.connectionTolerance ==> r.latency == q.latency)
      && (policy.connectionTolerance ==>
            r.latency >= 0.2 && 10.0 * r.latency >= 8.0 * q.latency
            && (r.latency == 0.2 || 10.0 * r.latency == 8.0 * q.latency))
  {
  }

  /** The scores of all rules, each times its weight. */
  function WeightedScores(rules: seq<Rule>, a: PlayerTicket, b: PlayerTicket, effective: real): real {
    if rules == [] then 0.0
    else
      var own := EvaluateSingle(rules[0], a, b, effective).score * rules[0].weight;
      own + WeightedScores(rules[1..], a, b, effective)
  }

  function WeightSum(rules: seq<Rule>): real {
    if rules == [] then 0.0 else rules[0].weight + WeightSum(rules[1..])
  }

  lemma {:induction false} ChainSums(rules: seq<Rule>, a: PlayerTicket, b: PlayerTicket, effective: real, c: Chain)
    requires c.failed.None? && FirstFailure(rules, a, b, effective).None?
    ensures var end := RunChain(rules, a, b, effective, c);
      && end.quality.total == c.quality.total + WeightedScores(rules, a, b, effective)
      && end.weight == c.weight + WeightSum(rules) && end.failed.None?
    decreases |rules|
  {
    hide EvaluateSingle;
    if rules != [] { ChainSums(rules[1..], a, b, effective, Judge(c, rules[0], a, b, effective)); }
  }

  /** A pair that meets every hard rule scores the weighted average of all its rules, kept between 0 and 1. */
  lemma {:induction false} ScoreIsAverage(a: PlayerTicket, b: PlayerTicket, rs: RuleSet, now: nat)
    requires var effective := EffectiveSkillDiff(rs.rules, rs.maxSkillDiff, MaxWait(a, b, now));
      FirstFailure(rs.rules, a, b, effective).None? && WeightSum(rs.rules) > 0.0
    requires !BackfillActive(rs, MaxWait(a, b, now))
    ensures var effective := EffectiveSkillDiff(rs.rules, rs.maxSkillDiff, MaxWait(a, b, now));
      var average := WeightedScores(rs.rules, a, b, effective) / WeightSum(rs.rules);
      Evaluate(a, b, rs, now).quality.total == if average < 0.0 then 0.0 else if average > 1.0 then 1.0 else average
  {
    var effective := EffectiveSkillDiff(rs.rules, rs.maxSkillDiff, MaxWait(a, b, now));
    ChainSums(rs.rules, a, b, effective, EmptyChain);
    hide RunChain, EffectiveSkillDiff, FirstFailure, WeightedScores, WeightSum;
  }

  // ---------- sorted rule sets ----------

  /** Hard rules first, then by priority. */
  predicate RuleLe(x: Rule, y: Rule) {
    (x.hard && !y.hard) || (x.hard == y.hard && x.priority <= y.priority)
  }

  function NewSorted(rs: RuleSet): RuleSet {
    rs.(rules := SortBy(rs.rules, RuleLe))
  }

  /** Sorting keeps the rules, puts hard ones first, and does not change which pairs meet every hard rule. */
  lemma {:induction false} NewSortedMeans(rs: RuleSet, a: PlayerTicket, b: PlayerTicket, effective: real)
    ensures multiset(NewSorted(rs).rules) == multiset(rs.rules) && SortedBy(NewSorted(rs).rules, RuleLe)
    ensures forall i, j :: 0 <= i < j < |NewSorted(rs).rules| && NewSorted(rs).rules[j].hard ==>
      NewSorted(rs).rules[i].hard
    ensures FirstFailure(NewSorted(rs).rules, a, b, effective).None? <==> FirstFailure(rs.rules, a, b, effective).None?
  {
    var rules, sorted := rs.rules, NewSorted(rs).rules;
    SortSorted(rules, RuleLe);
    SameElements(rules, sorted);
    hide FirstFailure, EvaluateSingle, SortBy;
    if FirstFailure(sorted, a, b, effective).None? {
      forall i | 0 <= i < |rules| && rules[i].hard ensures EvaluateSingle(rules[i], a, b, effective).passes {
        assert rules[i] in sorted;
      }
    }
    if FirstFailure(rules, a, b, effective).None? {
      forall i | 0 <= i < |sorted| && sorted[i].hard ensures EvaluateSingle(sorted[i], a, b, effective).passes {
        assert sorted[i] in rules;
      }
    }
  }
}
