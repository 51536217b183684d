/** The rules the matchmaking service queues by: the widening window and the skill rule (amp-server/src/queue.rs). */
module ServiceRules {
  import opened Wrappers
  import opened Rules
  import opened QueueEntries
  import opened Pairing

  datatype Config = Config(windowBase: real, windowGrowthPerSec: real, windowCap: real, maxActiveMatches: nat)

  // ---------- the widening window ----------

  function WindowForWait(cfg: Config, waitedMs: nat): real {
    Min(cfg.windowBase + cfg.windowGrowthPerSec * (waitedMs as real / 1000.0), cfg.windowCap)
  }

  /** The default ruleset, its skill gate set to the window. */
  function RulesetFor(window: real): RuleSet {
    NewSorted(RuleSet([Rule(SkillType, Skill(false, 0.0), 0.7, true, 0)], None, window))
  }

  lemma {:induction false} WindowWidens(cfg: Config, w: nat, w': nat)
    requires cfg.windowGrowthPerSec >= 0.0 && w <= w'
    ensures WindowForWait(cfg, w) <= WindowForWait(cfg, w') <= cfg.windowCap
  {
    var s, t := w as real / 1000.0, w' as real / 1000.0;
    assert s <= t;
    assert cfg.windowGrowthPerSec * s <= cfg.windowGrowthPerSec * t;
  }

  /** The window starts at the base and grows by the rate for every second waited, until it meets the cap. */
  lemma {:induction false} WindowGrows(cfg: Config, waitedMs: nat)
    ensures var uncapped := 1000.0 * cfg.windowBase + cfg.windowGrowthPerSec * waitedMs as real;
      && (uncapped <= 1000.0 * cfg.windowCap ==> 1000.0 * WindowForWait(cfg, waitedMs) == uncapped)
      && (uncapped > 1000.0 * cfg.windowCap ==> WindowForWait(cfg, waitedMs) == cfg.windowCap)
  {
    PerSecond(cfg.windowGrowthPerSec, waitedMs as real / 1000.0, waitedMs as real);
  }

  lemma {:induction false} PerSecond(g: real, s: real, n: real)
    requires 1000.0 * s == n
    ensures 1000.0 * (g * s) == g * n
  {
    assert g * (1000.0 * s) == 1000.0 * (g * s);
  }

  // ---------- the verdict under the service's rules ----------

  /** The rating distance of two entries. */
  function Gap(x: QueueEntry, y: QueueEntry): real {
    Abs(Mmr(x) - Mmr(y))
  }

  function Reach(window: real): real {
    Max(window, 1.0)
  }

  lemma {:induction false} SkillVerdict(rs: RuleSet, a: PlayerTicket, b: PlayerTicket, window: real, wait: nat)
    requires rs.backfill.None?
    ensures var c := Judge(EmptyChain, Rule(SkillType, Skill(false, 0.0), 0.7, true, 0), a, b, window);
      var v := Conclude(rs, c, a, b, window, wait);
      (v.passes <==> Abs(a.mmr - b.mmr) <= window) && v.quality.total == EvaluateSkill(a, b, window).score
  {
    SkillMeans(a, b, window);
    var score := EvaluateSkill(a, b, window).score;
    assert Weighted(score, 0.7) / 0.7 == score;
  }

  /** Under the service's rules the verdict asks for the window, and the score is the part of the reach that is left. */
  lemma {:induction false} ServiceVerdict(x: QueueEntry, y: QueueEntry, window: real, now: nat)
    ensures var v := Evaluate(x.ticket, y.ticket, RulesetFor(window), now);
      && (v.passes <==> Gap(x, y) <= window)
      && Score(x, y, RulesetFor(window), now) * Reach(window)
          == (if Gap(x, y) < Reach(window) then Reach(window) - Gap(x, y) else 0.0)
      && 0.0 <= Score(x, y, RulesetFor(window), now)
  {
    var rs := RulesetFor(window);
    var rule := Rule(SkillType, Skill(false, 0.0), 0.7, true, 0);
    var rest: seq<Rule> := [];
    assert rs.rules == [rule] && rs.rules[1..] == rest;
    var a, b := x.ticket, y.ticket;
    var c := Judge(EmptyChain, rule, a, b, window);
    assert EffectiveSkillDiff(rest, window, MaxWait(a, b, now)) == window;
    assert EffectiveSkillDiff(rs.rules, window, MaxWait(a, b, now)) == window;
    assert RunChain(rest, a, b, window, c) == c;
    assert RunChain(rs.rules, a, b, window, EmptyChain) == c;
    SkillVerdict(rs, a, b, window, MaxWait(a, b, now));
    SkillMeans(a, b, window);
    hide RunChain, EffectiveSkillDiff, Judge, Conclude, RulesetFor, EvaluateSkill;
  }

  /** Two entries of different players within the window, and strictly within the reach. */
  predicate Near(x: QueueEntry, y: QueueEntry, window: real) {
    Player(x) != Player(y) && Gap(x, y) <= window && Gap(x, y) < Reach(window)
  }

  /**
   Under the service's rules two entries of different players are paired exactly when their ratings are at
   most a window apart and the score is positive: strictly less than a window when it is at least 1.
   */
  lemma {:induction false} ServicePairs(x: QueueEntry, y: QueueEntry, window: real, now: nat)
    ensures Pairable(x, y, RulesetFor(window), now) <==> Near(x, y, window)
  {
    ServiceVerdict(x, y, window, now);
    PositiveProduct(Score(x, y, RulesetFor(window), now), Reach(window));
    hide Evaluate, RulesetFor, Score;
  }

  lemma {:induction false} LessLeft(s: real, t: real, m: real, d: real, e: real)
    requires m > 0.0 && s * m == m - d && t * m == m - e
    ensures s > t <==> d < e
  {
    assert (s - t) * m == s * m - t * m;
    PositiveProduct(s - t, m);
  }

  /** The score strictly falls as the distance grows. */
  lemma {:induction false} ScoreFalls(x: QueueEntry, y: QueueEntry, z: QueueEntry, window: real, now: nat)
    requires Gap(x, y) < Reach(window) && Gap(x, z) < Reach(window)
    ensures Score(x, y, RulesetFor(window), now) > Score(x, z, RulesetFor(window), now) <==> Gap(x, y) < Gap(x, z)
  {
    ServiceVerdict(x, y, window, now);
    ServiceVerdict(x, z, window, now);
    hide Evaluate, RulesetFor, Score, Gap;
    LessLeft(Score(x, y, RulesetFor(window), now), Score(x, z, RulesetFor(window), now), Reach(window), Gap(x, y),
      Gap(x, z));
  }

  // ---------- whom the anchor gets ----------

  /**
   `j` is the first of the closest-rated later entries of another player: none is closer, and none as close comes
   before it.
   */
  ghost predicate ClosestLater(b: seq<QueueEntry>, i: nat, j: nat) {
    && i < j < |b| && Player(b[i]) != Player(b[j])
    && forall l :: i < l < |b| && Player(b[l]) != Player(b[i]) ==>
        Gap(b[i], b[j]) <= Gap(b[i], b[l]) && (l < j ==> Gap(b[i], b[j]) < Gap(b[i], b[l]))
  }

  /** The best-scoring partner is the closest-rated one. */
  lemma {:induction false} BestIsClosest(b: seq<QueueEntry>, i: nat, j: nat, window: real, now: nat)
    requires BestPartner(b, i, j, RulesetFor(window), now)
    ensures Near(b[i], b[j], window) && ClosestLater(b, i, j)
  {
    hide RulesetFor, Score, Pairable, Player, Gap;
    ServicePairs(b[i], b[j], window, now);
    forall l | i < l < |b| && Player(b[l]) != Player(b[i])
      ensures Gap(b[i], b[j]) <= Gap(b[i], b[l]) && (l < j ==> Gap(b[i], b[j]) < Gap(b[i], b[l]))
    {
      ServicePairs(b[i], b[l], window, now);
      if Near(b[i], b[l], window) {
        ScoreFalls(b[i], b[j], b[l], window, now);
        ScoreFalls(b[i], b[l], b[j], window, now);
      }
    }
  }

  /** The lowest anchor whose next entry is near, with that entry, which is its closest later one. */
  ghost predicate Neighbours(b: seq<QueueEntry>, i: nat, j: nat, window: real) {
    && j == i + 1 < |b| && Near(b[i], b[j], window) && ClosestLater(b, i, j)
    && forall h :: 0 <= h < i ==> !Near(b[h], b[h + 1], window)
  }

  /** In a bucket of the queue the pair taken is a pair of neighbours. */
  lemma {:induction false} FirstBestIsNeighbours(k: Key, b: seq<QueueEntry>, i: nat, j: nat, window: real, now: nat)
    requires BucketOk(k, b) && FirstBest(b, i, j, RulesetFor(window), now)
    ensures Neighbours(b, i, j, window)
  {
    BestIsClosest(b, i, j, window, now);
    hide RulesetFor, Pairable, Player, Near;
    assert Mmr(b[i]) <= Mmr(b[i + 1]) <= Mmr(b[j]) by { if i + 1 < j { assert Mmr(b[i + 1]) <= Mmr(b[j]); } }
    assert Player(b[i]) != Player(b[i + 1]);
    forall h | 0 <= h < i ensures !Near(b[h], b[h + 1], window) {
      assert NoPartner(b, h, RulesetFor(window), now);
      ServicePairs(b[h], b[h + 1], window, now);
    }
  }
}
