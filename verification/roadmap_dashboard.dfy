/**
 * The health dashboard: four counts over the roadmap items and the card
 * variants they select.
 */
module HealthDashboard {
  import opened Seqs
  import opened RoadmapModel

  datatype Metrics = Metrics(total: nat, mustHavePercentage: int, inProgressCount: nat, atRiskOrBlockedCount: nat)

  /** Health states the dashboard counts as needing attention; off-track is not one of them. */
  predicate NeedsAttention(item: RoadmapItem) {
    item.health == AtRisk || item.health == Blocked
  }

  function AtRiskOrBlocked(items: seq<RoadmapItem>): seq<RoadmapItem> {
    Where(items, NeedsAttention)
  }

  /**
   * `Math.round(part / whole * 100)` in exact arithmetic: the integer
   * nearest to the percentage, halves rounded up.
   */
  function RoundedPercent(part: nat, whole: nat): (r: int)
    requires whole > 0
    ensures 2 * whole * r <= 200 * part + whole < 2 * whole * (r + 1)
    ensures part <= whole ==> 0 <= r <= 100
  {
    var n := 200 * part + whole;
    var d := 2 * whole;
    var q := n / d;
    assert n == d * q + n % d;
    PercentBounds(part, whole, q);
    q
  }

  lemma PercentBounds(part: nat, whole: nat, q: int)
    requires whole > 0
    requires 2 * whole * q <= 200 * part + whole < 2 * whole * (q + 1)
    ensures part <= whole ==> 0 <= q <= 100
  {
    MulMonotone(2 * whole, 101, q);
    MulMonotone(2 * whole, q + 1, 0);
  }

  lemma MulMonotone(c: int, a: int, b: int)
    requires c > 0
    ensures a <= b ==> c * a <= c * b
  {
    if a <= b {
      assert c * b - c * a == c * (b - a);
    }
  }

  /** `calculateMetrics`. */
  function CalculateMetrics(items: seq<RoadmapItem>): (r: Metrics)
    ensures r.total == |items|
    ensures r.inProgressCount <= r.total && r.atRiskOrBlockedCount <= r.total
    ensures 0 <= r.mustHavePercentage <= 100
    ensures r.total == 0 ==> r.mustHavePercentage == 0
    ensures r.total > 0 ==>
              var m := |WithKey(items, MoscowOf, MustHave)|;
              2 * r.total * r.mustHavePercentage <= 200 * m + r.total < 2 * r.total * (r.mustHavePercentage + 1)
  {
    var total := |items|;
    var mustHave := |WithKey(items, MoscowOf, MustHave)|;
    Metrics(total,
            if total > 0 then RoundedPercent(mustHave, total) else 0,
            |WithKey(items, StatusOf, InProgress)|,
            |AtRiskOrBlocked(items)|)
  }

  /** An added item raises the attention count by one when at risk or blocked, and not when off track. */
  lemma AttentionCountStep(items: seq<RoadmapItem>, item: RoadmapItem)
    ensures |AtRiskOrBlocked(items + [item])| == |AtRiskOrBlocked(items)| + (if item.health in {AtRisk, Blocked} then 1 else 0)
    ensures item.health == OffTrack ==> CalculateMetrics(items + [item]).atRiskOrBlockedCount == CalculateMetrics(items).atRiskOrBlockedCount
  {
    WhereAppend(items, [item], NeedsAttention);
  }

  datatype Variant = Default | Warning | Success

  /** The must-have card warns above 60 %. */
  function MustHaveVariant(m: Metrics): Variant {
    if m.mustHavePercentage > 60 then Warning else Default
  }

  function MustHaveDescription(m: Metrics): string {
    if m.mustHavePercentage > 60 then "High must-have ratio - consider re-prioritizing" else "Healthy prioritization balance"
  }

  /** The attention card warns when anything needs attention, and shows success otherwise. */
  function AttentionVariant(m: Metrics): (v: Variant)
    ensures v != Default
  {
    if m.atRiskOrBlockedCount > 0 then Warning else Success
  }

  lemma DivAtLeast(n: int, d: int, k: int)
    requires d > 0
    ensures n / d >= k <==> n >= k * d
  {
    var q := n / d;
    assert n == d * q + n % d;
    MulMonotone(d, k, q);
    MulMonotone(d, q + 1, k);
  }

  /**
   * With items present the must-have card warns exactly when must-haves
   * make up at least 60.5 % of them (the point from which the rounded
   * percentage exceeds 60).
   */
  lemma MustHaveWarningThreshold(items: seq<RoadmapItem>)
    requires |items| > 0
    ensures MustHaveVariant(CalculateMetrics(items)) == Warning
        <==> 200 * |WithKey(items, MoscowOf, MustHave)| >= 121 * |items|
  {
    var m := |WithKey(items, MoscowOf, MustHave)|;
    DivAtLeast(200 * m + |items|, 2 * |items|, 61);
  }

  /** The attention card warns exactly when some item is at risk or blocked. */
  lemma AttentionWarning(items: seq<RoadmapItem>)
    ensures AttentionVariant(CalculateMetrics(items)) == Warning
        <==> exists j | 0 <= j < |items| :: items[j].health == AtRisk || items[j].health == Blocked
  {
    if exists j | 0 <= j < |items| :: items[j].health == AtRisk || items[j].health == Blocked {
      var j :| 0 <= j < |items| && (items[j].health == AtRisk || items[j].health == Blocked);
      assert NeedsAttention(items[j]);
    } else {
      WhereNone(items, NeedsAttention);
    }
  }
}
