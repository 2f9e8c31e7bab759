/**
 * The analytics layer of the pricing dashboard (src/lib/analytics.ts): the
 * views the dashboard renders, each computed from the company list, the
 * usage events or the competitor list passed in as values.
 */
module Analytics {
  import opened Seqs
  import opened MockData

  // ------------------------------------------------------ dashboard stats

  datatype DashboardStats = DashboardStats(
    totalRevenueLeak: real,
    totalRevenueLeakPercent: real,
    highRiskCustomers: nat,
    avgChurnProbability: real,
    monthlyRevenue: real,
    potentialRevenue: real)

  /**
   * getDashboardStats: the totals of leak and revenue, the leak as a percent
   * of revenue, the number of high-risk companies and the mean churn
   * probability. getDashboardStats divides by the company count and the
   * revenue total without a guard; both must be non-zero here.
   */
  function GetDashboardStats(companies: seq<Company>): (s: DashboardStats)
    requires |companies| > 0
    requires Sum(companies, RevenueOf) != 0.0
    ensures s.totalRevenueLeak == Sum(companies, LeakOf)
    ensures s.monthlyRevenue == Sum(companies, RevenueOf)
    ensures s.potentialRevenue == s.monthlyRevenue + s.totalRevenueLeak
    ensures s.totalRevenueLeakPercent * s.monthlyRevenue == s.totalRevenueLeak * 100.0
    ensures s.highRiskCustomers == |GetHighChurnRiskCompanies(companies)| <= |companies|
    ensures s.avgChurnProbability * |companies| as real == Sum(companies, ProbabilityOf)
    ensures s.avgChurnProbability == Mean(Sum(companies, ProbabilityOf), |companies|)
  {
    var totalRevenueLeak := Reduce(companies, LeakOf, 0.0);
    var monthlyRevenue := Reduce(companies, RevenueOf, 0.0);
    var totalProbability := Reduce(companies, ProbabilityOf, 0.0);
    assert totalProbability == Sum(companies, ProbabilityOf);
    var potentialRevenue := monthlyRevenue + totalRevenueLeak;
    var totalRevenueLeakPercent := Percent(totalRevenueLeak, monthlyRevenue);
    var highRiskCustomers := |Filter(companies, IsHighRisk)|;
    var avgChurnProbability := Mean(totalProbability, |companies|);
    DashboardStats(
      totalRevenueLeak, totalRevenueLeakPercent, highRiskCustomers,
      avgChurnProbability, monthlyRevenue, potentialRevenue)
  }

  /** When every probability lies in [lo, hi], so does their mean. */
  lemma AverageChurnInRange(companies: seq<Company>, lo: real, hi: real)
    requires |companies| > 0 && Sum(companies, RevenueOf) != 0.0
    requires forall c :: c in companies ==> lo <= ProbabilityOf(c) <= hi
    ensures lo <= GetDashboardStats(companies).avgChurnProbability <= hi
  {
    MeanInRange(companies, ProbabilityOf, lo, hi);
  }

  /** With no negative leak, the potential revenue is at least the monthly revenue. */
  lemma PotentialCoversMonthly(companies: seq<Company>)
    requires |companies| > 0 && Sum(companies, RevenueOf) != 0.0
    requires forall c :: c in companies ==> c.revenueLeak >= 0.0
    ensures GetDashboardStats(companies).potentialRevenue >= GetDashboardStats(companies).monthlyRevenue
  {
    SumNonNegative(companies, LeakOf);
  }

  // ------------------------------------------------------------- heatmap

  datatype Severity = Low | Medium | High | Critical

  datatype RevenueLeakCell = RevenueLeakCell(
    companyId: string,
    companyName: string,
    industry: Industry,
    leakAmount: real,
    leakPercent: real,
    severity: Severity)

  /** The leak severity: `> 50` critical, else `> 30` high, else `> 15` medium, else low. */
  function SeverityOf(leakPercent: real): Severity
  {
    if leakPercent > 50.0 then Severity.Critical
    else if leakPercent > 30.0 then Severity.High
    else if leakPercent > 15.0 then Severity.Medium
    else Severity.Low
  }

  /** The `map` step of getRevenueLeakHeatmap for one company. */
  function LeakCell(c: Company): (cell: RevenueLeakCell)
    ensures cell.companyId == c.id && cell.companyName == c.name && cell.industry == c.industry
    ensures cell.leakAmount == c.revenueLeak && cell.leakPercent == c.revenueLeakPercent
    ensures cell.severity == Severity.Critical <==> c.revenueLeakPercent > 50.0
    ensures cell.severity == Severity.High <==> 30.0 < c.revenueLeakPercent <= 50.0
    ensures cell.severity == Severity.Medium <==> 15.0 < c.revenueLeakPercent <= 30.0
    ensures cell.severity == Severity.Low <==> c.revenueLeakPercent <= 15.0
  {
    RevenueLeakCell(c.id, c.name, c.industry, c.revenueLeak, c.revenueLeakPercent,
                    SeverityOf(c.revenueLeakPercent))
  }

  function LeakCells(companies: seq<Company>): (cells: seq<RevenueLeakCell>)
    ensures |cells| == |companies|
    ensures forall i :: 0 <= i < |companies| ==> cells[i] == LeakCell(companies[i])
  {
    if companies == [] then [] else [LeakCell(companies[0])] + LeakCells(companies[1..])
  }

  function LeakAmountOf(cell: RevenueLeakCell): real { cell.leakAmount }

  /**
   * getRevenueLeakHeatmap: one cell per company, a permutation of the cells
   * in company order, largest leak first, each with its severity bucket.
   */
  function GetRevenueLeakHeatmap(companies: seq<Company>): (cells: seq<RevenueLeakCell>)
    ensures |cells| == |companies|
    ensures multiset(cells) == multiset(LeakCells(companies))
    ensures forall i :: 0 <= i < |companies| ==> LeakCell(companies[i]) in cells
    ensures forall cell :: cell in cells ==> exists i :: 0 <= i < |companies| && cell == LeakCell(companies[i])
    ensures forall i, j :: 0 <= i < j < |cells| ==> cells[j].leakAmount <= cells[i].leakAmount
    ensures forall cell :: cell in cells ==>
      && (cell.severity == Severity.Critical <==> cell.leakPercent > 50.0)
      && (cell.severity == Severity.High <==> 30.0 < cell.leakPercent <= 50.0)
      && (cell.severity == Severity.Medium <==> 15.0 < cell.leakPercent <= 30.0)
      && (cell.severity == Severity.Low <==> cell.leakPercent <= 15.0)
  {
    var cells := SortDescBy(LeakCells(companies), LeakAmountOf);
    HeatmapFacts(companies, cells);
    cells
  }

  lemma HeatmapFacts(companies: seq<Company>, cells: seq<RevenueLeakCell>)
    requires |cells| == |companies|
    requires multiset(cells) == multiset(LeakCells(companies))
    requires SortedDescBy(cells, LeakAmountOf)
    ensures forall i :: 0 <= i < |companies| ==> LeakCell(companies[i]) in cells
    ensures forall cell :: cell in cells ==> exists i :: 0 <= i < |companies| && cell == LeakCell(companies[i])
    ensures forall i, j :: 0 <= i < j < |cells| ==> cells[j].leakAmount <= cells[i].leakAmount
    ensures forall cell :: cell in cells ==>
      && (cell.severity == Severity.Critical <==> cell.leakPercent > 50.0)
      && (cell.severity == Severity.High <==> 30.0 < cell.leakPercent <= 50.0)
      && (cell.severity == Severity.Medium <==> 15.0 < cell.leakPercent <= 30.0)
      && (cell.severity == Severity.Low <==> cell.leakPercent <= 15.0)
  {
    var unsorted := LeakCells(companies);
    SameElements(cells, unsorted);
    forall i | 0 <= i < |companies| ensures LeakCell(companies[i]) in cells {
      assert unsorted[i] in unsorted;
    }
    forall i, j | 0 <= i < j < |cells| ensures cells[j].leakAmount <= cells[i].leakAmount {
      assert LeakAmountOf(cells[j]) <= LeakAmountOf(cells[i]);
    }
  }

  /**
   * The boundary example: 100,000 units at 0.01 with a 1.5 multiplier earn
   * 1,000, leak 500, i.e. exactly 50 percent, which is `high`, not `critical`.
   */
  lemma HeatmapBoundaryExample(d: CompanyDraws)
    requires d.monthlyUsage == 100000 && d.currentPrice == 0.01 && d.marketMultiplier == 1.5
    ensures DeriveCompany(d).monthlyRevenue == 1000.0
    ensures DeriveCompany(d).recommendedPrice == 0.015
    ensures DeriveCompany(d).revenueLeak == 500.0
    ensures DeriveCompany(d).revenueLeakPercent == 50.0
    ensures LeakCell(DeriveCompany(d)).severity == Severity.High
  {
  }

  // ---------------------------------------------------- churn predictions

  /** The reason template, with the value its text quotes. */
  datatype Reason = PricingBelowMarket(leakPercent: real) | HighUsageVolatility | UsageDeclining

  /** The recommendation template, with the value its text quotes. */
  datatype Recommendation = IncreasePriceTo(pricePerUnit: real) | SwitchToOutcomeBased | OfferVolumeDiscount

  datatype ChurnPrediction = ChurnPrediction(
    companyId: string,
    companyName: string,
    probability: int,
    risk: ChurnRisk,
    reason: Reason,
    recommendation: Recommendation)

  /**
   * The `map` step of getChurnPredictions: the three templates are tried in
   * a fixed order, so exactly one applies, and reason and recommendation
   * always come as a pair.
   */
  function Predict(c: Company): (p: ChurnPrediction)
    ensures p.companyId == c.id && p.companyName == c.name
    ensures p.probability == c.churnProbability && p.risk == c.churnRisk
    ensures p.reason.PricingBelowMarket? <==> c.revenueLeakPercent > 40.0
    ensures p.reason.HighUsageVolatility? <==> c.revenueLeakPercent <= 40.0 && c.churnProbability > 60
    ensures p.reason.UsageDeclining? <==> c.revenueLeakPercent <= 40.0 && c.churnProbability <= 60
    ensures p.reason.PricingBelowMarket? <==> p.recommendation.IncreasePriceTo?
    ensures p.reason.HighUsageVolatility? <==> p.recommendation.SwitchToOutcomeBased?
    ensures p.reason.UsageDeclining? <==> p.recommendation.OfferVolumeDiscount?
    ensures p.reason.PricingBelowMarket? ==>
      p.reason.leakPercent == c.revenueLeakPercent && p.recommendation.pricePerUnit == c.recommendedPrice
  {
    var (reason, recommendation) :=
      if c.revenueLeakPercent > 40.0 then
        (PricingBelowMarket(c.revenueLeakPercent), IncreasePriceTo(c.recommendedPrice))
      else if c.churnProbability > 60 then
        (HighUsageVolatility, SwitchToOutcomeBased)
      else
        (UsageDeclining, OfferVolumeDiscount);
    ChurnPrediction(c.id, c.name, c.churnProbability, c.churnRisk, reason, recommendation)
  }

  function Predictions(companies: seq<Company>): (r: seq<ChurnPrediction>)
    ensures |r| == |companies|
    ensures forall i :: 0 <= i < |companies| ==> r[i] == Predict(companies[i])
  {
    if companies == [] then [] else [Predict(companies[0])] + Predictions(companies[1..])
  }

  function IsChurnCandidate(c: Company): bool { c.churnProbability > 30 }

  /**
   * getChurnPredictions(limit): the companies with probability above 30,
   * most likely to churn first, at most `limit` of them (the `slice` rules
   * apply to a negative limit), each with its explanation. A candidate left
   * out is never more likely to churn than one kept.
   */
  function GetChurnPredictions(companies: seq<Company>, limit: int := 20): (r: seq<ChurnPrediction>)
    ensures |r| == JsIndex(limit, |Filter(companies, IsChurnCandidate)|)
    ensures |r| <= |Filter(companies, IsChurnCandidate)|
    ensures 0 <= limit ==> |r| <= limit
    ensures forall i :: 0 <= i < |r| ==> r[i].probability > 30
    ensures forall i, j :: 0 <= i < j < |r| ==> r[j].probability <= r[i].probability
    ensures forall i :: 0 <= i < |r| ==>
      exists c :: c in companies && c.churnProbability > 30 && r[i] == Predict(c)
    ensures forall c :: c in companies && c.churnProbability > 30 && Predict(c) !in r ==>
      forall i :: 0 <= i < |r| ==> c.churnProbability <= r[i].probability
    ensures exists chosen :: multiset(chosen) <= multiset(Filter(companies, IsChurnCandidate)) && r == Predictions(chosen)
  {
    var candidates := Filter(companies, IsChurnCandidate);
    var chosen := TopBy(candidates, ProbabilityOf, limit);
    var r := Predictions(chosen);
    ChurnPredictionFacts(companies, candidates, chosen, r);
    r
  }

  lemma ChurnPredictionFacts(
    companies: seq<Company>, candidates: seq<Company>, chosen: seq<Company>, r: seq<ChurnPrediction>)
    requires candidates == Filter(companies, IsChurnCandidate)
    requires SortedDescBy(chosen, ProbabilityOf)
    requires multiset(chosen) <= multiset(candidates)
    requires forall x, y :: x in chosen && y in multiset(candidates) - multiset(chosen) ==>
      ProbabilityOf(y) <= ProbabilityOf(x)
    requires r == Predictions(chosen)
    ensures forall i :: 0 <= i < |r| ==> r[i].probability > 30
    ensures forall i, j :: 0 <= i < j < |r| ==> r[j].probability <= r[i].probability
    ensures forall i :: 0 <= i < |r| ==>
      exists c :: c in companies && c.churnProbability > 30 && r[i] == Predict(c)
    ensures forall c :: c in companies && c.churnProbability > 30 && Predict(c) !in r ==>
      forall i :: 0 <= i < |r| ==> c.churnProbability <= r[i].probability
  {
    forall i | 0 <= i < |r|
      ensures chosen[i] in companies && chosen[i].churnProbability > 30
    {
      assert chosen[i] in multiset(chosen);
      assert chosen[i] in multiset(candidates);
    }
    forall i, j | 0 <= i < j < |r| ensures r[j].probability <= r[i].probability {
      assert ProbabilityOf(chosen[j]) <= ProbabilityOf(chosen[i]);
    }
    forall c | c in companies && c.churnProbability > 30 && Predict(c) !in r
      ensures forall i :: 0 <= i < |r| ==> c.churnProbability <= r[i].probability
    {
      assert c in candidates;
      assert c !in chosen by {
        forall k | 0 <= k < |chosen| ensures chosen[k] != c {
          assert r[k] in r;
        }
      }
      assert c in multiset(candidates) - multiset(chosen);
      forall i | 0 <= i < |r| ensures c.churnProbability <= r[i].probability {
        assert chosen[i] in chosen;
        assert ProbabilityOf(c) <= ProbabilityOf(chosen[i]);
      }
    }
  }

  // --------------------------------------------------- pricing simulation

  datatype PricingSimulation = PricingSimulation(
    currentRevenue: real,
    projectedRevenue: real,
    revenueChange: real,
    revenueChangePercent: real,
    churnImpact: real,
    netRevenue: real)

  datatype SimulationError = CompanyNotFound

  /** The change from `price` to `newPrice`, as a percent of `price`. */
  function PriceChangePercent(newPrice: real, price: real): (pct: real)
    requires price > 0.0
    ensures pct * price == (newPrice - price) * 100.0
    ensures pct <= 0.0 <==> newPrice <= price
  {
    var pct := (newPrice - price) / price * 100.0;
    assert pct * price == (newPrice - price) * 100.0 by {
      PercentOf(newPrice - price, price);
    }
    assert pct <= 0.0 <==> newPrice <= price by {
      PriceChangeSign(newPrice, price);
    }
    pct
  }

  lemma PriceChangeSign(newPrice: real, price: real)
    requires price > 0.0
    ensures (newPrice - price) / price * 100.0 <= 0.0 <==> newPrice <= price
  {
    if newPrice <= price {
      assert (newPrice - price) / price <= 0.0;
    } else {
      assert (newPrice - price) / price > 0.0;
    }
  }

  /**
   * The simulation for one company: the churn impact is half the percent
   * price increase (every 10 percent of increase costs 5 percent of the
   * customers) and zero for a price that does not rise; the net revenue is
   * the projected revenue on the usage that is kept.
   */
  function Simulate(c: Company, newPrice: real): (s: PricingSimulation)
    requires c.currentPrice > 0.0 && c.monthlyRevenue > 0.0
    ensures s.currentRevenue == c.monthlyRevenue
    ensures s.projectedRevenue == c.monthlyUsage as real * newPrice
    ensures s.churnImpact >= 0.0
    ensures newPrice <= c.currentPrice ==> s.churnImpact == 0.0
    ensures newPrice > c.currentPrice ==>
      s.churnImpact * 2.0 * c.currentPrice == (newPrice - c.currentPrice) * 100.0
    ensures s.netRevenue == s.projectedRevenue * (1.0 - s.churnImpact / 100.0)
    ensures s.revenueChange == s.netRevenue - s.currentRevenue
    ensures s.revenueChangePercent * s.currentRevenue == s.revenueChange * 100.0
  {
    var currentRevenue := c.monthlyRevenue;
    var projectedRevenue := c.monthlyUsage as real * newPrice;
    var priceChangePercent := PriceChangePercent(newPrice, c.currentPrice);
    var churnImpact := if 0.0 >= priceChangePercent * 0.5 then 0.0 else priceChangePercent * 0.5;
    var retentionRate := 1.0 - churnImpact / 100.0;
    var netRevenue := projectedRevenue * retentionRate;
    var revenueChange := netRevenue - currentRevenue;
    var revenueChangePercent := revenueChange / currentRevenue * 100.0;
    assert revenueChangePercent * currentRevenue == revenueChange * 100.0 by {
      PercentOf(revenueChange, currentRevenue);
    }
    PricingSimulation(
      currentRevenue, projectedRevenue, revenueChange, revenueChangePercent, churnImpact, netRevenue)
  }

  /** The price and the revenue of the company the lookup finds, if any, are divisors. */
  ghost predicate SimulatableWith(companies: seq<Company>, companyId: string)
  {
    var found := GetCompanyById(companies, companyId);
    found.Some? ==> found.value.currentPrice > 0.0 && found.value.monthlyRevenue > 0.0
  }

  /**
   * simulatePricingChange(companyId, newPrice): "Company not found" for an
   * id no company has, and otherwise the simulation for the first company
   * with that id.
   */
  function SimulatePricingChange(companies: seq<Company>, companyId: string, newPrice: real)
    : (r: Result<PricingSimulation, SimulationError>)
    requires SimulatableWith(companies, companyId)
    ensures r.Failure? <==> forall c :: c in companies ==> c.id != companyId
    ensures r.Failure? ==> r.error == CompanyNotFound
    ensures r.Success? ==> exists i ::
      && 0 <= i < |companies| && companies[i].id == companyId
      && (forall j :: 0 <= j < i ==> companies[j].id != companyId)
      && companies[i].currentPrice > 0.0 && companies[i].monthlyRevenue > 0.0
      && r.value == Simulate(companies[i], newPrice)
  {
    match GetCompanyById(companies, companyId)
    case None => Failure(CompanyNotFound)
    case Some(company) =>
      assert company in companies;
      Success(Simulate(company, newPrice))
  }

  /** Simulating the current price of a consistent record changes nothing. */
  lemma SimulateCurrentPriceIsNeutral(c: Company)
    requires c.currentPrice > 0.0 && c.monthlyRevenue > 0.0 && Consistent(c)
    ensures Simulate(c, c.currentPrice).churnImpact == 0.0
    ensures Simulate(c, c.currentPrice).netRevenue == c.monthlyRevenue
    ensures Simulate(c, c.currentPrice).revenueChange == 0.0
    ensures Simulate(c, c.currentPrice).revenueChangePercent == 0.0
  {
    var s := Simulate(c, c.currentPrice);
    KeptRevenue(s.projectedRevenue, s.churnImpact, s.netRevenue);
    Cancel(s.revenueChangePercent, 0.0, s.currentRevenue);
  }

  /** A price cut loses exactly the usage times the cut, and never gains. */
  lemma SimulatePriceCut(c: Company, newPrice: real)
    requires c.currentPrice > 0.0 && c.monthlyRevenue > 0.0 && Consistent(c)
    requires newPrice <= c.currentPrice
    ensures Simulate(c, newPrice).revenueChange == c.monthlyUsage as real * (newPrice - c.currentPrice)
    ensures Simulate(c, newPrice).revenueChange <= 0.0
  {
    var s := Simulate(c, newPrice);
    var u := c.monthlyUsage as real;
    KeptRevenue(s.projectedRevenue, s.churnImpact, s.netRevenue);
    ProductNonPositive(u, newPrice - c.currentPrice);
  }

  /**
   * The linear churn heuristic has no ceiling: at three times the current
   * price or more, the whole customer base churns and the net revenue is
   * zero or negative.
   */
  lemma SimulateTripledPrice(c: Company, newPrice: real)
    requires c.currentPrice > 0.0 && c.monthlyRevenue > 0.0 && c.monthlyUsage >= 0
    requires newPrice >= 3.0 * c.currentPrice
    ensures Simulate(c, newPrice).churnImpact >= 100.0
    ensures Simulate(c, newPrice).netRevenue <= 0.0
  {
    var s := Simulate(c, newPrice);
    ChurnReachesAll(s.churnImpact, c.currentPrice, newPrice);
    ProductNonNegative(c.monthlyUsage as real, newPrice);
    NoRetention(s.projectedRevenue, s.churnImpact, s.netRevenue);
  }

  /**
   * Under the same heuristic the net revenue peaks at one and a half times
   * the current price (`peak`): no other price simulates to a higher net
   * revenue.
   */
  lemma SimulateBestPrice(c: Company, newPrice: real, peak: real)
    requires c.currentPrice > 0.0 && c.monthlyRevenue > 0.0 && c.monthlyUsage >= 0
    requires 2.0 * peak == 3.0 * c.currentPrice
    ensures Simulate(c, newPrice).netRevenue <= Simulate(c, peak).netRevenue
  {
    var best := Simulate(c, peak);
    NetAtPeak(c.monthlyUsage as real, c.currentPrice, peak, best.projectedRevenue, best.churnImpact, best.netRevenue);
    var s := Simulate(c, newPrice);
    NetBelowPeak(c.monthlyUsage as real, c.currentPrice, newPrice, s.projectedRevenue, s.churnImpact, s.netRevenue);
  }

  // The arithmetic of the heuristic, apart from the simulation record.

  lemma KeptRevenue(projected: real, k: real, net: real)
    requires k == 0.0 && net == projected * (1.0 - k / 100.0)
    ensures net == projected
  {
  }

  lemma ChurnReachesAll(k: real, p: real, newPrice: real)
    requires p > 0.0 && newPrice >= 3.0 * p
    requires k * 2.0 * p == (newPrice - p) * 100.0
    ensures k >= 100.0
  {
    CancelLeq(k * 2.0, 200.0, p);
  }

  lemma NoRetention(projected: real, k: real, net: real)
    requires projected >= 0.0 && k >= 100.0
    requires net == projected * (1.0 - k / 100.0)
    ensures net <= 0.0
  {
    assert 1.0 - k / 100.0 <= 0.0;
  }

  lemma NetAtPeak(u: real, p: real, peak: real, projected: real, k: real, net: real)
    requires p > 0.0 && 2.0 * peak == 3.0 * p
    requires projected == u * peak && net == projected * (1.0 - k / 100.0)
    requires peak > p ==> k * 2.0 * p == (peak - p) * 100.0
    ensures net * 8.0 == u * p * 9.0
  {
    assert peak > p;
    Cancel(k * 2.0, 50.0, p);
  }

  lemma NetBelowPeak(u: real, p: real, newPrice: real, projected: real, k: real, net: real)
    requires u >= 0.0 && p > 0.0
    requires projected == u * newPrice && net == projected * (1.0 - k / 100.0)
    requires newPrice <= p ==> k == 0.0
    requires newPrice > p ==> k * 2.0 * p == (newPrice - p) * 100.0
    ensures net * 8.0 <= u * p * 9.0
  {
    if newPrice <= p {
      assert net == u * newPrice;
      assert u * newPrice <= u * p;
    } else {
      assert (1.0 - k / 100.0) * 2.0 * p == 3.0 * p - newPrice;
      assert net * 2.0 * p == u * newPrice * (3.0 * p - newPrice);
      assert 4.0 * newPrice * (3.0 * p - newPrice) <= 9.0 * p * p by {
        assert 9.0 * p * p - 4.0 * newPrice * (3.0 * p - newPrice) == (2.0 * newPrice - 3.0 * p) * (2.0 * newPrice - 3.0 * p);
      }
      assert 4.0 * u * newPrice * (3.0 * p - newPrice) <= u * 9.0 * p * p;
      assert net * 8.0 * p <= u * p * 9.0 * p;
      CancelLeq(u * p * 9.0, net * 8.0, p);
    }
  }

  // -------------------------------------------------------- revenue trend

  datatype TrendPoint = TrendPoint(date: int, revenue: real)

  /** The number of most recent days the trend keeps (`slice(-90)`). */
  const TrendDays: int := 90

  function EventDay(e: UsageEvent): int { e.date }
  function EventCompanyOf(e: UsageEvent): string { e.companyId }
  function TrendDateOf(p: TrendPoint): real { p.date as real }
  function TrendRevenueOf(p: TrendPoint): real { p.revenue }

  /**
   * The events of one company, each as often as it occurs and in list order,
   * or the whole list when no id is given; an empty id is falsy in
   * getRevenueTrend's conditional and also selects the whole list.
   */
  function SelectEvents(events: seq<UsageEvent>, companyId: Option<string>): (r: seq<UsageEvent>)
    ensures forall e :: e in r <==>
      e in events && (companyId.Some? && companyId.value != "" ==> e.companyId == companyId.value)
    ensures forall e :: multiset(r)[e] ==
                        if companyId.Some? && companyId.value != "" && e.companyId != companyId.value then 0
                        else multiset(events)[e]
    ensures SubsequenceOf(r, events)
    ensures companyId.None? || companyId.value == "" ==> r == events
  {
    if companyId.Some? && companyId.value != "" then
      FilterHasKey(events, EventCompanyOf, companyId.value);
      Filter(events, HasKey(EventCompanyOf, companyId.value))
    else
      SubsequenceOfSelf(events);
      events
  }

  /** The total revenue of the events dated `day`. */
  function DayRevenue(events: seq<UsageEvent>, day: int): real
  {
    GroupTotal(events, EventDay, EventRevenueOf)(day)
  }

  /**
   * `Array.from(map.entries()).map(...)`: one point per key of the grouping
   * map, in its key order.
   */
  function MapPoints(days: seq<int>, totals: map<int, real>): (r: seq<TrendPoint>)
    requires forall i :: 0 <= i < |days| ==> days[i] in totals
    ensures |r| == |days|
    ensures forall i :: 0 <= i < |r| ==> r[i] == TrendPoint(days[i], totals[days[i]])
  {
    if days == [] then [] else [TrendPoint(days[0], totals[days[0]])] + MapPoints(days[1..], totals)
  }

  /** One point per day of the selected events, in order of first occurrence. */
  function DayPoints(sel: seq<UsageEvent>): seq<TrendPoint>
  {
    var daily := GroupByDay(sel);
    MapPoints(daily.order, daily.entries)
  }

  /** What getRevenueTrend returns for the selected events: the day points sorted by date, the last 90 kept. */
  function RevenueTrend(sel: seq<UsageEvent>): seq<TrendPoint>
  {
    SliceFrom(SortBy(DayPoints(sel), TrendDateOf), -TrendDays)
  }

  /**
   * getRevenueTrend(companyId): sums the revenue of the selected events per
   * day in a `Map`, then sorts the day points by date and keeps the last 90.
   */
  method GetRevenueTrend(events: seq<UsageEvent>, companyId: Option<string>) returns (trend: seq<TrendPoint>)
    ensures trend == RevenueTrend(SelectEvents(events, companyId))
  {
    var sel := SelectEvents(events, companyId);
    var daily := SumRevenueByDay(sel);
    var entries := MapPoints(daily.order, daily.entries);
    trend := SliceFrom(SortBy(entries, TrendDateOf), -TrendDays);
  }

  /** The `forEach` loop of getRevenueTrend: one `Map` update per event, in list order. */
  method SumRevenueByDay(sel: seq<UsageEvent>) returns (daily: OrderedMap<int, real>)
    ensures daily == GroupByDay(sel)
  {
    daily := OrderedMap(map[], []);
    for n := 0 to |sel|
      invariant daily == GroupByDay(sel[..n])
    {
      var e := sel[n];
      var current := if e.date in daily.entries then daily.entries[e.date] else 0.0;
      daily := daily.Set(e.date, current + e.revenue);
      assert sel[..n + 1][..n] == sel[..n];
    }
    assert sel[..|sel|] == sel;
  }

  /** There is one point per day with events, or the latest 90 of them when there are more. */
  lemma RevenueTrendLength(sel: seq<UsageEvent>)
    ensures var days := KeysInOrder(sel, EventDay);
      |RevenueTrend(sel)| == if |days| < TrendDays then |days| else TrendDays
  {
    DayPointsFacts(sel);
  }

  /** The dates of the trend strictly ascend. */
  lemma RevenueTrendAscends(sel: seq<UsageEvent>)
    ensures forall i, j :: 0 <= i < j < |RevenueTrend(sel)| ==> RevenueTrend(sel)[i].date < RevenueTrend(sel)[j].date
  {
    DayPointsFacts(sel);
    SortedDatesAscend(KeysInOrder(sel, EventDay), DayPoints(sel));
    SuffixDatesAscend(SortBy(DayPoints(sel), TrendDateOf), RevenueTrend(sel));
  }

  /** Every point is a day on which some selected event falls, with that day's total revenue. */
  lemma RevenueTrendDays(sel: seq<UsageEvent>)
    ensures forall p :: p in RevenueTrend(sel) ==>
      && (exists e :: e in sel && e.date == p.date)
      && p.revenue == DayRevenue(sel, p.date)
  {
    DayPointsFacts(sel);
    TrendPoints(sel, KeysInOrder(sel, EventDay), DayPoints(sel), SortBy(DayPoints(sel), TrendDateOf), RevenueTrend(sel));
  }

  /** The latest days are the ones kept: each selected event's day has a point, or lies before every point. */
  lemma RevenueTrendKeepsLatest(sel: seq<UsageEvent>)
    ensures forall e :: e in sel ==>
      (exists p :: p in RevenueTrend(sel) && p.date == e.date) || (forall p :: p in RevenueTrend(sel) ==> e.date < p.date)
  {
    DayPointsFacts(sel);
    var sorted := SortBy(DayPoints(sel), TrendDateOf);
    SortedDatesAscend(KeysInOrder(sel, EventDay), DayPoints(sel));
    TrendKeepsLatest(sel, KeysInOrder(sel, EventDay), DayPoints(sel), sorted, RevenueTrend(sel));
  }

  /** When no day is cut off, the trend accounts for all the selected revenue. */
  lemma RevenueTrendTotal(sel: seq<UsageEvent>)
    requires |KeysInOrder(sel, EventDay)| <= TrendDays
    ensures Sum(RevenueTrend(sel), TrendRevenueOf) == Sum(sel, EventRevenueOf)
  {
    DayPointsFacts(sel);
    TrendTotal(sel, KeysInOrder(sel, EventDay), DayPoints(sel), SortBy(DayPoints(sel), TrendDateOf), RevenueTrend(sel));
  }

  /** The unsorted points carry each day's total, one per day in first-occurrence order. */
  lemma DayPointsFacts(sel: seq<UsageEvent>)
    ensures DailyPoints(sel, KeysInOrder(sel, EventDay), DayPoints(sel))
  {
    GroupByDayTotals(sel);
  }

  /** One `forEach` round of getRevenueTrend: the event's revenue is added to its day. */
  function AddEvent(daily: OrderedMap<int, real>, e: UsageEvent): OrderedMap<int, real>
  {
    var current := if e.date in daily.entries then daily.entries[e.date] else 0.0;
    daily.Set(e.date, current + e.revenue)
  }

  /** The grouping map after one round per event of `s`. */
  function GroupByDay(s: seq<UsageEvent>): (daily: OrderedMap<int, real>)
    ensures forall d :: d in daily.entries <==> d in daily.order
    ensures forall i :: 0 <= i < |daily.order| ==> daily.order[i] in daily.entries
  {
    if s == [] then OrderedMap(map[], []) else AddEvent(GroupByDay(s[..|s| - 1]), s[|s| - 1])
  }

  /** `daily` holds each day's total revenue over `s`, its days in order of first occurrence. */
  ghost predicate DailyTotals(s: seq<UsageEvent>, daily: OrderedMap<int, real>)
  {
    && daily.order == KeysInOrder(s, EventDay)
    && (forall d :: d in daily.entries <==> d in daily.order)
    && (forall d :: d in daily.entries ==> daily.entries[d] == DayRevenue(s, d))
  }

  lemma {:induction false} GroupByDayTotals(s: seq<UsageEvent>)
    ensures DailyTotals(s, GroupByDay(s))
  {
    if s != [] {
      var t := s[..|s| - 1];
      var e := s[|s| - 1];
      assert s == t + [e];
      GroupByDayTotals(t);
      DailyTotalsStep(t, e, GroupByDay(t));
    }
  }

  lemma DailyTotalsStep(s: seq<UsageEvent>, e: UsageEvent, daily: OrderedMap<int, real>)
    requires DailyTotals(s, daily)
    ensures DailyTotals(s + [e], AddEvent(daily, e))
  {
    var s' := s + [e];
    var daily' := AddEvent(daily, e);
    assert daily'.order == KeysInOrder(s', EventDay) by {
      assert s'[..|s|] == s;
    }
    forall d | d in daily'.entries ensures daily'.entries[d] == DayRevenue(s', d) {
      DayTotalStep(s, e, daily, d);
    }
  }

  lemma DayTotalStep(s: seq<UsageEvent>, e: UsageEvent, daily: OrderedMap<int, real>, d: int)
    requires DailyTotals(s, daily)
    requires d in AddEvent(daily, e).entries
    ensures AddEvent(daily, e).entries[d] == DayRevenue(s + [e], d)
  {
    GroupTotalSnoc(s, e, EventDay, EventRevenueOf, d);
    if d !in daily.entries {
      GroupTotalAbsent(s, EventDay, EventRevenueOf, d);
    }
  }

  /** The points before sorting: one per day, in first-occurrence order. */
  ghost predicate DailyPoints(sel: seq<UsageEvent>, days: seq<int>, entries: seq<TrendPoint>)
  {
    && days == KeysInOrder(sel, EventDay)
    && |entries| == |days|
    && forall i :: 0 <= i < |entries| ==> entries[i] == TrendPoint(days[i], DayRevenue(sel, days[i]))
  }

  /** Dates strictly ascend: each day appears once, earliest first. */
  ghost predicate DatesAscend(ps: seq<TrendPoint>)
  {
    forall i, j :: 0 <= i < j < |ps| ==> ps[i].date < ps[j].date
  }

  /** Sorting one point per distinct day by date leaves the dates strictly ascending. */
  lemma SortedDatesAscend(days: seq<int>, entries: seq<TrendPoint>)
    requires Distinct(days) && |entries| == |days|
    requires forall i :: 0 <= i < |entries| ==> entries[i].date == days[i]
    ensures DatesAscend(SortBy(entries, TrendDateOf))
  {
    assert DistinctKeys(entries, TrendDateOf) by {
      forall i, j | 0 <= i < j < |entries| ensures TrendDateOf(entries[i]) != TrendDateOf(entries[j]) {
        assert days[i] != days[j];
      }
    }
    SortByKeepsDistinctKeys(entries, TrendDateOf);
    var sorted := SortBy(entries, TrendDateOf);
    forall i, j | 0 <= i < j < |sorted| ensures sorted[i].date < sorted[j].date {
      assert TrendDateOf(sorted[i]) < TrendDateOf(sorted[j]);
    }
  }

  /** The last 90 points of an ascending sequence still ascend. */
  lemma SuffixDatesAscend(sorted: seq<TrendPoint>, trend: seq<TrendPoint>)
    requires DatesAscend(sorted)
    requires trend == SliceFrom(sorted, -TrendDays)
    ensures DatesAscend(trend)
  {
    var start := |sorted| - |trend|;
    forall i, j | 0 <= i < j < |trend| ensures trend[i].date < trend[j].date {
      assert trend[i] == sorted[start + i] && trend[j] == sorted[start + j];
    }
  }

  lemma TrendPoints(
    sel: seq<UsageEvent>, days: seq<int>, entries: seq<TrendPoint>, sorted: seq<TrendPoint>, trend: seq<TrendPoint>)
    requires DailyPoints(sel, days, entries)
    requires multiset(sorted) == multiset(entries)
    requires trend == SliceFrom(sorted, -TrendDays)
    ensures forall p :: p in trend ==>
      && (exists e :: e in sel && e.date == p.date)
      && p.revenue == DayRevenue(sel, p.date)
  {
    SameElements(sorted, entries);
    forall p | p in trend ensures (exists e :: e in sel && e.date == p.date) && p.revenue == DayRevenue(sel, p.date) {
      assert p in sorted;
      var i :| 0 <= i < |entries| && entries[i] == p;
      assert days[i] in days;
    }
  }

  lemma TrendKeepsLatest(
    sel: seq<UsageEvent>, days: seq<int>, entries: seq<TrendPoint>, sorted: seq<TrendPoint>, trend: seq<TrendPoint>)
    requires DailyPoints(sel, days, entries)
    requires multiset(sorted) == multiset(entries) && DatesAscend(sorted)
    requires trend == SliceFrom(sorted, -TrendDays)
    ensures forall e :: e in sel ==>
      (exists p :: p in trend && p.date == e.date) || (forall p :: p in trend ==> e.date < p.date)
  {
    SameElements(sorted, entries);
    var start := |sorted| - |trend|;
    forall e | e in sel
      ensures (exists p :: p in trend && p.date == e.date) || (forall p :: p in trend ==> e.date < p.date)
    {
      if !exists p :: p in trend && p.date == e.date {
        forall q | q in trend ensures e.date < q.date {
          assert e.date in days;
          var i :| 0 <= i < |days| && days[i] == e.date;
          assert entries[i] in entries;
          var k :| 0 <= k < |sorted| && sorted[k] == entries[i];
          var j :| 0 <= j < |trend| && trend[j] == q;
          assert trend[j] == sorted[start + j];
          assert forall m :: start <= m < |sorted| ==> sorted[m] in trend;
          assert k < start;
        }
      }
    }
  }

  lemma TrendTotal(
    sel: seq<UsageEvent>, days: seq<int>, entries: seq<TrendPoint>, sorted: seq<TrendPoint>, trend: seq<TrendPoint>)
    requires DailyPoints(sel, days, entries)
    requires multiset(sorted) == multiset(entries)
    requires trend == SliceFrom(sorted, -TrendDays)
    requires |days| <= TrendDays
    ensures Sum(trend, TrendRevenueOf) == Sum(sel, EventRevenueOf)
  {
    assert |sorted| == |entries| by {
      assert |multiset(sorted)| == |multiset(entries)|;
    }
    assert trend == sorted;
    SumPermutation(sorted, entries, TrendRevenueOf);
    SumPointwise(entries, TrendRevenueOf, days, GroupTotal(sel, EventDay, EventRevenueOf));
    SumByGroups(sel, EventDay, EventRevenueOf, days);
  }

  // -------------------------------------------------- pricing distribution

  datatype DistributionEntry = DistributionEntry(model: PricingModel, count: nat, avgRevenue: real)

  /** The value the grouping map holds per pricing model. */
  datatype Tally = Tally(count: nat, totalRevenue: real)

  function ModelOf(c: Company): PricingModel { c.pricingModel }
  function EntryCountOf(e: DistributionEntry): real { e.count as real }
  function EntryRevenueOf(e: DistributionEntry): real { e.avgRevenue * e.count as real }

  /** The companies on pricing model `m`, in list order. */
  function OnModel(companies: seq<Company>, m: PricingModel): seq<Company>
  {
    Filter(companies, HasKey(ModelOf, m))
  }

  /**
   * `Array.from(map.entries()).map(...)`: one entry per key of the grouping
   * map, in its key order, with the mean revenue in place of the total.
   */
  function MapEntries(models: seq<PricingModel>, tallies: map<PricingModel, Tally>): (r: seq<DistributionEntry>)
    requires forall i :: 0 <= i < |models| ==> models[i] in tallies && tallies[models[i]].count > 0
    ensures |r| == |models|
    ensures forall i :: 0 <= i < |r| ==> r[i].model == models[i] && r[i].count == tallies[models[i]].count
    ensures forall i :: 0 <= i < |r| ==> EntryRevenueOf(r[i]) == tallies[models[i]].totalRevenue
  {
    if models == [] then []
    else
      var t := tallies[models[0]];
      [DistributionEntry(models[0], t.count, Mean(t.totalRevenue, t.count))] + MapEntries(models[1..], tallies)
  }

  /** What getPricingDistribution returns. */
  function PricingDistribution(companies: seq<Company>): seq<DistributionEntry>
  {
    GroupByModelKeys(companies);
    MapEntries(GroupByModel(companies).order, GroupByModel(companies).entries)
  }

  /** Every model the grouping map lists has a tally, and every tally counts at least one company. */
  lemma GroupByModelKeys(companies: seq<Company>)
    ensures forall i :: 0 <= i < |GroupByModel(companies).order| ==>
      && GroupByModel(companies).order[i] in GroupByModel(companies).entries
      && GroupByModel(companies).entries[GroupByModel(companies).order[i]].count > 0
  {
    var distribution := GroupByModel(companies);
    GroupByModelTallies(companies);
    forall i | 0 <= i < |distribution.order|
      ensures distribution.order[i] in distribution.entries && distribution.entries[distribution.order[i]].count > 0
    {
      assert distribution.order[i] in distribution.order;
    }
  }

  /**
   * getPricingDistribution: counts the companies and sums their revenue per
   * pricing model in a `Map`, then turns each total into a mean.
   */
  method GetPricingDistribution(companies: seq<Company>) returns (dist: seq<DistributionEntry>)
    ensures dist == PricingDistribution(companies)
  {
    var distribution: OrderedMap<PricingModel, Tally> := OrderedMap(map[], []);
    for n := 0 to |companies|
      invariant distribution == GroupByModel(companies[..n])
    {
      var c := companies[n];
      var current := if c.pricingModel in distribution.entries then distribution.entries[c.pricingModel]
                     else Tally(0, 0.0);
      distribution := distribution.Set(
        c.pricingModel, Tally(current.count + 1, current.totalRevenue + c.monthlyRevenue));
      assert companies[..n + 1][..n] == companies[..n];
    }
    assert companies[..|companies|] == companies;
    GroupByModelKeys(companies);
    dist := MapEntries(distribution.order, distribution.entries);
  }

  /**
   * One entry per pricing model in use, in order of first appearance: every
   * company's model has an entry, and every entry's model is some company's.
   */
  lemma PricingDistributionModels(companies: seq<Company>)
    ensures var dist := PricingDistribution(companies);
      && |dist| == |KeysInOrder(companies, ModelOf)|
      && (forall i :: 0 <= i < |dist| ==> dist[i].model == KeysInOrder(companies, ModelOf)[i])
      && (forall i, j :: 0 <= i < j < |dist| ==> dist[i].model != dist[j].model)
      && (forall c :: c in companies ==> exists i :: 0 <= i < |dist| && dist[i].model == c.pricingModel)
      && (forall i :: 0 <= i < |dist| ==> exists c :: c in companies && c.pricingModel == dist[i].model)
  {
    GroupByModelOrder(companies);
    EntriesFollowModels(companies, PricingDistribution(companies));
  }

  /** There are as many entries as distinct pricing models among the companies. */
  lemma PricingDistributionSize(companies: seq<Company>)
    ensures |PricingDistribution(companies)| == |set c | c in companies :: c.pricingModel|
  {
    GroupByModelOrder(companies);
    assert |PricingDistribution(companies)| == |GroupByModel(companies).order|;
    var models := set c | c in companies :: c.pricingModel;
    forall m ensures m in models <==> exists x :: x in companies && ModelOf(x) == m {
      if m in models {
        var c :| c in companies && c.pricingModel == m;
        assert ModelOf(c) == m;
      }
    }
    KeysCount(companies, ModelOf, models);
  }

  /** The grouping map lists the models in order of first appearance. */
  lemma GroupByModelOrder(companies: seq<Company>)
    ensures GroupByModel(companies).order == KeysInOrder(companies, ModelOf)
  {
    GroupByModelTallies(companies);
  }

  lemma EntriesFollowModels(companies: seq<Company>, dist: seq<DistributionEntry>)
    requires |dist| == |KeysInOrder(companies, ModelOf)|
    requires forall i :: 0 <= i < |dist| ==> dist[i].model == KeysInOrder(companies, ModelOf)[i]
    ensures forall i, j :: 0 <= i < j < |dist| ==> dist[i].model != dist[j].model
    ensures forall c :: c in companies ==> exists i :: 0 <= i < |dist| && dist[i].model == c.pricingModel
    ensures forall i :: 0 <= i < |dist| ==> exists c :: c in companies && c.pricingModel == dist[i].model
  {
    var models := KeysInOrder(companies, ModelOf);
    forall c | c in companies ensures exists i :: 0 <= i < |dist| && dist[i].model == c.pricingModel {
      assert ModelOf(c) in models;
    }
    forall i | 0 <= i < |dist| ensures exists c :: c in companies && c.pricingModel == dist[i].model {
      assert models[i] in models;
    }
  }

  /** Each entry counts the companies on its model (at least one) and carries their mean revenue. */
  lemma PricingDistributionEntries(companies: seq<Company>)
    ensures var dist := PricingDistribution(companies);
      forall i :: 0 <= i < |dist| ==>
        && dist[i].count == |OnModel(companies, dist[i].model)| > 0
        && EntryRevenueOf(dist[i]) == Sum(OnModel(companies, dist[i].model), RevenueOf)
  {
    var distribution := GroupByModel(companies);
    GroupByModelTallies(companies);
    GroupByModelKeys(companies);
    TalliedEntries(companies, distribution, MapEntries(distribution.order, distribution.entries));
  }

  /** The entries split the company list: the counts add up to its length, count times mean to its revenue. */
  lemma PricingDistributionTotals(companies: seq<Company>)
    ensures Sum(PricingDistribution(companies), EntryCountOf) == |companies| as real
    ensures Sum(PricingDistribution(companies), EntryRevenueOf) == Sum(companies, RevenueOf)
  {
    PricingDistributionModels(companies);
    PricingDistributionEntries(companies);
    DistributionTotals(companies, KeysInOrder(companies, ModelOf), PricingDistribution(companies));
  }

  /** Entries built from tallies that count and sum each model's companies. */
  lemma TalliedEntries(
    companies: seq<Company>, distribution: OrderedMap<PricingModel, Tally>, dist: seq<DistributionEntry>)
    requires ModelTallies(companies, distribution)
    requires |dist| == |distribution.order|
    requires forall i :: 0 <= i < |distribution.order| ==> distribution.order[i] in distribution.entries
    requires forall i :: 0 <= i < |dist| ==>
      dist[i].model == distribution.order[i] && dist[i].count == distribution.entries[distribution.order[i]].count
    requires forall i :: 0 <= i < |dist| ==> EntryRevenueOf(dist[i]) == distribution.entries[distribution.order[i]].totalRevenue
    ensures forall i :: 0 <= i < |dist| ==>
      && dist[i].count == |OnModel(companies, dist[i].model)| > 0
      && EntryRevenueOf(dist[i]) == Sum(OnModel(companies, dist[i].model), RevenueOf)
  {
    forall i | 0 <= i < |dist|
      ensures EntryRevenueOf(dist[i]) == Sum(OnModel(companies, dist[i].model), RevenueOf)
    {
      assert GroupTotal(companies, ModelOf, RevenueOf)(dist[i].model) == Sum(OnModel(companies, dist[i].model), RevenueOf);
    }
  }

  /** One `forEach` round of getPricingDistribution: the company is counted, and its revenue added, under its model. */
  function AddCompany(distribution: OrderedMap<PricingModel, Tally>, c: Company): OrderedMap<PricingModel, Tally>
  {
    var current := if c.pricingModel in distribution.entries then distribution.entries[c.pricingModel]
                   else Tally(0, 0.0);
    distribution.Set(c.pricingModel, Tally(current.count + 1, current.totalRevenue + c.monthlyRevenue))
  }

  /** The grouping map after one round per company of `s`. */
  function GroupByModel(s: seq<Company>): OrderedMap<PricingModel, Tally>
  {
    if s == [] then OrderedMap(map[], []) else AddCompany(GroupByModel(s[..|s| - 1]), s[|s| - 1])
  }

  /** `distribution` holds the count and total revenue per model over `s`, models in order of first occurrence. */
  ghost predicate ModelTallies(s: seq<Company>, distribution: OrderedMap<PricingModel, Tally>)
  {
    && distribution.order == KeysInOrder(s, ModelOf)
    && (forall m :: m in distribution.entries <==> m in distribution.order)
    && (forall m :: m in distribution.entries ==>
          && distribution.entries[m].count == |OnModel(s, m)| > 0
          && distribution.entries[m].totalRevenue == GroupTotal(s, ModelOf, RevenueOf)(m))
  }

  lemma {:induction false} GroupByModelTallies(s: seq<Company>)
    ensures ModelTallies(s, GroupByModel(s))
  {
    if s != [] {
      var t := s[..|s| - 1];
      var c := s[|s| - 1];
      assert s == t + [c];
      GroupByModelTallies(t);
      ModelTalliesStep(t, c, GroupByModel(t));
    }
  }

  lemma ModelTalliesStep(s: seq<Company>, c: Company, distribution: OrderedMap<PricingModel, Tally>)
    requires ModelTallies(s, distribution)
    ensures ModelTallies(s + [c], AddCompany(distribution, c))
  {
    var s' := s + [c];
    var distribution' := AddCompany(distribution, c);
    assert distribution'.order == KeysInOrder(s', ModelOf) by {
      assert s'[..|s|] == s;
    }
    forall m | m in distribution'.entries
      ensures distribution'.entries[m].count == |OnModel(s', m)| > 0
      ensures distribution'.entries[m].totalRevenue == GroupTotal(s', ModelOf, RevenueOf)(m)
    {
      assert m !in distribution.entries ==> m !in KeysInOrder(s, ModelOf);
      ModelTallyStep(s, c, distribution, m);
    }
  }

  lemma ModelTallyStep(s: seq<Company>, c: Company, distribution: OrderedMap<PricingModel, Tally>, m: PricingModel)
    requires m in distribution.entries ==>
      && distribution.entries[m].count == |OnModel(s, m)| > 0
      && distribution.entries[m].totalRevenue == GroupTotal(s, ModelOf, RevenueOf)(m)
    requires m !in distribution.entries ==> forall x :: x in s ==> ModelOf(x) != m
    requires m in AddCompany(distribution, c).entries
    ensures AddCompany(distribution, c).entries[m].count == |OnModel(s + [c], m)| > 0
    ensures AddCompany(distribution, c).entries[m].totalRevenue == GroupTotal(s + [c], ModelOf, RevenueOf)(m)
  {
    var after := AddCompany(distribution, c).entries[m];
    if m in distribution.entries {
      TallyStep(s, c, m, distribution.entries[m], after);
    } else {
      GroupTotalAbsent(s, ModelOf, RevenueOf, m);
      ModelAbsent(s, m);
      TallyStep(s, c, m, Tally(0, 0.0), after);
    }
  }

  /** No company of `s` has model `m`, so none is on it. */
  lemma ModelAbsent(s: seq<Company>, m: PricingModel)
    requires forall x :: x in s ==> ModelOf(x) != m
    ensures OnModel(s, m) == []
  {
    var r := OnModel(s, m);
    assert forall i :: 0 <= i < |r| ==> r[i] in r;
  }

  /** One company added to a tally of `m` over `s` gives the tally over `s + [c]`. */
  lemma TallyStep(s: seq<Company>, c: Company, m: PricingModel, before: Tally, after: Tally)
    requires before.count == |OnModel(s, m)| && before.totalRevenue == GroupTotal(s, ModelOf, RevenueOf)(m)
    requires c.pricingModel == m ==> after == Tally(before.count + 1, before.totalRevenue + c.monthlyRevenue)
    requires c.pricingModel != m ==> after == before && before.count > 0
    ensures after.count == |OnModel(s + [c], m)| > 0
    ensures after.totalRevenue == GroupTotal(s + [c], ModelOf, RevenueOf)(m)
  {
    FilterSnoc(s, c, HasKey(ModelOf, m));
    GroupTotalSnoc(s, c, ModelOf, RevenueOf, m);
  }

  lemma DistributionTotals(companies: seq<Company>, models: seq<PricingModel>, dist: seq<DistributionEntry>)
    requires models == KeysInOrder(companies, ModelOf) && |dist| == |models|
    requires forall i :: 0 <= i < |dist| ==> dist[i].model == models[i]
    requires forall i :: 0 <= i < |dist| ==>
      && dist[i].count == |OnModel(companies, dist[i].model)| > 0
      && EntryRevenueOf(dist[i]) == Sum(OnModel(companies, dist[i].model), RevenueOf)
    ensures Sum(dist, EntryCountOf) == |companies| as real
    ensures Sum(dist, EntryRevenueOf) == Sum(companies, RevenueOf)
  {
    forall i | 0 <= i < |dist| ensures EntryCountOf(dist[i]) == GroupTotal(companies, ModelOf, One)(models[i]) {
      SumOne(OnModel(companies, models[i]));
    }
    SumPointwise(dist, EntryCountOf, models, GroupTotal(companies, ModelOf, One));
    SumByGroups(companies, ModelOf, One, models);
    SumOne(companies);
    forall i | 0 <= i < |dist| ensures EntryRevenueOf(dist[i]) == GroupTotal(companies, ModelOf, RevenueOf)(models[i]) {
    }
    SumPointwise(dist, EntryRevenueOf, models, GroupTotal(companies, ModelOf, RevenueOf));
    SumByGroups(companies, ModelOf, RevenueOf, models);
  }

  // -------------------------------------------------- competitive analysis

  datatype Position = Above | Below

  datatype CompetitiveAnalysis = CompetitiveAnalysis(
    yourAvgPrice: real,
    marketAvgPrice: real,
    position: Position,
    differencePercent: real,
    competitors: seq<CompetitorPricing>)

  function Abs(x: real): real { if x < 0.0 then -x else x }

  /**
   * getCompetitiveAnalysis: the mean current price against the mean
   * competitor price, which side it lies on (equal reads as "below"), the
   * gap as an unsigned percent of the market mean, and the first five
   * competitors.
   */
  function GetCompetitiveAnalysis(companies: seq<Company>, competitors: seq<CompetitorPricing>)
    : (a: CompetitiveAnalysis)
    requires |companies| > 0 && |competitors| > 0
    requires Sum(competitors, CompetitorPriceOf) != 0.0
    ensures a.yourAvgPrice * |companies| as real == Sum(companies, PriceOf)
    ensures a.marketAvgPrice * |competitors| as real == Sum(competitors, CompetitorPriceOf)
    ensures a.position == Above <==> a.yourAvgPrice > a.marketAvgPrice
    ensures a.marketAvgPrice != 0.0 && a.differencePercent == GapPercent(a.yourAvgPrice, a.marketAvgPrice)
    ensures |a.competitors| == if |competitors| < 5 then |competitors| else 5
    ensures a.competitors == competitors[..|a.competitors|]
  {
    var avgPrice := ReduceMean(companies, PriceOf);
    var competitorAvg := ReduceMean(competitors, CompetitorPriceOf);
    Compare(avgPrice, competitorAvg, SliceTo(competitors, 5))
  }

  /** The analysis of a mean price against a nonzero market mean, with the competitors shown. */
  function Compare(yours: real, market: real, shown: seq<CompetitorPricing>): (a: CompetitiveAnalysis)
    requires market != 0.0
    ensures a.yourAvgPrice == yours && a.marketAvgPrice == market && a.competitors == shown
    ensures a.position == Above <==> a.yourAvgPrice > a.marketAvgPrice
    ensures a.differencePercent == GapPercent(a.yourAvgPrice, a.marketAvgPrice)
  {
    CompetitiveAnalysis(yours, market, if yours > market then Above else Below, GapPercent(yours, market), shown)
  }

  /** `Math.abs((yours - market) / market * 100)`: the gap as an unsigned percent of the market price. */
  function GapPercent(yours: real, market: real): (d: real)
    requires market != 0.0
    ensures d >= 0.0
    ensures d * Abs(market) == Abs(yours - market) * 100.0
  {
    var difference := Percent(yours - market, market);
    AbsProduct(difference, market, yours - market);
    Abs(difference)
  }

  lemma AbsProduct(q: real, m: real, x: real)
    requires q * m == x * 100.0
    ensures Abs(q) * Abs(m) == Abs(x) * 100.0
  {
    if m > 0.0 {
      if q < 0.0 { assert q * m < 0.0; } else { assert q * m >= 0.0; }
    } else {
      if q < 0.0 { assert q * m >= 0.0; } else { assert q * m <= 0.0; }
    }
  }
}
