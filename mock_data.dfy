/**
 * The synthetic dataset of the pricing dashboard (src/lib/data/mockData.ts):
 * the record types, the per-company derivation formulas, the usage-event and
 * competitor generators, and the read-only lookup helpers.
 *
 * Every value the TypeScript generators draw from their seeded random source is a
 * parameter here (`CompanyDraws`, the per-day variances, `CompetitorDraws`),
 * dates are whole day numbers and "today" is a parameter.
 */
module MockData {
  import opened Seqs

  // ---------------------------------------------------------------- types

  datatype Industry = LlmApi | AiAgent | ComputerVision | AudioAi | CodeGeneration

  datatype PricingModel = Usage | Outcome | Hybrid | Subscription

  datatype ChurnRisk = Low | Medium | High

  datatype MarketPosition = Premium | MidMarket | Budget

  datatype Company = Company(
    id: string,
    name: string,
    industry: Industry,
    pricingModel: PricingModel,
    currentPrice: real,
    recommendedPrice: real,
    monthlyRevenue: real,
    monthlyUsage: int,
    churnRisk: ChurnRisk,
    churnProbability: int,
    revenueLeak: real,
    revenueLeakPercent: real,
    customerSince: int,
    lastActive: int)

  datatype UsageEvent = UsageEvent(companyId: string, date: int, usage: real, revenue: real)

  datatype CompetitorPricing = CompetitorPricing(
    competitor: string,
    industry: string,
    pricingModel: string,
    pricePerUnit: real,
    marketPosition: MarketPosition)

  function LeakOf(c: Company): real { c.revenueLeak }
  function RevenueOf(c: Company): real { c.monthlyRevenue }
  function ProbabilityOf(c: Company): real { c.churnProbability as real }
  function PriceOf(c: Company): real { c.currentPrice }
  function IsHighRisk(c: Company): bool { c.churnRisk == High }
  function EventDateOf(e: UsageEvent): real { e.date as real }
  function EventRevenueOf(e: UsageEvent): real { e.revenue }
  function CompetitorPriceOf(p: CompetitorPricing): real { p.pricePerUnit }

  // ------------------------------------------------- derivation formulas

  /** The values one round of the company generator draws from the random source. */
  datatype CompanyDraws = CompanyDraws(
    id: string,
    name: string,
    industry: Industry,
    pricingModel: PricingModel,
    monthlyUsage: int,
    currentPrice: real,
    marketMultiplier: real,
    outerChurnDraw: int,      // int in [5, 95]
    highLeakChurnDraw: int,   // int in [60, 90], used when the leak percent exceeds 40
    lowLeakChurnDraw: int,    // int in [5, 40], used otherwise
    customerSince: int,
    lastActive: int)

  /** The ranges the random source draws from. */
  ghost predicate DrawsInRange(d: CompanyDraws)
  {
    && 1000 <= d.monthlyUsage <= 1000000
    && 0.001 <= d.currentPrice <= 0.05
    && 1.1 <= d.marketMultiplier <= 1.8
    && 5 <= d.outerChurnDraw <= 95
    && 60 <= d.highLeakChurnDraw <= 90
    && 5 <= d.lowLeakChurnDraw <= 40
  }

  /** The record invariant: revenue, leak, leak percent and risk bucket agree with their sources. */
  ghost predicate Consistent(c: Company)
  {
    && c.monthlyRevenue == c.monthlyUsage as real * c.currentPrice
    && c.revenueLeak == c.monthlyUsage as real * c.recommendedPrice - c.monthlyRevenue
    && c.monthlyRevenue != 0.0
    && c.revenueLeakPercent * c.monthlyRevenue == c.revenueLeak * 100.0
    && (c.churnRisk == High <==> c.churnProbability > 60)
    && (c.churnRisk == Medium <==> 30 < c.churnProbability <= 60)
    && (c.churnRisk == Low <==> c.churnProbability <= 30)
  }

  /** `Math.min` of two draws. */
  function ChurnProbability(outer: int, conditional: int): (p: int)
    ensures p <= outer && p <= conditional
    ensures p == outer || p == conditional
  {
    if outer <= conditional then outer else conditional
  }

  /** The churn-risk bucket: `> 60` high, else `> 30` medium, else low. */
  function ChurnRiskOf(p: int): ChurnRisk
  {
    if p > 60 then High else if p > 30 then Medium else Low
  }

  function RiskRank(r: ChurnRisk): nat
  {
    match r
    case Low => 0
    case Medium => 1
    case High => 2
  }

  /** A higher probability never gives a lower bucket; the boundaries 30 and 60 belong to the lower bucket. */
  lemma ChurnRiskMonotone(p: int, q: int)
    requires p <= q
    ensures RiskRank(ChurnRiskOf(p)) <= RiskRank(ChurnRiskOf(q))
    ensures ChurnRiskOf(60) == Medium && ChurnRiskOf(61) == High
    ensures ChurnRiskOf(30) == Low && ChurnRiskOf(31) == Medium
  {
  }

  /** `monthlyUsage * currentPrice`. */
  function MonthlyRevenue(usage: int, price: real): real
  {
    usage as real * price
  }

  /** What the usage would earn at the recommended price, minus what it earns now. */
  function RevenueLeak(usage: int, recommendedPrice: real, monthlyRevenue: real): real
  {
    usage as real * recommendedPrice - monthlyRevenue
  }

  function RevenueLeakPercent(leak: real, monthlyRevenue: real): real
    requires monthlyRevenue != 0.0
  {
    leak / monthlyRevenue * 100.0
  }

  /**
   * With positive usage and price, the revenue is positive and the leak
   * percent is the markup of the recommended price over the current one:
   * (multiplier − 1)·100, whatever the usage.
   */
  lemma LeakPercentIsMarkup(usage: int, price: real, multiplier: real)
    requires usage > 0 && price > 0.0
    ensures MonthlyRevenue(usage, price) > 0.0
    ensures RevenueLeakPercent(RevenueLeak(usage, price * multiplier, MonthlyRevenue(usage, price)),
                               MonthlyRevenue(usage, price))
            == (multiplier - 1.0) * 100.0
  {
    var revenue := MonthlyRevenue(usage, price);
    assert usage as real >= 1.0;
    assert revenue >= price;
    Quotient(RevenueLeak(usage, price * multiplier, revenue), revenue, multiplier - 1.0);
  }

  /** One round of the loop body of generateCompanies. */
  function DeriveCompany(d: CompanyDraws): (c: Company)
    requires d.monthlyUsage > 0 && d.currentPrice > 0.0
    ensures Consistent(c)
    ensures c.id == d.id && c.name == d.name
    ensures c.industry == d.industry && c.pricingModel == d.pricingModel
    ensures c.monthlyUsage == d.monthlyUsage && c.currentPrice == d.currentPrice
    ensures c.recommendedPrice == d.currentPrice * d.marketMultiplier
    ensures c.revenueLeakPercent == (d.marketMultiplier - 1.0) * 100.0
    ensures c.churnProbability <= d.outerChurnDraw
    ensures c.churnProbability <= if d.marketMultiplier > 1.4 then d.highLeakChurnDraw else d.lowLeakChurnDraw
    ensures c.churnProbability == d.outerChurnDraw
         || c.churnProbability == if d.marketMultiplier > 1.4 then d.highLeakChurnDraw else d.lowLeakChurnDraw
    ensures c.customerSince == d.customerSince && c.lastActive == d.lastActive
  {
    var monthlyRevenue := MonthlyRevenue(d.monthlyUsage, d.currentPrice);
    var recommendedPrice := d.currentPrice * d.marketMultiplier;
    var revenueLeak := RevenueLeak(d.monthlyUsage, recommendedPrice, monthlyRevenue);
    LeakPercentIsMarkup(d.monthlyUsage, d.currentPrice, d.marketMultiplier);
    var revenueLeakPercent := RevenueLeakPercent(revenueLeak, monthlyRevenue);
    PercentOf(revenueLeak, monthlyRevenue);
    var churnProbability := ChurnProbability(
      d.outerChurnDraw,
      if revenueLeakPercent > 40.0 then d.highLeakChurnDraw else d.lowLeakChurnDraw);
    Company(
      d.id, d.name, d.industry, d.pricingModel,
      d.currentPrice, recommendedPrice, monthlyRevenue, d.monthlyUsage,
      ChurnRiskOf(churnProbability), churnProbability,
      revenueLeak, revenueLeakPercent,
      d.customerSince, d.lastActive)
  }

  /**
   * What the formulas guarantee for draws in range: the leak is positive and
   * its percent lies in [10, 80], the probability lies in [5, 90], and a leak
   * percent of at most 40 never yields a high churn risk.
   */
  lemma GeneratedCompanyBounds(d: CompanyDraws)
    requires DrawsInRange(d)
    ensures var c := DeriveCompany(d);
      && c.revenueLeak > 0.0
      && c.recommendedPrice > c.currentPrice
      && 10.0 <= c.revenueLeakPercent <= 80.0
      && 5 <= c.churnProbability <= 90
      && (c.revenueLeakPercent <= 40.0 ==> c.churnProbability <= 40 && c.churnRisk != High)
  {
    var c := DeriveCompany(d);
    var u := d.monthlyUsage as real;
    var p := d.currentPrice;
    var m := d.marketMultiplier;
    assert c.revenueLeak == u * p * (m - 1.0) by {
      assert u * (p * m) == u * p * m;
    }
    assert u * p > 0.0 by {
      assert u * p >= p;
    }
    assert u * p * (m - 1.0) > 0.0 by {
      assert u * p * (m - 1.0) >= u * p * 0.1;
    }
    assert c.recommendedPrice > c.currentPrice by {
      assert p * m >= p * 1.1;
    }
  }

  /** generateCompanies(count): one record per round, in loop order. */
  method GenerateCompanies(count: nat, draws: seq<CompanyDraws>) returns (companies: seq<Company>)
    requires |draws| == count
    requires forall i :: 0 <= i < count ==> draws[i].monthlyUsage > 0 && draws[i].currentPrice > 0.0
    ensures |companies| == count
    ensures forall i :: 0 <= i < count ==> companies[i] == DeriveCompany(draws[i])
    ensures forall c :: c in companies ==> Consistent(c)
  {
    companies := [];
    var i := 0;
    while i < count
      invariant 0 <= i <= count
      invariant |companies| == i
      invariant forall j :: 0 <= j < i ==> companies[j] == DeriveCompany(draws[j])
    {
      companies := companies + [DeriveCompany(draws[i])];
      i := i + 1;
    }
  }

  // -------------------------------------------------------- usage events

  const DaysToGenerate: nat := 180

  /**
   * generateUsageEvents: for each company in order, one event per day for
   * the 180 days counting back from `today`. The event at position
   * k·180 + i belongs to company k, is dated i days before today, and its
   * usage is the daily share of the monthly usage scaled by that day's
   * variance draw.
   */
  method GenerateUsageEvents(companies: seq<Company>, today: int, variances: seq<seq<real>>)
    returns (events: seq<UsageEvent>)
    requires |variances| == |companies|
    requires forall k :: 0 <= k < |variances| ==> |variances[k]| == DaysToGenerate
    ensures |events| == DaysToGenerate * |companies|
    ensures forall k, i :: 0 <= k < |companies| && 0 <= i < DaysToGenerate ==>
      events[k * DaysToGenerate + i] == UsageEvent(
        companies[k].id,
        today - i,
        companies[k].monthlyUsage as real / 30.0 * variances[k][i],
        companies[k].monthlyUsage as real / 30.0 * variances[k][i] * companies[k].currentPrice)
  {
    events := [];
    var k := 0;
    while k < |companies|
      invariant 0 <= k <= |companies|
      invariant |events| == k * DaysToGenerate
      invariant forall k', i :: 0 <= k' < k && 0 <= i < DaysToGenerate ==>
        events[k' * DaysToGenerate + i] == UsageEvent(
          companies[k'].id,
          today - i,
          companies[k'].monthlyUsage as real / 30.0 * variances[k'][i],
          companies[k'].monthlyUsage as real / 30.0 * variances[k'][i] * companies[k'].currentPrice)
    {
      var company := companies[k];
      ghost var earlier := events;
      for i := 0 to DaysToGenerate
        invariant |events| == k * DaysToGenerate + i
        invariant events[..k * DaysToGenerate] == earlier
        invariant forall i' :: 0 <= i' < i ==>
          events[k * DaysToGenerate + i'] == UsageEvent(
            company.id,
            today - i',
            company.monthlyUsage as real / 30.0 * variances[k][i'],
            company.monthlyUsage as real / 30.0 * variances[k][i'] * company.currentPrice)
      {
        var date := today - i;
        var dailyUsage := company.monthlyUsage as real / 30.0 * variances[k][i];
        var dailyRevenue := dailyUsage * company.currentPrice;
        events := events + [UsageEvent(company.id, date, dailyUsage, dailyRevenue)];
      }
      k := k + 1;
    }
  }

  // ---------------------------------------------------------- competitors

  const CompetitorNames: seq<string> :=
    ["Stripe Billing", "Chargebee", "Recurly", "Lago", "Metronome", "Orb", "Octane", "Stigg"]

  /** The values the competitor generator draws for one competitor. */
  datatype CompetitorDraws = CompetitorDraws(
    industry: string,
    pricingModel: string,
    pricePerUnit: real,   // in [0.002, 0.08]
    marketPosition: MarketPosition)

  /** generateCompetitorPricing: one snapshot per fixed competitor name, in list order. */
  function GenerateCompetitorPricing(draws: seq<CompetitorDraws>): (r: seq<CompetitorPricing>)
    requires |draws| == |CompetitorNames|
    ensures |r| == |CompetitorNames|
    ensures forall i :: 0 <= i < |r| ==>
      && r[i].competitor == CompetitorNames[i]
      && r[i].industry == draws[i].industry
      && r[i].pricingModel == draws[i].pricingModel
      && r[i].pricePerUnit == draws[i].pricePerUnit
      && r[i].marketPosition == draws[i].marketPosition
  {
    seq(|draws|, i requires 0 <= i < |draws| =>
      CompetitorPricing(CompetitorNames[i], draws[i].industry, draws[i].pricingModel,
                        draws[i].pricePerUnit, draws[i].marketPosition))
  }

  /** Prices drawn from [0.002, 0.08] keep the market average price positive. */
  lemma GeneratedCompetitorPricesPositive(draws: seq<CompetitorDraws>)
    requires |draws| == |CompetitorNames|
    requires forall i :: 0 <= i < |draws| ==> 0.002 <= draws[i].pricePerUnit <= 0.08
    ensures Sum(GenerateCompetitorPricing(draws), CompetitorPriceOf) >= 0.016
  {
    var r := GenerateCompetitorPricing(draws);
    forall p | p in r ensures 0.002 <= CompetitorPriceOf(p) <= 0.08 {
      var i :| 0 <= i < |r| && r[i] == p;
    }
    SumBounds(r, CompetitorPriceOf, 0.002, 0.08);
  }

  // -------------------------------------------------------------- helpers

  /** getCompanyById: the first company with this id, if there is one. */
  function GetCompanyById(companies: seq<Company>, id: string): (r: Option<Company>)
    ensures r.None? <==> forall c :: c in companies ==> c.id != id
    ensures r.Some? ==> exists i :: 0 <= i < |companies| && companies[i] == r.value
                                    && r.value.id == id
                                    && forall j :: 0 <= j < i ==> companies[j].id != id
  {
    if companies == [] then None
    else if companies[0].id == id then Some(companies[0])
    else
      var r := GetCompanyById(companies[1..], id);
      assert forall c :: c in companies ==> c == companies[0] || c in companies[1..];
      if r.Some? then
        var i :| 0 <= i < |companies[1..]| && companies[1..][i] == r.value && r.value.id == id
                 && forall j :: 0 <= j < i ==> companies[1..][j].id != id;
        assert companies[i + 1] == r.value;
        assert forall j :: 0 <= j < i + 1 ==> companies[j].id != id by {
          forall j | 0 <= j < i + 1 ensures companies[j].id != id {
            if j > 0 {
              assert companies[j] == companies[1..][j - 1];
            }
          }
        }
        r
      else r
  }

  /**
   * getTopRevenueLeaks(limit): a sorted copy of the companies, largest leak
   * first, cut to `limit` (the `slice` rules apply to a negative limit). No
   * company left out has a larger leak than one kept.
   */
  function GetTopRevenueLeaks(companies: seq<Company>, limit: int := 10): (r: seq<Company>)
    ensures |r| == JsIndex(limit, |companies|)
    ensures 0 <= limit ==> |r| == if limit < |companies| then limit else |companies|
    ensures forall i, j :: 0 <= i < j < |r| ==> r[j].revenueLeak <= r[i].revenueLeak
    ensures multiset(r) <= multiset(companies)
    ensures forall x, y :: x in r && y in multiset(companies) - multiset(r) ==> y.revenueLeak <= x.revenueLeak
  {
    TopBy(companies, LeakOf, limit)
  }

  /** getHighChurnRiskCompanies: exactly the high-risk companies, in list order. */
  function GetHighChurnRiskCompanies(companies: seq<Company>): (r: seq<Company>)
    ensures forall c :: c in r <==> c in companies && c.churnRisk == High
    ensures forall c :: multiset(r)[c] == if c.churnRisk == High then multiset(companies)[c] else 0
    ensures SubsequenceOf(r, companies)
  {
    Filter(companies, IsHighRisk)
  }

  /** getTotalRevenueLeak: the reduce adds up exactly the sum of the leaks. */
  function GetTotalRevenueLeak(companies: seq<Company>): (total: real)
    ensures total == Sum(companies, LeakOf)
  {
    Reduce(companies, LeakOf, 0.0)
  }

  function InWindow(companyId: string, cutoff: int): UsageEvent -> bool
  {
    (e: UsageEvent) => e.companyId == companyId && e.date >= cutoff
  }

  /**
   * getUsageByCompany(companyId, days): the company's events dated no earlier
   * than `days` before today, oldest first. It keeps every such event, with
   * its multiplicity, and nothing else.
   */
  function GetUsageByCompany(events: seq<UsageEvent>, companyId: string, today: int, days: int := 30)
    : (r: seq<UsageEvent>)
    ensures forall e :: e in r <==> e in events && e.companyId == companyId && e.date >= today - days
    ensures forall e :: multiset(r)[e] ==
                        if e.companyId == companyId && e.date >= today - days then multiset(events)[e] else 0
    ensures forall i, j :: 0 <= i < j < |r| ==> r[i].date <= r[j].date
  {
    var cutoff := today - days;
    var r := SortBy(Filter(events, InWindow(companyId, cutoff)), EventDateOf);
    UsageWindow(events, companyId, cutoff, r);
    r
  }

  lemma UsageWindow(events: seq<UsageEvent>, companyId: string, cutoff: int, r: seq<UsageEvent>)
    requires r == SortBy(Filter(events, InWindow(companyId, cutoff)), EventDateOf)
    ensures forall e :: e in r <==> e in events && e.companyId == companyId && e.date >= cutoff
    ensures forall e :: multiset(r)[e] ==
                        if e.companyId == companyId && e.date >= cutoff then multiset(events)[e] else 0
    ensures forall i, j :: 0 <= i < j < |r| ==> r[i].date <= r[j].date
  {
    var selected := Filter(events, InWindow(companyId, cutoff));
    WindowSelects(events, companyId, cutoff);
    SameElements(r, selected);
    forall e ensures multiset(r)[e] == multiset(selected)[e] {
    }
    forall i, j | 0 <= i < j < |r| ensures r[i].date <= r[j].date {
      assert EventDateOf(r[i]) <= EventDateOf(r[j]);
    }
  }

  /** The window filter keeps exactly the company's events from the cutoff on, with their multiplicities. */
  lemma WindowSelects(events: seq<UsageEvent>, companyId: string, cutoff: int)
    ensures forall e :: e in Filter(events, InWindow(companyId, cutoff)) <==>
                        e in events && e.companyId == companyId && e.date >= cutoff
    ensures forall e :: multiset(Filter(events, InWindow(companyId, cutoff)))[e] ==
                        if e.companyId == companyId && e.date >= cutoff then multiset(events)[e] else 0
  {
    var selected := Filter(events, InWindow(companyId, cutoff));
    forall e
      ensures e in selected <==> e in events && e.companyId == companyId && e.date >= cutoff
      ensures multiset(selected)[e] == if e.companyId == companyId && e.date >= cutoff then multiset(events)[e] else 0
    {
      assert InWindow(companyId, cutoff)(e) == (e.companyId == companyId && e.date >= cutoff);
    }
  }
}
