# Pricing dashboard analytics — a Dafny model

This project models the data layer of a pricing-intelligence dashboard for AI
companies. Each company has its current and recommended unit price, its
revenue leak, its churn probability and its churn-risk bucket. The model
covers two parts.

- The **mock-data generator** (`src/lib/data/mockData.ts`) derives each
  company record from a few random draws. It also generates 180 days of usage
  events per company and eight competitor price points, and provides the
  lookup helpers: find by id, top revenue leaks, high-risk companies, total
  leak, and usage in a recent window.
- The **analytics functions** (`src/lib/analytics.ts`) compute:
  - the dashboard totals;
  - the revenue-leak heatmap, sorted by leak with a severity bucket;
  - the churn predictions with their reason and recommendation;
  - the pricing-change simulator, with its linear churn model;
  - the 90-day revenue trend, from a per-day JavaScript `Map`;
  - the per-pricing-model distribution;
  - the competitive price comparison.

The model has three modules.

- `Seqs` (`seqs.dfy`) holds the JavaScript array semantics the code relies on:
  - `Reduce`/`Sum` for `reduce`;
  - `Filter`;
  - a stable `SortBy`/`SortDescBy` for `sort` with a numeric comparator;
  - `JsIndex`, `SliceTo` and `SliceFrom` for `slice`, negative indices included;
  - an insertion-ordered `OrderedMap` for `Map`.
- `MockData` (`mock_data.dfy`) holds the record types, the generators and the
  helpers.
- `Analytics` (`analytics.dfy`) holds the dashboard functions.

The code written in terms of expressions (`map`, `filter`, `sort`, `slice`,
`reduce`) is modelled as functions. The loops are modelled as methods with
invariants, proved equal to a specification function. These loops are:
- the generator loops;
- the `forEach` loop filling the daily-revenue map;
- the `forEach` loop filling the pricing-model map.

The module-level dataset is a parameter of every helper. Its fields are
`companies`, `usageEvents` and `competitorPricing`.

## Model

| member | source | states |
|---|---|---|
| MockData.ChurnProbability | src/lib/data/mockData.ts:74-77 | the churn probability is the smaller of the two draws: at most each of them and equal to one of them |
| MockData.ChurnRiskMonotone | src/lib/data/mockData.ts:79-81 | the risk bucket never drops as the probability grows; 30 is low, 31 medium, 60 medium, 61 high |
| MockData.LeakPercentIsMarkup | src/lib/data/mockData.ts:62-71 | for positive usage and price, the revenue is positive and the leak percent is exactly (multiplier − 1)·100 |
| MockData.DeriveCompany | src/lib/data/mockData.ts:60-98 | a generated record keeps its draws; revenue = usage·price, recommended = price·multiplier, leak = usage·recommended − revenue, leak% = (multiplier−1)·100; the probability is the min of the outer draw and the leak-dependent draw; the risk bucket agrees with the probability |
| MockData.GeneratedCompanyBounds | src/lib/data/mockData.ts:60-81 | for draws in the generator's ranges: the leak is positive, recommended > current, the leak% is in [10, 80], the probability is in [5, 90], and a leak% ≤ 40 gives probability ≤ 40 and never a high risk |
| MockData.GenerateCompanies | src/lib/data/mockData.ts:41-102 | `count` records, the i-th derived from the i-th draws, each internally consistent |
| MockData.GenerateUsageEvents | src/lib/data/mockData.ts:105-129 | 180 events per company in company order; event k·180+i is for day today−i with usage monthlyUsage/30·variance and revenue usage·currentPrice |
| MockData.GenerateCompetitorPricing | src/lib/data/mockData.ts:132-151 | one entry per competitor name, in the fixed order of the eight names, carrying its drawn fields |
| MockData.GeneratedCompetitorPricesPositive | src/lib/data/mockData.ts:148 | with every price drawn in [0.002, 0.08], the competitor prices sum to at least 0.016, so their mean is never zero |
| MockData.GetCompanyById | src/lib/data/mockData.ts:164-166 | None exactly when no company has the id; otherwise the first company with that id |
| MockData.GetTopRevenueLeaks | src/lib/data/mockData.ts:168-172 | min(limit, n) companies under the `slice` rules, by leak descending, a sub-multiset of the input; no company left out has a larger leak than one kept |
| MockData.GetHighChurnRiskCompanies | src/lib/data/mockData.ts:174-176 | exactly the high-risk companies, each as often as in the input, in input order |
| MockData.GetTotalRevenueLeak | src/lib/data/mockData.ts:178-180 | the sum of the companies' leaks |
| MockData.GetUsageByCompany | src/lib/data/mockData.ts:182-189 | exactly the events of the company dated on or after today − days, with their multiplicities, in ascending date order |
| Analytics.GetDashboardStats | src/lib/analytics.ts:42-61 | total leak and monthly revenue are the sums; potential = monthly + leak; leak% · monthly = leak · 100; high-risk count is the number of high-risk companies; average probability · n = sum of probabilities |
| Analytics.AverageChurnInRange | src/lib/analytics.ts:51 | if every probability lies in [lo, hi], so does the average |
| Analytics.PotentialCoversMonthly | src/lib/analytics.ts:45-47 | with non-negative leaks, potential revenue ≥ monthly revenue |
| Analytics.LeakCell | src/lib/analytics.ts:65-80 | a cell copies id, name, industry, leak and leak%; its severity is critical iff > 50, high iff in (30, 50], medium iff in (15, 30], low iff ≤ 15 |
| Analytics.GetRevenueLeakHeatmap | src/lib/analytics.ts:64-82 | one cell per company, a permutation of the per-company cells, ordered by leak descending, and every cell's severity matches its percent |
| Analytics.HeatmapBoundaryExample | src/lib/analytics.ts:68-69 | a company with a 50% leak (usage 100000, price 0.01, multiplier 1.5) is bucketed high, not critical |
| Analytics.Predict | src/lib/analytics.ts:90-113 | a prediction copies id, name, probability and risk; its reason is below-market iff leak% > 40, volatility iff leak% ≤ 40 and probability > 60, declining otherwise; each reason has its matching recommendation, and below-market carries the leak% and recommended price |
| Analytics.GetChurnPredictions | src/lib/analytics.ts:85-115 | at most `limit` predictions under the `slice` rules, all above 30, by probability descending, the predictions of a sub-multiset of the candidates (no candidate repeated beyond its occurrences); no candidate left out is more likely to churn than one kept |
| Analytics.PriceChangePercent | src/lib/analytics.ts:131 | pct · price = (new − price) · 100, and pct ≤ 0 iff the new price is not above the current one |
| Analytics.Simulate | src/lib/analytics.ts:127-148 | current = monthly revenue; projected = usage · new price; churn impact is 0 for a cut and half the price-change percent for a rise; net = projected · (1 − impact/100); change = net − current; change% · current = change · 100 |
| Analytics.SimulatePricingChange | src/lib/analytics.ts:118-149 | the CompanyNotFound failure exactly when no company has the id; otherwise the simulation of the first company with that id |
| Analytics.SimulateCurrentPriceIsNeutral | src/lib/analytics.ts:127-139 | at the current price, churn impact, revenue change and change% are zero and net = monthly revenue |
| Analytics.SimulatePriceCut | src/lib/analytics.ts:128-138 | a price cut causes no churn, and the revenue change is usage · (new − current) ≤ 0 |
| Analytics.SimulateTripledPrice | src/lib/analytics.ts:131-136 | at three times the current price or more, churn impact reaches 100 and net revenue is at most zero |
| Analytics.SimulateBestPrice | src/lib/analytics.ts:128-136 | the net revenue of the churn model is maximal at 1.5 × the current price |
| Analytics.SelectEvents | src/lib/analytics.ts:153-155 | the events of the given company, each as often as in the input and in input order, or exactly the input list when no id (or the empty id) is given |
| Analytics.GetRevenueTrend | src/lib/analytics.ts:152-171 | the trend of the selected events, as specified by `RevenueTrend` |
| Analytics.SumRevenueByDay | src/lib/analytics.ts:158-164 | the loop builds the per-day map of `GroupByDay`: days in first-seen order, each with its summed revenue |
| Analytics.GroupByDayTotals | src/lib/analytics.ts:158-164 | every day key of the map is a day with events, and its value is the sum of that day's event revenues |
| Analytics.RevenueTrendLength | src/lib/analytics.ts:167-170 | the trend has min(number of distinct days, 90) points |
| Analytics.RevenueTrendAscends | src/lib/analytics.ts:169 | trend dates are strictly ascending |
| Analytics.RevenueTrendDays | src/lib/analytics.ts:160-168 | every point is a day with events, carrying that day's total revenue |
| Analytics.RevenueTrendKeepsLatest | src/lib/analytics.ts:169-170 | a day with events is either in the trend or older than every point in it |
| Analytics.RevenueTrendTotal | src/lib/analytics.ts:158-170 | with at most 90 distinct days, the trend revenues add up to the selected events' revenue |
| Analytics.GetPricingDistribution | src/lib/analytics.ts:174-194 | the loop and map produce `PricingDistribution`, the specification of the per-model grouping |
| Analytics.GroupByModelTallies | src/lib/analytics.ts:181-187 | every key of the tally map is a model in use, with the count and revenue sum of its companies |
| Analytics.PricingDistributionModels | src/lib/analytics.ts:181-193 | one entry per model in use, in first-seen order, no model twice, every company's model present |
| Analytics.PricingDistributionSize | src/lib/analytics.ts:189-193 | the number of entries is the number of distinct pricing models |
| Analytics.PricingDistributionEntries | src/lib/analytics.ts:182-192 | each entry's count is the number of its companies (> 0), and avgRevenue · count is their revenue sum |
| Analytics.PricingDistributionTotals | src/lib/analytics.ts:181-193 | the counts add up to the number of companies and the entries' revenues to the total monthly revenue |
| Analytics.GetCompetitiveAnalysis | src/lib/analytics.ts:197-211 | your average · n = sum of current prices; market average · m = sum of competitor prices; above iff yours > market; the gap is `GapPercent`; the first min(5, m) competitors |
| Analytics.GapPercent | src/lib/analytics.ts:202-208 | the unsigned gap is non-negative and gap · abs(market) = abs(yours − market) · 100 |

## Left out

- Random draws (faker) are parameters: `CompanyDraws`, the per-day variances and `CompetitorDraws`. Seeding and the ranges' discretisation (`precision`) are left out. `DrawsInRange` states the ranges.
- The `id` and `name` strings are draws; their uniqueness is not assumed.
- Dates are whole day numbers and "today" is a parameter. The following are not modelled:
  - the time of day;
  - the `customerSince` and `lastActive` ranges;
  - the ISO `YYYY-MM-DD` trend keys. The model uses the day number instead, because ISO text order is chronological order.
- `GetUsageByCompany` compares whole days, so a time-of-day difference from the cutoff is lost.
- Floating point is not modelled: all arithmetic is exact real arithmetic. So rounding at bucket boundaries (for example, a leak percent that is 40.000000000000004 in floating point) is not captured.
- Division by zero, which gives NaN or Infinity in JavaScript, is excluded by preconditions:
  - `SimulatableWith`: the company the lookup returns, if any, has a positive price and revenue;
  - a non-empty input and a non-zero sum for `GetDashboardStats` and `GetCompetitiveAnalysis`.
- The string-valued enums are datatypes. The text templates of `Predict`'s reason and recommendation are constructors holding the numbers. `toFixed` rounding is not modelled.
- The formatting helpers (`formatCurrency`, `formatPercent`, `formatPricePerUnit`, analytics.ts:213-231) produce display text only and are not modelled.
- The module-level dataset built with 50 companies is not modelled as a global; each helper takes the dataset as a parameter.
- The thrown `Error('Company not found')` is the `Failure(CompanyNotFound)` result.
- `Sort` ties keep input order (a stable sort), as ECMAScript requires.
- The dashboard's UI components, and everything outside the two files, are not part of this model.
- SimulateTripledPrice: states the bound only for non-negative usage (`monthlyUsage >= 0`), which the generator guarantees.
- SimulateBestPrice: also requires `monthlyUsage >= 0`. The peak is passed as a value with 2·peak = 3·price.
- PricingDistributionEntries: states the average through `avgRevenue · count == totalRevenue` rather than as a quotient.
- GetCompetitiveAnalysis: states the averages as `average · n == sum` and the gap through `GapPercent`, not as quotients.
