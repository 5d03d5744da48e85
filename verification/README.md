# Retail market-behaviour dashboard — a Dafny model of its logic

The system is a retail analytics dashboard. A Python backend reads a
transaction table (invoice, product description, quantity, date, unit
price, customer id). It hands the table to machine-learning libraries
(k-means, PCA, a decision tree, nearest neighbours, FP-growth) and shapes
their answers into JSON. A React frontend fetches that JSON and renders
one page per analysis.

This project models the deterministic logic around the libraries and
proves what it promises:

- **Spend-prediction page** (`pagination.dfy`, `spend_prediction.dfy`):
  - the list sorted by predicted spend;
  - the revenue cards, including the unguarded average;
  - the three-level badge;
  - 12-record pages and the Previous/Next buttons;
  - the compact window of page buttons (`getPagination`).
- **Other pages:**
  - `frequently_bought.dfy`: sorting, searching and rule selection for itemsets and rules;
  - `recommendations.dfy`: the product list, its search and the similarity tiers;
  - `peak_insights.dfy`: the hourly and weekday series, their ordering, the totals and the "N/A" fallbacks;
  - `customer_segments.dfy`: the customer count, the spend scale and the spend tiers.
- **Backend post-processing:**
  - `knn.py`'s de-duplicating top-k recommendation (`knn.dfy`);
  - the per-customer aggregation shared by k-means and PCA (`customer_features.dfy`);
  - the cluster summary (`kmeans.dfy`) and the PCA records (`pca.dfy`);
  - the spend-model features and the output pairing (`decision_tree.dfy`);
  - the hour and weekday group-by with `idxmax` (`timeseries.dfy`);
  - the market-basket row filter, basket and rule truncation (`apriori.dfy`).
- **Shared building blocks:**
  - `collections.dfy`: optional values, NaN-able numbers, filtering, sums, a stable descending sort and a floored maximum;
  - `text.dfy`: lower-casing, substring search and join;
  - `grouping.dfy`: group-by-sum with ascending keys and `idxmax`;
  - `transactions.dfy`: the transaction row and its timestamp;
  - `api.dfy`: the JSON records shared by the backend and the pages.

**How the libraries appear.** Each library answer is a function parameter with a stated contract:
- k-means and the regressor give one label or prediction per row;
- PCA gives one point per row;
- the neighbour search returns the requested number of valid row indices;
- FP-growth and rule generation return lists.

Nothing about their internals is assumed.

**Numbers.** Money, support, lift, similarity and quantity sums are `real`. A JavaScript or pandas result that can be NaN (0/0, or the mean of an empty group) is a `Float` that is either `Num(v)` or `NaN`. Comparisons with NaN are false, as in JavaScript.

**Timestamps** carry an instant in seconds, plus the hour of day and weekday the date parser attaches.

**The page window.** For page 1 of 9, `getPagination` produces `[1, 2, …, 8, 9]`. Slots 3 to 6 push nothing: none of them is kept, and slot 3 only becomes "..." when the current page is past 4. Slot 7 (totalPages − 2) becomes the "...", because the current page is before totalPages − 3 (`Pagination.PaginationExamples`). The window properties are proved for every integer current page, not only for 1..totalPages.

Two source quirks are modelled as written, not fixed:
- **The spend average** (`totalPredictedSpend / data.length`) is NaN for an empty list. It is not made a precondition.
- **Midnight** as the best hour displays as "N/A", because `0 || "N/A"` falls back (`PeakInsights.MidnightShowsNotAvailable`).

## Model

| member | source | states |
|---|---|---|
| Pagination.TotalPages | frontend/src/pages/SpendPrediction.jsx:35 | `ceil(n/12)`: the fewest 12-record pages holding `n` records; zero pages exactly when there are no records |
| Pagination.PageSliceInRange | frontend/src/pages/SpendPrediction.jsx:36-39 | a page in range shows the contiguous block starting at record `(p-1)*12`, with 1 to 12 records |
| Pagination.PagesUpToPrefix | frontend/src/pages/SpendPrediction.jsx:36-39 | the first `k` pages together are exactly the first `12k` records |
| Pagination.PagesCoverData | frontend/src/pages/SpendPrediction.jsx:35-39 | reading pages 1..totalPages in turn shows every record once, in order |
| Pagination.PrevNextInRange | frontend/src/pages/SpendPrediction.jsx:219-249 | from a page in 1..totalPages, Previous and Next stay in range and move by one except at the ends |
| Pagination.DisabledExactlyWhenNoChange | frontend/src/pages/SpendPrediction.jsx:219-249 | Previous is disabled exactly when it would not change the page, and so is Next |
| Pagination.PrevNextRoundTrip | frontend/src/pages/SpendPrediction.jsx:219-249 | away from the ends, Previous undoes Next and Next undoes Previous |
| Pagination.NextWithoutPages | frontend/src/pages/SpendPrediction.jsx:248-249 | with no records there are no pages, Next from page 1 goes to page 0, and Next is not disabled there |
| Pagination.StepStaysInRange | frontend/src/pages/SpendPrediction.jsx:219-249 | every Previous, Next or click on a shown page button keeps the current page within 1..totalPages |
| Pagination.Paginate | frontend/src/pages/SpendPrediction.jsx:48-65 | the loop as written yields the slot-by-slot window: one token or none per page number 1..totalPages |
| Pagination.PaginationPages | frontend/src/pages/SpendPrediction.jsx:50-56 | numeric buttons strictly increase and lie in 1..totalPages; a page is shown iff it is among the first two, the last two or the current page ±1; empty without pages, otherwise it starts at page 1 and ends at the last page |
| Pagination.PaginationConsecutive | frontend/src/pages/SpendPrediction.jsx:50-62 | two adjacent numeric buttons are consecutive pages, so no hidden page is skipped without a "..." |
| Pagination.PaginationEllipses | frontend/src/pages/SpendPrediction.jsx:57-62 | every "..." lies between two numeric buttons at least two apart, so it is never first, last or next to another; it follows page 2 when the current page is past 4, or precedes page totalPages−1 when the current page is before totalPages−3 |
| Pagination.PaginationLength | frontend/src/pages/SpendPrediction.jsx:50-62 | at most min(totalPages, 9) buttons, at most two of them "..." |
| Pagination.PaginationExamples | frontend/src/pages/SpendPrediction.jsx:48-65 | for 9 pages: page 1 gives 1,2,…,8,9 and page 5 gives 1,2,…,4,5,6,…,8,9; on page 1 slots 3–6 push nothing and slot 7 (totalPages − 2) is the "..." |
| SpendPrediction.SortBySpend | frontend/src/pages/SpendPrediction.jsx:24 | the list is a permutation of the response, ordered by non-increasing predicted spend; customers with equal predictions keep the response's order |
| SpendPrediction.MaxSpend | frontend/src/pages/SpendPrediction.jsx:40 | the bar scale is at least 1, at least every spend, and is either 1 or some record's spend |
| SpendPrediction.AverageSpend | frontend/src/pages/SpendPrediction.jsx:41-44 | the average times the count is the total; it is NaN exactly when there are no records |
| SpendPrediction.BadgeThresholds | frontend/src/pages/SpendPrediction.jsx:170-171 | "High value" iff spend ≥ 1.5·avg, "Medium" iff below that and ≥ 0.75·avg, otherwise "Low"; a higher spend never gets a lower badge |
| SpendPrediction.BadgeExamples | frontend/src/pages/SpendPrediction.jsx:45-46 | with average 100: 160 is high value, 90 medium, 50 low |
| SpendPrediction.RenderTotalsOrderFree | frontend/src/pages/SpendPrediction.jsx:24-44 | the total, average and page count of the sorted list equal those of the response as fetched |
| SpendPrediction.PageRowsSorted | frontend/src/pages/SpendPrediction.jsx:36-39 | a page in range holds 1 to 12 records, themselves sorted by spend |
| FrequentlyBought.ItemsetsOf | frontend/src/pages/FrequentlyBought.jsx:44 | a missing response or missing `frequent_itemsets` gives the empty list |
| FrequentlyBought.RulesOf | frontend/src/pages/FrequentlyBought.jsx:45 | a missing response or missing `rules` gives the empty list |
| FrequentlyBought.SortedItemsets | frontend/src/pages/FrequentlyBought.jsx:48 | a permutation of the fetched itemsets with non-increasing support; itemsets of equal support keep their fetched order |
| FrequentlyBought.SortedRules | frontend/src/pages/FrequentlyBought.jsx:49 | a permutation of the fetched rules with non-increasing lift; rules of equal lift keep their fetched order |
| FrequentlyBought.FilteredItemsets | frontend/src/pages/FrequentlyBought.jsx:53-55 | the order-preserving subsequence of sorted itemsets whose ", "-joined label contains the term case-insensitively, each kept as often as it occurs; still sorted by support |
| FrequentlyBought.EmptySearchKeepsAll | frontend/src/pages/FrequentlyBought.jsx:53-55 | an empty search term keeps every itemset |
| FrequentlyBought.SearchFindsItem | frontend/src/pages/FrequentlyBought.jsx:53-55 | a term contained in one item's name (ignoring ASCII case) finds every itemset holding that item |
| FrequentlyBought.SelectedRules | frontend/src/pages/FrequentlyBought.jsx:58-64 | the order-preserving subsequence of lift-sorted rules whose antecedent list equals the selected list exactly, each kept as often as it occurs; empty without a selection |
| FrequentlyBought.SelectedRulesOrderSensitive | frontend/src/pages/FrequentlyBought.jsx:61-62 | a rule with antecedents [B, A] is not shown for the itemset [A, B] |
| FrequentlyBought.InitialSelectionMaximal | frontend/src/pages/FrequentlyBought.jsx:19-24 | there is an initial selection iff the list is non-empty; it is a fetched itemset of maximal support, and every itemset fetched before it has strictly lower support |
| Recommendations.ProductList | frontend/src/pages/Recommendations.jsx:28 | one product per key, in key order |
| Recommendations.Lookup | frontend/src/pages/Recommendations.jsx:32 | `data[key]` is absent exactly for non-keys; otherwise it is the list stored under that key |
| Recommendations.LookupEntry | frontend/src/pages/Recommendations.jsx:32 | with distinct keys a lookup returns the list stored under that key |
| Recommendations.FilteredProducts | frontend/src/pages/Recommendations.jsx:29-31 | the order-preserving subsequence of keys containing the term case-insensitively, each kept as often as it occurs |
| Recommendations.EmptySearchKeepsAll | frontend/src/pages/Recommendations.jsx:29-31 | an empty term keeps every product |
| Recommendations.SimilarItems | frontend/src/pages/Recommendations.jsx:32 | nothing for the empty selection, else the selected key's own list |
| Recommendations.InitialSelectionShowsFirst | frontend/src/pages/Recommendations.jsx:16-18 | the initial selection is "" for an empty map, else the first key, whose list is then shown |
| Recommendations.PanelFor | frontend/src/pages/Recommendations.jsx:107-113 | the empty state shows exactly when the list is empty; otherwise the count shown is the list's length |
| Recommendations.TierThresholds | frontend/src/pages/Recommendations.jsx:121-138 | strong iff similarity ≥ 0.7 and medium iff ≥ 0.5, so strong implies medium; the style is strong, else medium, else plain |
| PeakInsights.BestHour | frontend/src/pages/PeakInsights.jsx:44 | the hour is shown iff it is present and non-zero; hour 0 shows "N/A" |
| PeakInsights.BestDay | frontend/src/pages/PeakInsights.jsx:45 | the day is shown iff it is present and non-empty |
| PeakInsights.MidnightShowsNotAvailable | frontend/src/pages/PeakInsights.jsx:44 | a best hour of 0 displays as "N/A" |
| PeakInsights.HourlyData | frontend/src/pages/PeakInsights.jsx:48-53 | a permutation of the hourly entries in ascending hour order; [] when the field is missing |
| PeakInsights.DayIndex | frontend/src/pages/PeakInsights.jsx:56-61 | the position in Monday..Sunday, and −1 exactly for names not in the list |
| PeakInsights.WeekdayData | frontend/src/pages/PeakInsights.jsx:56-62 | a permutation of the weekday entries ordered by position in the week; [] when the field is missing |
| PeakInsights.WeekdayOrder | frontend/src/pages/PeakInsights.jsx:56-62 | unknown names sort before every real day, and nothing but Sunday follows Sunday |
| PeakInsights.GuardedAverage | frontend/src/pages/PeakInsights.jsx:66 | 0 for no days, otherwise average × count = total |
| PeakInsights.Summarize | frontend/src/pages/PeakInsights.jsx:64-66 | the daily average is the weekly total over the number of weekday entries, and exactly 0 without entries |
| PeakInsights.TotalsOrderFree | frontend/src/pages/PeakInsights.jsx:64-65 | the weekly and hourly totals equal the sums of the fetched values regardless of reordering |
| CustomerSegments.TotalCustomersBounds | frontend/src/pages/CustomerSegments.jsx:30 | with non-negative counts the total is non-negative and at least every segment's count |
| CustomerSegments.TotalCustomersAppend | frontend/src/pages/CustomerSegments.jsx:30 | the total of a concatenation is the sum of the totals |
| CustomerSegments.MaxSpend | frontend/src/pages/CustomerSegments.jsx:31 | the scale is at least 1, at least every segment's average spend, and is 1 or some segment's spend |
| CustomerSegments.SpendRatioBounds | frontend/src/pages/CustomerSegments.jsx:153 | ratio ≤ 1, ≥ 0 for a non-negative spend, and exactly 1 for the segment that sets the scale |
| CustomerSegments.TierBoundaries | frontend/src/pages/CustomerSegments.jsx:154 | strict bounds: top iff ratio > 0.6, bottom iff ≤ 0.3; 0.6 is middle and 0.3 bottom; tiers are monotone in the ratio |
| Knn.Recommend | backend/ml/knn.py:19-32 | an unknown name gives []; otherwise the query row is the name's first index, `min(top_k·5, n)` candidates are requested, and top_k < 1 is an error; the answer is the reference selection |
| Knn.Collect | backend/ml/knn.py:38-61 | the loop, including its skip-seen and early break, returns the first top_k fresh names after candidate 0 |
| Knn.DistinctFresh | backend/ml/knn.py:39-50 | no selected name was seen before, and no name is selected twice |
| Knn.DistinctFromCandidates | backend/ml/knn.py:44-58 | every selected name is the name of some candidate |
| Knn.ExpectedProperties | backend/ml/knn.py:39-61 | at most top_k results, never the query name, no duplicates, each from a candidate after position 0; candidate 0 never affects the answer |
| Knn.StopsAtTopK | backend/ml/knn.py:60-61 | once top_k fresh names are found, later candidates do not change the answer |
| Knn.DistinctAppend | backend/ml/knn.py:44-61 | the selection over a longer candidate list extends the selection over its prefix |
| Transactions.DropMissingCustomers | backend/ml/kmeans.py:7 | the kept rows are the order-preserving subsequence of rows with a customer id; every such row is kept as often as it occurs, every other row not at all |
| Transactions.DropMissingCustomersIdempotent | backend/ml/kmeans.py:7 | dropping rows without a customer id a second time changes nothing |
| Transactions.WholeDays | backend/ml/decision_tree.py:21 | the number of whole days elapsed: non-negative, and days·86400 ≤ difference < (days+1)·86400 |
| Transactions.AlphaRankOrdersNames | backend/ml/timeseries.py:8-11 | the weekday rank is a bijection onto 0..6 that orders days by their names alphabetically, as pandas orders group keys |
| Grouping.Keys | backend/ml/timeseries.py:10-11 | the group keys are the distinct keys occurring in the rows, strictly ascending |
| Grouping.CountWherePositive | backend/ml/kmeans.py:31-35 | a group is non-empty iff its key occurs, and no larger than the table |
| Grouping.Conservation | backend/ml/timeseries.py:10-11 | when each row's key is listed once, the group sums add up to the column total |
| Grouping.GroupSumsTotal | backend/ml/timeseries.py:10-11 | the group-by sums add up to the column total |
| Grouping.ArgMax | backend/ml/timeseries.py:13-14 | `idxmax` points at a maximal value, and every earlier value is strictly smaller |
| CustomerFeatures.InvoicesOf | backend/ml/kmeans.py:12 | the customer's distinct invoice numbers are exactly those on its rows |
| CustomerFeatures.Prepare | backend/ml/kmeans.py:6-15 | one row per distinct customer id present, ascending by id, holding that customer's summed spend, summed quantity and distinct-invoice count |
| CustomerFeatures.OrdersPositive | backend/ml/kmeans.py:12 | every aggregated customer has at least one order |
| CustomerFeatures.PrepareConserves | backend/ml/kmeans.py:9-13 | customer spends add up to Σ quantity·price over rows with a customer, and item counts to Σ quantity |
| CustomerFeatures.MissingCustomerIgnored | backend/ml/pca.py:10-11 | a row without a customer id does not change the aggregation |
| KMeans.Mean | backend/ml/kmeans.py:36-38 | the group mean times the group size is the group total; NaN exactly for an empty group |
| KMeans.Summary | backend/ml/kmeans.py:29-39 | k entries; entry i has cluster_id i, counts the customers labelled i, and holds the pandas means of their spend, items and orders (NaN for an empty cluster) |
| KMeans.RunKMeans | backend/ml/kmeans.py:18-41 | an error exactly when k < 1 or there are fewer customers than clusters; otherwise the k-entry summary of the aggregated customers under the library's labels |
| KMeans.SummaryPartitions | backend/ml/kmeans.py:29-35 | with labels in 0..k−1 the per-cluster counts add up to the number of customers |
| KMeans.RunKMeansCountsEveryCustomer | backend/ml/kmeans.py:19-35 | end to end: with labels in 0..k−1 every aggregated customer is counted exactly once |
| Pca.Records | backend/ml/pca.py:46-55 | one record per customer, in order, carrying its id, spend, items and orders |
| Pca.RunPca | backend/ml/pca.py:22-55 | an error exactly when the component count is below 2 (the second coordinate is read) or above min(customers, 3) (scaler and PCA raise); otherwise one record per customer |
| Pca.RecordsFollowCustomers | backend/ml/pca.py:27-55 | with the default two components: an error exactly for fewer than two customers; otherwise the records follow the shared aggregation one to one, ids strictly ascending, with the library's point for each customer |
| DecisionTree.MaxDate | backend/ml/decision_tree.py:20 | the latest date of all kept rows is attained and bounds every row |
| DecisionTree.LastPurchase | backend/ml/decision_tree.py:17 | the customer's latest date is attained by one of its rows and bounds all of them |
| DecisionTree.Prepare | backend/ml/decision_tree.py:6-25 | one feature row per aggregated customer, whose base columns are the shared aggregation |
| DecisionTree.ExtendDescribes | backend/ml/decision_tree.py:10-25 | the extra columns are as described: the per-row mean amount, the latest date, whole days back from the global latest date, and the spend of the 30-day window |
| DecisionTree.FeaturesMeaning | backend/ml/decision_tree.py:10-25 | every feature row meets that description: avg_order_value·rows = total_spend, recency ≥ 0 in whole days, next-month spend over rows dated ≥ latest − 30 days |
| DecisionTree.QuietCustomerSpendsNothing | backend/ml/decision_tree.py:23-25 | a customer whose last purchase is older than 30 days before the latest date (so no row of it is in the window) gets next-month spend exactly 0 |
| DecisionTree.Pair | backend/ml/decision_tree.py:43-48 | `zip` pairs each customer id with the prediction at the same position, up to the shorter list |
| DecisionTree.RunDecisionTree | backend/ml/decision_tree.py:30-50 | an error exactly when fewer than two customers leave the 80% training split empty |
| DecisionTree.PredictionsPairCustomers | backend/ml/decision_tree.py:41-48 | one prediction per aggregated customer, in table order, with its own id |
| Timeseries.PeakSalesInsights | backend/ml/timeseries.py:3-21 | an error exactly for an empty table, where `idxmax` has nothing to pick |
| Timeseries.HourlyMeaning | backend/ml/timeseries.py:7-10 | one ascending entry per hour occurring in the data, holding that hour's summed quantity |
| Timeseries.WeekdayMeaning | backend/ml/timeseries.py:8-11 | one entry per weekday occurring in the data, in alphabetical order of day names with no day twice, each holding the summed quantity of that day's rows |
| Timeseries.BestHourIsFirstMaximum | backend/ml/timeseries.py:13 | best_hour has the largest total, and every earlier hour has a strictly smaller one |
| Timeseries.BestDayIsFirstMaximum | backend/ml/timeseries.py:14 | best_day has the largest total, and no day with an equal total has an alphabetically earlier name |
| Timeseries.TotalsAgree | backend/ml/timeseries.py:10-11 | the hourly totals and the weekday totals both add up to the total quantity |
| Apriori.LoadRows | backend/ml/apriori.py:32-36 | one line per row with a description and a positive quantity, in row order, carrying that row's invoice and description (so `len(df)` is the number of such rows) |
| Apriori.LoadRowsDropsUnsold | backend/ml/apriori.py:32-33 | a row without description or with quantity ≤ 0 changes nothing |
| Apriori.Preprocess | backend/ml/apriori.py:48-55 | one basket row per invoice and one column per description; a cell is true iff some kept line has that invoice and description |
| Apriori.BasketWellFormed | backend/ml/apriori.py:48-55 | every basket row and column holds a true cell, and every true cell lies on a row and a column |
| Apriori.TopRules | backend/ml/apriori.py:90 | min(n, 300) rules, a sub-multiset of the generated ones, by non-increasing lift |
| Apriori.TopRulesAreBest | backend/ml/apriori.py:90 | no dropped rule has a higher lift than a kept one |
| Apriori.RunMba | backend/ml/apriori.py:64-101 | the itemsets are the miner's answer on the basket of kept lines; the rules are the top 300 by lift of the generator's answer on those itemsets; the meta echoes the three constants and the number of sold rows |
| Apriori.ThresholdsHold | backend/ml/apriori.py:10-11 | when the miner and rule generator honour their thresholds, every itemset has support ≥ 0.0005 and every rule confidence ≥ 0.05 |
| Collections.SortDesc | frontend/src/pages/FrequentlyBought.jsx:48-49 | a permutation of its input ordered by non-increasing key, stable: the elements of each key stay in input order |
| Collections.HeadIsFirstMaximal | frontend/src/pages/FrequentlyBought.jsx:19-24 | the head of the stable sort is the first input element of maximal key |
| Collections.HeadIsMaximal | frontend/src/pages/FrequentlyBought.jsx:19-24 | the head of a sorted non-empty list is an element of maximal key |
| Collections.Filter | frontend/src/pages/FrequentlyBought.jsx:53-55 | an order-preserving subsequence holding exactly the elements that pass, with their multiplicities |
| Collections.SumPermutation | frontend/src/pages/PeakInsights.jsx:64-65 | reordering never changes a sum |
| Collections.MaxWithFloor | frontend/src/pages/CustomerSegments.jsx:31 | `Math.max(...xs, floor)` is at least the floor and every value, and is the floor or one of the values |
| Text.JoinContainsItem | frontend/src/pages/FrequentlyBought.jsx:54 | every item occurs in the ", "-joined label |
| Text.ContainsToLower | frontend/src/pages/FrequentlyBought.jsx:54 | an occurrence survives lower-casing both sides |

## Left out

- Rendering: JSX, styling, charts, bar widths and percentage strings (`toFixed`, `toLocaleString`). They are presentation only.
- Navigation components and static pages: sidebar, navbar, layout, cards, uploader, routing, the upload page and the placeholder outlier page. They hold no logic.
- Network and I/O: the fetch calls, the API endpoints, CORS, compressed-JSON caching, Excel/CSV loading and the one-off scripts. They are plumbing.
- Library internals: KMeans, StandardScaler, PCA, DecisionTreeRegressor, train_test_split, the text vectoriser with cosine neighbours, FP-growth and rule generation. Their answers are uninterpreted parameters with stated length or range contracts. PCA's explained-variance list is such an answer and is passed through unmodelled.
- Float rounding (`round(…, 2/3/4)`) and the `1 - distance` float arithmetic. Exact `real`s are used instead.
- Date parsing and `day_name`: a timestamp carries its hour and weekday as given. The instant is seconds on one clock.
- The mock trend series of the segments page. It is constant data.
- The in-place column writes of the timeseries function. It is modelled as pure.
- JSON encoding of NaN means (an empty k-means cluster): the model produces `NaN`. What the serializer and the page then do is not modelled.
- Text.ToLower: lower-cases ASCII letters only, because full Unicode case mapping is out of scope.
- Recommendations.ProductList: keeps the keys in insertion order. JavaScript lists integer-like keys first, in ascending order; that case is not modelled.
- PeakInsights.HourlyData: takes hour keys already read as integers. `parseInt` on a non-numeric key (NaN) is not modelled, because the backend only produces integer hours.
- CustomerSegments.MaxSpend: takes `avg_spend` already read as a number. `parseFloat` of a non-numeric string is not modelled.
- Apriori.TopRules: uses a stable sort. pandas `sort_values` defaults to an unstable quicksort, so the relative order of rules with equal lift is not fixed by the source. Every stated property holds whatever that order is.
- Apriori.RunMba: does not model the rule generator rejecting an empty itemset table. That check belongs to the library.
- CustomerFeatures.Prepare: sums item quantities as `real`s. pandas sums them as integers, which does not differ for exact arithmetic.
- Column renaming and lower-casing in the market-basket loader are not modelled: the rows already carry named fields.
