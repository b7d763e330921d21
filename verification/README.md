# Online retail dashboard: cleaning transforms and report aggregations

This project models the table logic of a Streamlit sales dashboard for an
online giftware retailer. It covers two parts.

- **Cleaning transforms** (`src/data_cleaner.py`). These work over a generic frame: named columns and rows of cells, where a cell is missing, a number, or text. They are:
  - exact-duplicate removal;
  - dropping or filling missing values in the selected columns;
  - inclusive interquartile-range (IQR) fence outlier removal, with the quartiles given;
  - the `clean_data` pipeline.
- **Report aggregations** computed inside `main()` of `dashboard_app.py` on a table of transaction records. They are:
  - the three sidebar filters;
  - the KPIs;
  - the top-N leaderboards;
  - the month × weekday heatmap;
  - per-product return rates;
  - year-over-year growth;
  - average order value per month;
  - order sizes;
  - the repeat-versus-new customer revenue split.

Money is in integer pence and instants are integer seconds, so every sum is
exact. Rates, averages and growth percentages are exact fractions (`Ratio`)
instead of floats. Calendar parts (year, month, year-month period, weekday
name) come from the datetime library. They are the function-valued fields
of a `Calendar` parameter.

Modules:

- `Wrappers`: `Option` and `Result`.
- `Seqs`: order-preserving filter, subsequence, first-occurrence de-duplication, sums, distinct keys, sorted keys, and the fact that per-key sums partition a total.
- `Rationals`: exact fractions and their total preorder.
- `Ranking`: `sort_values(ascending=False).head(n)` over a group-by result, as a leaderboard specification and an insertion-sort method that meets it.
- `DataCleaner`: the cleaning transforms.
- `Transactions`: the transaction record, group rows and group sums.
- `SidebarFilters`: date, product and country filters.
- `Reports`: KPIs, leaderboards, heatmap, return rates, year-over-year growth, average order value (AOV) and order sizes.
- `RepeatCustomers`: first purchases, the repeat flag and the two-bucket split.

## Model

| member | source | states |
|---|---|---|
| `DataCleaner.RemoveDuplicates` | src/data_cleaner.py:26 | The result keeps the columns and is a subsequence of the input. No two of its rows are equal. Every input row still appears in it, and it contains nothing else. |
| `DataCleaner.DuplicatesRemoved` | src/data_cleaner.py:25-28 | The reported count is non-negative. It equals the number of rows minus the number of distinct rows, and it is zero exactly when the input has no duplicate. |
| `DataCleaner.RemoveDuplicatesIdempotent` | src/data_cleaner.py:25-28 | Running de-duplication on its own output changes nothing and reports zero rows removed. |
| `DataCleaner.RemoveDuplicatesAppend` | src/data_cleaner.py:26 | Appending a row appends it to the result exactly when it equals no earlier row. So survivors keep the order of their first occurrences. |
| `DataCleaner.DropMissing` | src/data_cleaner.py:60-66 | The drop branch keeps a subsequence of the rows. Every kept row has no missing cell in a selected column. Every copy of such a row is kept, so each complete row occurs as often as in the input and each incomplete one not at all. |
| `DataCleaner.DropAllColumns` | src/data_cleaner.py:57-62 | With no column list (all columns selected), a row survives exactly when it has no missing cell at all. |
| `DataCleaner.FillRow` | src/data_cleaner.py:69-73 | Non-missing cells and unselected columns are unchanged. Each missing cell of a selected column becomes that column's fill value. |
| `DataCleaner.FillMissing` | src/data_cleaner.py:67-75 | The fill branch keeps the columns and the row count, and fills each row cell by cell. When no fill value is itself missing, no selected column keeps a gap. |
| `DataCleaner.FirstUnknown` | src/data_cleaner.py:60-62 | Finds a selected name that is not a column exactly when one exists, as the KeyError of `dropna(subset=...)` does. Pandas names every absent column in that error; the model reports one of them. |
| `DataCleaner.FirstUnfillable` | src/data_cleaner.py:68-73 | The fill loop fails exactly when some selected name is absent (KeyError) or labels several columns (AttributeError on `.dtype`). The error reported is the one for the first such name in loop order. |
| `DataCleaner.HandleMissingValues` | src/data_cleaner.py:57-75 | The "drop" strategy fails exactly when a selected name is not a column. Any other strategy fails exactly when a selected name is absent or labels several columns. With distinct column names, only an absent name fails. Otherwise "drop" gives the drop branch and any other strategy the fill branch. No column list means every column. |
| `DataCleaner.RemoveOutliers` | src/data_cleaner.py:142-154 | Fails with a missing-column error for an absent column and a non-numeric error for a text column. It succeeds exactly when the column exists and holds no text, and then returns a well-formed subsequence. A row is kept iff its value is a number within Q1 − 1.5·IQR … Q3 + 1.5·IQR, both ends inclusive, and every copy of a kept row survives. Given Q1 ≤ Q3, every value between the quartiles survives. A missing value is always dropped, so a column with no numbers loses every row. |
| `DataCleaner.CleanData` | src/data_cleaner.py:174-177 | The pipeline's result is exactly duplicate removal applied to the input: same columns, a duplicate-free subsequence keeping first occurrences and holding every input row. The caller's frame is a value and is left as it was. |
| `DataCleaner.CleanDataIdempotent` | src/data_cleaner.py:174-177 | Cleaning a cleaned frame changes nothing. |
| `SidebarFilters.FilterByDate` | dashboard_app.py:33-34 | Unless exactly two dates are picked, the table is unchanged. With two dates, the result is a subsequence holding exactly the rows between the two midnights, inclusive, each as often as in the input. |
| `SidebarFilters.EndDayIsCutAtMidnight` | dashboard_app.py:34 | A sale on the end day after its first instant is dropped. |
| `SidebarFilters.FilterBySelection` | dashboard_app.py:38-44 | An empty selection leaves the table unchanged. A non-empty one keeps, as a subsequence, exactly the rows whose field is selected, each as often as in the input. |
| `SidebarFilters.ApplyFilters` | dashboard_app.py:31-44 | The result is a subsequence of the table. A row survives the three filters exactly when it passes every active one, and then as often as it occurs in the table. |
| `Reports.KeyIndicators` | dashboard_app.py:49-51 | Revenue is the sum of the line totals, which is also the revenue of rows with a customer ID plus that of guest rows. The order count is the number of distinct invoices: at most the row count, and zero exactly on an empty table. The customer count is the number of distinct non-missing customer IDs, zero exactly when every row is a guest's. |
| `Reports.KeyIndicatorsAppend` | dashboard_app.py:49-51 | One more line item adds its total to the revenue. It adds one order exactly when its invoice is new, and one customer exactly when it carries an ID no earlier row has. |
| `Reports.CustomersIgnoreGuests` | dashboard_app.py:51 | Dropping guest rows does not change the customer count. |
| `Ranking.TopN` | dashboard_app.py:80 | Returns min(n, number of groups) entries with distinct keys. Each entry is a group with its own value, and values do not increase. No omitted group is worth more than the last one shown. With at most n groups, every group is listed. |
| `Ranking.PrefixIsLeaderboard` | dashboard_app.py:80 | The first n entries of a full descending listing form such a leaderboard. |
| `Reports.TopProducts` | dashboard_app.py:80 | The ten products with the largest revenue, as a leaderboard of the per-product sums. |
| `Reports.RevenueDistribution` | dashboard_app.py:97 | The pie slices are the same leaderboard of ten products, computed again by the same expression. |
| `Reports.TopCountries` | dashboard_app.py:123 | The fifteen countries with the largest revenue. |
| `Reports.TopCustomers` | dashboard_app.py:134 | The fifteen customers with the largest revenue. Guests never appear. |
| `Reports.Heatmap` | dashboard_app.py:112-114 | Has a cell for exactly every pair of a month present and a weekday present. Each cell is that combination's revenue, or 0 when it has no rows. |
| `Reports.HeatmapAddsUp` | dashboard_app.py:114 | The heatmap's cells, each taken once in any order, add up to the total revenue. Every row falls in exactly one month-weekday cell, and the zero-filled cells add nothing. |
| `Reports.ReturnRate` | dashboard_app.py:145-146 | A product's rate is the mean of the return flag: the numerator is the flag read as 1 or 0 and summed over its rows, and the denominator is the row count. So it lies in [0, 1], is 0 exactly when no row's invoice starts with "C", and is 1 exactly when every one does. |
| `Reports.ReturnRates` | dashboard_app.py:145-146 | One rate per product present. Each has as numerator the summed return flag of that product's rows and as denominator their count. |
| `Reports.TopReturnRates` | dashboard_app.py:146 | The ten products with the highest return rates, compared as exact fractions. |
| `Reports.PctChange` | dashboard_app.py:172 | Percent growth exists exactly when the prior value is non-zero, and then satisfies pct · prev = (cur − prev) · 100. 0 → 0 is undefined. 0 → non-zero is an infinity with the sign of the new value. |
| `Reports.YearOverYear` | dashboard_app.py:170-172 | Years appear once each, strictly ascending, exactly the years present. Each carries its group's revenue. The first growth is undefined, and each later one is the percent change from the year before. |
| `Reports.YearlyRevenueAddsUp` | dashboard_app.py:171 | The yearly revenues add up to the total revenue. |
| `Reports.OrderValue` | dashboard_app.py:207 | A group's average order value is its KPI revenue over its KPI order count (distinct invoices). That divisor is at least 1 and at most the group's row count. |
| `Reports.AovByMonth` | dashboard_app.py:206-207 | One value per month present. Each is that month's revenue group sum over that month's number of distinct invoices, i.e. the month's KPI revenue over its KPI order count. |
| `Reports.AovRevenueAddsUp` | dashboard_app.py:207 | The monthly numerators, each month once, add up to the total revenue. |
| `Reports.OrderSizes` | dashboard_app.py:219 | Exactly one entry per distinct invoice, as many as the KPI order count. Each entry is the summed quantity of that invoice's rows. |
| `Reports.OrderSizesAddUp` | dashboard_app.py:219 | The order sizes add up to the total quantity. |
| `Reports.ReturnExample` | dashboard_app.py:145-146 | A sale of 2 and its cancellation of 1 give revenue 5 and a return rate of one half. |
| `Transactions.GroupSumsAddUp` | dashboard_app.py:171 | Group sums, taken once per key in any order, add up to the column total. |
| `RepeatCustomers.FirstPurchase` | dashboard_app.py:231-232 | Exactly the customers with an ID have an entry. Each entry is the date of one of that customer's rows and no later than any of them. |
| `RepeatCustomers.RepeatIffEarlierPurchase` | dashboard_app.py:233-238 | A row is repeat exactly when it has a customer ID and the same customer bought strictly earlier in the filtered table. |
| `RepeatCustomers.Reindex` | dashboard_app.py:242 | The result has exactly the listed keys. Present values are kept and missing ones filled. |
| `RepeatCustomers.RepeatSplit` | dashboard_app.py:239-242 | The split always has the two keys False and True. True holds the revenue of repeat rows and False that of the others, and the two add up to the total revenue. |
| `RepeatCustomers.SecondPurchaseExample` | dashboard_app.py:231-242 | A customer buying on day 1 and day 5, plus a guest: only the second purchase is repeat, and the revenue splits 600 / 600. |
| `Reports.GrowthExample` | dashboard_app.py:172 | 1000 then 1500 is a rise of exactly 50 percent. |
| `Seqs.FilterCounts` | dashboard_app.py:39 | A boolean mask keeps every copy of a passing row and no copy of a failing one. |
| `Seqs.SumSplit` | dashboard_app.py:239 | Splitting rows by a flag splits their sum. |
| `Seqs.DedupLength` | src/data_cleaner.py:26 | De-duplication keeps one row per distinct value. |

## Left out

- Streamlit page setup, widgets, metrics, captions and warnings: user interface only. The widget values (date range, product and country selections) are parameters.
- All matplotlib and seaborn rendering, including the pie percentages and the 30-bin histogram of order sizes: drawing only. The plotting helpers of `src/visualizations.py` are not part of this model.
- CSV loading and path helpers (`src/data_loader.py`): file I/O.
- `standardize_date_column` and `extract_date_features`: datetime parsing and calendar extraction are library calls. Calendar parts enter as the `Calendar` parameter.
- `DataCleaner.RemoveOutliers`: pandas quantile interpolation is floating-point library behaviour, so Q1 and Q3 are real-valued parameters. Comparisons are against the exact fences.
- `DataCleaner.FillMissing`: the median (numeric columns) or mode (other columns) is not computed. The fill value per column is a parameter, and a column whose mode does not exist (all values missing makes `mode()[0]` raise KeyError in pandas) is not modelled.
- `DataCleaner.FillMissing`: the source fills through chained `fillna(..., inplace=True)`. This is modelled as the classic pandas behaviour, where the copy is updated. Under copy-on-write pandas that call would leave the copy unchanged.
- `DataCleaner.RemoveOutliers`: the unused `method` argument is dropped.
- `print` side effects and the currency and percentage string formatting.
- The monthly trend (dashboard_app.py:61), hourly sales (dashboard_app.py:158) and week-over-week growth (dashboard_app.py:187-190): not modelled. They are the same group-sum and percent-change pattern as the modelled reports.
- `Ranking.TopN`: pandas' default sort is not stable, so the order among equal values is left open. The leaderboard contract fixes everything else.
- `Reports.ReturnRate`, `Reports.OrderValue`, `Reports.PctChange`: results are exact fractions. Float rounding, and any reordering of near-equal float rates it could cause, is not modelled.
- `DataCleaner.WellFormed`: `RemoveOutliers` requires distinct column names. With a repeated name, `df[column]` is a frame, and the source's comparison then means something else. `HandleMissingValues` accepts repeated names and models the AttributeError they cause in the fill branch.
- Calendar functions are taken as given. No claim is made about the Gregorian calendar itself.
