# Sales reporter, modelled in Dafny

`SalesReporter` (sales_reporter.py) holds a pandas table of invoice lines. Each
line has a product name, an invoice date, a sale price, a cost price and the
units sold. The constructor cleans the table in place:

- product names are folded to a canonical spelling;
- sale price and units lose their sign;
- a `precio_total` column is added.

The class then answers a fixed set of report queries:

- best-selling products;
- the list of products on sale;
- the profit margin per product;
- weekly sales and their growth;
- the average sale;
- sales per weekday;
- profit per product;
- net sales per product;
- a comparison of upper-body and lower-body garments.

Three of the queries first add a derived column to the shared table. The
garment comparison reads one of those columns, `ganancia_total`, so it only
works after `revenue_by_product` has run.

The model has six modules:

- `Text` covers name folding: the ASCII filter, `lower()` and `strip()`. It
  also defines Python's code-point order on strings, which `groupby` uses to
  order product groups.
- `Order` covers `drop_duplicates` (first occurrences, in order) and the
  ascending key order of `groupby`.
- `Aggregate` is a generic group-by sum and a descending ranking. Its main
  facts are that a group-by preserves the grand total and that the ranking
  is a non-increasing permutation.
- `Sales` defines the invoice-line record and the table. The table is its
  rows plus the set of derived columns it currently has. `WellFormed` says
  every present derived column holds its formula. This module also models
  the per-row cleaning.
- `Reports` has every query as a function of the rows, with its properties.
- `Reporter` is the class. It has a `df` field, a constructor and one method
  per query. The methods that add columns change `df` and say exactly how.
  The class invariant `Valid` (clean and well-formed) holds after
  construction and after every method.

Prices and sums are exact `real`s and units are `int`. Dividing by zero gives
NaN or an infinity in pandas. The model represents this as follows:

- `None` for the mean of no rows;
- `PosInf`/`NegInf`, or a 0 growth (NaN filled with 0), for a week after a
  week whose total was 0;
- an `Err` for a margin that cannot be cast to an integer.

Where the code and the documented intent differ, the model follows the code:

- The average sale of an empty table with numeric columns is NaN (numpy's 0/0), not an error.
- The best-seller totals add up to the units sold, not to the number of rows.
- Weekly growth compares each week with the preceding row of the weekly
  table. That row is the last earlier week with sales, which is not
  necessarily the previous calendar week.
- The margin is the profit as a share of the mean sale price, not of the
  cost.

## Model

| member | source | states |
|---|---|---|
| Text.Fold | sales_reporter.py:17-19 | a folded name is ASCII-only, has no upper-case letter and no surrounding whitespace; it is the ASCII filter, then `lower()`, then `strip()`, each pinned down by its own row |
| Text.AsciiOnly | sales_reporter.py:18 | exactly the ASCII characters of the name are kept, and nothing is added |
| Text.AsciiOnlyConcat | sales_reporter.py:18 | the ASCII filter works character by character, so it keeps the order and the repetitions of the characters it keeps |
| Text.Lower | sales_reporter.py:18 | `lower()` maps each character on its own: an upper-case ASCII letter becomes the letter 32 code points above it, every other character is kept |
| Text.Strip | sales_reporter.py:18 | `strip()` returns a contiguous slice of the name such that everything cut off before and after it is whitespace, and neither end of the slice is whitespace |
| Text.FoldOfFolded | sales_reporter.py:17-19 | folding a name that is already folded changes nothing |
| Text.FoldIdempotent | sales_reporter.py:17-19 | folding twice equals folding once |
| Text.FoldPantalon | sales_reporter.py:17-19 | the decomposed "Pantalón" folds to "pantalon" |
| Text.FoldCamisa | sales_reporter.py:17-19 | " CAMISA " folds to "camisa" |
| Text.StrLessIrreflexive | sales_reporter.py:30 | no name sorts before itself in Python's string order |
| Text.StrLessTransitive | sales_reporter.py:30 | Python's string order is transitive |
| Text.StrLessTotal | sales_reporter.py:30 | any two different names are ordered one way or the other |
| Order.Distinct | sales_reporter.py:37 | `drop_duplicates` keeps each value once, exactly the values present, in first-occurrence order, and never lengthens the column |
| Order.SortKeys | sales_reporter.py:30 | group keys come out strictly ascending, once each, and are exactly the keys given |
| Aggregate.GroupBy | sales_reporter.py:30 | one entry per key, in key order, each holding that group's sum |
| Aggregate.TotalOfGroups | sales_reporter.py:30 | when the keys cover every row once, the group sums add up to the grand total |
| Aggregate.CountForPositive | sales_reporter.py:42 | a product that occurs has a positive `value_counts` count |
| Aggregate.SumForOneIsCount | sales_reporter.py:82 | summing 1 per row of a group gives the group's row count |
| Aggregate.SumByOneIsLength | sales_reporter.py:82 | summing 1 per row gives the number of rows |
| Aggregate.SumForCongruent | sales_reporter.py:93-94 | group sums of two columns that agree row by row are equal |
| Aggregate.SumForDifference | sales_reporter.py:86-88 | the group sum of a difference of columns is the difference of the group sums |
| Aggregate.InsertByValue | sales_reporter.py:31 | inserting into a non-increasing ranking keeps it non-increasing, adds exactly that entry and adds its value to the total |
| Aggregate.Rank | sales_reporter.py:31 | `sort_values(ascending=False)` gives a non-increasing permutation with the same total |
| Aggregate.InsertByValueKeepsKeysDistinct | sales_reporter.py:31 | inserting an entry with a new key into a ranking with distinct keys keeps the keys distinct |
| Aggregate.RankKeepsKeysDistinct | sales_reporter.py:31 | sorting keeps the group keys distinct |
| Aggregate.TotalIsSumBy | sales_reporter.py:65 | the total of a grouped result is the sum of its values |
| Sales.SanitizeRow | sales_reporter.py:15-26 | after cleaning, the name is folded, the sale price and units are non-negative and equal the input up to sign (their absolute values), `precio_total` is price times units, and the cost price, date and other columns are unchanged |
| Sales.SanitizeTable | sales_reporter.py:15-26 | cleaning every row gives a clean table with `precio_total`, and keeps an up-to-date `semana` column up to date |
| Sales.WithPrecioTotal | sales_reporter.py:26 | `precio_total` is set to price times units and no other field changes |
| Sales.SanitizePantalon | sales_reporter.py:15-26 | a "Pantalón" line at price -10, cost 4 and -2 units is cleaned to "pantalon" at price 10, cost 4, 2 units and a total of 20 |
| Sales.SanitizeRowFixesSanitized | sales_reporter.py:15-26 | cleaning a clean row changes nothing |
| Sales.SanitizeRowIdempotent | sales_reporter.py:15-26 | cleaning twice is cleaning once |
| Sales.AbsReal | sales_reporter.py:24 | `abs()` of a price is non-negative and equal to it up to sign |
| Sales.AbsInt | sales_reporter.py:25 | `abs()` of a unit count is non-negative and equal to it up to sign |
| Sales.Trunc | sales_reporter.py:56 | `astype(int)` truncates toward zero on both signs |
| Sales.TruncRoundsTowardZero | sales_reporter.py:56 | -2.5 truncates to -2, where the floor would be -3 |
| Sales.SameOutsideKeepsColumns | sales_reporter.py:63-93 | writing one derived column leaves every other column's formula and the row's cleanliness as they were |
| Sales.WithColumn | sales_reporter.py:63-93 | adding a derived column other than `precio_total` keeps a clean, well-formed table clean and well-formed |
| Reports.StrLessIsStrictTotalOrder | sales_reporter.py:30 | Python's string order is a strict total order |
| Reports.ProductKeys | sales_reporter.py:30 | product groups are the distinct products, strictly ascending |
| Reports.RankedGroups | sales_reporter.py:30-31 | a group-by then descending sort gives one entry per key, each holding its group sum, non-increasing, adding up to the grand total |
| Reports.TopSoldProducts | sales_reporter.py:28-33 | one entry per distinct product holding its summed units, non-increasing, adding up to all units sold |
| Reports.StockResume | sales_reporter.py:35-37 | each product once, exactly the products present, in order of first appearance |
| Reports.MarginPercent | sales_reporter.py:51-56 | the margin is 0 for equal means, at most 100 for a non-negative cost, non-negative when the cost does not exceed the price, and positive only when the cost is below the price |
| Reports.MarginsFor | sales_reporter.py:42-56 | one margin per product in order, and failure exactly when some product's mean sale price is 0 |
| Reports.RevenuePercentageByProduct | sales_reporter.py:39-58 | an integer-cast failure exactly when some product's mean sale price is 0; otherwise one truncated margin per product, in ascending name order, from the plain (unweighted) means |
| Reports.MarginFromSums | sales_reporter.py:42-54 | the row count cancels: the margin is the summed profit over the summed sale price, truncated |
| Reports.CamisaMargin | sales_reporter.py:42-56 | two lines at prices 10 and 20 with costs 4 and 8 give the 60% margin that the margin computation produces (the final column selection is not part of this, see below) |
| Reports.Growth | sales_reporter.py:67-71 | a finite growth rate reproduces the current week's total from the previous one; after a zero week, the rate is 0 exactly when this week is 0, +inf exactly when it is positive and -inf exactly when it is negative |
| Reports.WeekKeys | sales_reporter.py:63-65 | weekly groups are the distinct week numbers, strictly ascending, no more of them than rows |
| Reports.WeekKeysOfTwo | sales_reporter.py:65 | two rows in weeks a < b give exactly the groups a then b |
| Reports.WithGrowth | sales_reporter.py:67-71 | each weekly row keeps its week and total; the first growth is 0 and each later one is measured against the preceding row |
| Reports.WeeklySales | sales_reporter.py:60-73 | weeks in ascending order, each holding its summed `precio_total`; first growth 0; later growth relative to the preceding row; the weekly totals add up to all sales |
| Reports.WeekTotal | sales_reporter.py:65 | the weekly totals add up to the table's summed `precio_total` |
| Reports.WeeklySalesWeeks | sales_reporter.py:63-65 | the report's weeks are exactly the table's weeks, strictly ascending |
| Reports.GrowthSkipsMissingWeeks | sales_reporter.py:65-71 | with sales only in weeks 1 and 3, week 3's growth of 50% is measured against week 1 |
| Reports.AverageSalePrice | sales_reporter.py:75-78 | NaN exactly on an empty table; otherwise the average times the row count is the summed `precio_total` |
| Reports.SumByBounds | sales_reporter.py:78 | a sum of n values within [lo, hi] lies within [n·lo, n·hi] |
| Reports.AverageSalePriceBounds | sales_reporter.py:75-78 | the average sale lies between the smallest and largest invoice total |
| Reports.SalesAmountByWeekday | sales_reporter.py:80-82 | one entry per weekday present, holding its row count, non-increasing, counts adding up to the number of rows |
| Reports.RevenueByProduct | sales_reporter.py:84-89 | one entry per distinct product holding its summed `ganancia_total`, non-increasing, adding up to the total profit |
| Reports.NetSaleByProduct | sales_reporter.py:91-94 | one entry per product in ascending name order, holding its summed `venta_neta`, adding up to all net sales |
| Reports.NetSaleIsPrecioTotal | sales_reporter.py:93-94 | each product's net sale equals its summed `precio_total` |
| Reports.RevenueIsNetSaleLessCost | sales_reporter.py:86-94 | a product's profit is its net sale less cost price times units |
| Reports.Select | sales_reporter.py:102-103 | `isin` (or its negation) keeps exactly the rows whose product is (or is not) in the name set, each as many times as it occurs in the table |
| Reports.SelectConcat | sales_reporter.py:102-103 | the filter keeps table order: filtering two consecutive blocks gives the first block's selection followed by the second's |
| Reports.Mean | sales_reporter.py:108-120 | a column mean is NaN exactly over no rows; otherwise it times the row count is the column sum |
| Reports.Summarize | sales_reporter.py:106-121 | net sales are summed sale price times summed units, profit is summed `ganancia_total`, the two means are the column means (NaN exactly for an empty group), and total cost times the row count is summed cost times summed units |
| Reports.ClothesComparative | sales_reporter.py:99-122 | a missing-column error exactly when `ganancia_total` is absent; otherwise the upper group's summary then the bottom group's |
| Reports.ClothesGroupsOverlap | sales_reporter.py:102-103 | every row is in some group, and exactly the "vestido" rows are in both |
| Reports.ClothesGroupsSum | sales_reporter.py:102-103 | a column summed over both groups counts "vestido" rows twice and every other row once |
| Reports.SumByNonNegative | sales_reporter.py:109 | a sum of non-negative values is non-negative |
| Reports.VentasNetasAtLeastNetSale | sales_reporter.py:109 | on clean rows, summed prices times summed units is never below the summed `precio_total` |
| Reporter.SalesReporter.constructor | sales_reporter.py:10-13 | the table is the cleaned input rows with only `precio_total` added; the invariant holds and the garment comparison fails |
| Reporter.SalesReporter.SanitizeDataframe | sales_reporter.py:15-26 | every row is cleaned, `precio_total` is added, the row count is kept, the result is clean, and a valid table is left unchanged |
| Reporter.SalesReporter.TopSoldProducts | sales_reporter.py:28-33 | returns `Reports.TopSoldProducts` of the current table |
| Reporter.SalesReporter.StockResume | sales_reporter.py:35-37 | returns `Reports.StockResume` of the current table |
| Reporter.SalesReporter.RevenuePercentageByProduct | sales_reporter.py:39-58 | returns `Reports.RevenuePercentageByProduct` of the current table |
| Reporter.SalesReporter.WeeklySalesComparative | sales_reporter.py:60-73 | stores each row's ISO week in `semana` and nothing else, keeps the invariant, and returns `Reports.WeeklySales` of the new table |
| Reporter.SalesReporter.AverageSalePrice | sales_reporter.py:75-78 | returns `Reports.AverageSalePrice` of the current table |
| Reporter.SalesReporter.SalesAmountByWeekday | sales_reporter.py:80-82 | returns `Reports.SalesAmountByWeekday` of the current table |
| Reporter.SalesReporter.RevenueByProduct | sales_reporter.py:84-89 | stores profit per unit and per row and nothing else, keeps the invariant, returns the profit ranking, and afterwards the garment comparison succeeds |
| Reporter.SalesReporter.AddProfit | sales_reporter.py:86-87 | `ganancia_por_unidad` is price less cost and `ganancia_total` is that times units; nothing else changes |
| Reporter.SalesReporter.NetSaleByProduct | sales_reporter.py:91-94 | stores each row's net sale and nothing else, keeps the invariant, and returns per-product net sales, each equal to the product's summed `precio_total` |
| Reporter.SalesReporter.ClothesComparative | sales_reporter.py:99-122 | returns `Reports.ClothesComparative` of the current table, which succeeds exactly when `ganancia_total` is present |

## Left out

- `main.py` is not part of this model. It reads environment variables, loads the CSV, builds the visualisation client and deletes the app, which is all I/O.
- `report` and `create_new_dashboard` (sales_reporter.py:96-97, 124-217) only hand payloads to the external visualisation client. The client is not modelled, and neither is the `shimoku_client` constructor argument.
- Text.Fold: Unicode NFKD decomposition needs the Unicode tables and is not modelled. Names are taken as already decomposed, so an accented letter arrives as its base letter plus a combining mark, which the ASCII filter drops.
- Sales.SanitizeRow: `pd.to_datetime` and the calendar lookups (`isocalendar().week`, `day_name()`) are not modelled. Each date arrives as its ISO week number and weekday. As in the source, the week number carries no year.
- Reports.WeeklySales: the growth rate is not rounded to two decimals. Binary floating-point rounding is not modelled and rates are exact reals.
- Reports.AverageSalePrice: the `round(..., 2)` applied by `report` is not modelled.
- Reports.AverageSalePrice: the table is assumed to have numeric columns. A table loaded from a CSV file with a header and no rows has object-typed columns; there `sum()` is the integer 0 and the division at sales_reporter.py:78 raises ZeroDivisionError instead of giving NaN. That raising case is not modelled.
- Reporter.SalesReporter.AverageSalePrice: returns `Reports.AverageSalePrice` and so shares its assumption of numeric columns; on a header-only CSV with object-typed columns the ZeroDivisionError raised at sales_reporter.py:78 is not modelled, where the method returns `None`.
- Reports.ClothesComparative: the `float(...)` casts and the dictionary keys are not modelled. Each group is a record of exact reals, with `None` for a NaN mean.
- Reports.RevenuePercentageByProduct: the output's column labels (`index`, `margen_beneficio`) are not modelled. The result is a sequence of (product, margin) records.
- Reports.RevenuePercentageByProduct: the model assumes that the column selection at sales_reporter.py:58 finds an `index` column, that is, that the merged frame's index has no name when `reset_index()` runs at line 46. That depends on the pandas version and on its join internals. Where the index keeps the name `producto` (as when `value_counts` names its index, or when the join returns the group index because both indexes list the products in the same order, which includes every one-product table), line 58 raises KeyError. The model does not capture that failure; it returns the margins computed at lines 42-56.
- Reporter.SalesReporter.RevenuePercentageByProduct: returns `Reports.RevenuePercentageByProduct` and so shares its assumption that line 58 finds an `index` column; the KeyError raised when it does not is not modelled.
- Reports.TopSoldProducts, Reports.RevenueByProduct and Reports.SalesAmountByWeekday do not model the order of entries with equal values. pandas leaves that order unspecified. The model sorts stably, but the contracts promise only a non-increasing order and the same entries.
- Reports.SalesAmountByWeekday reports weekdays as a `Weekday` value rather than an English day name.
- Floating-point overflow and rounding are not modelled anywhere: all arithmetic is on exact reals and unbounded integers.
- NaN values in the input columns (empty cells) are not modelled. Every loaded field holds a number or a name.
- Reporter.SalesReporter.constructor: the class keeps the caller's DataFrame (sales_reporter.py:12), so cleaning and the columns the reports add also change the frame the caller passed in. That aliasing is not modelled: the rows are copied by value into `df`. Nothing in the class reads the caller's frame afterwards.
- The unused `random` import has no behaviour to model.
