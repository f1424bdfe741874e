# Business analytics chart and storefront calculations, in Dafny

This project models two parts of an e-commerce storefront built on Laravel and Filament.

**The admin dashboard's "Advanced Business Analytics" chart** (`AdvancedAnalyticsChart::getData`).
- It is meant to cover the twelve calendar months that end with the current month. On days 29 to 31 it can repeat some months and skip others (see Findings).
- For each month it plots the sum of `total_amount` over the orders created in that month.
- It also plots the sum of `quantity` over the stock movements of type `out` created in that month.
- Each month is labelled in PHP's `'M Y'` format ("Jan 2025").
- The sales dataset is drawn on the left `y` scale and the stock-out dataset on the right `y1` scale.

The model is one pure function, `GetData(now, orders, moves)`. Its inputs are the current (year, month) and in-memory snapshots of the two tables. Each database query becomes "filter the snapshot by key, then sum a field".

**Three small calculations on the storefront home page** (`resources/views/user/home.blade.php`):
- the promo countdown's split of a millisecond distance into days, hours, minutes and seconds, using JavaScript's truncating `%`;
- the star rows on product cards (full, half or empty icons from an average rating) and on review cards (highlighted or not from an integer rating);
- the text of the error popup when adding to the cart fails.

Files:
- `wrappers.dfy`: `Option`.
- `calendar.dfy`: (year, month) arithmetic, Carbon's day-overflowing `subMonths`, and the `'M Y'` label with a parser for it.
- `aggregate.dfy`: one "where key = k, sum field" query over a snapshot, bucketing over a list of keys, and their laws.
- `analytics_chart.dfy`: the window, the two series, the labels, `GetData`, the y-axis scales of `getOptions`, and the chart's properties.
- `storefront_home.dfy`: the countdown, the star rows and the cart error message.

## Model

| member | source | states |
|---|---|---|
| Calendar.FromOrdinal | app/Filament/Widgets/AdvancedAnalyticsChart.php:21-23 | turning a month count back into a (year, month) and counting again gives the same count |
| Calendar.FromOrdinalOfOrdinal | app/Filament/Widgets/AdvancedAnalyticsChart.php:21-23 | counting a (year, month) in months and turning the count back gives the same (year, month) |
| Calendar.OrdinalInjective | app/Filament/Widgets/AdvancedAnalyticsChart.php:21-23 | two months have the same month count exactly when they are the same (year, month) |
| Calendar.NextMonth | app/Filament/Widgets/AdvancedAnalyticsChart.php:21-23 | the next month is exactly one month later; December rolls over to January of the next year |
| Calendar.PrevMonth | app/Filament/Widgets/AdvancedAnalyticsChart.php:21-23 | the previous month is exactly one month earlier, and the month after it is the month we started from |
| Calendar.MonthsBack | app/Filament/Widgets/AdvancedAnalyticsChart.php:22 | `subMonths(k)` on a (year, month) lands exactly k calendar months earlier |
| Calendar.MonthsBackStep | app/Filament/Widgets/AdvancedAnalyticsChart.php:22 | going back 0 months is the identity; going back k+1 months is going back k months and then one more, with the January to December rollover |
| Calendar.DaysInMonth | app/Filament/Widgets/AdvancedAnalyticsChart.php:22 | a month has 28 to 31 days: 29 exactly for February of a Gregorian leap year, 28 for February of other years, 30 for April, June, September and November, and 31 for the other seven months |
| Calendar.SubMonthsOverflow | app/Filament/Widgets/AdvancedAnalyticsChart.php:22 | Carbon's `subMonths(k)` on a full date keeps the day when the target month is long enough; otherwise it lands on day 1 to 3 of the month after the target; the result is always a valid date |
| Calendar.MonthAbbrev | app/Filament/Widgets/AdvancedAnalyticsChart.php:41 | format character `M` is a three-letter month abbreviation |
| Calendar.YearText | app/Filament/Widgets/AdvancedAnalyticsChart.php:41 | format character `Y` has at least four characters, and exactly four digits for years 0 to 9999 |
| Calendar.Label | app/Filament/Widgets/AdvancedAnalyticsChart.php:40-42 | a label is the month abbreviation, a space and the year; it has exactly 8 characters for years 0 to 9999 |
| Calendar.ParseLabel | app/Filament/Widgets/AdvancedAnalyticsChart.php:40-42 | a string that parses as a label starts with the abbreviation of the month it names, followed by a space |
| Calendar.YearTextRoundTrip | app/Filament/Widgets/AdvancedAnalyticsChart.php:41 | reading the zero-padded year text back gives the year, negative years included |
| Calendar.LabelRoundTrip | app/Filament/Widgets/AdvancedAnalyticsChart.php:40-42 | reading a label back gives exactly the (year, month) it was made from |
| Calendar.LabelInjective | app/Filament/Widgets/AdvancedAnalyticsChart.php:40-42 | two months have the same label exactly when they are the same month |
| Aggregate.SumWhere | app/Filament/Widgets/AdvancedAnalyticsChart.php:27-29 | a `where…->sum(…)` query over no matching rows is 0, never absent; the sum is non-negative when every summed value is |
| Aggregate.Buckets | app/Filament/Widgets/AdvancedAnalyticsChart.php:26-30 | one value per key, in key order; value i is the sum over exactly the records whose key is key i |
| Aggregate.SumWhereAppend | app/Filament/Widgets/AdvancedAnalyticsChart.php:27-29 | the sum over two concatenated snapshots is the sum of their sums |
| Aggregate.SumWherePermutation | app/Filament/Widgets/AdvancedAnalyticsChart.php:27-29 | the sum does not depend on the order in which rows come back |
| Aggregate.BucketsIgnoreUnmatched | app/Filament/Widgets/AdvancedAnalyticsChart.php:26-30 | a record whose key is not a bucket key changes no bucket, wherever it stands |
| Aggregate.BucketsAppendRecord | app/Filament/Widgets/AdvancedAnalyticsChart.php:26-30 | one more record adds its value to exactly the buckets whose key it has |
| Aggregate.SumWhereAnyCons | app/Filament/Widgets/AdvancedAnalyticsChart.php:26-30 | for a key not among the others, the sum over all the keys is that key's sum plus the sum over the others |
| Aggregate.BucketsTotal | app/Filament/Widgets/AdvancedAnalyticsChart.php:26-30 | over distinct keys each record is counted at most once: the buckets add up to the sum over the records whose key is any of the keys |
| Aggregate.SumWhereCongruent | app/Filament/Widgets/AdvancedAnalyticsChart.php:27-29 | records that agree on key and summed field give the same sums, whatever their other columns hold |
| AdvancedAnalyticsChart.Window | app/Filament/Widgets/AdvancedAnalyticsChart.php:21-23 | the window has exactly 12 entries, and entry i is exactly 11 − i months before now |
| AdvancedAnalyticsChart.WindowShape | app/Filament/Widgets/AdvancedAnalyticsChart.php:21-23 | the last entry is the current month; each entry is followed by the next calendar month, with the year rollover; all 12 months are different |
| AdvancedAnalyticsChart.WindowMembership | app/Filament/Widgets/AdvancedAnalyticsChart.php:21-23 | a month is in the window exactly when it is between 11 months ago and now |
| AdvancedAnalyticsChart.OutMovements | app/Filament/Widgets/AdvancedAnalyticsChart.php:36 | every movement kept by `where('type', 'out')` has type exactly "out" |
| AdvancedAnalyticsChart.OutMovementsKeepsExactlyOut | app/Filament/Widgets/AdvancedAnalyticsChart.php:36 | the filter keeps each "out" movement as many times as it occurs, and nothing of any other type |
| AdvancedAnalyticsChart.OutMovementsAppend | app/Filament/Widgets/AdvancedAnalyticsChart.php:36 | filtering a concatenation is concatenating the filtered parts |
| AdvancedAnalyticsChart.OutMovementsSkipNonOut | app/Filament/Widgets/AdvancedAnalyticsChart.php:36 | inserting a movement of another type anywhere leaves the filtered snapshot unchanged |
| AdvancedAnalyticsChart.SalesSeries | app/Filament/Widgets/AdvancedAnalyticsChart.php:26-30 | one sales value per window month: value i is the sum of `total_amount` over all orders of window month i, whatever their status. It is never negative when no order amount is |
| AdvancedAnalyticsChart.StockOutSeries | app/Filament/Widgets/AdvancedAnalyticsChart.php:33-38 | one stock-out value per window month: value i is the sum of `quantity` over the "out" movements of window month i |
| AdvancedAnalyticsChart.StockOutSeriesCountsOutQuantity | app/Filament/Widgets/AdvancedAnalyticsChart.php:33-38 | filtering on type "out" and then summing equals summing every movement of the month with the non-"out" ones counted as 0 |
| AdvancedAnalyticsChart.Labels | app/Filament/Widgets/AdvancedAnalyticsChart.php:40-42 | one label per window month: 12 labels, label i being the `'M Y'` text of window month i |
| AdvancedAnalyticsChart.LabelsNameTheirMonths | app/Filament/Widgets/AdvancedAnalyticsChart.php:40-42 | every x-axis label reads back as exactly the window month it stands for, and the last one names the current month |
| AdvancedAnalyticsChart.Options | app/Filament/Widgets/AdvancedAnalyticsChart.php:81-102 | `getOptions` declares two y scales with different ids |
| AdvancedAnalyticsChart.GetData | app/Filament/Widgets/AdvancedAnalyticsChart.php:18-62 | exactly two datasets: first "Sales (Rp)" on axis `y`, then "Stock Out (Units)" on axis `y1`. Each axis id names a scale declared in `getOptions`. There are 12 labels and each dataset has one value per label. Index i of labels, sales and stock-out all refer to window month i: its label, the sum of `total_amount` over all orders of that month with no status filter, and the sum of `quantity` over that month's "out" movements |
| AdvancedAnalyticsChart.LabelsDistinct | app/Filament/Widgets/AdvancedAnalyticsChart.php:40-42 | no two x-axis labels are equal |
| AdvancedAnalyticsChart.SalesWindowTotal | app/Filament/Widgets/AdvancedAnalyticsChart.php:21-30 | the 12 sales values add up to the total of the orders dated inside the window, so no order is counted twice |
| AdvancedAnalyticsChart.StockOutWindowTotal | app/Filament/Widgets/AdvancedAnalyticsChart.php:21-38 | the 12 stock-out values add up to the total of the "out" movements dated inside the window |
| AdvancedAnalyticsChart.NewOrderLandsInItsMonth | app/Filament/Widgets/AdvancedAnalyticsChart.php:26-30 | one more order adds its amount to the bucket of its own month and to no other; at most one bucket has that month |
| AdvancedAnalyticsChart.NewMovementCountsOnlyIfOut | app/Filament/Widgets/AdvancedAnalyticsChart.php:33-38 | one more movement changes a stock-out bucket exactly when its type is "out" and its month is that bucket's; it then adds its quantity |
| AdvancedAnalyticsChart.OrderOutsideWindowIgnored | app/Filament/Widgets/AdvancedAnalyticsChart.php:21-30 | an order dated outside the window changes nothing in the chart, wherever it stands in the table |
| AdvancedAnalyticsChart.NonOutMovementIgnored | app/Filament/Widgets/AdvancedAnalyticsChart.php:33-38 | a movement whose type is not exactly "out" changes nothing in the chart |
| AdvancedAnalyticsChart.MovementOutsideWindowIgnored | app/Filament/Widgets/AdvancedAnalyticsChart.php:21-38 | a movement dated outside the window changes nothing in the chart, whatever its type |
| AdvancedAnalyticsChart.SalesIgnoreStatus | app/Filament/Widgets/AdvancedAnalyticsChart.php:27-29 | orders that differ only in status give the same chart |
| AdvancedAnalyticsChart.RowOrderIrrelevant | app/Filament/Widgets/AdvancedAnalyticsChart.php:26-38 | the chart depends on the two tables' contents, not on the order of their rows |
| AdvancedAnalyticsChart.ChartDependsOnlyOnSeries | app/Filament/Widgets/AdvancedAnalyticsChart.php:44-61 | the output is determined by the current month and the two value series |
| AdvancedAnalyticsChart.JanuarySalesSeenFromMarch | app/Filament/Widgets/AdvancedAnalyticsChart.php:18-62 | seen from March 2025, two January 2025 orders of 100 and 250 give 350 in the January slot and 0 in every other month, and the last label is "Mar 2025" |
| AdvancedAnalyticsChart.JanuarySalesSeries | app/Filament/Widgets/AdvancedAnalyticsChart.php:26-30 | the sales series for that example: 350 at index 9, 0 elsewhere |
| AdvancedAnalyticsChart.MarchLabel | app/Filament/Widgets/AdvancedAnalyticsChart.php:41 | March 2025 is labelled "Mar 2025" |
| AdvancedAnalyticsChart.CarbonWindow | app/Filament/Widgets/AdvancedAnalyticsChart.php:21-23 | the months the code queries, computed with Carbon's overflowing `subMonths`: 12 of them |
| AdvancedAnalyticsChart.CarbonWindowEntry | app/Filament/Widgets/AdvancedAnalyticsChart.php:21-23 | queried month i is intended month i when today's day fits in that month, and the month after it otherwise. So it is always one of the two, and the intended one on days 1 to 28 |
| AdvancedAnalyticsChart.CarbonWindowEarlyInMonth | app/Filament/Widgets/AdvancedAnalyticsChart.php:21-23 | on days 1 to 28 the queried months are exactly the intended window |
| AdvancedAnalyticsChart.CarbonWindowSkipsFebruaryLateInMonth | app/Filament/Widgets/AdvancedAnalyticsChart.php:21-23 | when today's day is past the last day of the window's February (the 30th and 31st always, and the 29th when the window's February has 28 days), that February is in the intended window but is never queried |
| AdvancedAnalyticsChart.WindowOfMarch2025 | app/Filament/Widgets/AdvancedAnalyticsChart.php:21-23 | the intended window seen from March 2025 runs from April 2024 to March 2025 |
| AdvancedAnalyticsChart.CarbonWindowOnMarch31 | app/Filament/Widgets/AdvancedAnalyticsChart.php:21-23 | on 31 March 2025 the queried months are May, May, Jul, Jul, Aug, Oct, Oct, Dec, Dec 2024, Jan, Mar, Mar 2025: every target month shorter than 31 days overflows into the next one |
| AdvancedAnalyticsChart.CarbonWindowOnMarch31SkipsFiveMonths | app/Filament/Widgets/AdvancedAnalyticsChart.php:21-23 | on 31 March 2025 April, June, September and November 2024 and February 2025 are never queried |
| AdvancedAnalyticsChart.CarbonWindowLosesFebruarySales | app/Filament/Widgets/AdvancedAnalyticsChart.php:21-30 | on 31 March 2025 a February sale of 100 adds nothing to the chart as written, while the intended window shows it |
| StorefrontHome.JsRem | resources/views/user/home.blade.php:1437-1439 | JavaScript `%` with a positive divisor: the remainder is smaller than the divisor in size, takes the dividend's sign, and together with the truncated quotient gives back the dividend |
| StorefrontHome.Timer | resources/views/user/home.blade.php:1436-1439 | for a distance ≥ 0 the days are ≥ 0, hours are 0..23, and minutes and seconds are 0..59. For a negative distance the days are negative and every other field is ≤ 0. Hours always stay within ±23 and minutes and seconds within ±59 |
| StorefrontHome.TimerOfWholeSeconds | resources/views/user/home.blade.php:1436-1439 | every countdown field depends only on the whole seconds of the distance |
| StorefrontHome.TimerIgnoresMilliseconds | resources/views/user/home.blade.php:1436-1439 | two distances in the same whole second give the same four fields |
| StorefrontHome.TimerInRange | resources/views/user/home.blade.php:1436-1439 | for a distance ≥ 0: days ≥ 0, hours in 0..23, minutes and seconds in 0..59, and days·86400 + hours·3600 + minutes·60 + seconds is the distance's whole seconds |
| StorefrontHome.SplitIsUnique | resources/views/user/home.blade.php:1436-1439 | a split of whole seconds into days, hours, minutes and seconds within those ranges is the one the timer computes |
| StorefrontHome.TimerSplitsRemainingTime | resources/views/user/home.blade.php:1434-1439 | for a distance ≥ 0, the timer shows a given countdown exactly when that countdown has fields in range and adds up to the whole seconds left |
| StorefrontHome.TimerAfterExpiry | resources/views/user/home.blade.php:1434-1445 | after the end nothing is clamped: days are negative and the other fields are ≤ 0. Within a second after the end, every box shows −1 |
| StorefrontHome.ProductRating | resources/views/user/home.blade.php:860 | a missing average rating counts as 0; a present one is used as it is |
| StorefrontHome.ProductStar | resources/views/user/home.blade.php:868-874 | icon i is full exactly when i ≤ rating, half exactly when i − 0.5 ≤ rating < i, and empty exactly when rating < i − 0.5 |
| StorefrontHome.ProductStars | resources/views/user/home.blade.php:860-875 | a product card always shows five icons |
| StorefrontHome.ProductStarsShape | resources/views/user/home.blade.php:860-875 | the row is some full stars, then at most one half star, then empty stars. The full count is the rating's floor kept within 0..5. A half star follows when the fraction is at least .5 and the floor is 0..4. A missing rating counts as 0 |
| StorefrontHome.ProductStarsExtremes | resources/views/user/home.blade.php:860-875 | no rating or a rating of 0 gives five empty stars; a rating of 5 or more gives five full stars |
| StorefrontHome.ProductStarsMonotone | resources/views/user/home.blade.php:867-875 | a higher rating never shows a less filled icon at any position |
| StorefrontHome.ReviewStars | resources/views/user/home.blade.php:1001-1002 | a review card always shows five stars |
| StorefrontHome.CountLitPrefix | resources/views/user/home.blade.php:1001-1002 | a row lit exactly on its first c positions has c lit stars |
| StorefrontHome.ReviewStarsHighlighted | resources/views/user/home.blade.php:1001-1002 | the highlighted stars come first, and there are min(max(rating, 0), 5) of them |
| StorefrontHome.AddToCartErrorMessage | resources/views/user/home.blade.php:1228-1235 | the popup text is never empty. It is the generic failure text unless the status is 422. On 422 it is the server's non-empty `message` when there is one, and "Stok produk tidak tersedia" otherwise |

## Findings

| source | as written | input that shows it | evidently intended | confidence | as-written member | corrected member |
|---|---|---|---|---|---|---|
| app/Filament/Widgets/AdvancedAnalyticsChart.php:21-23 | each month is `Carbon::now()->subMonths($monthsBack)`. Carbon keeps the day of the month and overflows into the next month when the target month is shorter | on 31 March 2025 the chart queries May, July, October and December 2024 and March 2025 twice each. It never queries April, June, September or November 2024 nor February 2025, so sales in those five months are missing. On every 30th and 31st (and on the 29th when the window's February has 28 days) the window's February is skipped | the twelve calendar months ending with the current one, whatever today's day of month (for example `subMonthsNoOverflow`, or `startOfMonth()` before subtracting) | high, from Carbon's documented default month overflow; not executed | AdvancedAnalyticsChart.CarbonWindowOnMarch31 | AdvancedAnalyticsChart.WindowShape |

`CarbonWindowOnMarch31SkipsFiveMonths` lists the months lost on 31 March 2025. `CarbonWindowSkipsFebruaryLateInMonth` shows that February is lost late in every month. `CarbonWindowLosesFebruarySales` shows what this costs on the chart. `CarbonWindowEarlyInMonth` shows that on days 1 to 28 the code as written and the corrected window agree. `GetData` and all the chart lemmas use the corrected `Window`.

## Left out

- The window length is fixed at 12 months (`range(11, 0)`). No bucket count can be configured, and nothing checks for a non-positive count.
- Buckets are matched by `whereYear` and `whereMonth` on `created_at`. They are not half-open intervals of instants.
- No length check can fail when the chart is assembled: all three sequences come from the same window, and `GetData` proves their lengths are equal.
- No data-source error is modelled: the queries are snapshots given as input.
- The database and Eloquent: each `whereYear/whereMonth(…)->sum(…)` is a filter-and-sum over an in-memory snapshot passed in as a sequence. Query execution, time zones of `created_at`, and SQL collation are left out. With a case-insensitive collation, `where('type', 'out')` would also match "OUT"; the model compares exactly.
- `created_at` is reduced to its (year, month). Days and times within the month play no part in the bucketing.
- `total_amount` is an integer in minor currency units. PHP's decimal or float sums are not modelled.
- `Carbon::now()` becomes the parameter `now` of `GetData`. The code calls `now()` once per month (twelve times). The case where the clock crosses a month boundary between these calls is not modelled.
- Chart presentation: colours, the legend, the chart title, `responsive`, `interaction`, `getType` and the widget heading are not modelled. Only the y scales' ids and positions are kept. The `'60s'` polling interval is the framework's scheduling and is not modelled.
- Calendar.YearText: PHP versions before 8.2 printed negative years without zero padding. The model follows the current format (`-0055`).
- The countdown: `new Date(endD)` parsing, the clock reading (`new Date().getTime()`), `setInterval` and the `innerHTML` writes are left out. The input is an integer millisecond distance. JavaScript's floating-point division is modelled as exact integer division, and a JavaScript `-0` is the integer 0.
- Star rows: `reviews_avg_rating` is an exact `real`. PHP's float rounding and coercion of numeric strings are not modelled. The `number_format` text and the review count beside the stars are not modelled.
- The add-to-cart handler: only the choice of message is modelled. The request, the success popup and the SweetAlert calls are left out. A `message` that is not a string is not modelled (the model only has an absent, empty or non-empty string).
- Everything else on the home page: styles and layout, carousel and animation setup, the wishlist, cart and newsletter requests, the wishlist `exists()` lookup, and the clipboard copy with its fallback. These are presentation or I/O glue with no computation to verify.
