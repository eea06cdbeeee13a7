# Restaurant dashboard core, modelled in Dafny

This project models the deterministic core of a Streamlit dashboard for a
restaurant, contained in `app.py`. Beneath the user interface, the app does
the following:

- It reads every business sheet from Google Sheets into a dictionary of tables (`load_all_data`).
- It parses dates, normalises currency fields and resolves column aliases.
- It builds a daily econometric series from sales, weekly ad spend and daily context flags (`build_econometric_master`).
- It computes the financial-health figures: the cost-ratio clamp, the fixed-cost base, break-even and the order of the day.
- It segments paying customers by value and recency (`limpiar_nombre`, the per-payer group-by, `segmentar_cliente`).
- It classifies order waiting times and computes the weekly marketing efficiency ratio (MER).

Dates are integer day numbers and amounts are `real`. A day number stands for a date-only (midnight) timestamp. The source compares and groups raw timestamps (the group-by at app.py:258, the mask at app.py:999, `.dt.days` at app.py:867), so a time of day other than midnight is not modelled. For example, a sale at 13:00 on a week's closing day is outside the source's window but inside `WindowSales`. The date parsers, the
Google client and the clock are parameters.

Modules, one per file:

- `values.dfy` (`Values`): a spreadsheet cell (`Text`, `Number`, `Date`, `Null`) and `Option`.
- `text.dfy` (`Text`): Python's `strip`, `replace`, `in`, `split(c)[0]` and `upper` on `seq<char>`.
- `normalize.dfy` (`Normalize`): `clean_currency`, `safe_float`, `pd.to_numeric`, alias lookup and a decimal-number grammar.
- `frames.dfy` (`Frames`): tables as columns plus rows, the grid split of `safe_read`, and the batch date-column rule.
- `loader.dfy` (`Loader`): `load_all_data`. A `Database` class holds the `DB` dictionary, and its methods change it in place.
- `master.dfy` (`Master`): `build_econometric_master`, including the nested loops that spread weekly ad spend.
- `finance.dfy` (`Finance`): the ratio clamp, the fixed-cost base, the two break-even variants, the progress ratio and the directive.
- `customers.dfy` (`Customers`): payer-name cleaning, the per-payer aggregation, segmentation and the VIP count.
- `metrics.dfy` (`Metrics`): the speed classes and the weekly MER report.

## Model

| member | source | states |
|---|---|---|
| Text.Strip | app.py:172 | the result is an infix of the input, cut only at whitespace on both ends, and neither starts nor ends with whitespace |
| Text.StripIdempotent | app.py:853 | stripping twice is stripping once, so the re-strip after each prefix pass is harmless on an already stripped name |
| Text.Upper | app.py:850 | upper-casing keeps the length and maps every character through the Latin-1 upper-case table |
| Text.ContainsIff | app.py:885 | Python's `p in s` holds exactly when some window of `s` equals `p` |
| Text.ReplaceAllAbsent | app.py:852 | replacing a pattern that does not occur leaves the text unchanged |
| Text.ReplaceAllShrinks | app.py:852 | removing a pattern never lengthens a text |
| Text.Before | app.py:886 | `split('(')[0]` is the longest prefix without `(`, and it is followed by `(` unless it is the whole text |
| Normalize.CleanText | app.py:172 | after removing `S/`, `,` and `%` and stripping, no `,` or `%` is left, the text is stripped, and every character left comes from the input |
| Normalize.CleanTextPlain | app.py:172 | a text with no `S/`, comma or percent sign is only stripped |
| Normalize.CleanCurrency | app.py:170-176 | a non-text value comes back unchanged; text whose cleaned form parses becomes that number, and any other text becomes 0.0 |
| Normalize.CleanCurrencyIdempotent | app.py:170-176 | cleaning a cleaned value changes nothing, and numbers pass through |
| Normalize.SafeFloat | app.py:233-242 | missing values, the empty text and dates give 0.0, and numbers are kept |
| Normalize.SafeFloatAgrees | app.py:233-242 | on text and numbers, `safe_float` gives the same number as `clean_currency` |
| Normalize.PercentNotDivided | app.py:172-174 | `"n%"` cleans to n: the percent sign is dropped, not divided out |
| Normalize.CurrencyPrefixRemoved | app.py:172-174 | `"S/n"` cleans to n |
| Normalize.ThousandsSeparator | app.py:172-174 | a thousands-grouped amount `"s,p"`, for any digit string `s` and three digits `p`, cleans to the number the digits `sp` denote, which is s * 1000 + p |
| Normalize.CurrencyExamples | app.py:170-176 | `"45%"` cleans to 45.0 and `"S/ 1,234.50"` cleans to 1234.5 |
| Normalize.NatRoundTrip | app.py:173-174 | printing a natural number and parsing it back gives it back, also with a leading minus |
| Normalize.ParsedAlphabet | app.py:173-176 | a text that parses holds only digits, a point and a leading sign; any other character leads to the 0.0 fallback |
| Normalize.ToNumeric | app.py:187 | `pd.to_numeric(...).fillna(0)` keeps numbers, turns missing values into 0, and turns sheet text into the number its stripped form denotes, or 0 when it is not a number |
| Normalize.CommaUnparsable | app.py:187 | text holding a comma is not a number, so the coercion (which does no currency cleaning) gives 0 for it |
| Normalize.ThousandsCoercedToZero | app.py:187 | a unit count written `"1,000"` is coerced to 0 |
| Normalize.FirstPresent | app.py:181 | the result is absent exactly when no alias is a header; otherwise it is one of the aliases |
| Frames.SplitGrid | app.py:116-125 | an empty grid gives an empty table; a header-only grid gives columns and no rows; otherwise the first row is the header and the rest are text rows |
| Frames.GridRoundTrip | app.py:119-125 | turning the split table back into a grid gives the original grid |
| Frames.SafeRead | app.py:104-130 | a missing or empty sheet id, or a failed fetch, yields an empty table; a fetched grid is split into header and rows as `SplitGrid` states |
| Frames.HeaderOnlyLoads | app.py:123 | a sheet with only a header row loads as a table with those columns and counts as empty |
| Frames.SetColumn | app.py:163 | assigning a column replaces it in place or appends it, sets exactly the given values and leaves every other column as it was |
| Frames.Rename | app.py:217-218 | renaming keeps the rows and renames exactly the mapped headers |
| Frames.ChooseDates | app.py:162-165 | each parser sees the whole column at once; the day-first result is kept unless more than 80% of it failed, and otherwise the mixed-format result replaces it as a whole |
| Frames.MostlyFailed | app.py:164 | the integer test `5 * failures > 4 * n` holds exactly when the failure mean is above 0.8, and never for an empty column |
| Frames.DayFirstKept | app.py:164 | with 1 failure out of 10, the day-first parse is kept |
| Frames.EightyPercentKeepsDayFirst | app.py:164 | exactly 80% failures (8 of 10) is not more than 80%, so the day-first parse is kept |
| Frames.MixedFallback | app.py:164-165 | 9 or more failures out of 10 switch to the mixed-format parse |
| Frames.FallbackIsWholesale | app.py:165 | after the fallback, a row that day-first had parsed but mixed cannot parse is lost |
| Frames.KeepPresent | app.py:166 | `dropna` keeps, in their original order and with their multiplicity, exactly the rows whose cell is present: row j of the result is the row at the j-th present position |
| Frames.Kept | app.py:166 | the kept positions are in range, all flagged, strictly ascending, and include every flagged position |
| Frames.KeptParsed | app.py:163-166 | every failed parse removes exactly one position |
| Frames.DropMissing | app.py:166 | `dropna` keeps the headers, and its rows are the present rows of that column |
| Frames.Dated | app.py:163 | the event-date column holds the parsed dates (missing where the parse failed) and every other column keeps its cells |
| Frames.ParseDateColumn | app.py:162-166 | the event-date column is set or overwritten; row j of the result is the j-th row whose date parsed, its event date is that parsed date, and every other cell is the original row's; every failed parse removes one row |
| Frames.CleanFrameDates | app.py:157-167 | an empty table, or one with no candidate date column, is unchanged; otherwise the table is the date rule applied to the first candidate column present, so it has the event-date column, a date in every row, and no more rows than before |
| Loader.CleanInto | app.py:184 | the target column is set or appended and holds `clean_currency` of the source column, row by row; every other column keeps its cells |
| Loader.ResolveInto | app.py:180-185 | the target column is set or appended; it holds the cleaned cells of the first alias present, or the default in every row when no alias is present; every other column keeps its cells |
| Loader.CleanSales | app.py:179-187 | an empty sales table is unchanged; otherwise `Monto` is the cleaned first sales alias (0.0 without one), `Cantidad`, when present, is its cells coerced to numbers, and every other column keeps its cells |
| Loader.SalesAmountPriority | app.py:180-184 | when `Total_Venta` exists, `Monto` is cleaned from it, whatever other aliases exist |
| Loader.CleanCosts | app.py:190-202 | an empty cost table is unchanged; otherwise `Margen_Pct` is the cleaned first margin alias (0.0 without one), `Precio_num` the cleaned first price alias (10.0 without one), and every other column keeps its cells |
| Loader.DefaultPriceFill | app.py:196-202 | with no price alias present, every `Precio_num` is 10.0 |
| Loader.FirstPresentAt | app.py:181 | the alias picked is the first one, in priority order, that is a header |
| Loader.FirstPresentExtra | app.py:193-197 | adding a column that is not an alias does not change which alias is picked, so the new `Margen_Pct` column leaves the price pick alone |
| Loader.CleanIfPresent | app.py:223-228 | a table that is empty or lacks the column is unchanged; otherwise that column is cleaned in place and every other column keeps its cells |
| Loader.CleanWaste | app.py:205-206 | a table that is empty or lacks `Merma_Soles` is unchanged; otherwise `Monto_Merma` is set or appended and holds the cleaned `Merma_Soles` cells, and every other column keeps its cells |
| Loader.CleanTargets | app.py:209-213 | the headers and rows are kept; every listed column the table has holds the cleaned old cells (a repeated target is cleaned once in effect) and every other column keeps its cells |
| Loader.CleanMenu | app.py:209-213 | the loop over the menu targets computes the same table as the fold over them |
| Loader.CleanMenuFrame | app.py:209-213 | an empty menu table is unchanged; otherwise each of `Margen`, `Mix_Percent`, `Total_Venta` and `Precio_num` it has holds its cleaned cells, and every other column keeps its cells |
| Loader.CleanPayments | app.py:216-220 | an empty payments table is unchanged; otherwise the headers are the renamed ones, `Monto` (when the renamed table has it) holds the cleaned renamed cells, and every other column keeps its cells |
| Loader.Database.Load | app.py:133-153 | every table of the store holds the safe read of its file key and sheet |
| Loader.Database.CleanDates | app.py:155-167 | every table of the store is replaced by its date-cleaned version, and the key set is kept |
| Loader.DatePassTable | app.py:156-167 | the loop over the candidate date columns stops at the first match and computes the date rule |
| Loader.DatePassAll | app.py:155-167 | the loop over the keys of the store replaces every table by its date-cleaned version and keeps the key set |
| Loader.Database.CleanSalesTable | app.py:179-189 | only the sales table changes, and it becomes its cleaned version |
| Loader.Database.CleanCostsTable | app.py:190-202 | only the cost table changes, and it becomes its cleaned version |
| Loader.Database.CleanWasteTable | app.py:205-206 | only the waste table changes |
| Loader.Database.CleanMenuTable | app.py:209-213 | only the menu-engineering table changes |
| Loader.Database.CleanPaymentsTable | app.py:216-220 | only the payments table changes |
| Loader.CleanAds | app.py:223-224 | a table that is empty or lacks `Gasto_Ads` is unchanged; otherwise `Gasto_Ads` holds its cleaned cells, and every other column keeps its cells |
| Loader.CleanFixed | app.py:227-228 | a table that is empty or lacks `Monto_Mensual` is unchanged; otherwise `Monto_Mensual` holds its cleaned cells, and every other column keeps its cells |
| Loader.Database.CleanAdsTable | app.py:223-224 | only the weekly marketing table changes |
| Loader.Database.CleanFixedTable | app.py:227-228 | only the fixed-cost table changes |
| Loader.Database.CleanProductTables | app.py:178-206 | the sales, cost and waste steps are applied in source order |
| Loader.Database.CleanMarketingTables | app.py:208-228 | the menu, payments, ads and fixed-cost steps are applied in source order |
| Loader.Database.CleanNumeric | app.py:169-228 | the store becomes the numeric pass of the old store |
| Loader.NumericPassTables | app.py:169-228 | the numeric pass changes exactly seven tables, each by its own cleaner, and leaves the other ten as they were |
| Loader.NumericPassColumns | app.py:179-202 | after the pass, a non-empty sales table has `Monto` and a non-empty cost table has `Margen_Pct` and `Precio_num` |
| Loader.LoadAllData | app.py:99-230 | the returned store is the numeric pass applied to the date-cleaned safe reads |
| Master.Revenue | app.py:258-261 | the day's summed revenue is 0 on a day without sales, and never negative when no amount is negative |
| Master.Units | app.py:258-261 | the day's summed units are 0 on a day without sales, and never negative when no count is negative |
| Master.Days | app.py:258-261 | the group-by keys are strictly ascending and are exactly the days with a sale |
| Master.AvgPrice | app.py:263-267 | with units, price times units gives the revenue; without units, the price is 0 |
| Master.RowDays | app.py:279-283 | a weekly row appends entries for its closing day and the days before it, each with a seventh of the spend |
| Master.SpreadAds | app.py:270-283 | the nested loops build the list of the reference spread |
| Master.SpreadLength | app.py:277-283 | every weekly row contributes exactly seven entries |
| Master.SpreadEntries | app.py:277-283 | entry k of the list is day `k % 7` back from the closing day of weekly row `k / 7`, carrying a seventh of that row's spend |
| Master.SpreadAdsOn | app.py:277-286 | the per-day sum of the list is, by an independent definition, a seventh of every week whose closing day lies 0 to 6 days after that day |
| Master.SpreadConserves | app.py:277-286 | the spread keeps the total: the dated entries sum to the total spend of the dated weeks |
| Master.OverlapAdds | app.py:285-286 | contributions of overlapping weeks on a shared day add up |
| Master.OverlapExample | app.py:279-286 | weeks closing on days 10 and 13, each spending 700, give 200 on day 8 and 100 on day 11 |
| Master.ConsecutiveWeeksDisjoint | app.py:279-283 | weeks closing 7 days apart never share a day |
| Master.ProjectFlags | app.py:292-295 | the joined context keeps exactly the known flag columns that exist |
| Master.MatchesAtMostOne | app.py:295 | with unique context dates, a day matches at most one context row, and exactly one when the date exists |
| Master.MatchMissing | app.py:295 | a day that no context row has gets no match |
| Master.MatchFound | app.py:293-295 | with unique context dates, the day of a context row matches exactly the known flags of that row |
| Master.JoinDay | app.py:292-295 | without a context table (or with an empty one) the record is not joined; when no context row has its day it is unmatched; otherwise it yields one record per matching row, carrying that row's flags; nothing but the context changes |
| Master.JoinDays | app.py:290-295 | every joined record is for one of the given days |
| Master.JoinDaysOnePerDay | app.py:290-295 | with unique context dates, there is exactly one record per day, in day order |
| Master.JoinDaysFrom | app.py:290-295 | every joined record is one of the records the join of its own day produces |
| Master.BuildMaster | app.py:248-300 | empty sales give an empty series, and every record is for a day with a sale |
| Master.OneRecordPerSalesDay | app.py:258-298 | one record per distinct sales day, strictly ascending, and ad-only days are absent |
| Master.RecordFields | app.py:258-297 | each record holds that day's revenue, units and guarded average price, and as ad spend a seventh of every week closing 0 to 6 days after it (0 when there is none) |
| Master.RecordContext | app.py:292-295 | with unique context dates, a record is not joined when the context table is missing or empty, unmatched when no context row has its day, and otherwise carries the known flags of the row of its day |
| Master.EndToEnd | app.py:248-300 | 100 over 5 units on day 1 and 150 over 5 units on day 2 give prices 20 and 30 and no ad spend |
| Finance.ClampRatio | app.py:551-553 | a ratio above 1 is divided by 100 once (the result times 100 gives it back), a ratio of at most 1 other than 0 is kept, and 0 becomes the 0.60 default |
| Finance.ClampRange | app.py:550-553 | any raw ratio in [0, 100] ends in (0, 1] |
| Finance.ClampIdempotent | app.py:551-553 | clamping a clamped ratio from [0, 100] changes nothing |
| Finance.ClampOnce | app.py:552 | the division by 100 happens once: 6000 becomes 60, not 0.6 |
| Finance.ClampExamples | app.py:394-396 | 60 becomes 0.6, 0.6 stays, 0 becomes the 0.6 default, and 1 stays 1 |
| Finance.DefaultRatioText | app.py:550-551 | the default ratio text "0.6" becomes the ratio 0.6 |
| Finance.FixedCostBase | app.py:535-539 | an empty fixed-cost table, or one without `Monto_Mensual`, gives the 3600 fallback; otherwise the base is the sum of the column's numbers |
| Finance.SumNumbers | app.py:536 | a column without any number sums to 0; its additivity and its skipping of missing cells are the two lemmas below |
| Finance.SumNumbersAppend | app.py:536 | the sum of the amounts splits over any two parts of the column |
| Finance.SumNumbersSkipsMissing | app.py:536 | a missing (non-number) amount adds nothing to the sum, wherever it sits, as pandas `sum` skips NaN |
| Finance.SumNumbersNonNegative | app.py:536 | non-negative monthly amounts give a non-negative base |
| Finance.FixedCostExample | app.py:535-536 | two rows of 1500 and 2100 give a base of 3600 |
| Finance.TreasuryBreakEven | app.py:555-563 | above the 0.05 margin floor, monthly times margin gives the base and daily times 30 gives monthly; otherwise both are 0 |
| Finance.TreasuryExample | app.py:558-560 | a base of 3600 with ratio 0.6 gives 9000 a month and 300 a day |
| Finance.TreasuryUnderFloor | app.py:561-563 | a ratio of 0.97 leaves the margin under the floor, so both targets are 0 |
| Finance.TreasuryMonotone | app.py:558-560 | above the floor, a lower cost ratio never raises the daily target |
| Finance.OverviewBreakEven | app.py:398-399 | with a positive margin, the target times the margin gives the burn; otherwise it is 9999 |
| Finance.VariantsDisagree | app.py:398-399 | at ratio 0.98 the overview gives a target of 5000 where the treasury tab gives 0 |
| Finance.FullCostRatio | app.py:394-399 | a raw ratio of 100 clamps to 1 and leaves no margin, so the target is 9999 |
| Finance.Progress | app.py:403 | 0 without a target; otherwise at most 1, exactly 1 once sales reach the target, and sales over target below it |
| Finance.Get | app.py:546 | `row.get(col, default)` gives the cell when the column exists and the default otherwise |
| Finance.TreasurySnapshot | app.py:519-563 | without a treasury sheet every figure keeps its initial value; otherwise the margin and target come from the last row's ratio and the fixed base, and the directive text is the last row's `ORDEN_TESORERIA` or `SIN DATOS` |
| Finance.MissingRatioColumn | app.py:550-555 | a last row without a ratio column falls back to ratio 0.6, so the margin is 0.4 |
| Finance.OverviewTarget | app.py:386-399 | without a treasury sheet the overview target is 0; otherwise it is the overview break-even of the last row's burn rate and clamped ratio |
| Finance.NoSheetNoProgress | app.py:403 | without a treasury sheet the progress is 0 |
| Finance.Classify | app.py:569-576 | alert exactly when the text has `ALERTA`; growth when it has `CRECIMIENTO` but no `ALERTA`; waiting when it has `ESPERANDO` and neither of those; otherwise standing |
| Finance.AlertWins | app.py:569-570 | any order containing `ALERTA` is an alert, whatever else it says |
| Finance.WaitingMessageWaits | app.py:521 | the initial order text is classified as waiting |
| Finance.NoSheetWaits | app.py:519-576 | without a treasury sheet the directive is waiting |
| Finance.MissingOrderStands | app.py:545-576 | a last row without an order column gives `SIN DATOS`, which is the standing default |
| Customers.CleanName | app.py:848-854 | every cleaned name is longer than two characters; a non-text origin is `DESCONOCIDO` |
| Customers.Finish | app.py:854 | the result is always longer than two characters; a name is kept exactly when it is longer than two characters, and any other becomes `ANÓNIMO` |
| Customers.AnonymousLetters | app.py:854 | the placeholder is the seven characters of `ANÓNIMO`, with a capital O acute |
| Customers.CleanPayerName | app.py:848-854 | the prefix loop computes the cleaned name |
| Customers.RemovePatterns | app.py:851-853 | the loop that replaces each prefix and re-strips computes the fold over the prefixes in order |
| Customers.RemovePrefixesShrinks | app.py:851-853 | removing prefixes never lengthens a name |
| Customers.RemovePrefixesAbsent | app.py:851-853 | a stripped name holding none of the prefixes comes out unchanged |
| Customers.CleanNameUpper | app.py:850-854 | no cleaned name holds an ASCII lower-case letter |
| Customers.ShortNameAnonymous | app.py:854 | a name of at most two characters, once upper-cased and stripped, is anonymous |
| Customers.AnonymousMerges | app.py:848-854 | the payers `anónimo` and `ab` both clean to the placeholder, so the group-by merges them into one customer |
| Customers.PlainName | app.py:850-854 | a name with no dash and no `P` is only upper-cased and stripped |
| Customers.WalletPrefixRemoved | app.py:850-853 | a `"plin - "` payment from a plain name is credited to the upper-cased name |
| Customers.Visits | app.py:856 | every payment is attributed to its cleaned payer |
| Customers.Aggregate | app.py:860-865 | every profile has at least one visit |
| Customers.AggregateKeys | app.py:860 | exactly the payers of the log have a profile |
| Customers.AggregateTotals | app.py:861-862 | a profile's visit count is the number of the payer's payments, and its total is their sum |
| Customers.AggregateBounds | app.py:863-864 | the last day and the largest amount bound every payment of the payer |
| Customers.AggregateAttained | app.py:863-864 | the last day and the largest amount are each attained by one of the payer's payments |
| Customers.OneVisitPeak | app.py:861-864 | a one-visit payer's largest amount is their total |
| Customers.DaysAbsent | app.py:867 | more than 45 days absent means the last visit is more than 45 days before the reference day |
| Customers.Categorize | app.py:879-882 | the first rule that applies wins: a whale is exactly one visit with a peak at the VIP level; a VIP is a non-whale with a total at the VIP level; a recurring customer a non-whale with a total from the recurring level up to below the VIP level; and casual any other |
| Customers.SegmentOf | app.py:869-887 | up to 45 days a customer keeps their category; beyond that, casual becomes lost and any other category becomes dormant with that category |
| Customers.WhaleBeforeVip | app.py:878-879 | one visit at the VIP level is a whale, never a VIP |
| Customers.OneVisitWhale | app.py:878-879 | a one-visit aggregated payer is a whale exactly when their total reaches the VIP level, and is never a VIP |
| Customers.CategoryLevels | app.py:878-881 | a VIP has a total of at least four tickets, a recurring customer between 1.5 and 4, a whale one visit, and a customer below every level is casual |
| Customers.DormancyBoundary | app.py:884 | exactly 45 days away is still active, 46 is not |
| Customers.SegmentExamples | app.py:869-887 | with a ticket of 20, one visit of 90 is a whale, 85 over three visits is a VIP, that VIP after 50 days is dormant, and a casual customer after 50 days is lost |
| Customers.SegmentLabel | app.py:878-887 | up to 45 days away the label is the category's label; beyond that it starts with the sleep sign (its full text is given by SegmentLabelAgrees) |
| Customers.SegmentLabelAgrees | app.py:878-887 | the label strings the source builds (the `"CASUAL" in` test and the text before `(`) are exactly the rendered segment |
| Customers.ContainsVipIff | app.py:891 | a segment label contains `VIP` exactly for active and dormant VIPs |
| Customers.CountVipLabels | app.py:891 | the count as written is at most the number of labels, and 0 exactly when no label contains `VIP` |
| Customers.VipCountIncludesDormant | app.py:889-892 | the count as written is active VIPs plus dormant VIPs |
| Customers.DormantVipCounted | app.py:889-892 | a VIP away for 50 days is counted as written but not by the corrected count |
| Customers.CountActiveVip | app.py:889-892 | the corrected count of active VIPs is at most the number of customers, and 0 exactly when no customer is an active VIP |
| Metrics.ClassifySpeed | app.py:735-738 | fast exactly up to 5 minutes, slow exactly above 10 |
| Metrics.SpeedMonotone | app.py:735-738 | a longer wait never gets a faster class |
| Metrics.SpeedBoundaries | app.py:736-737 | 5 minutes is fast, 10 is normal, 10.5 is slow |
| Metrics.CountSlowPositions | app.py:744 | the count of slow orders is the number of positions whose wait exceeds 10 minutes |
| Metrics.SlowPercent | app.py:744 | the share times the number of orders is 100 times the number of waits over 10 minutes; so it is between 0 and 100, and 0 exactly when no wait exceeds 10 minutes |
| Metrics.Mer | app.py:1003 | with spend, the ratio times the spend gives the sales; without spend, it is 0 |
| Metrics.WindowSales | app.py:999-1000 | the masked sum is 0 when no sale falls in the window, and never negative when no amount is negative; WindowIsDailySum ties it to the daily series |
| Metrics.Line | app.py:996-1014 | the line of a week closing on its date has the row's spend and review count, the sales of the seven days ending there, and a ratio that gives those sales back when something was spent (0 otherwise) |
| Metrics.WeeklyReport | app.py:995-1016 | the loop over the marketing rows builds the reference report |
| Metrics.ProcessWeek | app.py:996-1016 | one iteration gives a line for the week closing on its date, with the row's spend and review count, the sales of the seven days ending there, and a ratio that gives those sales back when something was spent (0 otherwise) |
| Metrics.DatedRows | app.py:989-990 | the `dropna`: row j of the result is the row at the j-th dated position, every dated row is kept, in row order, and every kept row is dated |
| Metrics.Report | app.py:990-1016 | one line per row with a parsed closing date, in row order; line i carries the i-th dated row's closing day, spend and review count, its seven-day window's sales and a ratio that gives them back |
| Metrics.UndatedRowDropped | app.py:989-990 | a row whose closing date did not parse adds no line |
| Metrics.WindowIsDailySum | app.py:999-1001 | the week's sales are the master series' daily revenue summed over the window's days |
| Metrics.WindowHoldsWholeSpend | app.py:279-283 | the MER window of a week is exactly where the master series spreads its spend: the spread sums to the whole spend over that window |
| Metrics.MerExample | app.py:1003 | a sale of 700 inside the window and one of 140 before it, against a spend of 70, give a ratio of 10 |

## Left out

- The user interface is not modelled: page setup, CSS, menus, every chart and every `st.*` call. Display-only filtering is left out too: month pivots, search filters, `head(50)`, menu-engineering averages and the CX clock-time arithmetic.
- Google access is not modelled: authentication, `gspread` calls, the `time.sleep` throttle and exception logging. The fetch is a function parameter that returns an optional grid.
- The Streamlit cache policies are not modelled; they belong to the runtime.
- `pd.to_datetime` is not modelled. Its day-first and mixed-format parsers are function parameters that take the whole column and return one result per text, so a result may depend on the rest of the column (pandas infers one format per column). Only the selection rule and the row dropping are modelled.
- The model does not capture floating point or NaN. Amounts are exact reals, and the float grammar is a plain decimal grammar: an optional sign, digits and at most one point. There are no exponents, `inf` or `nan`.
- Clocks are parameters. This covers `datetime.now()`, the five-hour offset of the current day (app.py:314), and `pd.to_datetime("today")` as the reference day of days absent.
- The reference ticket is a parameter of the segmentation. Its computation from sales (app.py:821-831) is not modelled.
- The master series, the customer tab and the MER report take typed records as input: sales, weekly ads, context days, payments, and the marketing rows of the MER report. Extracting those records from the loaded tables is not modelled.
- Metrics.Report: the conditions under which the MER tab shows no report at all are not modelled; the report is defined for any rows and sales. (a) With an empty sales table the tab stops before the report (app.py:966-968), where `Report(rows, [])` gives lines with zero sales and ratio 0. (b) With a non-empty sales table that has no `Fecha_dt`, the mask at app.py:999 raises a KeyError, which app.py:1058-1059 catches and shows as an error, so no report appears. (c) `Fecha_Cierre` is parsed again at app.py:989, day-first only and without the mixed-format fallback, so a row whose closing date was kept only through the fallback at app.py:164-166 is dropped there. `MarketingRow.closing` is the result of that day-first parse, and the caller supplies it. An empty marketing table (app.py:972) and a missing `Fecha_Cierre` column (app.py:985-987) also give no report.
- Master.BuildMaster: the crash of `build_econometric_master` on a non-empty sales table that lacks `Fecha_dt` or `Cantidad` is not modelled. The group-by at app.py:258-261 then raises a KeyError, and the econometric tab calls the builder outside any `try` (app.py:1069), so the page fails. Both columns can be missing after loading: `Cantidad` is only coerced when present (app.py:186-187), and a sales sheet with none of the date columns gets no `Fecha_dt` (app.py:157-167). A `Sale` record always has a date and a unit count, so the model starts after a successful extraction.
- The sort of the ads by date (app.py:275), the sort of the master series (app.py:298) and the sort of marketing rows (app.py:990) are not modelled as operations. For the master series, the result is already ascending because its days come out of the group-by in order. For the ads, the sort changes only the order in which entries are added, and the per-day sums are exact. For the MER report, lines follow row order, and each line depends only on its own row.
- The re-parse of the ads' dates inside the master builder (app.py:274) is not modelled. A weekly ad simply has a parsed closing day or none. An ad with none contributes nothing to any day.
- Upper-casing covers ASCII and Latin-1 only. Full Unicode case mapping is not modelled.
- `Text.Upper` maps `ß` to itself, while Python maps it to `SS`.
- The customer tab re-parses `Fecha_Operacion` and drops rows without a date (app.py:842-846), then derives the month. Both are not modelled. Payments arrive with their day.
- Duplicate column names are not modelled.
- Frames.SplitGrid: a grid with a row whose length differs from the header's is read as an empty table. pandas would pad a shorter row with missing values, and would raise (which `safe_read` turns into an empty table) only for a wider row or when every row is narrower. `get_all_values` returns rectangular grids, so this case does not arise from the service.
- The MER report keeps the summed sales, the spend, the ratio and the review count. It leaves out the printed week label, `Google_Stars`, the review difference and the KPI deltas, which are display.
- `Metrics.MarketingRow`: a missing `Gasto_Ads` column, or missing review columns, is modelled by the caller passing `Number(0.0)`. This matches `row.get(..., 0)`. The choice of review column is also the caller's: `Google_Review` when the row has it, otherwise `Google_Reviews`, otherwise 0 (app.py:1005).
- The sheet columns `Runway_Dias`, `Burn_Rate_Diario` and `Deuda_TC_Auditada` are read and kept in the snapshot. They feed only display figures.
- Finance.TreasurySnapshot: its `runway` field holds the `Runway_Dias` figure that the treasury tab stores in `kpi_runway` (app.py:546). That tab never displays it; its own `runway_val` stays 0.0 (app.py:522) and is not used either. The field is kept so the snapshot records every figure read from the row.

Three details of the code that are easy to misread:

- The ad spread covers the closing day and the six days before it (`curr_date - i` for i = 0..6). It does not cover seven days strictly before the closing day.
- A whale needs a peak of at least the VIP level (`>=`), not strictly above it.
- The only dormancy threshold in the code is "more than 45 days".

## Findings

| source | as written | input that shows it | evidently intended | confidence | as-written member | corrected member |
|---|---|---|---|---|---|---|
| app.py:889-892 | the KPI "Socios VIP Activos" counts every segment label that contains `VIP`, and a dormant VIP's label `💤 DORMIDO (💎 VIP)` contains it too | ticket 20, a customer with 85 over 3 visits whose last visit was 50 days ago: segment dormant VIP, still counted as an active VIP | count only customers whose segment is an active VIP | medium, not executed | Customers.DormantVipCounted | Customers.CountActiveVip |

`Customers.CountVipLabels` is the count as written, a substring test over the rendered labels. `Customers.VipCountIncludesDormant` proves that, for every list of segments, it equals the corrected count plus the dormant VIPs. The corrected count is the one to display.
