# ATM incident dashboards: the aggregation rules, verified

Two Streamlit dashboards report on a fleet of ATMs:
- `dashboard_klien.py` is the client view;
- `dashboard_atm.py` is the ATM view.

Around their page layout and spreadsheet loading sits a small layer of rules that turns a table of dated incident rows into reports:
- week buckets and weekly rollups;
- month-over-month and week-over-week trend deltas;
- per-terminal risk tiers;
- ranked "top terminal" tables;
- per-branch breakdowns.

This project models that layer in Dafny and proves what it promises.

The single rule that runs through everything is the **metric mode**. A slice of the "Complain" category is measured by summing the `JUMLAH_COMPLAIN` quantity column. Every other slice is measured by counting its rows. The model carries this as `Incidents.MetricMode`:
- `Incidents.Measure` measures a slice;
- `Tiers.CategoryMode` chooses the mode for the client view;
- `AtmMetrics.AtmMode` chooses it for the ATM view.

Modules, one per file:

| file | module | what it models |
|---|---|---|
| `text.dfy` | `Text` | `str.upper`/`lower`/`strip`, `int()`/`str()` on naturals, substring search |
| `incidents.dfy` | `Incidents` | the incident row, mask selection `df[mask]`, the two measures, `groupby` totals, distinct values |
| `periods.dfy` | `Periods` | the week bucket of a day, the week map, month names, previous month (both variants), previous week |
| `tiers.dfy` | `Tiers` | `calculate_risk_tiers` and `safe_risk_calc` |
| `client.dfy` | `ClientView` | `get_val_safe`/`get_val_std`, the header and micro totals, the overview rollup loop, the week cutoff (in place, as a class) |
| `trends.dfy` | `Trends` | the percent-change guard, the branch/TID diff loops, the largest rise/drop pick, recurring TIDs, the header ticker |
| `headers.dfy` | `Headers` | both header de-dup loops, `clean_zeros`, `style_logic`'s chain colouring |
| `sorting.dfy` | `Sorting` | a descending sort by an integer key (the effect of `sort_values(ascending=False)`) |
| `pivots.dfy` | `Pivots` | the TID pivot (as a class whose missing week columns are filled in place), its lines, ranking and `head(n)` |
| `atm_load.dfy` | `AtmLoad` | the loader's in-place normalisation of the AIMS sheet (as a class) |
| `atm_metrics.dfy` | `AtmMetrics` | `get_count_or_sum`, month and category selection, the global table, the branch breakdown, the Top-5 panel |

Code that changes state in the source is modelled as methods, each proved against a function that specifies it:
- the rollup loops;
- the trend loops;
- the header de-dup loops;
- `style_logic`;
- the in-place week cutoff;
- the pivot's week filling;
- the loader.

The properties are then proved about those functions.

## Model

| member | source | states |
|---|---|---|
| Text.Upper | dashboard_atm.py:131 | `str.upper()` keeps the length and upper-cases each ASCII letter, position by position |
| Text.Lower | dashboard_atm.py:183 | `str.lower()` (the `case=False` comparison) keeps the length and lower-cases each ASCII letter |
| Text.UpperIdempotent | dashboard_atm.py:242 | upper-casing an upper-cased name changes nothing |
| Text.LowerOfUpper | dashboard_atm.py:143-144 | a case-insensitive comparison ignores a prior upper-casing |
| Text.StripLeft | dashboard_atm.py:131 | removes exactly a whitespace prefix and leaves a non-space first character |
| Text.StripRight | dashboard_atm.py:131 | removes exactly a whitespace suffix and leaves a non-space last character |
| Text.Strip | dashboard_klien.py:847 | the result is an infix of the input with no whitespace at either end, and everything cut away around it is whitespace |
| Text.StripIdempotent | dashboard_klien.py:1098 | stripping twice is stripping once |
| Text.NatToString | dashboard_atm.py:130 | `str(n)` is a non-empty string of decimal digits |
| Text.IntToString | dashboard_klien.py:386 | `str(i)` starts with a minus sign exactly for a negative number, and the digits after it parse back to its magnitude |
| Text.ParseNat | dashboard_klien.py:366 | parses only plain digit strings: it succeeds exactly on a non-empty string of decimal digits |
| Text.ParseNatToString | dashboard_klien.py:366 | `int(str(n)) == n`: rendering and parsing are inverse |
| Text.NatToStringInjective | dashboard_atm.py:130 | distinct day buckets render to distinct labels |
| Text.Contains | dashboard_atm.py:183 | substring test: true exactly when the needle occurs at some position |
| Incidents.Where | dashboard_atm.py:183-185 | `df[mask]` keeps exactly the rows passing the mask and no longer than the slice |
| Incidents.WhereSubMultiset | dashboard_atm.py:183-185 | `df[mask]` never holds a row more often than the slice does |
| Incidents.WhereAppend | dashboard_klien.py:1046-1050 | selecting from a concatenation selects from each part |
| Incidents.WhereNone | dashboard_klien.py:718-719 | a mask no row passes selects nothing |
| Incidents.WhereOnlyAt | dashboard_klien.py:1064-1067 | a mask exactly one row passes selects that row alone |
| Incidents.WhereAll | dashboard_klien.py:714-720 | a mask every row passes keeps the slice unchanged |
| Incidents.WherePartition | dashboard_klien.py:718-719 | a mask and its negation split the rows into two parts holding each row exactly as often as the slice |
| Incidents.SumQtyAppend | dashboard_atm.py:143-146 | the quantity sum of a concatenation is the sum of the parts' sums |
| Incidents.MeasureAppend | dashboard_klien.py:1047-1050 | both measures are additive over concatenation |
| Incidents.MeasureSplit | dashboard_klien.py:1047-1050 | the rows a mask keeps and those it drops measure, together, the whole slice |
| Incidents.MeasureDisjointUnion | dashboard_atm.py:265 | rows passing either of two disjoint masks measure the sum of the two selections |
| Incidents.SumOfOnes | dashboard_atm.py:125-126 | with every quantity 1, summing quantities is counting rows |
| Incidents.Image | dashboard_atm.py:202 | the distinct values of a column: every row's value, and only values some row has |
| Incidents.SumOverKeys | dashboard_atm.py:265 | adding up the measures of distinct groups measures the rows in any of them: none counted twice, none lost |
| Incidents.ImageBound | dashboard_atm.py:202-203 | a column has no more distinct values than the slice has rows |
| Incidents.GroupTotals | dashboard_klien.py:207-209 | `groupby(key)` then the mode's aggregate: one entry per distinct key |
| Incidents.GroupCountPositive | dashboard_klien.py:209 | in row-count mode every key present counts at least 1 |
| Incidents.Distinct | dashboard_klien.py:1128-1129 | the pivot index: the same values as the column, none twice |
| Periods.WeekLabelBands | dashboard_atm.py:130 | days 1-7 are W1, 8-14 W2, 15-21 W3, 22-28 W4 and 29-31 W5: the bucket is not capped |
| Periods.WeekNumber | dashboard_klien.py:715-718 | the week map with `fillna(0)`: W1..W4 map to 1..4, every other label to 0 |
| Periods.WeekNumberOfLabel | dashboard_klien.py:715 | the k-th week column maps to k |
| Periods.WeekNumberOfDay | dashboard_klien.py:715-718 | a day's bucket maps to its week number up to day 28, and to 0 after |
| Periods.CutoffLimit | dashboard_klien.py:716 | `week_map.get(sort_week, 4)`: the selected week's number, 4 for any other label |
| Periods.IndexOf | dashboard_klien.py:215 | `list.index`: the first position of the value, or failure when it is absent |
| Periods.MonthsDistinct | dashboard_klien.py:214 | the twelve month names are distinct |
| Periods.IndexOfMonth | dashboard_klien.py:215 | a month's position is its month number less one |
| Periods.PrevMonthFullEn | dashboard_klien.py:213-216 | an English month name gives a month name; any other name gives `None` |
| Periods.PrevMonthOfEach | dashboard_klien.py:215 | January gives December, and every other month its predecessor |
| Periods.PrevMonthInjective | dashboard_klien.py:213-216 | no two months share a predecessor |
| Periods.MonthMap | dashboard_atm.py:168 | `month_map` has exactly the month numbers present in the data as keys |
| Periods.PreviousMonthLabel | dashboard_atm.py:176-177 | the previous label is a month name exactly when the month number less one is present and above 0, and "N/A" otherwise |
| Periods.JanuaryHasNoPrevious | dashboard_atm.py:176-177 | January never has a previous month: no wrap to December |
| Periods.SelectedMonthNum | dashboard_atm.py:175 | the selected name's month number when one is present; otherwise no present month bears that name (Python raises) |
| Periods.MonthNamesDiffer | dashboard_atm.py:175 | only one month number bears a given name |
| Periods.RemoveChar | dashboard_klien.py:366 | `str.replace(c, '')` leaves no `c` and keeps every other character exactly as often as the input holds it |
| Periods.RemoveCharAppend | dashboard_klien.py:366 | removal works piece by piece, so the kept characters keep their order |
| Periods.RemoveCharDigits | dashboard_klien.py:366 | removing `W` from digits changes nothing |
| Periods.PrevWeekOf | dashboard_klien.py:366 | `W{n}` is preceded by `W{n-1}` for n > 1, and W1 (or W0) by the empty label |
| Tiers.ClassifyPartition | dashboard_klien.py:211 | the three tier counts add up to the number of terminals whose value is at least 1 |
| Tiers.TiersDisjoint | dashboard_klien.py:211 | no value falls in two tiers |
| Tiers.CalculateRiskTiers | dashboard_klien.py:203-204 | an empty slice gives (0, 0, 0) |
| Tiers.ClassifyGroupTotals | dashboard_klien.py:207-211 | each tier of the grouped totals counts exactly the terminals whose own rows measure a value in its band |
| Tiers.CalculateTiers | dashboard_klien.py:203-211 | on a non-empty slice, a terminal is in a tier exactly when its own rows, measured in the mode the whole slice selects, fall in that band |
| Tiers.SafeRiskCalc | dashboard_klien.py:1064-1065 | an empty slice gives (0, 0, 0) |
| Tiers.SafeComplainTiers | dashboard_klien.py:1064-1068 | on a non-empty "Complain" slice with quantities, a terminal is "1x", "2-3x" or ">3x" exactly when its tickets' quantities add up to 1, to 2 or 3, or to more than 3 |
| Tiers.SafeCountTiers | dashboard_klien.py:1064-1068 | for any other category, or without the quantity column, a terminal's tier is the band of its number of tickets |
| Tiers.CountModeCoversAllTids | dashboard_klien.py:1067-1078 | counting rows, the tiers add up to the number of distinct TIDs (the "TOTAL UNIT" row) |
| Tiers.SafeTotalUnitsCountMode | dashboard_klien.py:1064-1078 | whenever `safe_risk_calc` counts rows, "TOTAL UNIT" is the number of distinct TIDs |
| Tiers.CalculateTotalUnitsCountMode | dashboard_klien.py:206-211 | whenever `calculate_risk_tiers` counts rows, the tiers add up to the distinct TIDs |
| Tiers.DistinctTidsCard | dashboard_klien.py:208 | a slice of distinct terminals has as many TIDs as rows |
| Tiers.TotalsOfDistinct | dashboard_klien.py:207 | each terminal of such a slice is measured by its own row |
| Tiers.ClassifyAllOnes | dashboard_klien.py:211 | when every terminal counts once, all are "1x" |
| Tiers.TierOfOnePositive | dashboard_klien.py:211 | with one positive terminal, each tier holds it or nothing |
| Tiers.ClassifyOnePositive | dashboard_klien.py:211 | with one positive terminal, the table holds just that terminal, in its tier |
| Tiers.TotalOfUniqueTid | dashboard_klien.py:207-208 | a TID held by one row alone is measured by that row |
| Tiers.MeasureOne | dashboard_klien.py:207-208 | one row counts 1, or its quantity |
| Tiers.DistinctTidsAllSingle | dashboard_klien.py:208-211 | counting rows over distinct terminals, every terminal is "1x" |
| Tiers.DistinctTidsOnePositive | dashboard_klien.py:1066-1068 | summing quantities over distinct terminals with one positive quantity, only that terminal is tiered |
| Tiers.ZeroTotalTerminalInNoTier | dashboard_klien.py:206-211 | a terminal whose quantities total 0 lands in no tier under either rule, so "TOTAL UNIT" undercounts the distinct TIDs |
| Tiers.SumsOfUnbalancedPair | dashboard_klien.py:206 | a quantity sum of 5 over 2 rows switches `calculate_risk_tiers` to sum mode |
| Tiers.CalculateOnBalancedSlice | dashboard_klien.py:206-209 | quantities summing to the row count keep `calculate_risk_tiers` in count mode |
| Tiers.SafeOnBalancedSlice | dashboard_klien.py:1066 | `safe_risk_calc` sums the same slice's quantities |
| Tiers.TieringRulesDisagree | dashboard_klien.py:206 | the two tiering rules give different tables, and different TOTAL UNIT rows, on the same "Complain" slice (also dashboard_klien.py:1066) |
| ClientView.SliceValue | dashboard_klien.py:326-334 | `get_val_safe`: the slice's measure in the category's mode, so 0 when empty |
| ClientView.SliceValueSplit | dashboard_klien.py:1046-1050 | a slice's value is the sum of the values of any mask and its negation |
| ClientView.HeaderTotal | dashboard_klien.py:723-726 | the header total, computed without the emptiness test, equals `get_val_safe` |
| ClientView.HeaderAverage | dashboard_klien.py:728 | the header average is a quarter of the total, and 0 for spare parts |
| ClientView.MicroTotal | dashboard_klien.py:743-748 | the micro total of a missing (column-less) frame is 0 |
| ClientView.MicroTotalAgrees | dashboard_klien.py:743-748 | the micro total agrees with `get_val_safe` except on a non-empty "Complain" slice without a quantity column; on any "Complain" slice without that column it is 0 |
| ClientView.WeekSlice | dashboard_klien.py:1048 | a week's slice keeps the frame's columns and is the mask selection `WEEK == w`: exactly the rows of that week, each as often and in the order the frame holds it |
| ClientView.LayoutAsWritten | dashboard_klien.py:834 | the spare-part layout is chosen exactly for the name "Sparepart&kaset", the MRI layout exactly for "MRI Project", the standard layout for every other category (also dashboard_klien.py:911, dashboard_klien.py:1030) |
| ClientView.LayoutFor | dashboard_klien.py:834 | the intended dispatch: the spare-part layout exactly for the menu item "SparePart & Kaset", the MRI layout exactly for "MRI Project" (also dashboard_klien.py:645) |
| ClientView.CurrentFrame | dashboard_klien.py:699-712 | `df_curr` is the column-less frame exactly for spare parts, whose branch only passes, and the category's own selection otherwise |
| ClientView.SparePartFallsThrough | dashboard_klien.py:834 | as written, no menu item reaches the spare-part layout; the spare-part item reaches the standard layout with the column-less frame (also dashboard_klien.py:645, dashboard_klien.py:709) |
| ClientView.LayoutForMenu | dashboard_klien.py:834 | with the intended dispatch the spare-part item gets its layout, every other item keeps its layout, and the standard layout always has a frame with columns (also dashboard_klien.py:645, dashboard_klien.py:1030) |
| ClientView.OverviewRollup | dashboard_klien.py:1045-1050 | fails exactly on the column-less frame, where `df_curr['WEEK']` raises an uncaught KeyError; otherwise the loop fills one value per week W1..W4, each that week's `get_val_std`, and a total equal to the value of the rows in W1..W4 |
| ClientView.RollupByLabel | dashboard_klien.py:1047-1050 | for any labels and value per label, the loop's map has exactly the labels as keys, each with its value, and the running total is the sum of the values label by label |
| ClientView.RollupWeeks | dashboard_klien.py:1047-1050 | for any distinct labels, the loop's map holds each label's value and its running sum is the value of the rows in those weeks |
| ClientView.TotalUpToSpec | dashboard_klien.py:1047-1050 | the running total after n labels measures the rows in the first n weeks |
| ClientView.TotalStep | dashboard_klien.py:1050 | one iteration adds the next week's value on both sides |
| ClientView.RollupStep | dashboard_klien.py:1048-1050 | one more distinct label adds exactly that week's value |
| ClientView.TotalAll | dashboard_klien.py:1047-1050 | after every label the running total is the value of the rows in those weeks |
| ClientView.OverviewRates | dashboard_klien.py:1052-1053 | `avg_val` is total/4 and `prob_val` is total/611·100 |
| ClientView.OverviewMissesLateWeeks | dashboard_klien.py:1046-1050 | the overview total plus the rows outside W1..W4 is the month's value: W5 rows are left out of Σ |
| ClientView.WeekOutside | dashboard_klien.py:715-718 | the mask "week not among ws" |
| ClientView.WeekWithin | dashboard_klien.py:718-719 | the mask `TEMP_W_NUM <= limit` passes exactly the rows whose mapped week is within the limit |
| ClientView.WeekCutoff | dashboard_klien.py:714-720 | spare parts and "All Week" keep the slice; otherwise the result is the mask selection of the rows whose mapped week is at most the selected week's number, each kept as often as the slice holds it and in order, and every label outside W1..W4 survives |
| ClientView.WeekCutoffIdempotent | dashboard_klien.py:714-720 | cutting off twice at the same week is cutting off once |
| ClientView.WeekCutoffMonotone | dashboard_klien.py:716-719 | a later week keeps every row an earlier week keeps |
| ClientView.WeekNumbers | dashboard_klien.py:718 | the TEMP_W_NUM column: one mapped week number per row |
| ClientView.KeepAtMostWeekNumbers | dashboard_klien.py:718-719 | filtering on the temporary column is filtering on the week map |
| ClientView.CurrentSlice.constructor | dashboard_klien.py:711 | a slice starts with the given rows and no temporary column |
| ClientView.CurrentSlice.AsFrame | dashboard_klien.py:721-726 | the slice as a frame, with its rows and quantity column |
| ClientView.CurrentSlice.ApplyWeekCutoff | dashboard_klien.py:714-720 | the in-place cutoff leaves exactly `WeekCutoff` of the old rows, and the temporary column is gone again |
| Trends.PctChangeCases | dashboard_klien.py:377 | percent change: `(curr-prev)/prev·100` for prev > 0, 100 from nothing to something, 0 otherwise; it never divides by zero |
| Trends.PctChangeSign | dashboard_klien.py:385-387 | for prev ≥ 0 the change is positive exactly when the value rose, and negative exactly when it fell from a positive value |
| Trends.PctChangeAtLeastMinus100 | dashboard_klien.py:416 | for non-negative counts the change is never below -100% |
| Trends.TrendOf | dashboard_klien.py:414-417 | a key missing on the previous side has DIFF = VAL; missing on the current side, VAL = 0 and DIFF = -previous |
| Trends.DiffLabel | dashboard_klien.py:386 | `diff_str` starts with "+" exactly for a rise and "-" exactly for a fall, is "0" for no change, and its digits read back as the size of the change |
| Trends.Enumerate | dashboard_klien.py:413 | `for c in all_cabs` visits every element of the set once |
| Trends.TableSpec | dashboard_klien.py:413-417 | entry j of the table is the trend entry of key j |
| Trends.AppendTrends | dashboard_klien.py:413-417 | appending one entry per key builds the table of those keys |
| Trends.TableOfUnion | dashboard_klien.py:412-417 | the table over the key union has one entry per key of either side, none twice |
| Trends.TrendDiffs | dashboard_klien.py:412-417 | the diff loop yields a trend table with one entry per key of the union (also dashboard_klien.py:444-449) |
| Trends.MaxDiffIndex | dashboard_klien.py:421 | the top of the descending DIFF sort has the largest DIFF |
| Trends.MinDiffIndex | dashboard_klien.py:424 | the top of the ascending DIFF sort has the smallest DIFF |
| Trends.PickRise | dashboard_klien.py:421-423 | a rise is reported exactly when some DIFF is positive, and then it is an entry with the largest DIFF |
| Trends.PickDrop | dashboard_klien.py:424-426 | a drop is reported exactly when some DIFF is negative, and then it is an entry with the smallest DIFF |
| Trends.TableRowOf | dashboard_klien.py:412-417 | every key of either side has an entry in the trend table, carrying that key's DIFF |
| Trends.PickRiseOnTable | dashboard_klien.py:410-423 | on a trend table, the rise reported is a key of either side whose increase is largest, present exactly when some key rose |
| Trends.PickDropOnTable | dashboard_klien.py:410-426 | on a trend table, the drop reported is a key of either side whose decrease is largest, present exactly when some key fell |
| Trends.RiseAndDropDiffer | dashboard_klien.py:421-426 | a reported rise and a reported drop are never the same line |
| Trends.Agg | dashboard_klien.py:404-407 | aggregation fails exactly on the column-less frame; otherwise it has one entry per key present (also dashboard_klien.py:430-433) |
| Trends.AggIsSliceValue | dashboard_klien.py:404-407 | each aggregated entry is `get_val_safe` of that key's rows |
| Trends.ScopeValue | dashboard_klien.py:326-328 | `get_val_safe` of the column-less frame is 0, and of any other frame its measure |
| Trends.RecurringTids | dashboard_klien.py:392-394 | recurring TIDs are TIDs of the current week and of the previous one |
| Trends.RecurringMeansBothWeeks | dashboard_klien.py:392-394 | a TID recurs exactly when, in weekly mode, it has a row in this week and in the week before |
| Trends.LocInfo | dashboard_klien.py:438-442 | the location and branch of the first target row with that TID (`iloc[0]`), or nothing exactly when no row has it |
| Trends.MonthSlice | dashboard_klien.py:356-357 | a month slice keeps the frame's columns and is the mask selection `BULAN_EN == month`: exactly the rows of that month, each as often and in the order the frame holds it |
| Trends.PrevMonthOrBlank | dashboard_klien.py:354-355 | the previous month's name, or "" exactly for a name that is not a month |
| Trends.Scopes | dashboard_klien.py:359-369 | monthly mode compares the two months; weekly mode with no previous week leaves the previous scope column-less |
| Trends.ScopesMissingPrevious | dashboard_klien.py:365-367 | the previous scope is missing exactly in weekly mode for a week with no predecessor |
| Trends.FirstWeekHasNoPrevious | dashboard_klien.py:366 | W1 has no previous week |
| Trends.TickerOn | dashboard_klien.py:372-460 | with the scopes known, the ticker is "System Syncing" exactly when the previous scope is missing, and otherwise reports the monthly and scope deltas, the recurring TIDs and the largest branch and TID rise and drop (also dashboard_klien.py:477-480) |
| Trends.HeaderTicker | dashboard_klien.py:347-480 | an empty target shows only the fleet line; otherwise the ticker falls back to "System Syncing" exactly in weekly mode for a week with no predecessor (W1 included), and reports the scopes' trends otherwise |
| Trends.ScopesCorrected | dashboard_klien.py:367 | the corrected scopes always have a previous scope, equal to the written ones wherever those have one |
| Trends.HeaderTickerCorrected | dashboard_klien.py:347-480 | with an empty previous week for W1, the ticker never falls back to "System Syncing" and reports the scopes' trends |
| Trends.CorrectedFirstWeekSummary | dashboard_klien.py:367 | corrected, the previous scope of W1 is an empty week whose value is 0 (also dashboard_klien.py:383-385) |
| Headers.CountUpToPositive | dashboard_klien.py:854 | a name has been seen exactly when its count so far is positive |
| Headers.CountUpToMonotone | dashboard_klien.py:852-858 | counting further never counts less |
| Headers.CountUpToGrows | dashboard_klien.py:855 | each repeat increases the count |
| Headers.SeenCounts | dashboard_klien.py:851-858 | `seen_counts` holds every name met, with one less than its number of occurrences |
| Headers.DedupLast | dashboard_klien.py:854-859 | one iteration appends one header: the name labelled with its earlier occurrences |
| Headers.DedupByCount | dashboard_klien.py:850-859 | one header per name: the first occurrence keeps its name, the k-th repeat becomes `name_k` |
| Headers.LabelInjective | dashboard_klien.py:856 | labels of non-blank names without `_` are equal only for equal names and counts |
| Headers.DedupUnique | dashboard_klien.py:850-859 | with non-blank names free of `_`, the de-duplicated headers are pairwise distinct |
| Headers.DedupCanCollide | dashboard_klien.py:850-859 | a name that already looks like a repeat collides: `c, c, c_1` gives `c, c_1, c_1` |
| Headers.DedupKeepsBlanks | dashboard_klien.py:1098 | in the monitor variant repeated blank headers all stay blank |
| Headers.CustomName | dashboard_klien.py:847 | a header is stripped, and "nan", "none" (any case) or blank becomes "Info": never blank (also dashboard_klien.py:853) |
| Headers.CustomNames | dashboard_klien.py:847-853 | one cleaned name per header cell |
| Headers.SuffixRepeats | dashboard_klien.py:850-859 | the de-dup loop builds exactly the count-labelled headers (also dashboard_klien.py:1097-1098) |
| Headers.CustomHeaders | dashboard_klien.py:846-859 | `get_custom_data`'s headers: as many as cells, the i-th the cleaned i-th name labelled with its earlier occurrences |
| Headers.StrippedNames | dashboard_klien.py:1096-1098 | one stripped name per header cell |
| Headers.MonitorHeaders | dashboard_klien.py:1096-1098 | `get_monitor_slice`'s headers: as many as cells, each stripped name labelled with its earlier occurrences, blanks unsuffixed |
| Headers.CleanCell | dashboard_klien.py:218-219 | a cell is blanked exactly when it reads "0", "0.0", "0.00", "nan" or "None", and kept otherwise |
| Headers.CleanZeros | dashboard_klien.py:218-219 | `clean_zeros` keeps the table's shape and cleans every cell |
| Headers.CleanZerosIdempotent | dashboard_klien.py:218-219 | cleaning twice is cleaning once, and no zero token survives |
| Headers.DotIndex | dashboard_klien.py:806 | the first decimal point of a cell, if any |
| Headers.Pow10 | dashboard_klien.py:806 | a power of ten is at least 1 |
| Headers.ParseDecimal | dashboard_klien.py:806 | `float` of an unsigned decimal is non-negative, and of a digit string its integer value |
| Headers.GetVal | dashboard_klien.py:805-807 | `get_val`: 0 for a blank cell, never negative |
| Headers.GetValOfCount | dashboard_klien.py:805-807 | a count written in decimal reads back as itself, and a blanked zero reads as 0 (also dashboard_klien.py:218-219) |
| Headers.Compare | dashboard_klien.py:821-822 | a cell is coloured bad exactly when it exceeds the previous week, and good exactly when it is below it |
| Headers.PrevWeekColumn | dashboard_klien.py:811 | W2, W3 and W4 (and only they) have a previous week column |
| Headers.StylesAfter | dashboard_klien.py:811-823 | the style list keeps one entry per cell after every round |
| Headers.StylesAfterChain | dashboard_klien.py:813-823 | after the whole chain every cell has its chain style |
| Headers.StylesAfterAt | dashboard_klien.py:813-822 | after k rounds a cell is coloured only if it is the first occurrence of one of the first k week columns |
| Headers.ColourPair | dashboard_klien.py:813-822 | one round of the loop leaves the styles of one more pair of the chain |
| Headers.StyleRow | dashboard_klien.py:800-824 | `style_logic` on one row: one style per cell, W2/W3/W4 compared with the week before, everything else plain |
| Sorting.Insert | dashboard_klien.py:1146 | inserting adds exactly one element |
| Sorting.SortDesc | dashboard_klien.py:1146 | the sort is a permutation |
| Sorting.InsertSorted | dashboard_klien.py:1146 | inserting into a descending sequence keeps it descending |
| Sorting.SortDescSorted | dashboard_klien.py:1146 | the sort's keys never increase (also dashboard_atm.py:322) |
| Sorting.PrefixOfSorted | dashboard_atm.py:323 | `head(n)` of a sorted sequence is sorted and drawn from it |
| Pivots.Units | dashboard_klien.py:1128-1129 | the pivot index: every (TID, LOKASI, CABANG) of the slice once |
| Pivots.UnitWeek | dashboard_klien.py:1128-1129 | the mask of one unit in one week |
| Pivots.UnitInWeeks | dashboard_klien.py:1138 | the mask of one unit in a set of weeks |
| Pivots.CellOfAbsentWeek | dashboard_klien.py:1128-1129 | `fill_value=0`: a week no row carries has only zero cells |
| Pivots.PivotColumns | dashboard_klien.py:1128-1129 | the pivot has one column per week label present in the slice |
| Pivots.Zeros | dashboard_klien.py:1132 | a zero column of the index's length |
| Pivots.FillUpToSpec | dashboard_klien.py:1131-1132 | filling adds exactly the missing weeks as zero columns and leaves existing columns alone |
| Pivots.FilledCells | dashboard_klien.py:1128-1132 | after filling, every listed week has a column whose cells measure that unit's rows in that week |
| Pivots.PivotTable.constructor | dashboard_klien.py:1128-1129 | the pivot's index is the slice's units and its columns the measured week cells |
| Pivots.PivotTable.AddMissingWeeks | dashboard_klien.py:1131-1132 | the in-place loop leaves the index and sets the columns to the filled ones (also dashboard_atm.py:306-307) |
| Pivots.LinesOf | dashboard_klien.py:1134-1142 | one line per index unit |
| Pivots.WeekLabelsUnique | dashboard_klien.py:1046 | W1..W4 are distinct |
| Pivots.WeekSumMeasures | dashboard_klien.py:1142 | the row sum of the first n week cells measures the unit's rows in those weeks |
| Pivots.UnitWeekStep | dashboard_klien.py:1142 | one more distinct week adds that week's cell |
| Pivots.PivotLinesAgree | dashboard_klien.py:1128-1142 | the filled pivot's lines, merged with the previous month, are the reference lines of the slice's units |
| Pivots.LineAgrees | dashboard_klien.py:1140-1142 | one line of the filled pivot is the reference line of its unit |
| Pivots.KeyOf | dashboard_klien.py:1143 | the sort column's value as a key on lines |
| Pivots.Take | dashboard_atm.py:323 | `head(n)` keeps the first min(n, size) lines |
| Pivots.Limit | dashboard_atm.py:323 | `head` never keeps more lines than there are |
| Pivots.AllLines | dashboard_klien.py:1128-1142 | the reference lines of the units, in index order |
| Pivots.DistinctCount | dashboard_klien.py:1146 | a sequence without repeats holds each line at most once |
| Pivots.AllLinesDistinct | dashboard_klien.py:1128-1129 | the reference lines have distinct units |
| Pivots.DrawnLinesAreReference | dashboard_klien.py:1146 | every line drawn from the reference lines is the reference line of a unit of the slice |
| Pivots.DrawnUnitsDistinct | dashboard_atm.py:322-323 | no unit occurs twice among the ranked lines |
| Pivots.OutsidersRankLower | dashboard_atm.py:322-323 | a unit left out of the top n ranks no higher than any unit kept |
| Pivots.OutsiderRanksLower | dashboard_atm.py:322-323 | a line of a sorted sequence outside its prefix ranks no higher than any line of the prefix |
| Pivots.RankingOfSorted | dashboard_atm.py:322-323 | sorting the reference lines by the key and cutting meets the ranking promise |
| Pivots.RankUnits | dashboard_klien.py:1146 | the ranked lines are reference lines of distinct units, sorted descending by the key, as many as the limit allows, and no unit left out outranks one kept (also dashboard_atm.py:322-323) |
| Pivots.TotalOmitsFifthWeek | dashboard_atm.py:310 | a unit seen only in W5 has Σ 0 in the terminal table |
| Pivots.CellSumMeasures | dashboard_atm.py:310 | adding the cells of distinct weeks measures the unit's rows in them |
| Pivots.TotalIsWeekSum | dashboard_klien.py:1142 | Σ = W1 + W2 + W3 + W4 (also dashboard_atm.py:310) |
| Pivots.ClientSortBy | dashboard_klien.py:1143 | "All Week" sorts by Σ, a week label by that week's column |
| Pivots.ClientPrevTotals | dashboard_klien.py:1135-1139 | the previous month's per-TID values have exactly the previous month's TIDs as keys |
| Pivots.CriticalTids | dashboard_klien.py:1126-1146 | every unit of the month, measured in the category's mode, ranked by the chosen week or Σ, uncut |
| Pivots.MriTopTids | dashboard_klien.py:940-945 | complaint rows counted per unit, ranked by the chosen week or the total, at most eight kept |
| AtmLoad.Coerce | dashboard_atm.py:118 | coercion sets the quantity to its numeric value (0 for a non-number) and changes nothing else |
| AtmLoad.Derive | dashboard_atm.py:128-131 | a kept row's week is its day's bucket, its month number and name come from the date, its quantity is the coerced one |
| AtmLoad.CoerceAll | dashboard_atm.py:116-118 | the quantity column coerced row by row |
| AtmLoad.SetQtyOne | dashboard_atm.py:126 | `df['JUMLAH_COMPLAIN'] = 1` sets every row's quantity to 1 |
| AtmLoad.DeriveAll | dashboard_atm.py:128-131 | the derived columns of every kept row |
| AtmLoad.DefaultIf | dashboard_atm.py:125-126 | defaulting keeps each row's TID, date and branch |
| AtmLoad.Settled | dashboard_atm.py:116-126 | every row left after coercion, dropping and defaulting has a date and a TID |
| AtmLoad.Loaded | dashboard_atm.py:113-131 | the loaded frame always has the quantity column |
| AtmLoad.CoerceAllAppend | dashboard_atm.py:118 | coercion distributes over concatenation |
| AtmLoad.CoercedWhere | dashboard_atm.py:116-121 | dropping incomplete rows commutes with coercing quantities |
| AtmLoad.LoadedCount | dashboard_atm.py:121 | the loader keeps exactly as many rows as have a date and a TID |
| AtmLoad.AimsSheet.constructor | dashboard_atm.py:113 | the sheet starts as read, with no derived rows |
| AtmLoad.AimsSheet.CoerceQuantities | dashboard_atm.py:116-118 | in place: the quantity column is coerced when present, nothing else changes |
| AtmLoad.AimsSheet.DropIncomplete | dashboard_atm.py:121 | in place: exactly the rows with a date and a TID remain, in order |
| AtmLoad.AimsSheet.DefaultQuantities | dashboard_atm.py:125-126 | in place: quantities become 1 when the column is missing or sums to 0; the column exists afterwards |
| AtmLoad.AimsSheet.DeriveColumns | dashboard_atm.py:128-131 | in place: the derived rows are computed from the kept records |
| AtmLoad.AimsSheet.Load | dashboard_atm.py:113-131 | the in-place steps in order produce exactly the loaded frame, and leave the sheet's own records as the settled rows (complete, quantities coerced and defaulted) |
| AtmLoad.SettledAgrees | dashboard_atm.py:121-126 | each settled row keeps the TID, date and branch of the kept sheet row at its place |
| AtmLoad.LoadedRowsAreComplete | dashboard_atm.py:121-131 | each loaded row comes from the kept sheet row at its place: its TID, week bucket, month and normalised branch |
| AtmLoad.DefaultedSumIsCount | dashboard_atm.py:125-126 | when the quantity was defaulted, summing quantities equals counting rows on every slice |
| AtmLoad.KeptQuantities | dashboard_atm.py:118 | otherwise each loaded quantity is its coerced cell: a non-number counts 0 (also dashboard_atm.py:125) |
| AtmLoad.UpperOfNoLower | dashboard_atm.py:131 | upper-casing a string without lower-case letters changes nothing |
| AtmLoad.StrippedUpperHasNoLower | dashboard_atm.py:131 | a stripped upper-cased branch has no lower-case letter |
| AtmLoad.NormBranchIdempotent | dashboard_atm.py:131 | normalising a normalised branch changes nothing |
| AtmMetrics.Population | dashboard_atm.py:257 | a branch's population is its `POPULASI_MANUAL` entry, 0 when absent |
| AtmMetrics.BranchesAreTheTable | dashboard_atm.py:30-33 | the breakdown's branch list is exactly the table's keys, without repeats (also dashboard_atm.py:242) |
| AtmMetrics.BranchesAreUpperCase | dashboard_atm.py:242 | the keys are already upper case, so `.str.upper()` changes none |
| AtmMetrics.PopulationsPositive | dashboard_atm.py:30-33 | every listed branch has ATMs |
| AtmMetrics.FleetTotal | dashboard_atm.py:34 | the populations add up to 611, the client view's hard-coded fleet size (also dashboard_klien.py:1044) |
| AtmMetrics.AtmMode | dashboard_atm.py:145 | quantities are summed exactly when the category upper-cases to "COMPLAIN" |
| AtmMetrics.GetCountOrSum | dashboard_atm.py:143-148 | `get_count_or_sum`: 0 for an empty slice, else the slice's measure in that mode |
| AtmMetrics.ComplainCaseDiffers | dashboard_atm.py:145 | the ATM view sums "complain" in any case; the client view counts rows for lower-case "complain" (also dashboard_klien.py:1040) |
| AtmMetrics.InCategory | dashboard_atm.py:183 | the category filter passes rows whose category contains the selection, ignoring case |
| AtmMetrics.InMonth | dashboard_atm.py:184-185 | the month filter passes rows of that month number |
| AtmMetrics.Select | dashboard_atm.py:175-185 | the current and previous slices are the single mask selections "category contains the selection, ignoring case, and MONTH_NUM is m" (m the month, then m-1): every passing row, as often and in the order the sheet holds it, and no other; the labels are the short names, "N/A" when absent |
| AtmMetrics.InCategoryAndMonth | dashboard_atm.py:183-185 | passes a row exactly when both the category mask and the month mask pass it |
| Incidents.WhereWhere | dashboard_atm.py:183-185 | filtering by one mask and then another selects the same rows, in the same order and multiplicity, as filtering once by their conjunction |
| AtmMetrics.NoPreviousMonthLabel | dashboard_atm.py:176-180 | January's previous label is always "N/A" |
| AtmMetrics.CategoryFilterIgnoresCase | dashboard_atm.py:183 | selections differing only in case filter alike |
| AtmMetrics.CategoryFilterKeepsExact | dashboard_atm.py:183 | a row whose category is the selection, in any case, passes |
| ClientView.TabulatedUpToSpec | dashboard_atm.py:212-217 | after n iterations the table holds exactly the first n labels, each with its value (also dashboard_klien.py:1047-1050) |
| AtmMetrics.TabulateByLabel | dashboard_atm.py:212-217 | the loop stores each label's value, for exactly those labels |
| AtmMetrics.WeekFigures | dashboard_atm.py:213-217 | a week's figures are the measure and distinct TIDs of that week's rows |
| AtmMetrics.WeeksPassed | dashboard_atm.py:202-203 | `weeks_passed` is at least 1, and the number of distinct week labels of a non-empty slice |
| AtmMetrics.WeeksPassedBound | dashboard_atm.py:202-203 | it never exceeds the number of rows (1 for an empty slice) |
| AtmMetrics.PerWeek | dashboard_atm.py:228 | a per-week average times the weeks passed gives back the figure |
| AtmMetrics.Percent | dashboard_atm.py:229-231 | a percentage times the population gives back the figure times 100 |
| AtmMetrics.GlobalOverview | dashboard_atm.py:201-231 | the global table: previous and current figures, one entry per W1..W4 with that week's figures, averages per week passed and probabilities over the 611 ATMs |
| AtmMetrics.TidsAtMostTickets | dashboard_atm.py:206-210 | counting rows, a slice never has more distinct TIDs than tickets |
| AtmMetrics.GlobalTotalSplitsByWeek | dashboard_atm.py:206 | the month's Σ is the four week figures plus the rows of later weeks (also dashboard_atm.py:212-217) |
| AtmMetrics.WeekLabelsDistinct | dashboard_atm.py:201 | W1..W4 are distinct |
| AtmMetrics.WeekCells | dashboard_atm.py:245-255 | one pivot cell per week column, each the measure of that week's rows |
| AtmMetrics.LinesFor | dashboard_atm.py:252-265 | one line per branch, in the list's order, with four week cells |
| AtmMetrics.LinesForAt | dashboard_atm.py:252-268 | the i-th line is the line of the i-th branch |
| AtmMetrics.BranchBreakdown | dashboard_atm.py:242-265 | the breakdown has exactly the nine listed branches, in order, each with four week cells |
| AtmMetrics.BreakdownAt | dashboard_atm.py:245-268 | each line holds the branch's population, previous value, week cells, Σ and rates |
| AtmMetrics.BreakdownProbability | dashboard_atm.py:257-268 | every line carries its branch's population, which is positive, and Prob% = Σ/population·100 |
| AtmMetrics.BreakdownAverage | dashboard_atm.py:266 | every line's Avg/Week is its Σ divided by the weeks passed |
| AtmMetrics.LineRates | dashboard_atm.py:268 | a branch with ATMs gets its Σ as a percentage of them |
| AtmMetrics.LineTotalCountsLateWeeks | dashboard_atm.py:265 | a branch's Σ is its four week cells plus its rows of later weeks |
| AtmMetrics.BranchTotalCountsLateWeeks | dashboard_atm.py:265 | unlike the terminal Σ, the breakdown's Σ counts W5 (also dashboard_atm.py:310) |
| AtmMetrics.FifthWeekSplitsTheTables | dashboard_atm.py:265 | a month with only W5 rows of one branch gives that branch its whole measure, while every terminal shows Σ 0 (also dashboard_atm.py:310) |
| AtmMetrics.BreakdownCoversFleet | dashboard_atm.py:252 | the Σ column adds up to the measure of the rows of listed branches (also dashboard_atm.py:265) |
| AtmMetrics.SumOverWeekLabels | dashboard_atm.py:260-265 | the four week cells add up to the measure of the rows bucketed W1 to W4 |
| AtmMetrics.LinesMeasureBranches | dashboard_atm.py:252-265 | each line's Σ is the measure of all of its branch's rows |
| AtmMetrics.LinesCoverBranches | dashboard_atm.py:252 | for distinct branches, the lines' Σ add up to the measure of those branches' rows (also dashboard_atm.py:265) |
| AtmMetrics.TotalsPrefix | dashboard_atm.py:265 | the first n lines' Σ add up to the first n branch groups |
| AtmMetrics.OtherBranchesDropped | dashboard_atm.py:252 | rows of unlisted branches leave every line at 0 |
| AtmMetrics.DisplayOrderIsPermutation | dashboard_atm.py:271-272 | the display sort only reorders the lines |
| AtmMetrics.DisplayOrderRanks | dashboard_atm.py:271-272 | a line with Σ ≠ 0 is preceded only by lines with Σ ≠ 0 and at least its Σ; blanked lines come last |
| AtmMetrics.RemoveAll | dashboard_atm.py:290 | `str.replace(pat, '')` never lengthens |
| AtmMetrics.RemovePrevMarker | dashboard_atm.py:290 | a label without "(" loses only the appended "(prev)" |
| AtmMetrics.RemoveNoMarker | dashboard_atm.py:290 | a label without "(" is unchanged |
| AtmMetrics.AtmSortByOptions | dashboard_atm.py:285-320 | the previous-month option sorts by the previous column, a week option by that week, the Σ option by Σ |
| AtmMetrics.OptionKept | dashboard_atm.py:286 | an option is kept when it is a week present in the month, starts with Σ or ends with "(prev)" |
| AtmMetrics.SortOptionsAlwaysOffered | dashboard_atm.py:285-286 | Σ and the previous month are always offered |
| AtmMetrics.WeekOffered | dashboard_atm.py:286 | a week is offered exactly when the month has a row in it |
| AtmMetrics.AtmTopUnits | dashboard_atm.py:295-323 | nothing for an empty month; otherwise at most five units, ranked descending by the chosen key in the category's mode, with the previous month's value per TID (0 when absent) and no unit left out outranking one kept |

## Left out

- Streamlit layout, CSS, HTML strings, session state, toggles, the clock and the ticker's animation timing are presentation. Charts are left out for the same reason.
- Google Sheets/Excel loading and credentials are I/O. So is the client loader's `clean_and_format`.
- Date parsing (`pd.to_datetime`) is replaced by given month and day numbers. `AtmLoad.Date` takes them as given, and `None` stands for an unparseable cell.
- "N days ago" / "N hours ago" read `datetime.now()`, a clock.
- Float rounding and number formatting (`round(…, 1)`, `:.1f`, `:.2f`, `astype(int)` for display) are left out. Averages and percentages are exact `real`s.
- The ATM tables blank zeros before display (`replace(0, np.nan)`). The model keeps the numbers; only the Σ blanking that changes the breakdown's sort order is modelled, in `AtmMetrics.DisplayOrder`.
- `safe_text` (`html.escape`) is a library call. Keys are used unescaped.
- The `iloc` slicing of raw sheets in `get_custom_data` and `get_monitor_slice` is left out. Only their header clean-up is modelled.
- `Sorting.SortDesc` is one descending order; pandas' `sort_values` is not stable. The contracts promise only sortedness, permutation and the prefix property, never which of several equal keys comes first. For the same reason `Trends.PickRise` and `Trends.PickDrop` promise a line with the extreme DIFF, not a particular one among ties.
- Pivots.Units: the MRI tables index by `TYPE MRI` as well. The model's unit is (TID, LOKASI, CABANG).
- `Enumerate` fixes one visiting order of a Python `set`, and the trend contracts hold for any order.
- The client view's branch-trend table (dashboard_klien.py:1191-1212) is not modelled as its own member. It is the pivot-fill-merge-sort of `Pivots.CriticalTids` keyed on CABANG alone.
- The "DF Repeat" MRI table (dashboard_klien.py:993-998) is not modelled separately. It is `Pivots.MriTopTids` with a cut of 4.
- The ATM branch breakdown and Top-5 pivots count with `aggfunc='count'` on TID and KATEGORI. These equal the row count here because the loader drops rows without a TID and the category filter drops rows without a category. The model uses the row count.
- `pivot_table` drops rows whose index or column value is missing. Every modelled row has a TID, branch, location and week, so nothing is dropped.
- The category filter's `str.contains` treats the selection as a regular expression. The model treats it as a literal substring, which is what the fixed category names amount to.
- The client view's MRI selection through a `STATUS … MRI` column is left out: the slice is taken as given.
- The ATM loader's `MASALAH` → `KATEGORI` column rename is a column-name change with no effect on the values. It is left out.
- The ATM loader's syntactically broken block (dashboard_atm.py:41-53) belongs to the Google Sheets reading and is not modelled.
- Text.Upper, Text.Lower: only ASCII letters change case. Python's Unicode case mapping is not modelled.
- Text.Strip: only ASCII whitespace is stripped.
- Text.ParseNat: Python's `int()` also accepts a leading sign, surrounding whitespace and digit-separating underscores (`"+3"`, `" 3 "`, `"1_0"`). The model parses only plain digit strings and fails on those; the week labels it reads are "W" followed by digits.
- AtmLoad.Coerce: `pd.to_numeric(..., errors='coerce')` keeps fractional quantities such as 1.5, and `get_count_or_sum` adds them up. The model's quantities are integers, so non-integral quantity cells are not modelled.
- AtmMetrics.BranchBreakdown: Σ is modelled as the measure of all of the branch's rows. This is what `piv.sum(axis=1)` adds: every week column present, including W5.
- Trends.HeaderTicker: exceptions other than the missing-column KeyError are not modelled. These are the `int()` failure, which the code catches, and a missing CABANG/TID column, which modelled rows always have.
- Headers.GetVal: only unsigned decimals are parsed. Signs, exponents, "nan" and "inf" are not, nor the surrounding whitespace (`" 3 "`) and digit-separating underscores (`"1_0"`) that Python's `float` accepts. A blanked cell reads 0 as in the code.
- Headers.GetVal: a cell reading "nan" makes Python's `float` return NaN, which compares false both ways, so the cell stays plain. The model reads such a cell as 0 and compares it.
- Pivots.ClientSortBy: the week selector offers only "All Week" and W1-W4 (dashboard_klien.py:672). The model maps every label other than a week to Σ; the code would raise a KeyError for such a label.
- The SLM visit-log sheet and the per-TID SLM detail expanders (dashboard_atm.py:86-110, dashboard_atm.py:331-369, dashboard_klien.py:952-967, dashboard_klien.py:1167-1186) are lookups for display. They are not modelled.
- The ATM view's daily-trend chart (dashboard_atm.py:371-391) is a chart. It is not modelled.

### Behaviours of the code worth knowing

- **Week bucket.** Days 29-31 form a fifth bucket "W5" (`Periods.WeekLabelBands`); there is no cap at W4. W5 rows survive the week cutoff (`ClientView.WeekCutoff`). They are missing from the overview Σ (`ClientView.OverviewMissesLateWeeks`) and from the terminal Σ (`Pivots.TotalOmitsFifthWeek`), but counted in the ATM branch Σ (`AtmMetrics.BranchTotalCountsLateWeeks`).
- **Averages.** The client view divides by 4. The ATM view divides by the number of distinct weeks, with a floor of 1.
- **Tiers.** In sum mode a terminal whose quantities total 0 lands in no tier, so the tiers are not exhaustive (`Tiers.ZeroTotalTerminalInNoTier`). The two tiering rules also disagree on when to sum (`Tiers.TieringRulesDisagree`).
- **Ranking.** There is no zero filter when ranking by a single week, and the sort is not stable.
- **Rise and drop.** These are any line with the extreme DIFF. No tie-break is applied.
- **Percent change.** From 0 to a positive value it is 100.0, not a separate sentinel.
- **Spare parts.** The spare-part layout tests for "Sparepart&kaset", but the menu item is "SparePart & Kaset", so that layout is never shown. The spare-part item falls to the standard layout with a `df_curr` that has no columns, and the overview rollup stops the page with a KeyError (`ClientView.SparePartFallsThrough`, `ClientView.OverviewRollup`). The header average is still 0 and the week cutoff is still skipped, because both run before the layout is chosen.
- **Missing TID.** Rows whose TID is an empty string are kept by the ATM loader: `dropna` drops only missing cells.

## Findings

| source | as written | input that shows it | evidently intended | confidence | as-written member | corrected member |
|---|---|---|---|---|---|---|
| dashboard_klien.py:365-367, dashboard_klien.py:404-410, dashboard_klien.py:477-480 | For a week with no predecessor (W1), the previous scope is `pd.DataFrame()`, which has no columns. `agg_branch` then reads `df_in['CABANG']`, raises a KeyError, and the handler replaces the whole ticker with "System Syncing". | any non-empty target with the week filter set to "W1" | the first week compared against an empty previous week: deltas against 0 and no recurring TIDs | not executed | Trends.HeaderTicker (with Trends.ScopesMissingPrevious, Trends.FirstWeekHasNoPrevious) | Trends.HeaderTickerCorrected (with Trends.ScopesCorrected, Trends.CorrectedFirstWeekSummary) |
| dashboard_klien.py:834 | The spare-part layout tests `sel_cat == 'Sparepart&kaset'`, but the menu item is "SparePart & Kaset" (line 645), so the test never holds. That category falls to the standard layout with the column-less `df_curr` left at line 709, and `df_curr['WEEK']` at line 1049 raises an uncaught KeyError. | the category "SparePart & Kaset" chosen in the menu | the spare-part menu item shows the spare-part layout, whose headers `Headers.CustomHeaders` builds | not executed | ClientView.SparePartFallsThrough (with ClientView.LayoutAsWritten, ClientView.CurrentFrame, ClientView.OverviewRollup) | ClientView.LayoutForMenu (with ClientView.LayoutFor) |
