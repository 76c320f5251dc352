# QC turnaround tracker — record logic in Dafny

This project models the record logic of a single-page quality-control turnaround tracker (`script.js`). Users enter inspection records. For each record the page computes a turnaround time, a 98% target productivity, an actual efficiency and a MET / BELOW classification. The page shows the records filtered by month and by search text, summarises them in an overview panel, and charts them. The model covers everything in that path that is not DOM, storage or library plumbing:

- **metrics engine** (`metrics.dfy`, with `rounding.dfy`): `calculateItemMetrics`. A metric is `Num(real) | NA | Error`. `Math.round` and `toFixed(2)` are idealised on exact reals.
- **stable chronological sort** (`chronology.dfy`): the sort by creation time at the start of `loadTurnaroundItems`.
- **month options** (`months.dfy`): the set of distinct `YYYY-MM` prefixes in `populateMonthFilter`, sorted.
- **filter pipeline** (`pipeline.dfy`, `page.dfy`): the month and search filters, the metrics attached to each shown record, and the whole `loadTurnaroundItems` composition.
- **overview** (`overview.dfy`): the counting and the means of `updateQaOverview`.
- **chart series** (`chart.dfy`): the bars, colours and labels of `updateTurnaroundTimeChart`.
- **collection mutations** (`store.dfy`): delete by id, and the update and add branches of the submit handler. Delete, Update and Submit are functions from the stored list to the list to write back plus an outcome (`Saved | NotFound`); Add returns the extended list.

`seqs.dfy`, `strings.dfy` and `wrappers.dfy` hold generic helpers: an order-preserving `Filter` with its lemmas, the JavaScript string operations used (`startsWith`, `includes`, `toLowerCase`, `substring`, the default string sort order), and `Option`.

A timestamp field is a `Stamp(text, parsed)`:
- `text` is the form string. It drives the truthiness tests, `startsWith` and `substring`.
- `parsed` is the instant `new Date(text)` denotes, in milliseconds, or `None` for an invalid date. How the text is parsed is not modelled.

Behaviour of the code that the model keeps as written:
- A finish before the receipt leaves the turnaround `'N/A'`, like a missing timestamp; only the explanation text differs (script.js:204-209).
- The stored list is read with a bare `JSON.parse` (script.js:544, 607). Storage is outside the model, so a mutation starts from the list as parsed.
- The submit handler tests `if (editingItemId)` by truthiness. An edit id of 0 therefore takes the add branch (`Store.Submit`).
- Ids are not checked for uniqueness. Update changes the first record with the id (`findIndex`); delete removes every record with it.

## Model

| member | source | states |
|---|---|---|
| Rounding.JsRound | script.js:218 | `Math.round` yields the integer within a half of its argument, halves going up |
| Rounding.Round2 | script.js:205 | `parseFloat(x.toFixed(2))` is a whole number of hundredths within 0.005 of `x`, the band open towards zero so halves go away from zero, and non-negative for non-negative `x` |
| Rounding.TwoDecimalsUnique | script.js:205 | the two-decimal band around a value holds exactly one whole number of hundredths, so every contract stated with it fixes the displayed value |
| Rounding.Round2Idempotent | script.js:205 | `toFixed(2)` leaves a value that already is a whole number of hundredths unchanged; the one-record average relies on it |
| Metrics.TurnaroundHours | script.js:198-209 | the turnaround is numeric exactly when both instants exist and finish is not before receipt; it is then a non-negative two-decimal value within 0.005 of the exact hours; it is never 'Error' |
| Metrics.TargetProductivity | script.js:212-217 | the target is numeric exactly when the turnaround is, and is then 0.98 × turnaround to two decimals; otherwise it stays 'N/A', never 'Error' |
| Metrics.RoundedTarget | script.js:214-218 | the efficiency numerator exists exactly when the turnaround is numeric, and is the integer within a half of 0.98 × turnaround |
| Metrics.ActualEfficiency | script.js:222-233 | efficiency is 'Error' exactly for a zero turnaround, numeric exactly for a non-zero one (then rounded target / turnaround × 100 to two decimals), 'N/A' otherwise |
| Metrics.Classify | script.js:235-243 | MET exactly when the efficiency is numeric and at least 98, BELOW exactly when numeric and below 98, 'N/A' exactly when it is 'N/A' or 'Error' |
| Metrics.CalculateItemMetrics | script.js:197-254 | the four metrics of a record are coherent: each is available only when the one before is, the turnaround and the target are never 'Error', the efficiency is 'Error' only for a zero turnaround, and the classification agrees with the efficiency |
| Metrics.MetricsChain | script.js:198-233 | stated from the two timestamps: turnaround = round2(diff ms / 3,600,000) when both exist and diff ≥ 0; target = round2(T × 0.98); efficiency = round2(round(T × 0.98) / T × 100), or 'Error' when T = 0; otherwise all 'N/A' |
| Metrics.FinishBeforeReceiveIsUnavailable | script.js:204-209 | a finish before the receipt makes every metric 'N/A' |
| Metrics.TargetWithinTurnaround | script.js:212-217 | the target lies between zero and the turnaround |
| Metrics.EfficiencyNearTarget | script.js:216-227 | because the numerator is a whole number of hours, a numeric efficiency is within 50 / T (+0.005) of 98 |
| Metrics.TenHourExample | script.js:197-243 | a ten-hour turnaround gives 10.00 h, target 9.80, efficiency 100.00, MET |
| Metrics.ZeroTurnaroundExample | script.js:226-231 | identical receipt and finish give turnaround 0.00, efficiency 'Error', no classification |
| Strings.Take | script.js:77 | `substring(0, n)` is a prefix of at most `n` characters |
| Strings.IncludesOccurs | script.js:560 | `includes` holds exactly when the needle occurs at some position of the text |
| Strings.Lower | script.js:109 | lower-casing keeps the length and maps each character by itself |
| Strings.LowerIdempotent | script.js:109 | lower-casing twice is lower-casing once, and only the empty text lowers to empty |
| Strings.LexLessTotal | script.js:86 | the default string sort order relates any two different strings |
| Strings.LexLessTransitive | script.js:86 | the default string sort order is transitive |
| Months.MonthKey | script.js:77 | the month key is the first seven characters of the received text, or all of it when it is shorter |
| Months.AddMonth | script.js:73-78 | adding a month to an ascending option list keeps it ascending and adds exactly that month |
| Months.MonthOptions | script.js:72-86 | the options are strictly ascending and are exactly the 7-character prefixes of the non-blank received timestamps |
| Months.AscendingHasNoDuplicates | script.js:73-86 | the options hold no month twice |
| Months.AscendingUnique | script.js:73-86 | two ascending lists of the same months are equal, so the options do not depend on the scanning order |
| Months.MonthKeysOfPermutation | script.js:550-553 | sorting the records before collecting months does not change the months |
| Chronology.Insert | script.js:550 | inserting adds exactly one record and keeps the others |
| Chronology.InsertSorted | script.js:550 | inserting into a list in creation order keeps it in creation order |
| Chronology.SortByCreated | script.js:550 | the sorted list is in creation order and is a permutation of the stored list |
| Chronology.InsertRun | script.js:550 | inserting puts the record first among those created at the same instant and leaves the other instants' runs alone |
| Chronology.SortIsStable | script.js:550 | the sort is stable: the records created at any one instant keep their stored order |
| Chronology.SortSortedIsIdentity | script.js:550 | sorting a list already in creation order changes nothing |
| Chronology.FilterKeepsSorted | script.js:550-562 | filtering a list in creation order leaves it in creation order |
| Pipeline.SearchQuery | script.js:108-111 | the stored query has the typed text's length and is its character-by-character lower-casing; it is lower case, so lowering it again changes nothing |
| Pipeline.Visible | script.js:556-562 | a record is shown exactly when it is stored, is in the selected month (or the month is 'all'), and its lower-cased description contains the query (or the query is empty) |
| Pipeline.VisibleIsSubsequence | script.js:556-562 | the shown list is an order-preserving subsequence of the sorted list, and holds each passing record as often as it is stored |
| Pipeline.FiltersCommute | script.js:556-562 | filtering by month then text, or by text then month, gives the same list |
| Pipeline.NoFilterShowsAll | script.js:557-560 | with 'all' and an empty query every record is shown, in order |
| Pipeline.Enrich | script.js:575-579 | each shown record keeps its stored fields and carries coherent metrics |
| Pipeline.RecomputeOnEnriched | script.js:576-578 | recomputing metrics on a record that already carries merged metrics gives the same metrics |
| Overview.Mean | script.js:343-344 | a mean is 'N/A' exactly when its count is zero, and otherwise a number: sum / count to two decimals, non-negative for a non-negative sum |
| Overview.SingleMean | script.js:343-344 | with one record counted, the average shows exactly that record's two-decimal value |
| Overview.CountsChain | script.js:323-341 | MET count + BELOW count = numeric-efficiency count ≤ numeric-turnaround count ≤ record count |
| Overview.TurnaroundSumNonNegative | script.js:326-328 | the summed turnaround is non-negative |
| Overview.TallyMeaning | script.js:316-341 | the running totals are the sums and counts of the numeric values, the sentinels excluded, and the MET / BELOW counts |
| Overview.UpdateQaOverview | script.js:315-350 | the overview's running sums and counts of the numeric metrics are the sums and counts of the recomputed metrics; the panel shows the record count, the two means ('N/A' exactly when nothing is numeric) and the MET / BELOW counts, related as in `CountsChain` |
| Strings.NatToString | script.js:389 | the `${index + 1}` text is a non-empty digit string with no leading zero whose decimal value is the number |
| Chart.Colours | script.js:393-402 | fill and border are one colour, the fill at opacity 0.6 and the border at opacity 1 |
| Chart.ColoursDistinguish | script.js:393-402 | MET, BELOW and unclassified bars get pairwise different fill colours and pairwise different border colours |
| Chart.BarLabel | script.js:389 | a label starts with the first 20 characters of the description, has "..." after them exactly when the description is longer, and ends with " (#n)"; a blank description gives "Item #n" |
| Chart.ChartSeries | script.js:375-403 | one bar per shown record with a numeric turnaround, in order, with that turnaround as height, the classification's colours and the record's label; no bars exactly when no record has a numeric turnaround |
| Chart.ChartedIsSubsequence | script.js:386 | the charted records are an order-preserving subsequence of the shown ones and miss none with a numeric turnaround |
| Page.ShownRecords | script.js:549-562 | the shown records are in creation order, never outnumber the stored ones, and hold each stored record as often as it is stored if it passes both filters and never otherwise; with no filter they are the whole sorted list |
| Page.PageMonthOptions | script.js:552-553 | the month options are computed from all stored records, not just the shown ones |
| Page.LoadTurnaroundItems | script.js:542-588 | one refresh: the options are every stored month once, ascending; the shown records are the filtered creation-ordered records, each carrying its own metrics; every overview figure (counts, sums, MET / BELOW counts, the two means) is computed from the shown records' metrics; the bars are the chart series of the shown records |
| Store.Delete | script.js:157-169 | delete reports NotFound exactly when no record has the id, and then writes nothing; otherwise it removes every record with the id, keeps every other one, and the list gets shorter |
| Store.DeleteKeepsOrder | script.js:160 | the kept records stay in stored order, each as often as it was stored |
| Store.DeleteThenAbsent | script.js:157-169 | after a delete no record carries the id, so deleting it again reports NotFound |
| Store.FindIndex | script.js:611 | `findIndex` gives the first position carrying the id, or none exactly when no record has it |
| Store.Update | script.js:609-619 | update reports NotFound exactly when the id is absent, and then writes nothing; otherwise only the first record with the id changes, to the submitted fields; every id and creation time is kept |
| Store.Add | script.js:620-627 | add appends exactly one record, with the supplied id and creation time and the form's fields, after the unchanged old list |
| Store.Submit | script.js:609-627 | with a truthy edit id the list keeps its length; NotFound (nothing written) happens exactly when the id is absent; otherwise the first record with the id takes the form's fields under its id and creation time and every other record is unchanged. With no edit id, or id 0, exactly one record with the new id, creation time and form fields is appended and the result is Saved |
| Store.AddThenDelete | script.js:157-169 | adding under a fresh id and then deleting that id restores the list |
| Store.UpdateThenFind | script.js:611-615 | after an update the record is found at the same position with its original id and creation time and the submitted fields |
| Store.UpdateIdempotent | script.js:611-615 | submitting the same edit twice changes nothing the second time |

## Left out

- DOM work is not modelled: table rows, the "no items" row, the message box, form population and clearing, dropdown option labels (`monthNames`) and `monthFilter.value`. It is presentation only.
- `formatDateTime` and the `*Computation` explanation strings are not modelled. They depend on locale formatting and carry no values the metrics use.
- Date parsing is not modelled. `new Date(text)` on a `datetime-local` string depends on the local time zone, so a timestamp's instant is a given field (`Stamp.parsed`).
- Id and timestamp generation (`Date.now()`, `toISOString`) are parameters of `Store.Add` and `Store.Submit`. Nothing is claimed about id uniqueness.
- `localStorage`, `JSON.parse` / `JSON.stringify` and the `try`/`catch` around them are not modelled. A mutation's result is the list that would be written.
- Binary floating point is not modelled. `0.98`, the divisions and the sums are exact reals. `toFixed` and `parseFloat` are idealised as `Rounding.Round2`. `toFixed`'s exponent notation for values of 10^21 or more cannot arise for real dates and is left out.
- Rounding.Round2: does not model binary floating-point tie-breaking, because values are exact reals here.
- Strings.Lower: only ASCII letters are lower-cased, because full Unicode case mapping is out of scope.
- Strings.LexLess, Strings.Take, Chart.BarLabel: these count and compare characters, not UTF-16 code units. They differ from the source only for characters outside the Basic Multilingual Plane.
- Chronology.SortByCreated: creation times are integers. A stored record whose `timestamp` does not parse gives a NaN comparator result; that case is not modelled.
- Chart.js object construction, the tooltip callback, and hiding the canvas when there is no data or no context are not modelled. They are library and DOM calls.
- The SheetJS export (`downloadExcelReport`) is not modelled. It is a library sink.
- Form quantities are `parseInt` results modelled as `Option<int>` (None for NaN). The radio-button lookup is assumed to find a checked button.
