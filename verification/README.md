# sistem-pangkalan in Dafny

A model of the allocation and execution core of *sistem-pangkalan*. This is a
command-line tool that an LPG outlet ("pangkalan") uses to sell subsidised gas
cylinders through the upstream subsidy service. Each sale is recorded in an
xlsx master log, with one sheet per outlet.

The model covers these parts of the tool:

- **The usage ledger** (module `Ledger`). Each run counts how many confirmed
  transactions (`status` starting with `Sukses`) each NIK (the 16-digit
  national identity number) has in the current month. The count comes from
  the `d/m/yyyy, …` timestamp of the log. The year is not compared and
  quantities are not summed. The dates are in module `Dates`.
- **The plan builders** `buatRencanaTransaksi` and `alokasiSisaStok`
  (module `Planner`). A NIK qualifies when the service still verifies it, its
  monthly quota is positive, and its usage at this outlet is below its
  customer type's limit. `Usaha Mikro` has `batasUsahaMikro`; every other
  type has `batasPerPangkalan`. The qualifying NIKs are stably sorted by that
  usage, and the first `totalStock` (or `sisaStok`) of them get one unit
  each. The replacement builder also skips every NIK of the executed plan.
- **The execution loop** of `runTransactionInputProcess`, and the
  on-the-spot transaction `runTransaksiLangsung` (module `Executor`). Each
  entry goes through the checks in order:
  - format;
  - stock;
  - verification;
  - the live monthly limit;
  - the transaction.

  A success takes its quantity off the stock and adds one to the NIK's
  usage. Every processed entry is logged and counted under exactly one
  summary key. The loop stops right after the first entry that leaves the
  stock at or below zero. `sisaStok` is the sum of the summary counters
  whose key does not contain `sukses`.
- **The plan-file validator** `runValidasiRencana` (module `Validation`).
- **The quota refresh** `runCekAndUpdateKuotaLog` (module `QuotaRefresh`).
- **The sales report** `runTampilkanLaporan` (module `Report`).
- **The outlet's sheet name** (module `SheetName`).
- **The pure parts of the upstream client** (module `Api`):
  - payload-or-null replies;
  - `getQuota` normalisation;
  - the retry interceptor's decision and its delays.
- **Two computations of the terminal interface** (module `Ui`): the elapsed
  time text `formatWaktuProses`, and the "Total" row of the summary table.

The upstream service is not called. Its answers are inputs to the model:

- a map from NIK to verification (an absent key is `null`);
- a map from NIK to quota reply (an absent key means the request threw);
- one transaction reply per plan entry;
- an `Option` for the product information (`None` means `getProducts`
  threw).

The clock is also an input: the current month, and the timestamp text that
new log rows get. `Wrappers`, `Text`, `Records` and `Sorting` hold the shared
vocabulary: options, digit strings and splitting, the row and sheet records,
and stable insertion sort.

Behaviour of the program worth knowing:

- Usage is a count of rows, not a sum of quantities.
- Plans always give quantity 1.
- Every check asks the service for the verification again; nothing is
  cached. The model gives one answer per NIK for a whole run (one map), so
  it assumes the service answers a NIK the same way each time it is asked.
  `getVerificationData` turns any error into `null` (api.js:44-51), so an
  intermittent failure can make the same NIK verify at one check and not at
  the next; the model does not cover that.
- The sheets of the master log are given in the order JavaScript's
  `for...in` visits the keys of the object holding them: sheet names that
  look like array indices (`"0"`, `"12"`) first, in increasing number, then
  the rest in workbook order. That order fixes the scan order of the NIKs,
  and so the order of ties among equally used customers in a plan.
- Left-over stock is reallocated by a separate run of the builder, which
  writes a new plan file. The loop itself never replaces an entry.
- A negative quantity passes the format check (`!quantity` is false for it)
  and, once accepted, raises the stock. `Executor.NegativeQuantityRaisesStock`
  exhibits this.

## Model

| member | source | states |
|---|---|---|
| Dates.ParseStamp | index.js:325 | reading back the date part of a timestamp the program writes (`d/m/yyyy, time`) gives exactly the date it was written with |
| Dates.DayKeyOrder | index.js:479-480 | the day key used for the report's range test orders valid dates by year, then month, then day |
| SheetName.StripForbidden | index.js:54 | a character survives the sanitiser iff it occurs in the store name and is none of `\ / * ? : " [ ]`; every allowed character keeps its number of occurrences and every forbidden one has none; the result is never longer |
| SheetName.StripConcat | index.js:54 | the sanitiser works character by character: sanitising two joined texts joins their sanitised forms, so the kept characters stay in their order |
| SheetName.SheetNameOf | index.js:54 | the sheet name has at most 31 characters, none forbidden, and is the longest prefix of at most 31 characters of the sanitised store name |
| SheetName.SheetNameIdempotent | index.js:54 | sanitising a sheet name again changes nothing |
| Api.Payload | api.js:44-51 | a reply yields its payload iff the request returned, `success` is set and data is present; otherwise the result is null |
| Api.GetQuota | api.js:53-83 | no type name gives null whatever the reply; otherwise a quota exactly when the reply succeeded with `quotaRemaining`; absent daily/monthly/all become 0, absent family becomes `N/A`, present values (0 included) pass through |
| Api.QuotaRoundTrip | api.js:70-77 | normalising a complete `quotaRemaining` gives back the quota it was made from |
| Api.NoTypeNoRequest | api.js:55-60 | without a type name the outcome does not depend on any reply: the result is null before a request is made |
| Api.OnError | api.js:15-27 | a failure is retried iff there was no response or the status is at least 500, and the retry count is below `jumlah`; a retry raises the count by one and never past `jumlah` |
| Api.RetryDelaysShape | api.js:17-21 | over consecutive failures of one request, retry `n` waits `jedaDetik * n * 1000` ms, only retryable failures are retried, and the retries never exceed `jumlah` |
| Api.RetryDelaysIncrease | api.js:21 | with a positive `jedaDetik`, each wait is strictly longer than the previous one |
| Api.RetriesExhausted | api.js:19-20 | a long enough run of retryable failures is retried exactly `jumlah` times in all |
| Ledger.UsageMapCounts | index.js:322-326 | the scanned usage of a NIK equals the number of its rows that are confirmed and dated in the current month |
| Ledger.UsageMapAppend | index.js:326 | a row changes only its own NIK's usage, by exactly one when it counts and by nothing otherwise |
| Ledger.UsageMapKeys | index.js:324-326 | a NIK gets a usage entry only when some counted row carries it |
| Ledger.YearIgnored | index.js:325 | a confirmed row dated in the current month of any year counts; a row dated in another month never does |
| Ledger.QuantityIgnored | index.js:326 | changing a row's quantity never changes any NIK's usage |
| Ledger.OutletUsageAgrees | index.js:116-130 | the two-level usage map the builders build gives, for an outlet, the same count as the executor's scan of that outlet's sheet |
| Ledger.CountedNiks | index.js:120-125 | `uniqueNikSet` lists each NIK that has a counted row in some sheet, each exactly once |
| Sorting.SortBy | index.js:164 | the usage sort returns a permutation of its input, ordered by the key |
| Sorting.SortByStable | index.js:164 | the sort is stable: elements with equal keys keep their relative order |
| Planner.ScanLogCounts | index.js:116-130 | the scan lists exactly the NIKs with a confirmed row dated in the current month in some sheet, and gives each NIK, at each sheet, the number of such rows it has there |
| Planner.Collect | index.js:141-156 | the collected customers are exactly the scanned, non-excluded NIKs that verify, have a positive monthly quota and are below their type's limit at this outlet, each paired with that usage; when the scan has no repeats, neither does the list |
| Planner.Pick | index.js:164-165 | the take is `min(n, #eligible)` long, drawn from the eligible list, ordered by usage, and no customer left out has a lower usage than one taken |
| Planner.BuildPlan | index.js:141-165 | a plan has `min(n, #eligible)` rows, each an eligible NIK with quantity 1, in non-decreasing usage order, without repeated NIKs, and no eligible NIK left out has lower usage than a planned one |
| Planner.PreparedUsageIsLedger | index.js:149 | the usage a builder ranks by is the executor's usage at the same outlet |
| Planner.CollectEmptyIff | index.js:141-162 | the eligible list is empty exactly when no scanned NIK qualifies |
| Planner.WritePlan | index.js:159-168 | a builder writes nothing when no customer qualifies; otherwise it writes a plan of `min(n, #eligible)` rows, each an eligible NIK with quantity 1, in non-decreasing usage, without repeats, and no eligible NIK left out has lower usage than a planned one |
| Planner.InitialPlan | index.js:103-168 | no plan file is written iff no customer qualifies; otherwise the day's plan has `min(totalStock, #eligible)` rows of eligible customers with quantity 1, least-used first, without repeats, and no eligible customer left out is used less than a planned one |
| Planner.ProcessedNiks | index.js:195 | the processed set holds the NIK text of every row of the executed plan, and nothing else |
| Planner.ReplacementPlan | index.js:234-262 | no replacement file is written iff no customer outside the executed plan qualifies; otherwise it has `min(sisaStok, #eligible)` rows of eligible customers with quantity 1, least-used first, without repeats, none of them a NIK of the executed plan, and no eligible customer left out is used less than a planned one |
| Planner.PlanTakesAllWhenStockSuffices | index.js:165 | when the units are at least the eligible customers, every eligible customer is planned |
| Planner.CollectKeepsScanOrder | index.js:136-157 | the eligible customers appear in the order in which the scan met their NIKs |
| Planner.PlanTiesInScanOrder | index.js:164-165 | among customers with equal usage, the planned ones are the first of them in scan order |
| Executor.Decide | index.js:344-383 | an entry is skipped for format iff its NIK is not 16 digits or its quantity is missing or zero; it is skipped for stock iff it passes that and needs more than the stock; an admitted entry whose NIK does not verify fails with `Verifikasi NIK Gagal`; a verified one at or above its type's limit is skipped with that limit, and only such an entry is; below the limit it succeeds iff the service accepts it, and fails with the service's message (or `TRANSACTION_INVALID`) when rejected, or with the missing-data error when accepted without data |
| Executor.StatusConfirmed | index.js:346-380 | a logged status starts with `Sukses` exactly when the entry succeeded, so the next usage scan counts exactly the successes |
| Executor.Tally | index.js:345-382 | each processed entry adds one to exactly one counter and leaves the others: a success to `Sukses`, a skip of any kind to `Dilewati`, a failure whose message is `Verifikasi NIK Gagal` to `Gagal (Verifikasi)`, any other failure to `Gagal (Transaksi)` |
| Executor.Summarize | index.js:329-383 | the counters add up to the number of processed entries |
| Executor.SummarizeSuccesses | index.js:374 | the `Sukses` counter counts exactly the successful entries |
| Executor.LogRowFor | index.js:338-357 | the logged row carries the entry's NIK text, quantity, the run's timestamp, the outlet's store name and the outcome's status, with no quota columns; name and type are the verification's name and type label once the NIK verified, and `Akan diverifikasi` otherwise |
| Executor.Step | index.js:333-386 | one iteration logs one row after the earlier ones; a success takes its quantity off the stock and adds one to its NIK's usage; anything else leaves stock and usage unchanged |
| Executor.Run | index.js:333-395 | the loop logs between one and as many rows as the plan has for a non-empty plan, one row and one outcome per processed entry, after those already there |
| Executor.RunAccountsForStock | index.js:348-375 | the stock used equals the quantities of the confirmed log rows; from a non-negative stock it never ends below zero, so the units sold never exceed the starting stock |
| Executor.RunStopsWhenStockRunsOut | index.js:388-393 | the loop stops early only when the stock is at or below zero, every shorter prefix left stock, and the entries after the stop change nothing |
| Executor.RunLogsEntriesInOrder | index.js:385 | the `i`-th logged row belongs to the `i`-th plan entry |
| Executor.RunRespectsLimit | index.js:359-362 | a run never lowers a usage or raises it past the NIK's monthly limit, so a NIK repeated in one plan succeeds no more often than its limit allows; a NIK not in the plan keeps its usage |
| Executor.RunKeepsLedger | index.js:376 | while the clock stays in the scanned month, the live usage map equals a fresh scan of the log with the run's rows appended |
| Executor.NegativeQuantityRaisesStock | index.js:345-375 | a verified entry with a negative quantity passes every check, and its success raises the stock |
| Executor.SisaStokCountsUnsuccessful | index.js:405-410 | `sisaStok` is the number of entries that failed or were skipped, not a sum of quantities |
| Executor.ExecuteReports | index.js:308-412 | after a finished run, `Sukses` counts the confirmed log rows, `sisaStok` counts the other processed entries, and no more is sold than the stock it started with; an aborted run reports no remaining stock |
| Executor.ExecuteKeepsLedger | index.js:315-376 | a finished run's usage map is a fresh scan of the outlet's own sheet (the one named by the sanitised store name) with the run's rows appended |
| Executor.Direct | index.js:49-87 | an on-the-spot sale succeeds only when the stock covers it, the NIK verifies, is below its limit and is accepted; it reports the stock less the quantity and logs a confirmed row of that NIK and quantity; it fails for stock exactly when the quantity exceeds the stock |
| Executor.DirectAgreesWithLoop | index.js:40-90 | the on-the-spot sale decides exactly as the plan loop does for the same entry, stock and log, and logs the same row |
| Validation.EarlierHolds | index.js:519-525 | `nikSet` before a row holds exactly the NIK cells of the earlier rows |
| Validation.Validate | index.js:512-531 | every error names a row's line and that row's NIK cell (empty text for a missing cell with a bad NIK); errors come line by line and, on a line, in the order of the checks, never twice; the problems on line `i+2` are exactly those of row `i`: a bad NIK iff the cell is missing or not 16 digits, a duplicate iff an earlier row has the same cell, a bad quantity iff it is not a number above zero; the number of errors is the number of failed checks; the list is empty iff every row is well-formed and the NIKs are distinct |
| Validation.ErrorsNameTheirRows | index.js:515-524 | each error carries the line and NIK cell of the row it is about |
| Validation.ErrorsInOrder | index.js:514-525 | the errors are ordered by line and, within a line, by the order of the checks |
| Validation.ErrorCount | index.js:516-524 | each failed check adds exactly one error |
| Validation.ErrorsOnRowLines | index.js:515 | every error names a line between 2 and the number of rows plus one |
| Validation.ErrorsReportProblems | index.js:514-526 | after any number of rows, the problems on an earlier row's line are exactly that row's problems |
| Validation.NoErrorsIffValid | index.js:528 | the validator reports nothing iff every row is well-formed and all NIK cells are distinct |
| QuotaRefresh.AllNiks | index.js:422-425 | the NIK list holds every NIK of every sheet, each once |
| QuotaRefresh.FreshQuotas | index.js:433-446 | a NIK gets a fresh quota iff it verified and its quota request returned one, and it gets that quota |
| QuotaRefresh.RefreshLog | index.js:427-462 | the refresh keeps every sheet's name and number of rows |
| QuotaRefresh.RefreshLogRows | index.js:450-460 | a row changes only in its four quota columns; they take the fresh quota when its NIK got one, and otherwise the row is left as it was |
| QuotaRefresh.RefreshSheetsIdempotent | index.js:450-460 | folding the same quotas in twice is folding them in once |
| QuotaRefresh.RefreshKeepsNiks | index.js:450-460 | the refreshed log holds exactly the NIKs the log held |
| Report.Selected | index.js:477-481 | a row is reported iff it is confirmed and its date can be read and lies within the chosen days, as often as it occurs in the sheet |
| Report.SelectedConcat | index.js:477-481 | the selection works row by row: selecting from two joined runs of rows joins their selections, so the sheet's order is kept |
| Report.AggregateNiks | index.js:483-491 | the aggregate has one line per NIK that bought in the range, and no other |
| Report.AggregateTotals | index.js:485-491 | each line's total is the sum of that NIK's quantities, and the lines add up to the whole quantity sold |
| Report.AggregateNames | index.js:487 | a line's name and category are those of its NIK's first selected row |
| Report.SumTotalsSorted | index.js:493 | sorting the lines does not change their grand total |
| Report.SalesReport | index.js:493-498 | the report lists totals largest first and counts one customer per line |
| Report.SalesReportCorrect | index.js:468-500 | the report has one line per buying NIK with its summed total and first-row name, sorted stably by descending total, and its cylinder count is the sum of the listed totals |
| Ui.Breakdown | ui.js:19-21 | hours, minutes and seconds recompose to the whole seconds elapsed, with minutes and seconds below 60 |
| Ui.Parts | ui.js:22-25 | `jam` appears iff hours are positive, `menit` iff minutes are, `detik` iff seconds are or nothing came before; never empty; units in the order jam, menit, detik |
| Ui.FormatWaktuProses | ui.js:18 | below one second the text is the milliseconds followed by `milidetik` |
| Ui.PartsAddUp | ui.js:23-25 | the parts shown add up to the whole duration: only zero parts are omitted |
| Ui.FormatReadsBack | ui.js:17-27 | from one second on, reading the printed text back word by word gives the whole seconds elapsed |
| Ui.ShownRows | ui.js:136-142 | the table shows exactly the entries whose count is not zero |
| Ui.TableTotalIsSum | ui.js:135-145 | leaving out the zero rows does not change the total: it is the sum of every count |
| Ui.SummaryTableTotal | ui.js:132-145 | the "Total" row of a run summary is the sum of its four counters |
| Ui.RunTableTotal | ui.js:135-145 | after a run, the "Total" row is the number of entries processed |

## Left out

- Reading and writing the workbook and plan files (excel.js) is not part of
  this model. Sheets (in the key order described above) and plan rows are inputs and the model returns what
  would be written (`None` from a plan builder when no file is written). This covers the per-entry log write (index.js:385-386),
  `backupMasterLog`, and the template files of `runManajemenTemplate`, which
  index.js also defines twice.
- The HTTP transport, headers and endpoints are not modelled. So are the real
  wait before a retry and the re-issued request. Upstream answers are inputs.
  `getProducts` is an `Option` of the available stock. Report endpoints such
  as `getMonthlyReport` are outside the core.
- The random pacing `jeda`, prompts, colours, progress bars and table
  printing are left out, as are the menu loop `startSystem` and token
  caching. `runValidasiRencana` prints with an undefined `Table`; the model
  stops at the error list.
- The clock is an input: the current month, and the timestamp text of new
  rows. Timezones are not modelled. Nor is JavaScript's 0-based `getMonth`;
  both sides of the comparison use 1-based months.
- Dates are read only in the `d/m/y` shape, with day 1-31 and month 1-12.
  Other text that `new Date` would accept, and per-month calendar validity,
  are not modelled.
- NIK cells are text. A number-typed cell and its `String` conversion are
  not distinguished, and neither are text-typed quantity cells.
- Report.InReport: compares whole days. The program compares instants, so a
  range start that carries a time of day (the "yesterday" choice) excludes
  rows of that day. This difference is not modelled.
- Report.QuantityOf: a selected row without a quantity adds 0. In the
  program it makes the total `NaN`.
- Executor.Execute: its own contract says only when the run is aborted,
  which is when the product information cannot be loaded. What a finished
  run does is stated by `Executor.ExecuteReports` and
  `Executor.ExecuteKeepsLedger`.
- Executor.Direct: requires a 16-digit NIK and a positive quantity. The
  prompt rejects a NIK that is not 16 digits and a quantity that is not
  above zero before the sale starts (ui.js:113-125). It accepts a
  fractional quantity, which the model's whole-number quantities leave out
  (see the next line). When the product request fails in transport, the
  program prints the HTTP client's own error text; the model prints
  `Gagal memuat info produk/stok.` for every failure to load the product
  information.
- Planner.InitialPlan: takes a whole-number `totalStock`. The prompt
  (index.js:107-110) accepts any number above 0, and `slice(0, totalStock)`
  (index.js:165) drops a fraction; the model takes that integer part as its
  input.
- Records.LogRow: the date cell `tanggal` is always text, and an empty
  one reads as no date, so a confirmed row with an empty date cell is
  simply not counted or reported. In the program the cell is then
  undefined (`sheet_to_json` is called without a default value), and
  splitting it throws for any row whose status starts with `Sukses`: the
  on-the-spot sale fails with `Gagal: ...` (index.js:60), building a plan
  stops (index.js:122), a run stops before its loop (index.js:325), and the
  sales report stops (index.js:479). These crashes are not modelled.
- Records.PlanRow: quantities are whole numbers. The program also takes
  fractions: the prompt (ui.js:120-122) and the validator (index.js:522)
  accept 1.5, and the loop (index.js:345-375) takes 1.5 off the stock.
  Non-integer quantities are not modelled.
- SheetName.SheetNameOf: cuts at 31 characters of the model's strings.
  JavaScript's `substring(0, 31)` (index.js:54) cuts at 31 UTF-16 code
  units, so a store name with characters outside the Basic Multilingual
  Plane (an emoji, say) can be cut differently, even through a surrogate
  pair. UTF-16 encoding is not modelled.
- Executor.Run: every row a run logs carries the same timestamp text. The
  program stamps each entry with the clock at that moment (index.js:340),
  so a run that crosses midnight or a month's end logs different dates on
  its rows. The model does not cover that case.
- Api.GetQuota: `family` is modelled as a count or `N/A`. A non-numeric
  family value from the server is not modelled.
