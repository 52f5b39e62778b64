# PC part catalog ingestion, modelled in Dafny

This project models the PCPartPicker ingestion path of the part catalog, which has three pieces:

- **The ingestion script** (`scripts/python/ingest_pcpartpicker.py`):
  - It finds its database URL. It takes `DATABASE_URL` from the environment. If that is unset or empty, it scans `.env.local` once for it. If there is still no URL, it aborts with status 1.
  - It turns each scraped item into a part row:
    - brand falls back to manufacturer, then to `Unknown`;
    - model falls back to `Unknown`;
    - the SKU is derived from brand and model;
    - the category and placeholder URL come from the scraper key;
    - a USD-only price is extracted.
  - It writes three tables:
    - `parts` is upserted by SKU; a conflict updates only the price;
    - one synthetic in-stock offer is appended per priced item;
    - exactly one `pcpartpicker` retailer row is kept.
  - Its `main` visits the six supported scraper keys in order and prints the total item count.
- **The Node worker** (`src/scripts/pcpp_worker.js`). It runs the ingest as a child process in a loop. After a failed cycle it backs off for min(60 s, interval). It then sleeps the rest of the interval, unless a signal has set `shuttingDown`. A signal never interrupts a run or a sleep.
- **The Python worker** (`scripts/python/pcpp_worker.py`). It calls the ingest's `main` in-process in the same kind of loop. It waits on a `threading.Event`, so a signal ends the remaining wait at once. Its interval may be any integer. A negative interval makes the backoff `time.sleep` raise inside the `except` clause, and that exception ends the loop.

Files:

- `base.dfy` — `Option`, `Min`, `Max`.
- `sku.dfy` — SKU derivation.
- `env_local.dfy` — `.env.local` scan and URL resolution.
- `ingest.dfy` — prices, fallbacks, categories, the tables as values, and a `Database` class whose methods run the script's loops in place.
- `node_worker.dfy` — the Node worker.
- `py_worker.dfy` — the Python worker.

How the model represents things:

- Tables are values.
  - `parts` is a map from SKU to row.
  - `offers` and `retailers` are sequences.
  - Each `serial` id sequence is a counter.
- Worker time is an integer number of milliseconds.
- Each worker cycle's environment is an input. It says how the ingest ended, how long it ran, and whether and when a signal arrived.
- A finite sequence of cycles drives each worker loop. The loop methods are proved equal to a pure step function folded over that sequence, and the lemmas are stated about that fold.

The backoff after a failure is not the whole pause before the retry:

- Both workers sleep min(60 s, interval) after a failed cycle (`pcpp_worker.js:43-50`, `pcpp_worker.py:34-37`).
- They then sleep whatever is left of the interval, measured from the start of the failed run (`pcpp_worker.js:52-56`, `pcpp_worker.py:39-41`).
- So the next attempt starts max(interval, run + backoff) after the failed one. With a 120 s interval, an instant failure is followed by the next attempt 120 s later, not 60 s later. `NodeWorker.LongIntervalFailureWaitsInterval` and `PyWorker.LongIntervalFailureWaitsInterval` state this.

Node's `setTimeout` runs a callback after 1 ms when its delay is above 2^31 - 1 ms (about 24.8 days). The Node model applies that clamp to both sleeps, so an interval above that length does not space the runs by the interval.

## Model

| member | source | states |
|---|---|---|
| Sku.LowerPointwise | part-forge-i/scripts/python/ingest_pcpartpicker.py:116 | lower-casing keeps the length and maps each character independently |
| Sku.ReplacePointwise | part-forge-i/scripts/python/ingest_pcpartpicker.py:116 | a one-character replace keeps the length and rewrites exactly the occurrences of the target |
| Sku.NormalizeSkuPointwise | part-forge-i/scripts/python/ingest_pcpartpicker.py:116 | the normalised SKU is the first min(n, 120) characters of the input, each lower-cased, with space and '/' turned into '-' |
| Sku.DeriveSkuShape | part-forge-i/scripts/python/ingest_pcpartpicker.py:116 | a derived SKU fits the 120-character column, has length min(\|brand\|+1+\|model\|, 120), and contains no space, no '/' and no upper-case ASCII letter |
| Sku.NormalizeSkuIdempotent | part-forge-i/scripts/python/ingest_pcpartpicker.py:116 | normalising a SKU again leaves it unchanged |
| EnvLocal.FindChar | part-forge-i/scripts/python/ingest_pcpartpicker.py:43 | `partition('=')` splits at the first '=', or keeps the whole line when there is none |
| EnvLocal.LeadingSpacesExact | part-forge-i/scripts/python/ingest_pcpartpicker.py:41-43 | `strip()` removes exactly the maximal run of leading whitespace |
| EnvLocal.TrailingEndExact | part-forge-i/scripts/python/ingest_pcpartpicker.py:41-43 | `strip()` removes exactly the maximal run of trailing whitespace |
| EnvLocal.StripCharacterised | part-forge-i/scripts/python/ingest_pcpartpicker.py:41-43 | a stripped string is the input minus leading and trailing whitespace, and is empty or starts and ends with a non-space |
| EnvLocal.SelectedKeyHasUrlPrefix | part-forge-i/scripts/python/ingest_pcpartpicker.py:41-43 | the variable that a selected line sets always has a name starting with DATABASE_URL |
| EnvLocal.ScanEnvLocal | part-forge-i/scripts/python/ingest_pcpartpicker.py:39-45 | the `for ... break` loop gives exactly the environment of the scan specification |
| EnvLocal.ScannedEnvFirstSelected | part-forge-i/scripts/python/ingest_pcpartpicker.py:39-45 | only the first selected line sets a variable, and no later line is read |
| EnvLocal.ScannedEnvNoSelected | part-forge-i/scripts/python/ingest_pcpartpicker.py:39-45 | a file without a selected line leaves the environment unchanged |
| EnvLocal.ResolveDatabaseUrl | part-forge-i/scripts/python/ingest_pcpartpicker.py:35-50 | a resolved URL is never empty; a non-empty environment value wins over the file; with no value and no file, start-up aborts; with no value and a file, the URL resolves exactly when the scanned environment has a non-empty DATABASE_URL, and it is that value |
| EnvLocal.ResolutionExitStatus | part-forge-i/scripts/python/ingest_pcpartpicker.py:35-50 | the script exits with a non-zero status exactly when the environment has no non-empty DATABASE_URL and either there is no file or the scan does not yield a non-empty one |
| EnvLocal.PrefixedNameEndsScan | part-forge-i/scripts/python/ingest_pcpartpicker.py:39-50 | a `DATABASE_URL_X=...` line ahead of the real one sets DATABASE_URL_X, ends the scan, and makes start-up abort |
| Ingest.SupportedKeysMapped | part-forge-i/scripts/python/ingest_pcpartpicker.py:52-63 | every supported key has a catalog category, and distinct keys get distinct categories |
| Ingest.UnsupportedKeysUnknown | part-forge-i/scripts/python/ingest_pcpartpicker.py:90-91 | a key outside the supported list gets category `unknown` and no placeholder URL |
| Ingest.SupportedKeysUrls | part-forge-i/scripts/python/ingest_pcpartpicker.py:65-72 | every supported key's placeholder URL is the category page named after the key |
| Ingest.PriceToUsd | part-forge-i/scripts/python/ingest_pcpartpicker.py:74-86 | a price is returned exactly when the money value has a numeric amount and no currency, a currency without a code, or code USD; it is that amount |
| Ingest.CurrencyCodeRule | part-forge-i/scripts/python/ingest_pcpartpicker.py:77-84 | a currency without a code counts as USD; any other code is refused; a missing amount is refused even in USD |
| Ingest.BrandOf | part-forge-i/scripts/python/ingest_pcpartpicker.py:107 | the brand is never empty and is the item's brand, its manufacturer or `Unknown` |
| Ingest.BrandFallback | part-forge-i/scripts/python/ingest_pcpartpicker.py:107 | the brand is chosen in the order: brand, then manufacturer, then `Unknown` |
| Ingest.ModelOf | part-forge-i/scripts/python/ingest_pcpartpicker.py:108-113 | the model is never empty, so no item is skipped; a non-empty model is kept, and a missing or empty one becomes `Unknown` |
| Ingest.EnsuredRetailer | part-forge-i/scripts/python/ingest_pcpartpicker.py:95-104 | after the retailer step, the `pcpartpicker` slug can be selected |
| Ingest.EnsuredRetailerOnce | part-forge-i/scripts/python/ingest_pcpartpicker.py:95-104 | the retailer step is idempotent, leaves exactly one `pcpartpicker` row, and touches neither parts nor offers; when the slug is missing it appends exactly the row (next id, `pcpartpicker`, `PCPartPicker`), advances only the retailer counter, and leaves every other row; otherwise it changes nothing |
| Ingest.EnsuredRetailerValid | part-forge-i/scripts/python/ingest_pcpartpicker.py:95-104 | the retailer step keeps the script's invariant, and the selected id names an existing retailer |
| Ingest.ItemStep | part-forge-i/scripts/python/ingest_pcpartpicker.py:106-139 | one item inserts its SKU (with the next id, its brand, model, category and URL) or updates only the price of the existing row; every other row, the retailers and the id counters of untouched tables are unchanged; exactly one offer is appended iff the price is USD |
| Ingest.ItemStepValid | part-forge-i/scripts/python/ingest_pcpartpicker.py:119-139 | one item keeps the script's invariant: unique SKUs, part ids, retailer slugs and retailer ids, and offers point at existing parts and retailers |
| Ingest.ItemsKeepRetailers | part-forge-i/scripts/python/ingest_pcpartpicker.py:106-139 | the item loop never changes the retailers table |
| Ingest.ItemsPartKeys | part-forge-i/scripts/python/ingest_pcpartpicker.py:106-128 | after the loop, the SKUs in `parts` are the earlier ones plus the SKUs of the items |
| Ingest.ItemsLeaveOtherSkus | part-forge-i/scripts/python/ingest_pcpartpicker.py:119-128 | a SKU that no item produces keeps its row, or its absence |
| Ingest.ItemsKeepExistingRows | part-forge-i/scripts/python/ingest_pcpartpicker.py:119-128 | the conflict update changes only the price of an existing part: id, SKU, manufacturer, model, category and URL stay |
| Ingest.LatestPriceWins | part-forge-i/scripts/python/ingest_pcpartpicker.py:119-128 | a part's price is that of the last item with its SKU (0 when that item has no USD price) |
| Ingest.FirstItemDescribesNewPart | part-forge-i/scripts/python/ingest_pcpartpicker.py:119-128 | a new SKU's manufacturer, model, category and URL come from the first item that produces it |
| Ingest.ItemsOffers | part-forge-i/scripts/python/ingest_pcpartpicker.py:130-139 | offers are only appended: one per USD-priced item, in item order, pointing at the part row of that item's SKU, at that price, in stock, with the batch's retailer and URL and no retailer SKU |
| Ingest.ItemsValid | part-forge-i/scripts/python/ingest_pcpartpicker.py:106-139 | the item loop keeps the script's invariant |
| Ingest.BatchValid | part-forge-i/scripts/python/ingest_pcpartpicker.py:89-139 | one call of `upsert_parts_and_offers` keeps the script's invariant, leaves exactly one `pcpartpicker` retailer, and every offer it appends points at that retailer |
| Ingest.RepeatedRunsOneRetailer | part-forge-i/scripts/python/ingest_pcpartpicker.py:151-154 | any number of batches keep the script's invariant and exactly one `pcpartpicker` retailer |
| Ingest.EveryItemUpserted | part-forge-i/scripts/python/ingest_pcpartpicker.py:106-128 | every item of a batch reaches the part upsert |
| Ingest.PrintedTotalCountsUpserts | part-forge-i/scripts/python/ingest_pcpartpicker.py:150-155 | the printed total equals the number of items that pass the skip test, summed over the keys |
| Ingest.Database.EnsureRetailer | part-forge-i/scripts/python/ingest_pcpartpicker.py:95-104 | the statements update the tables as EnsuredRetailer says, and return the id that the select finds |
| Ingest.Database.UpsertPart | part-forge-i/scripts/python/ingest_pcpartpicker.py:119-128 | the upsert statement updates the tables as UpsertPartRow says (a missing price is stored as 0), returns the row's id, and counts one executed upsert |
| Ingest.Database.UpsertPartsAndOffers | part-forge-i/scripts/python/ingest_pcpartpicker.py:89-139 | the function leaves the tables as BatchApplied, the fold that the lemmas above describe, and executes exactly one part upsert per item |
| Ingest.Database.IngestAll | part-forge-i/scripts/python/ingest_pcpartpicker.py:150-155 | `main`'s loop applies the six keys in order and returns the printed total, which equals the number of part upsert statements the loop executed |
| NodeWorker.BackoffMs | part-forge-i/src/scripts/pcpp_worker.js:45 | the backoff is positive, at most 60 s and at most the interval, and equals one of the two |
| NodeWorker.TimerDelay | part-forge-i/src/scripts/pcpp_worker.js:17-19 | a `setTimeout` delay within 1..2^31-1 ms is kept, and a larger one becomes 1 ms |
| NodeWorker.SleepCompletesInterval | part-forge-i/src/scripts/pcpp_worker.js:52-56 | when the rest of the interval fits the timer, the run plus the remaining sleep lasts max(interval, run) |
| NodeWorker.StepTiming | part-forge-i/src/scripts/pcpp_worker.js:39-56 | a cycle records one run starting at the loop's time; a failure always waits the full backoff; a signal seen at the check skips only the remaining sleep; otherwise the next run starts after the (clamped) remaining sleep, which is max(interval, run + backoff) when the rest of the interval fits the timer |
| NodeWorker.SuccessSleepsRest | part-forge-i/src/scripts/pcpp_worker.js:52-56 | a successful run shorter than the interval is followed by a sleep of exactly the rest of the interval, when that fits the timer |
| NodeWorker.OversizedIntervalSleepsOneMs | part-forge-i/src/scripts/pcpp_worker.js:52-56 | with an interval above 2^31-1 ms, an instant successful run is followed by a 1 ms sleep, not the interval |
| NodeWorker.LongIntervalFailureWaitsInterval | part-forge-i/src/scripts/pcpp_worker.js:43-56 | with a 120 s interval, an instant failure still leaves 120 s between starts, not the 60 s backoff |
| NodeWorker.StepSpaced | part-forge-i/src/scripts/pcpp_worker.js:39-56 | one cycle keeps the spacing invariant |
| NodeWorker.LoopSpaced | part-forge-i/src/scripts/pcpp_worker.js:39-57 | the loop keeps the spacing invariant |
| NodeWorker.LoopGaps | part-forge-i/src/scripts/pcpp_worker.js:39-57 | consecutive runs start as NextStart says; they never overlap, a failed run is followed by at least the backoff, and when the interval fits the timer they start max(interval, run + backoff) apart, so at least the interval |
| NodeWorker.LoopRuns | part-forge-i/src/scripts/pcpp_worker.js:9-57 | one run per cycle, in order; no run starts after a signal; the in-flight run completes; the loop stops early only on shutdown; the flag is never reset |
| NodeWorker.Worker.OnSignal | part-forge-i/src/scripts/pcpp_worker.js:12-15 | the handler sets `shuttingDown` and changes nothing else |
| NodeWorker.Worker.Sleep | part-forge-i/src/scripts/pcpp_worker.js:17-19 | a sleep advances the clock by the `setTimeout` delay of its duration (1 ms above 2^31-1 ms) and nothing else |
| NodeWorker.Worker.RunOnce | part-forge-i/src/scripts/pcpp_worker.js:21-35 | the run lasts its duration, is recorded, and yields the exit outcome |
| NodeWorker.Worker.MainLoop | part-forge-i/src/scripts/pcpp_worker.js:37-59 | the loop's final state is the fold of Step over the cycles, so the lemmas above hold of it |
| PyWorker.BackoffSeconds | part-forge-i/scripts/python/pcpp_worker.py:37 | the backoff is at most 60 s and at most the interval, and equals one of the two |
| PyWorker.WaitMs | part-forge-i/scripts/python/pcpp_worker.py:41 | the event wait lasts the timeout, or until the signal when that comes first |
| PyWorker.StepTiming | part-forge-i/scripts/python/pcpp_worker.py:28-41 | with a non-negative interval, no exception escapes a cycle; a raising call waits the full backoff; a signal before the check skips the wait; a signal during the wait ends it; otherwise the cycle lasts max(interval, call + backoff) |
| PyWorker.SignalEndsWaitEarly | part-forge-i/scripts/python/pcpp_worker.py:38-41 | a signal during the remaining wait ends that wait when it arrives, and no further call starts |
| PyWorker.LongIntervalFailureWaitsInterval | part-forge-i/scripts/python/pcpp_worker.py:34-41 | with a 120 s interval, a call that raises at once still leaves 120 s between starts |
| PyWorker.StepSpaced | part-forge-i/scripts/python/pcpp_worker.py:28-41 | one cycle keeps the spacing invariant |
| PyWorker.LoopSpaced | part-forge-i/scripts/python/pcpp_worker.py:28-41 | the loop keeps the spacing invariant |
| PyWorker.LoopGaps | part-forge-i/scripts/python/pcpp_worker.py:28-41 | consecutive calls start max(interval, call + backoff) apart; they never overlap, are at least the interval apart, and a raising call is followed by at least the backoff |
| PyWorker.LoopRuns | part-forge-i/scripts/python/pcpp_worker.py:28-41 | one call per cycle, in order, each recorded with its duration and outcome; a loop that has not shut down makes at least one call |
| PyWorker.LoopStops | part-forge-i/scripts/python/pcpp_worker.py:28-41 | the loop stops at the first signal or escape; an exception escapes exactly when the interval is negative and the last call raised; otherwise the last call is followed by a shutdown exactly when its cycle saw a signal |
| PyWorker.ExceptionsContained | part-forge-i/scripts/python/pcpp_worker.py:30-37 | with a non-negative interval, no exception leaves `run_loop`; it returns only on shutdown or when the cycles run out |
| PyWorker.NegativeIntervalFirstFailureEscapes | part-forge-i/scripts/python/pcpp_worker.py:34-37 | with a negative interval, the first raising call takes the process down with status 1, and nothing runs after it |
| PyWorker.LoopExitStatus | part-forge-i/scripts/python/pcpp_worker.py:28-52 | the process exits with a non-zero status exactly when the loop had not shut down, the interval is negative and the last call raised |
| PyWorker.Worker.HandleSignal | part-forge-i/scripts/python/pcpp_worker.py:19-21 | the handler sets the event and changes nothing else |
| PyWorker.Worker.Sleep | part-forge-i/scripts/python/pcpp_worker.py:37 | a negative duration raises; any other sleep advances the clock by its duration |
| PyWorker.Worker.Wait | part-forge-i/scripts/python/pcpp_worker.py:41 | the wait advances the clock by WaitMs, and a signal sets the event |
| PyWorker.Worker.Ingest | part-forge-i/scripts/python/pcpp_worker.py:31 | the call lasts its duration, is recorded, and returns or raises |
| PyWorker.Worker.RunLoop | part-forge-i/scripts/python/pcpp_worker.py:24-41 | the loop's final state and its escape flag are the fold of Step over the cycles |

## Left out

Outside the model:

- **Database engine and I/O.** Connections, cursors, commits and closing are left out. So are printing and timing messages, the scraper API call, and reading the file system. The scraper's result is a parameter: a map from key to items. The file is a parameter: an optional sequence of lines.
- **Process and timer machinery.** The child process spawn is left out. So is the `'error'` event of `spawn`, for which the worker registers no listener: a launch failure (no `python` on the path, say) makes the child process emit `'error'`, which becomes an uncaught exception and ends the worker with status 1 without `main` rejecting. Such a launch failure never reaches the `catch` at `pcpp_worker.js:47-50`. That catch, reached when `spawn` throws synchronously, is modelled as `RunResult.Threw`, with the same backoff as a non-zero exit. `main` has no rejecting path in the model, so the handler at lines 61-64 is not modelled. Wall-clock drift and timer lateness are also left out. The run duration and signal times are inputs.
- **Infinite runs.** The worker loops run forever. The model covers every finite prefix of cycles, not the infinite run.
- **Decimal prices.** Prices are `real`. The rounding of `numeric(10,2)` columns, `Decimal`'s text form, and NaN or infinite amounts are left out. An amount that `Decimal` rejects is the `Unparseable` case.
- **Column widths.** The `varchar` limits on manufacturer and model are not checked.
- **Unknown scraper keys.** An unknown key would insert an offer with a NULL URL, which violates `offers.url NOT NULL` and aborts the transaction. This is not modelled, because `main` passes only the six supported keys.
- **Sequence gaps.** The model's ids come from a gapless counter, and `Ingest.ItemStep` states the exact id a new part gets from it. In PostgreSQL a conflicting `insert` also consumes a `serial` value, so real ids after such inserts are larger than the model's; distinctness and existence of ids are unaffected.
- **Threads.** Concurrent writers to the same tables are left out.
- **Non-`Exception` errors in the Python worker.** `BaseException`s other than `Exception` never come from `ingest.main()` here: `SystemExit` is raised at import time, before `run_loop` starts.
- **The skip branch.** `if not model: continue` is unreachable, because the model always falls back to `Unknown`. It is kept as a guard in `Ingest.Database.UpsertPartsAndOffers`, and `Ingest.ModelOf` states that it never fires.

Modelled more narrowly than the source:

- Sku.NormalizeSkuPointwise: lower-cases only ASCII letters, not the full Unicode `str.lower()`. Python can change a string's length when it lower-cases some non-ASCII characters. The model does not.
- NodeWorker.BackoffMs: the interval is a positive whole number of seconds of any size. A `NaN`, zero or negative `parseInt` result is not modelled. The `setTimeout` clamp above 2^31-1 ms is modelled, in `NodeWorker.TimerDelay`.
- PyWorker.LoopRuns: `int()` on a malformed or empty `PCPP_INTERVAL_SEC` raises `ValueError` before the loop starts (`pcpp_worker.py:25`); the model takes the interval as an integer.
- PyWorker.ExceptionsContained: `shutdown.wait` raises `OverflowError` for a timeout above `threading.TIMEOUT_MAX`, and that exception is outside the `try`; the model lets any non-negative wait complete.
- PyWorker.LoopExitStatus: counts only the negative-interval escape; the `ValueError` and `OverflowError` exits above would also give status 1.
