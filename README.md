# youtube-scraper core, modelled in Dafny

The core of the scraper is `scraping.py`. `YouTubeScraper` drives one browser session through a random walk over YouTube:

- it searches for a start term;
- it picks a video from the search results, then repeatedly from the suggested bar;
- it scrapes each video page it has not visited yet into a video buffer;
- it can also read a channel's videos page into a channel buffer.

`YTSManager` runs these scrapers in two ways:

- **Search roster:** one thread per start term. A monitor thread periodically flushes every buffer into `video_data`; it removes dead threads, terminates their scrapers and restarts their terms.
- **Channel pool:** a bounded pool of `n_workers` scrapers is reused across one thread per channel. A monitor thread flushes the channel buffers into `channel_data`.

The model has six modules, one per piece of that code:

| file | module | models |
|---|---|---|
| labels.dfy | `Labels` | `yt_label_to_num`. The scan loop is a method, proved equal to a function `LabelValue`. The value is exact: a mantissa over a power of ten. |
| retry.dfy | `Retry` | `run_with_retry` as written, and the evidently intended version (see Findings), which the rest of the model calls. |
| selection.dfy | `Selection` | These parts of `choose_vid_from_search` / `choose_vid_from_suggested`: the scroll loop, the bottom-of-list slice, the href filter of `_retrieve_*_videos` and the pick. |
| records.dfy | `Records` | The element reads and conversions of `scrape_vid_data` and `_scrape_channel_page`. |
| scraper.dfy | `Scraper` | The `YouTubeScraper` class (visited sets, buffers, flushes, one visit, `_scrape_loop`, `_scrape_channel_page`), and `RunLoop`, the function that specifies `_scrape_loop`. |
| manager.dfy | `Manager` | The `YTSManager` class: starting the roster, one monitor tick, stopping, and the channel pool loop with its start, reclaim, flush and teardown steps. |

The browser, the random numbers and the threads become inputs:

- A page is given as what each `WebDriverWait(...).until(presence_of_all_elements_located(...))` returns, either a timeout or a non-empty element list. `driver.current_url` is read twice per visit, and the two reads are two inputs: the URL read straight after the selection is the key the loop deduplicates on, and the URL read at the end of `scrape_vid_data` is the record's `video_url`. The code does not relate the two, and neither does the model.
- The coin flips of `np.random.rand() < scroll_chance` and the index chosen by `np.random.choice` are parameters.
- Each call of a retried operation is given as a sequence of outcomes.
- `thread.is_alive()` has two forms. For a roster step it is the set of thread handles still running. The pool loop is given one round per pass. A round holds the serials of the workers found finished when that pass reclaims, whether the channel flushing thread is alive, and the `_stop_check()` answer. Each pool worker carries a serial, the number of workers started before it, so a round can name a worker created during the call, even one started in that very pass.
- Each manager method is one sequential step taken while holding `_thread_lock`.
- `datetime.now()` is the parameter `today`.

Python exceptions that end a call become explicit result cases:

- `FloatError`: `float()` fails on a label with two dots.
- `SelectionRaised`: a timeout or a stale element leaves `choose_vid_*`.
- `ExtractionRaised`, `PageRaised`: a raised conversion or load timeout leaves the page read.
- `Died`: an exception ends a scrape loop.
- `UrlIndexError`: `channel_urls[i]` is out of range.

Ghost state records what the code only implies:

- Each scraper keeps a log of every record it ever buffered and how many of them were flushed. It also keeps the URL each record was marked visited under. `Valid()` ties the buffer to the unflushed tail of that log, and the visited set to the marked URLs, one per record, with no URL twice.
- The manager's `Valid()` states that roster keys and scrapers are distinct, and that no pool scraper is both free and busy. It also states that the pool workers' serials are distinct and below the count of workers started.

## Model

| member | source | states |
|---|---|---|
| Labels.Lower | scraping.py:66 | Lowering keeps digits digits and maps an ASCII capital to its lower-case letter. |
| Labels.LowerAll | scraping.py:66 | Lowers each character in place, keeping the length. Per-character lowering is exact for every test the code makes on the lowered label (see Left out). |
| Labels.LabelValue | scraping.py:60-82 | A missing label, and only a missing label, gives `None`. Otherwise: scan the lowered label, prepend '0', convert exactly, multiply, truncate. |
| Labels.LabelToNum | scraping.py:60-82 | The character loop updating `num_str` and `multiplier`, then the conversion, returns exactly `LabelValue`. |
| Labels.ScanCollectsDigitsAndDots | scraping.py:66-68 | The scan collects only digits and dots, so the text handed to `float()` is digits and dots. |
| Labels.ScanDigitsThen | scraping.py:66-68 | A run of digits is read in full, and the scan continues after it. |
| Labels.LabelIgnoresCase | scraping.py:66 | Lowering the label first does not change the result (case-insensitive). |
| Labels.CommaSkipped | scraping.py:77-78 | A comma inside the scanned part is skipped: removing it changes nothing. |
| Labels.NoLeadingDigitIsZero | scraping.py:64-80 | A label whose first character stops the scan (e.g. "views"), or an empty label, reads as 0. |
| Labels.ParseInteger | scraping.py:64-82 | `float("0" + digits)` denotes the digits' value with no fraction. |
| Labels.ParseFraction | scraping.py:64-82 | `float("0" + ws + "." + fs)` denotes the mantissa `ws fs` over 10^\|fs\|. |
| Labels.GroupedCount | scraping.py:64-82 | Digit groups joined by a comma, then text, read as the joined digits' value ("1,234 views" gives 1234). |
| Labels.MagnitudeLabel | scraping.py:67-82 | A k/m/b letter (either case) multiplies by 10^3/10^6/10^9, ends the scan, and the product is truncated toward zero. |
| Labels.ScanThenMagnitude | scraping.py:66-76 | After any run of digits, dots and commas, a magnitude letter ends the scan with its multiplier, whatever follows it. |
| Labels.ScanThenStop | scraping.py:66-80 | After any run of digits, dots and commas, any other character ends the scan: nothing after it is read, and the multiplier stays 1 ("2.5 views", "1,234,567 views"). |
| Labels.StopLabel | scraping.py:64-82 | So such a label has the value of the part before that character. |
| Labels.MagnitudeScales | scraping.py:64-82 | After any run of digits, dots and commas, a k/m/b letter multiplies the decimal read so far and the product is truncated. Two dots before the letter still raise. |
| Labels.MagnitudeInteger | scraping.py:64-82 | Digits then a k/m/b letter, as in "12K" or "3M views", read as the digits' value times 10^3/10^6/10^9. |
| Labels.TwoDotsRaise | scraping.py:82 | Two or more dots in the scanned part make `float()` raise. |
| Labels.ExampleGrouped | scraping.py:60-82 | "1,234 views" reads as 1234. |
| Labels.ExampleThousands | scraping.py:60-82 | "1.5K" reads as 1500. |
| Labels.ExampleMillions | scraping.py:60-82 | "3M views" reads as 3000000. |
| Labels.ExampleNoDigits | scraping.py:60-82 | "views" reads as 0. |
| Retry.RunWithRetry | scraping.py:90-100 | As written. With `times <= 1`: no call, `None`, no refresh. A first success: one call, its value. A first failure: one refresh when a driver is given, exactly one more call, and that call's outcome. |
| Retry.AlwaysFailingAsWritten | scraping.py:90-100 | An always-failing operation under the default `times=3` is called twice, and the exception propagates. |
| Retry.RunWithRetryIntended | scraping.py:90-100 | Corrected: between 1 and `max(times, 1)` calls. All but the last failed, and the result is the last call's outcome. A propagated failure means all `max(times, 1)` calls were made. One refresh per failed guarded call. |
| Retry.ThreeTriesPropagate | scraping.py:90-100 | Corrected, with the default three tries: the failure propagates if and only if all three calls raise. |
| Retry.AlwaysFailingIntended | scraping.py:90-100 | Corrected: the always-failing operation is called three times. |
| Selection.RetrieveSearchVideos | scraping.py:138-154 | Raises (None) exactly when a candidate's href read is stale; otherwise the kept candidates are exactly `VideoLinks(found)`. |
| Selection.RetrieveSuggestedVideos | scraping.py:156-176 | Stale candidates are skipped; the result is exactly `VideoLinks(found)`. |
| Selection.VideoLinksExact | scraping.py:150-153 | A candidate is kept if and only if it is in the list and its href is non-None and contains "youtube.com" case-insensitively. |
| Selection.VideoLinksConcat | scraping.py:150-153 | The filter keeps the original order: it distributes over concatenation. |
| Selection.KeepIfVideoLink | scraping.py:150-153 | The body of the filter loop, once the href is read, is one step of `VideoLinks`. |
| Selection.VideoLinksSkip | scraping.py:168-174 | A stale candidate is never kept, so skipping it is one step of `VideoLinks`. |
| Selection.ScrollCount | scraping.py:180-186 | The loop leaves `n_scrolls` equal to `ScrollStop`, below `max_scrolls`, and scrolls `n_scrolls` times, plus once more when the last flip consumed scrolled. |
| Selection.ScrollStopMeaning | scraping.py:180-186 | `n_scrolls` is below `max_scrolls`. Every earlier flip scrolled. Unless every flip scrolled, the flip at `n_scrolls` did not. So `n_scrolls + 1` flips are consumed. |
| Selection.StopFromMeaning | scraping.py:180-186 | The same facts for the loop resumed at any index k. |
| Selection.BottomPoolShape | scraping.py:192 | The slice is the last `L div (n_scrolls+1)` candidates, or the whole list when that is 0, and is non-empty when L > 0. |
| Selection.ChooseVidFromSearch | scraping.py:178-202 | The method returns exactly `SearchChoice`: raised on a load timeout, a stale element or a failed click; `None` on no candidate; otherwise the picked pool candidate's thumbnail. |
| Selection.ChooseVidFromSuggested | scraping.py:204-234 | The method returns exactly `SuggestedChoice`. The click goes through the corrected `run_with_retry`, so it raises only when all three click attempts raise. |
| Selection.SearchChoiceMeaning | scraping.py:188-202 | `None` exactly when the read succeeded and no candidate passed the filter. A selection's thumbnail is that of a candidate that passed it. |
| Selection.SuggestedChoiceMeaning | scraping.py:214-234 | The same for the suggested bar, where stale candidates are skipped. |
| Records.Elements | scraping.py:145-147 | A successful wait yields at least one element. |
| Records.AllLoadedMeaning | scraping.py:240-251 | All seven target items loaded if and only if the wait for each item of `target_items` succeeded. |
| Records.VideoExtraction | scraping.py:253-269 | An extracted record carries the current URL and the scrape date. |
| Records.ScrapeVidData | scraping.py:236-269 | The wait loop with its first-timeout return, then the conversions, returns exactly `VideoExtraction`. |
| Records.ExtractionAllOrNothing | scraping.py:242-251 | The result is `None` if and only if one of the seven waits times out. No partial record exists. |
| Records.ExtractedFieldSources | scraping.py:255-267 | View count, date, title, description and likes come from element [0]; channel name, link and subscriber count from element [-1]. Likes is `None` exactly when the aria-label is missing. |
| Records.Texts | scraping.py:319 | `[t.text for t in titles]` keeps length and order. |
| Records.CountsOfMeaning | scraping.py:317 | The conversion succeeds if and only if every label converts; then it keeps length and order. |
| Records.ConvertCounts | scraping.py:317 | The comprehension loop, stopping at the first label that raises, returns exactly `CountsOf`. |
| Records.ChannelRecordAligned | scraping.py:309-330 | A record comes only from three lists of one common length n: its three tuples have length n and keep element order, and the name and link are the arguments. Lists of different lengths give the misaligned skip. |
| Scraper.UrlsDistinctAppend | scraping.py:361-366 | Marking a URL not yet in the key log keeps the key log free of duplicates. |
| Scraper.SelectSuggested | scraping.py:372 | `run_with_retry(self.choose_vid_from_suggested)`, under the corrected retry, gives the first of three attempts that does not raise, or the third attempt's outcome. |
| Scraper.VisitEffect | scraping.py:360-368 | A buffered record is marked under the URL read straight after the selection, which was not visited before. Its `video_url` is the URL read at the end of the page read. |
| Scraper.ThenFresh | scraping.py:374-379 | A visit that buffers only an unvisited URL, followed by a fresh run, is a fresh run. |
| Scraper.RunStepsFresh | scraping.py:370-385 | Over the suggested iterations, each buffered record is marked under one URL. These URLs are distinct and none was visited before, and the visited set grows by exactly those URLs. |
| Scraper.RunLoopFresh | scraping.py:354-385 | The same for a whole `_scrape_loop` run, search visit included: a record is buffered at most once per visited URL. |
| Scraper.RunStepsStop | scraping.py:383-385 | The stop check is read once per iteration, after the visit. A stopped run ends at the first iteration whose check says true; a run still going was answered false every time. |
| Scraper.RunLoopStop | scraping.py:354-385 | At least one suggested iteration runs before the stop check is read. |
| Scraper.CleanStepsRecordEach | scraping.py:371-385 | With all selections made, all URLs new and distinct, and all pages loading, each iteration buffers one record, in order: the selection's thumbnail merged with that page's fields. |
| Scraper.FailedLoadRetried | scraping.py:374-379 | A URL whose page failed to load is not marked visited, so a later visit that loads it buffers its record and marks it. |
| Scraper.YouTubeScraper.constructor | scraping.py:103-122 | Empty visited sets, empty buffers, an open session, `Valid()`. |
| Scraper.YouTubeScraper.Terminate | scraping.py:124-128 | The session is quit; nothing else changes. |
| Scraper.YouTubeScraper.AddToVideoBuffer | scraping.py:334-336 | Appends at the end of the video buffer; the channel buffer and the visited sets are unchanged. |
| Scraper.YouTubeScraper.AddToChannelBuffer | scraping.py:338-340 | Appends at the end of the channel buffer; the video buffer and the visited sets are unchanged. |
| Scraper.YouTubeScraper.FlushVideoData | scraping.py:342-346 | Returns exactly the records logged since the last flush, in append order, and leaves the buffer empty. Only the video buffer changes. |
| Scraper.YouTubeScraper.FlushChannelData | scraping.py:348-352 | The same for the channel buffer. |
| Scraper.YouTubeScraper.VisitVideo | scraping.py:360-368 | One visit: the buffer, the log and the visited set change exactly as `VisitEffect` says, and the thread ends on `Fatal`. `Valid()` is kept. |
| Scraper.YouTubeScraper.BufferVisited | scraping.py:365-366 | Appends the record to the buffer and the log, and marks its URL visited, recording it in the key log. Only those fields change, and `Valid()` is kept because the URL was not visited before. |
| Scraper.YouTubeScraper.ScrapeLoop | scraping.py:354-385 | The loop: the exit, the iteration count, the records appended, the URLs they are marked under and the final visited set are exactly those of `RunLoop`. `Valid()` is kept. |
| Scraper.YouTubeScraper.ScrapeChannelPage | scraping.py:272-332 | A visited channel returns without a record. Otherwise the URL is marked visited before any read, and the status is `ChannelExtraction`. The channel buffer grows by the record exactly when one is produced, and `Valid()` is kept. |
| Manager.KeepDropSplit | scraping.py:428-436 | Rebuilding a dict by liveness loses nothing: kept and dropped entries together are the original entries, counted as a multiset, and so are any projections of them. |
| Manager.KeepExact | scraping.py:430-436 | An entry is kept if and only if it is in the dict and alive; it is dropped if and only if it is in the dict and dead. |
| Manager.RespawnKeepsTerms | scraping.py:427-439 | The terms kept with live threads plus the terms handed back for respawn are exactly the roster's terms. |
| Manager.TermsToStart | scraping.py:402-406 | A string becomes a one-element tuple. An empty string or an empty collection starts nothing. |
| Manager.YTSManager.constructor | scraping.py:389-399 | Empty data lists, an empty roster, a lowered stop flag, no checking threads. |
| Manager.YTSManager.StartScrapeLoops | scraping.py:401-415 | Appends one fresh thread and one fresh, empty scraper per term, in order, and keeps the old roster as its prefix. Starts a new monitor thread exactly when terms were given and none is alive. `Valid()` is kept. |
| Manager.YTSManager.CheckVideoThreads | scraping.py:417-439 | One monitor tick. `video_data` grows by exactly the records pending in the roster, in roster order. Every scraper, dead ones included, is left empty. The live entries stay in order with their scrapers' terminated flags unchanged. The dead ones' scrapers are terminated, and their terms are respawned on fresh threads, so the size and the multiset of terms are restored. |
| Manager.YTSManager.RenewRoster | scraping.py:427-439 | The renewing half of the tick: the live entries in order, their scrapers not terminated by it, then fresh workers for the dead entries' terms; the same size and multiset of terms. The dead entries' scrapers are terminated. |
| Manager.YTSManager.PartitionRoster | scraping.py:427-436 | The roster becomes its live entries, in order, and their scrapers' terminated flags are unchanged. The dead entries' scrapers are terminated, and their terms are returned in order. |
| Manager.YTSManager.FlushRoster | scraping.py:423-425 | `video_data` is extended by every roster scraper's buffer, in roster order, and every buffer is left empty. |
| Manager.YTSManager.StopScraping | scraping.py:458-465 | Every roster scraper is terminated, the roster is emptied and the flag is lowered. Nothing is flushed: `video_data` is unchanged. |
| Manager.YTSManager.StartNext | scraping.py:517-535 | The first free scraper moves to a new active worker on a fresh thread, with the next serial. The pool view gains that serial at the end and loses one free scraper. The set of owned scrapers is unchanged, and the URL is recorded as started. |
| Manager.YTSManager.ReclaimFinished | scraping.py:540-548 | A worker stays if and only if its serial is not among the finished ones. The staying workers keep their order, and the finished workers' scrapers are appended to the free list in order. The pool view becomes the kept serials with one more free scraper per finished worker. The total count and the set of scrapers are conserved. |
| Manager.YTSManager.SplitPool | scraping.py:542-548 | The rebuild loop returns exactly the workers whose serial is not finished, and the finished workers' scrapers, each in order. |
| Manager.YTSManager.CheckChannelThreads | scraping.py:571-579 | `channel_data` grows by exactly the records pending in the active workers' scrapers, and those buffers are left empty. The free list is not touched. |
| Manager.YTSManager.TearDownPool | scraping.py:558-569 | Every active worker's scraper and every free scraper is terminated, so every scraper of either list is, and both lists are emptied. |
| Manager.YTSManager.PoolTick | scraping.py:517-552 | One pass up to the stop check. Channel `i` is started exactly when fewer than `n_workers` workers are active. The pool view then becomes `PoolPass` of the old view with that start and the round's finished serials. Free plus active and the set of owned scrapers are conserved. The flushing thread is kept when it is alive, and a fresh one is started otherwise. |
| Manager.YTSManager.StartIfFree | scraping.py:517-535 | The start step: only when fewer than `n_workers` workers are active, the next serial is appended and one free scraper is used, and the cursor moves by one. Otherwise nothing changes. |
| Manager.YTSManager.StartChannelChecker | scraping.py:550-552 | The flushing thread is kept when it exists and is alive. Otherwise a fresh one is started. The pool is untouched. |
| Manager.YTSManager.PoolRound | scraping.py:516-557 | One pass is one step of `PoolLoop`. A stop ends it with `EarlyStop`, and otherwise the rest of the rounds drive it on. |
| Manager.YTSManager.PoolPasses | scraping.py:516-557 | The while loop ends exactly as `PoolLoop` says from the pool it started on: the same exit, the same cursor and the same pool. The URLs started are the first `i` URLs. |
| Manager.YTSManager.RunChannelScrapeLoops | scraping.py:507-569 | `NoUrls` holds if and only if `channel_urls` is empty. Otherwise the exit, the final cursor i and the serial count are those of `PoolLoop` from `n_workers` free scrapers and the workers active before the call, and so is the pool left after a stop or an exception. The URLs started are exactly `channel_urls[:i]`, for the final cursor i. After a stop or an exception, free plus active equals `n_workers` plus the workers active before the call, and the active count is at most the larger of those two limits. A finished run started every channel, emptied both lists and terminated every scraper the call worked with: the active workers' scrapers it found and the free scrapers it created. Otherwise those scrapers are exactly the free and active ones left. `IndexError` happens only when the names outnumber the URLs. |
| Manager.YTSManager.FreshScrapers | scraping.py:512 | The free list becomes `n_workers` new scrapers. |
| Manager.SpawnWorkers | scraping.py:408-412 | One fresh thread and one fresh, empty scraper per term, in order, keeping the roster's keys and scrapers distinct. |
| Manager.RetireDead | scraping.py:429-436 | The loop returns exactly the live entries and the dead entries' terms, each in order. It terminates every dead entry's scraper and leaves the live entries' scrapers' terminated flags unchanged. |
| Manager.RosterStep | scraping.py:430-435 | One more roster entry examined: extends the kept entries or the dropped terms by that entry. |
| Manager.PoolStep | scraping.py:543-547 | One more pool entry examined: it extends the kept workers when its serial is not finished, and the freed scrapers otherwise. |
| Manager.PoolPass | scraping.py:517-548 | One pass on the pool view: the start adds one active worker and uses one free scraper, and the reclaim only moves workers to the free side. Free plus active is conserved, at most one worker is added, and the serial count moves exactly when a worker is started. |
| Manager.PoolPassReclaims | scraping.py:540-548 | The pass is the start followed by the reclaim: the running serials stay in order, and each finished one frees its scraper. |
| Manager.PoolLoopBounds | scraping.py:516-557 | Over the whole loop, the cursor moves exactly as many times as workers are started. It never passes the names or the URLs. Free plus active is conserved, and the active count stays within the larger of `n_workers` and the starting count. `Finished` means every name was reached. `IndexError` means the URLs ran out before the names. |
| Manager.PoolLoopPass | scraping.py:516-557 | A pass that neither ends nor raises first is one `PoolPass` followed by the rest of the loop, or an early stop when the round says stop. |
| Manager.ExamplePoolWaits | scraping.py:516-557 | Two workers, three channels and no worker finishing: the first two passes fill the pool, and the third waits with both workers active, no scraper free and two channels started. |
| Manager.ExamplePoolReuses | scraping.py:516-557 | From that full pool, once worker 0 is found finished, its scraper is returned and the next pass starts the third channel on it, and the loop ends `Finished` with workers 1 and 2 active. |
| Manager.SerialsKeep | scraping.py:540-548 | Reclaiming by serial on the workers is reclaiming on their serials: the kept serials are the serials of the kept workers, and as many are dropped. |
| Manager.PoolSerialsStart | scraping.py:526-530 | A new worker with the next serial keeps the serials distinct and below the new count. |
| Manager.PoolSerialsKeep | scraping.py:540-548 | Keeping a subset of the workers keeps their serials distinct and below the count. |
| Manager.FlushEach | scraping.py:424-425 | The flushing loop returns the concatenation of the roster's buffers, in roster order, and empties each of them. |
| Manager.FlushPoolEach | scraping.py:578-579 | The same over the active pool workers. |
| Manager.TerminateEach | scraping.py:461-463 | Every roster scraper is terminated. |
| Manager.TerminatePoolEach | scraping.py:562-565 | Every active pool worker's scraper is terminated. |
| Manager.TerminateFree | scraping.py:566-567 | Every free scraper is terminated. |
| Manager.RespawnTerms | scraping.py:427-439 | A roster made of the live entries followed by entries for the dropped terms has the original size and multiset of terms. |
| Manager.RosterShapeKeep | scraping.py:429-436 | Keeping a subset of the roster keeps its keys and scrapers distinct. |
| Manager.RosterShapeFresh | scraping.py:409-411 | Appending a worker with a new thread and a new scraper keeps the keys and scrapers distinct. |
| Manager.PoolShapeStart | scraping.py:526-530 | Moving the first free scraper to a new worker keeps every scraper either free or busy, never both, with no duplicates. |
| Manager.PoolSetsStart | scraping.py:526-530 | The start step loses no scraper and invents none. |
| Manager.PoolShapeReclaim | scraping.py:540-548 | Returning finished workers' scrapers to the free list keeps the pool shape. |
| Manager.PoolSetsReclaim | scraping.py:540-548 | Reclaiming loses no scraper and invents none. |
| Manager.PoolShapeFresh | scraping.py:512 | Adding a new scraper to the free list keeps the pool shape. |
| Manager.PoolShapeFlat | scraping.py:512-548 | The pool shape holds if and only if the free list followed by the busy scrapers has no duplicate and the busy threads are distinct. |

## Left out

- The browser: Chrome start-up and its driver-manager fallback, `driver.get`, `execute_script`, scrolling the picked video into view, the page refresh and the `os.environ` edit. Driver results are inputs; a refresh is only counted.
- Threads, locks, sleeps and `join`. Thread bodies do not run inside the manager model. Liveness is an input: a set of live handles for a roster step, and for each pool pass the serials of the workers found finished, so a worker the call itself started stays active until a round says it finished. Each manager method is one step taken under the lock. The monitor's `while len(self._threads) > 0` repetition and its interleaving with workers are not modelled.
- Randomness: the coin flips and the random index are inputs.
- Labels.LabelValue: `float(num_str) * multiplier` is computed exactly, on a mantissa over a power of ten. The code differs wherever a double cannot hold the value, and raises `OverflowError` once the product overflows to infinity. Three cases. (1) `int()` of the double product gives one less whenever that product falls just below an integer, and short labels do this too: "4.1M" is 4100000 in the model and 4099999 in the code. (2) Above 2^53, `float()` already rounds the digit string itself, in either direction and by more than one: "12345678901234567890 views" is 12345678901234567890 in the model and 12345678901234567168 in the code. (3) From about 1.8e308 on (a 309-digit label, or "1" and 300 zeros followed by "b"), the product is infinite and `int()` raises `OverflowError`, where the model returns `Num`. The same holds for `Labels.LabelToNum`, `Labels.MagnitudeLabel`, `Labels.MagnitudeScales`, `Labels.MagnitudeInteger` and the values in the record lemmas.
- Floating point elsewhere: `np.ceil` on a float quotient is exact integer arithmetic.
- Labels.LowerAll: lowers one character at a time, mapping ASCII capitals and the KELVIN SIGN U+212A. Python's `str.lower` can change the length, as U+0130 lowers to two characters. No such character is a digit, a dot, a comma or a k/m/b letter, or part of "youtube.com", before or after lowering. So every test the code makes on the lowered text gives the same answer.
- `yt_time_ago_to_datetime` (it references `datetime.timedelta` on the class and reads the wall clock), and `yt_label_to_datetime`, the identity on the upload date text, kept here as the text.
- Wall-clock dates: `datetime.now()` is the parameter `today`.
- `perform_yt_search`: its title check result is ignored by `_scrape_loop`, so only the page the browser lands on is modelled.
- The thumbnail `find_element`: its failure is a raised lookup and is not modelled. Its `src` is an input of each candidate, so the dead `if not thumbnail_element` checks do not appear.
- `max_scrolls` at least 1: the source's `n_scrolls` is unbound when `max_scrolls` is 0. The model fixes the two values the code uses (15 and 5) and requires at least that many flips.
- `print_status`, `print_channel_status`, `get_dataframe`, `get_channel_dataframe`, the `__main__` block, and every file other than `scraping.py` (command-line tool, data preparation, downloaders, datasets and models), which are I/O or library code.
- `stop_channel_scraping`: like `TearDownPool` it joins the live threads and terminates every scraper of the dict and the free list. It also sets `_stop_scrape_thread` around that, and it raises `AttributeError` when `self.scrapers` was never created. Its effect on a pool loop still running is the `early_stop` of that loop, which the supplied rounds stand for.
- The single `_threads` dict shared by the roster and the pool is two fields, `threads` and `poolThreads`. Running both modes at once, where each mode's loops would also see the other's entries, is not modelled.
- `self.scrapers` is only created inside `_run_channel_scrape_loops`; the model starts it empty.
- `start_channel_scrape_loops` only starts a thread running `_run_channel_scrape_loops`, which is modelled directly.
- Manager.YTSManager.RunChannelScrapeLoops: the stop flag is read from the supplied rounds and not from `stopFlag`, because another thread sets it. Termination is by the number of rounds supplied (`OutOfRounds`), standing in for the loop's unbounded waiting.
- Manager.YTSManager.CheckVideoThreads: does not carry the scrapers' own `Valid()` through the manager, so it is not proved that the flushed records are each scraper's unflushed log tail. `FlushVideoData` proves that per scraper.
- Scraper.YouTubeScraper.FlushVideoData, Scraper.YouTubeScraper.FlushChannelData: state that they preserve `Valid()` when it held, rather than requiring it, because the manager's loops flush scrapers whose invariant the manager does not track.
- Selection.ChooseVidFromSuggested: clicks through the corrected retry `Retry.RunWithRetryIntended`, not the code's `run_with_retry`. With click outcomes (raise, raise, ok), the code raises after the second call (scraping.py:231), and the model clicks on the third attempt.
- Scraper.SelectSuggested: uses the corrected retry in the same way. With selection attempts (raise, raise, ok), the code raises after the second call at scraping.py:372 and the thread ends; the model selects on the third attempt.
- Scraper.YouTubeScraper.ScrapeLoop: its iterations select through `Scraper.SelectSuggested`, and so do `RunLoop` and `RunSteps`. An iteration whose first two selection attempts raise goes on in the model, where the code's thread ends at scraping.py:372.
- Exceptions are result values and not Python exception types. A bare `except:` in `run_with_retry` also catches a keyboard interrupt; that is not modelled.

### Design and code differences

Where the design description and the code differ, the model follows the code. The one exception is the retry count: the retry's callers use the corrected retry (see Findings and the three lines above).


- The candidate pool is described as the last `ceil(total / (scrolls + 1))` candidates. The code's `all_vids[int(np.ceil(-L / (n+1))):]` keeps the last `floor(L / (n+1))`, or the whole list when that is 0.
- A retried operation is described as attempted `maxAttempts` times. The code makes at most two calls (see Findings). `Retry.RunWithRetry` models the code. Its callers use the corrected `Retry.RunWithRetryIntended`, which makes the described number of attempts.
- A step with no selection is described as moving on to the next iteration. In the code, `None.update(...)` raises once the page extracts, and that ends the thread (`VisitEffect` gives `Fatal`).
- Stopping is described as keeping partial results. `stop_scraping` does not flush, so records buffered since the last tick stay in the discarded scrapers (`StopScraping` leaves `video_data` unchanged).
- `_check_channel_threads` flushes only the active workers. Records in a scraper that returned to the free list between ticks stay there until it is reused (`CheckChannelThreads`).
- The `len(self.scrapers) == 0` early stop in the pool loop cannot fire: a worker is started only when fewer than `n_workers` are active, and free plus active is conserved. The model asserts that at least one scraper is free at that point.

## Findings

| source | as written | input that shows it | evidently intended | confidence | as-written member | corrected member |
|---|---|---|---|---|---|---|
| scraping.py:90-100 | The final `return func()` is indented inside the `for` body. Every path through the first iteration returns, so `func` is called at most twice, and never when `times <= 1`. | An operation that always raises, with the default `times=3`: two calls, then the second exception propagates. | `times - 1` guarded attempts, then one unguarded attempt after the loop: `times` calls for an always-failing operation. | not executed | Retry.AlwaysFailingAsWritten | Retry.AlwaysFailingIntended |
