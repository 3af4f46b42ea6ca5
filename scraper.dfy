/** `YouTubeScraper` (scraping.py:102-385): one browser session with its
    visited-URL sets and its two record buffers, the per-video step of
    `_scrape_loop`, and `_scrape_channel_page`. The browser is replaced by
    the values it would produce: the selection, the URL the browser lands
    on, and the page's element lists. */
module Scraper {
  import opened Labels
  import opened Records
  import Retry
  import S = Selection

  // ---------------------------------------------------------------------
  // Visited video URLs: no duplicates

  /** No URL occurs twice in the key log. */
  ghost predicate UrlsDistinct(keys: seq<string>)
  {
    forall i, j :: 0 <= i < j < |keys| ==> keys[i] != keys[j]
  }

  ghost function UrlSet(keys: seq<string>): set<string>
  {
    set i | 0 <= i < |keys| :: keys[i]
  }

  lemma UrlSetAppend(keys: seq<string>, more: seq<string>)
    ensures UrlSet(keys + more) == UrlSet(keys) + UrlSet(more)
  {
    var all := keys + more;
    forall u | u in UrlSet(all) ensures u in UrlSet(keys) + UrlSet(more) {
      var i :| 0 <= i < |all| && all[i] == u;
      if i >= |keys| {
        assert more[i - |keys|] == all[i];
      }
    }
    forall u | u in UrlSet(keys) + UrlSet(more) ensures u in UrlSet(all) {
      if u in UrlSet(keys) {
        var i :| 0 <= i < |keys| && keys[i] == u;
        assert all[i] == keys[i];
      } else {
        var i :| 0 <= i < |more| && more[i] == u;
        assert all[|keys| + i] == more[i];
      }
    }
  }

  lemma UrlSetEmpty()
    ensures UrlSet([]) == {}
  {
  }

  lemma UrlSetSingle(url: string)
    ensures UrlSet([url]) == {url}
  {
    assert [url][0] == url;
  }

  /** Adding a URL not yet in the key log keeps the log free of duplicates. */
  lemma UrlsDistinctAppend(keys: seq<string>, url: string)
    requires UrlsDistinct(keys)
    requires url !in UrlSet(keys)
    ensures UrlsDistinct(keys + [url])
  {
    var all := keys + [url];
    forall i, j | 0 <= i < j < |all| ensures all[i] != all[j] {
      assert all[i] == keys[i];
      if j == |keys| {
        assert all[i] in UrlSet(keys);
      }
    }
  }

  // ---------------------------------------------------------------------
  // Channel records: distinct links

  ghost predicate LinksDistinct(log: seq<ChannelRecord>)
  {
    forall i, j :: 0 <= i < j < |log| ==> log[i].channelLink != log[j].channelLink
  }

  ghost predicate LinksVisited(log: seq<ChannelRecord>, visited: set<string>)
  {
    forall i :: 0 <= i < |log| ==> log[i].channelLink in visited
  }

  // ---------------------------------------------------------------------
  // One visit of `_scrape_loop` and the loop as a whole

  /** The search step of `_scrape_loop`: the selection `choose_vid_from_search`
      made, the URL `driver.current_url` gives straight after it (the key the
      loop deduplicates on), that page, and the URL `driver.current_url`
      gives once the page has been read (the record's `video_url`). The
      source reads the URL twice and does not relate the two reads. */
  datatype Visit = Visit(selection: S.Selection, url: string, page: VideoPage, recordUrl: string)

  /** One iteration of the suggested loop. `attempts(k)` is the outcome of the
      (k+1)-th call of `choose_vid_from_suggested` under `run_with_retry`;
      `url`, `page` and `recordUrl` are as in `Visit`; `stopAfter` is what
      `stop_check()` answers at the end of the iteration. */
  datatype Step = Step(attempts: nat -> S.Selection, url: string, page: VideoPage,
                       recordUrl: string, stopAfter: bool)

  function AsOutcome(s: S.Selection): Retry.Outcome<S.Selection>
  {
    if s.SelectionRaised? then Retry.Raised else Retry.Returned(s)
  }

  /** `run_with_retry(self.choose_vid_from_suggested)` with the default
      three tries, under the corrected retry (see `Retry.RunWithRetryIntended`):
      the first attempt that does not raise, or the third attempt's outcome. */
  function SuggestedSelection(attempts: nat -> S.Selection): S.Selection
  {
    if !attempts(0).SelectionRaised? then attempts(0)
    else if !attempts(1).SelectionRaised? then attempts(1)
    else attempts(2)
  }

  method SelectSuggested(attempts: nat -> S.Selection) returns (s: S.Selection)
    ensures s == SuggestedSelection(attempts)
  {
    var calls := (k: nat) => AsOutcome(attempts(k));
    var r, made, refreshes := Retry.RunWithRetryIntended(calls, S.RetryTimes, false);
    assert forall k: nat :: calls(k).Raised? <==> attempts(k).SelectionRaised?;
    assert made == 1 || made == 2 || made == 3;
    if r.Value? {
      s := r.v;
    } else {
      s := S.SelectionRaised;
    }
  }

  /** What one visit does: buffer a record under a visited key, skip, or end
      the thread. */
  datatype Effect = Buffered(key: string, rec: VideoRecord) | Skipped | Fatal

  /** The visit block of scraping.py:360-368 and 373-381. A visited URL is
      skipped; an unvisited URL whose page does not load is skipped without
      being marked; a selection of `None` followed by a successful extraction
      ends the thread at `video_data.update`. The URL marked visited is the
      first read, the record's `video_url` the second. */
  function VisitEffect(visited: set<string>, selection: S.Selection, url: string,
                       page: VideoPage, recordUrl: string, today: string): (e: Effect)
    ensures e.Buffered? ==> e.key == url && url !in visited && e.rec.fields.videoUrl == recordUrl
  {
    if selection.SelectionRaised? then Fatal
    else if url in visited then Skipped
    else
      match VideoExtraction(page, recordUrl, today)
      case NoRecord => Skipped
      case ExtractionRaised => Fatal
      case Extracted(f) =>
        if selection.NoSelection? then Fatal else Buffered(url, VideoRecord(selection.thumbnailLink, f))
  }

  function StepEffect(visited: set<string>, s: Step, today: string): Effect
  {
    VisitEffect(visited, SuggestedSelection(s.attempts), s.url, s.page, s.recordUrl, today)
  }

  function Added(e: Effect): seq<VideoRecord>
  {
    if e.Buffered? then [e.rec] else []
  }

  function AddedKeys(e: Effect): seq<string>
  {
    if e.Buffered? then [e.key] else []
  }

  function After(visited: set<string>, e: Effect): set<string>
  {
    if e.Buffered? then visited + {e.key} else visited
  }

  /** How the loop ends: `stop_check()` answered true, an exception ended the
      thread, or the given iterations ran out with the loop still going. */
  datatype LoopExit = Stopped | Died | StillRunning

  /** The records a run buffers, the URLs it marks visited with them, the
      visited set it leaves, how it ends, and how many suggested iterations
      it performed. */
  datatype Run = Run(records: seq<VideoRecord>, keys: seq<string>, visited: set<string>,
                     exit: LoopExit, iterations: nat)

  function Then(records: seq<VideoRecord>, keys: seq<string>, n: nat, r: Run): Run
  {
    Run(records + r.records, keys + r.keys, r.visited, r.exit, n + r.iterations)
  }

  lemma AppendAssoc<T>(a: seq<T>, b: seq<T>, c: seq<T>)
    ensures a + b + c == a + (b + c)
  {
  }

  lemma ThenThen(a: seq<VideoRecord>, ak: seq<string>, n: nat,
                 b: seq<VideoRecord>, bk: seq<string>, m: nat, r: Run)
    ensures Then(a, ak, n, Then(b, bk, m, r)) == Then(a + b, ak + bk, n + m, r)
  {
    assert a + (b + r.records) == (a + b) + r.records;
    assert ak + (bk + r.keys) == (ak + bk) + r.keys;
  }

  function RunSteps(visited: set<string>, steps: seq<Step>, today: string): Run
    decreases |steps|
  {
    if steps == [] then Run([], [], visited, StillRunning, 0)
    else
      var e := StepEffect(visited, steps[0], today);
      if e.Fatal? then Run([], [], visited, Died, 1)
      else if steps[0].stopAfter then Run(Added(e), AddedKeys(e), After(visited, e), Stopped, 1)
      else Then(Added(e), AddedKeys(e), 1, RunSteps(After(visited, e), steps[1..], today))
  }

  /** `_scrape_loop`: the search visit, then the suggested iterations. */
  function RunLoop(visited: set<string>, first: Visit, steps: seq<Step>, today: string): Run
  {
    var e := VisitEffect(visited, first.selection, first.url, first.page, first.recordUrl, today);
    if e.Fatal? then Run([], [], visited, Died, 0)
    else Then(Added(e), AddedKeys(e), 0, RunSteps(After(visited, e), steps, today))
  }

  /** A run from `visited` that buffers one record per key, under keys that
      are distinct and none of them visited before, and grows the visited
      set by exactly those keys. */
  ghost predicate FreshRun(visited: set<string>, r: Run)
  {
    && |r.keys| == |r.records|
    && UrlsDistinct(r.keys)
    && (forall i :: 0 <= i < |r.keys| ==> r.keys[i] !in visited)
    && r.visited == visited + UrlSet(r.keys)
  }

  lemma FreshRunEmpty(visited: set<string>, exit: LoopExit, n: nat)
    ensures FreshRun(visited, Run([], [], visited, exit, n))
  {
    UrlSetEmpty();
  }

  /** One visit followed by a fresh run from the set it leaves is a fresh run. */
  lemma ThenFresh(visited: set<string>, e: Effect, n: nat, rest: Run)
    requires e.Buffered? ==> e.key !in visited
    requires FreshRun(After(visited, e), rest)
    ensures FreshRun(visited, Then(Added(e), AddedKeys(e), n, rest))
  {
    var r := Then(Added(e), AddedKeys(e), n, rest);
    UrlSetAppend(AddedKeys(e), rest.keys);
    if e.Buffered? {
      UrlSetSingle(e.key);
      forall i, j | 0 <= i < j < |r.keys| ensures r.keys[i] != r.keys[j] {
        assert r.keys[j] == rest.keys[j - 1];
        if i > 0 {
          assert r.keys[i] == rest.keys[i - 1];
        }
      }
      forall i | 0 <= i < |r.keys| ensures r.keys[i] !in visited {
        if i > 0 {
          assert r.keys[i] == rest.keys[i - 1];
        }
      }
    } else {
      UrlSetEmpty();
      assert r.keys == rest.keys && r.records == rest.records;
    }
  }

  /** Deduplication over the suggested iterations. */
  lemma {:induction false} RunStepsFresh(visited: set<string>, steps: seq<Step>, today: string)
    ensures FreshRun(visited, RunSteps(visited, steps, today))
    decreases |steps|
  {
    if steps == [] {
      FreshRunEmpty(visited, StillRunning, 0);
    } else {
      var e := StepEffect(visited, steps[0], today);
      if e.Fatal? {
        FreshRunEmpty(visited, Died, 1);
      } else if steps[0].stopAfter {
        FreshRunEmpty(After(visited, e), Stopped, 0);
        ThenFresh(visited, e, 1, Run([], [], After(visited, e), Stopped, 0));
        assert Added(e) + [] == Added(e) && AddedKeys(e) + [] == AddedKeys(e);
      } else {
        RunStepsFresh(After(visited, e), steps[1..], today);
        ThenFresh(visited, e, 1, RunSteps(After(visited, e), steps[1..], today));
      }
    }
  }

  /** Deduplication over a whole run of `_scrape_loop`: the run buffers one
      record per key, its keys are distinct and none of them visited before,
      and the visited set grows by exactly those keys. */
  lemma RunLoopFresh(visited: set<string>, first: Visit, steps: seq<Step>, today: string)
    ensures var r := RunLoop(visited, first, steps, today);
      && |r.keys| == |r.records|
      && UrlsDistinct(r.keys)
      && (forall i :: 0 <= i < |r.keys| ==> r.keys[i] !in visited)
      && r.visited == visited + UrlSet(r.keys)
  {
    var e := VisitEffect(visited, first.selection, first.url, first.page, first.recordUrl, today);
    if e.Fatal? {
      FreshRunEmpty(visited, Died, 0);
    } else {
      RunStepsFresh(After(visited, e), steps, today);
      ThenFresh(visited, e, 0, RunSteps(After(visited, e), steps, today));
    }
  }

  /** The stop check is consulted once per suggested iteration, after the
      visit: a stopped run ends at the first iteration whose check answers
      true, and a run still going has been answered false every time. */
  lemma {:induction false} RunStepsStop(visited: set<string>, steps: seq<Step>, today: string)
    ensures var r := RunSteps(visited, steps, today);
      && r.iterations <= |steps|
      && (r.exit == Stopped ==> 1 <= r.iterations && steps[r.iterations - 1].stopAfter)
      && (r.exit != StillRunning ==> 1 <= r.iterations)
      && (forall j :: 0 <= j < r.iterations - 1 ==> !steps[j].stopAfter)
      && (r.exit == StillRunning ==> r.iterations == |steps| && forall j :: 0 <= j < |steps| ==> !steps[j].stopAfter)
    decreases |steps|
  {
    if steps != [] {
      var e := StepEffect(visited, steps[0], today);
      if !e.Fatal? && !steps[0].stopAfter {
        RunStepsStop(After(visited, e), steps[1..], today);
        assert forall j :: 1 <= j < |steps| ==> steps[j] == steps[1..][j - 1];
      }
    }
  }

  /** The stop check is never consulted before the first suggested
      iteration: a stopped loop has performed at least one. */
  lemma RunLoopStop(visited: set<string>, first: Visit, steps: seq<Step>, today: string)
    ensures var r := RunLoop(visited, first, steps, today);
      && r.iterations <= |steps|
      && (r.exit == Stopped ==> 1 <= r.iterations && steps[r.iterations - 1].stopAfter)
      && (forall j :: 0 <= j < r.iterations - 1 ==> !steps[j].stopAfter)
      && (r.exit == StillRunning ==> r.iterations == |steps| && forall j :: 0 <= j < |steps| ==> !steps[j].stopAfter)
  {
    var e := VisitEffect(visited, first.selection, first.url, first.page, first.recordUrl, today);
    if !e.Fatal? {
      RunStepsStop(After(visited, e), steps, today);
    }
  }

  /** An iteration whose selection succeeds and whose page loads and
      converts. */
  predicate Recordable(s: Step, today: string)
  {
    SuggestedSelection(s.attempts).Selected? && VideoExtraction(s.page, s.recordUrl, today).Extracted?
  }

  /** A recordable iteration that lands on a URL not in `visited` and is not
      told to stop. */
  predicate CleanStep(s: Step, visited: set<string>, today: string)
  {
    !s.stopAfter && s.url !in visited && Recordable(s, today)
  }

  /** The record a recordable iteration buffers: the selection's thumbnail
      merged with the page's fields. */
  function CleanRecord(s: Step, today: string): VideoRecord
    requires Recordable(s, today)
  {
    VideoRecord(SuggestedSelection(s.attempts).thumbnailLink, VideoExtraction(s.page, s.recordUrl, today).fields)
  }

  /** A clean run (every iteration clean, every URL distinct) buffers one
      record per iteration, in order, each the selection's thumbnail merged
      with that page's fields. */
  lemma {:induction false} CleanStepsRecordEach(visited: set<string>, steps: seq<Step>, today: string)
    requires forall i :: 0 <= i < |steps| ==> CleanStep(steps[i], visited, today)
    requires forall i, j :: 0 <= i < j < |steps| ==> steps[i].url != steps[j].url
    ensures var r := RunSteps(visited, steps, today);
      && r.exit == StillRunning
      && |r.records| == |steps|
      && forall i :: 0 <= i < |steps| ==> Recordable(steps[i], today) && r.records[i] == CleanRecord(steps[i], today)
    decreases |steps|
  {
    if steps != [] {
      var e := StepEffect(visited, steps[0], today);
      assert CleanStep(steps[0], visited, today);
      assert e == Buffered(steps[0].url, CleanRecord(steps[0], today));
      var tail := steps[1..];
      forall i | 0 <= i < |tail| ensures CleanStep(tail[i], After(visited, e), today) {
        assert tail[i] == steps[i + 1] && CleanStep(steps[i + 1], visited, today);
      }
      forall i, j | 0 <= i < j < |tail| ensures tail[i].url != tail[j].url {
        assert tail[i] == steps[i + 1] && tail[j] == steps[j + 1];
      }
      CleanStepsRecordEach(After(visited, e), tail, today);
      ShiftClean(steps, RunSteps(After(visited, e), tail, today).records, today);
    }
  }

  /** The record of a recordable first iteration followed by the records of
      the rest, position by position. */
  lemma ShiftClean(steps: seq<Step>, rest: seq<VideoRecord>, today: string)
    requires steps != [] && |rest| == |steps| - 1 && Recordable(steps[0], today)
    requires forall i :: 0 <= i < |rest| ==> Recordable(steps[1..][i], today) && rest[i] == CleanRecord(steps[1..][i], today)
    ensures forall i :: 0 <= i < |steps| ==>
      Recordable(steps[i], today) && ([CleanRecord(steps[0], today)] + rest)[i] == CleanRecord(steps[i], today)
  {
    var all := [CleanRecord(steps[0], today)] + rest;
    forall i | 0 <= i < |steps| ensures Recordable(steps[i], today) && all[i] == CleanRecord(steps[i], today) {
      if i > 0 {
        assert steps[i] == steps[1..][i - 1] && all[i] == rest[i - 1];
      }
    }
  }

  /** An unvisited URL whose page fails to load is not marked visited, so a
      later iteration that lands on it again and loads it buffers its record. */
  lemma FailedLoadRetried(visited: set<string>, s1: Step, s2: Step, today: string)
    requires s1.url == s2.url && s1.url !in visited
    requires !SuggestedSelection(s1.attempts).SelectionRaised? && !s1.stopAfter
    requires VideoExtraction(s1.page, s1.recordUrl, today) == NoRecord
    requires Recordable(s2, today)
    ensures var r := RunSteps(visited, [s1, s2], today);
      && r.records == [CleanRecord(s2, today)]
      && r.visited == visited + {s1.url}
  {
    var e1 := StepEffect(visited, s1, today);
    assert e1 == Skipped;
    assert [s1] + [s2] == [s1, s2];
    RunStepsCons(visited, s1, [s2], today);
    RunStepsOne(visited, s2, today);
    var e2 := StepEffect(visited, s2, today);
    assert e2 == Buffered(s2.url, CleanRecord(s2, today));
    assert [] + [CleanRecord(s2, today)] == [CleanRecord(s2, today)];
  }

  /** A run whose first iteration neither ends the thread nor stops it goes
      on from the visited set that iteration leaves. */
  lemma RunStepsCons(visited: set<string>, s: Step, rest: seq<Step>, today: string)
    requires var e := StepEffect(visited, s, today);
      !e.Fatal? && !s.stopAfter
    ensures var e := StepEffect(visited, s, today);
      RunSteps(visited, [s] + rest, today) == Then(Added(e), AddedKeys(e), 1, RunSteps(After(visited, e), rest, today))
  {
    assert ([s] + rest)[0] == s && ([s] + rest)[1..] == rest;
  }

  /** A run of one iteration. */
  lemma RunStepsOne(visited: set<string>, s: Step, today: string)
    ensures var e := StepEffect(visited, s, today);
      var r := RunSteps(visited, [s], today);
      && r.records == Added(e)
      && r.visited == (if e.Fatal? then visited else After(visited, e))
  {
    var e := StepEffect(visited, s, today);
    assert [s][0] == s && [s][1..] == [];
    if !e.Fatal? && !s.stopAfter {
      assert Added(e) + [] == Added(e) && AddedKeys(e) + [] == AddedKeys(e);
    }
  }

  // ---------------------------------------------------------------------
  // The scraper object

  class YouTubeScraper {
    var scrapedVidUrls: set<string>
    var scrapedChannelUrls: set<string>
    var videoBuffer: seq<VideoRecord>
    var channelBuffer: seq<ChannelRecord>
    /** Whether `terminate` has quit the browser session. */
    var terminated: bool

    /** Every record ever buffered, and how many of them have been flushed. */
    ghost var videoLog: seq<VideoRecord>
    /** The URL each record of `videoLog` was marked visited under. */
    ghost var keyLog: seq<string>
    ghost var videoFlushed: nat
    ghost var channelLog: seq<ChannelRecord>
    ghost var channelFlushed: nat

    /** The buffer holds exactly the records not yet flushed; each visited
        video URL was marked with exactly one record; each channel record
        belongs to a distinct visited channel. */
    ghost predicate Valid()
      reads this
    {
      && videoFlushed <= |videoLog| && videoBuffer == videoLog[videoFlushed..]
      && channelFlushed <= |channelLog| && channelBuffer == channelLog[channelFlushed..]
      && |keyLog| == |videoLog| && UrlsDistinct(keyLog) && UrlSet(keyLog) == scrapedVidUrls
      && LinksDistinct(channelLog) && LinksVisited(channelLog, scrapedChannelUrls)
    }

    constructor()
      ensures Valid() && !terminated
      ensures scrapedVidUrls == {} && scrapedChannelUrls == {}
      ensures videoBuffer == [] && channelBuffer == []
      ensures videoLog == [] && keyLog == [] && channelLog == []
    {
      scrapedVidUrls, scrapedChannelUrls := {}, {};
      videoBuffer, channelBuffer := [], [];
      terminated := false;
      videoLog, keyLog, videoFlushed := [], [], 0;
      channelLog, channelFlushed := [], 0;
      UrlSetEmpty();
    }

    /** Quit the browser; a failure to quit is only reported. */
    method Terminate()
      modifies this`terminated
      ensures terminated
    {
      terminated := true;
    }

    method AddToVideoBuffer(rec: VideoRecord)
      modifies this
      ensures videoBuffer == old(videoBuffer) + [rec] && videoLog == old(videoLog) + [rec]
      ensures scrapedVidUrls == old(scrapedVidUrls) && scrapedChannelUrls == old(scrapedChannelUrls)
      ensures channelBuffer == old(channelBuffer) && terminated == old(terminated)
      ensures videoFlushed == old(videoFlushed) && keyLog == old(keyLog)
      ensures channelLog == old(channelLog) && channelFlushed == old(channelFlushed)
    {
      videoBuffer := videoBuffer + [rec];
      videoLog := videoLog + [rec];
    }

    method AddToChannelBuffer(rec: ChannelRecord)
      modifies this
      ensures channelBuffer == old(channelBuffer) + [rec] && channelLog == old(channelLog) + [rec]
      ensures scrapedVidUrls == old(scrapedVidUrls) && scrapedChannelUrls == old(scrapedChannelUrls)
      ensures videoBuffer == old(videoBuffer) && terminated == old(terminated)
      ensures channelFlushed == old(channelFlushed)
      ensures videoLog == old(videoLog) && keyLog == old(keyLog) && videoFlushed == old(videoFlushed)
    {
      channelBuffer := channelBuffer + [rec];
      channelLog := channelLog + [rec];
    }

    /** Hand over the buffered records and empty the buffer: every record is
        handed over exactly once, in the order it was buffered. */
    method FlushVideoData() returns (data: seq<VideoRecord>)
      modifies this`videoBuffer, this`videoFlushed
      ensures old(Valid()) ==> Valid() && data == old(videoLog)[old(videoFlushed)..]
      ensures data == old(videoBuffer)
      ensures videoBuffer == [] && videoFlushed == |videoLog|
    {
      data := videoBuffer;
      videoBuffer := [];
      videoFlushed := |videoLog|;
    }

    method FlushChannelData() returns (data: seq<ChannelRecord>)
      modifies this`channelBuffer, this`channelFlushed
      ensures old(Valid()) ==> Valid() && data == old(channelLog)[old(channelFlushed)..]
      ensures data == old(channelBuffer)
      ensures channelBuffer == [] && channelFlushed == |channelLog|
    {
      data := channelBuffer;
      channelBuffer := [];
      channelFlushed := |channelLog|;
    }

    /** One visit of `_scrape_loop` once the selection has been made. */
    method VisitVideo(selection: S.Selection, url: string, page: VideoPage, recordUrl: string, today: string)
      returns (died: bool)
      requires Valid()
      modifies this
      ensures Valid()
      ensures var e := VisitEffect(old(scrapedVidUrls), selection, url, page, recordUrl, today);
        && died == e.Fatal?
        && videoBuffer == old(videoBuffer) + Added(e)
        && videoLog == old(videoLog) + Added(e)
        && keyLog == old(keyLog) + AddedKeys(e)
        && scrapedVidUrls == After(old(scrapedVidUrls), e)
      ensures videoFlushed == old(videoFlushed) && terminated == old(terminated)
      ensures scrapedChannelUrls == old(scrapedChannelUrls) && channelBuffer == old(channelBuffer)
      ensures channelLog == old(channelLog) && channelFlushed == old(channelFlushed)
    {
      if selection.SelectionRaised? {
        return true;
      }
      if url in scrapedVidUrls {
        // action_wait()
        return false;
      }
      var newVideoData := ScrapeVidData(page, recordUrl, today);
      match newVideoData {
        case NoRecord =>
          died := false;
        case ExtractionRaised =>
          died := true;
        case Extracted(f) =>
          if selection.NoSelection? {
            // `None.update(...)` raises
            return true;
          }
          BufferVisited(VideoRecord(selection.thumbnailLink, f), url);
          died := false;
      }
    }

    /** Buffer the record of a page first visited under `url`, then mark
        `url` visited. */
    method BufferVisited(rec: VideoRecord, url: string)
      requires Valid() && url !in scrapedVidUrls
      modifies this
      ensures Valid()
      ensures videoBuffer == old(videoBuffer) + [rec] && videoLog == old(videoLog) + [rec]
      ensures keyLog == old(keyLog) + [url] && scrapedVidUrls == old(scrapedVidUrls) + {url}
      ensures videoFlushed == old(videoFlushed) && terminated == old(terminated)
      ensures scrapedChannelUrls == old(scrapedChannelUrls) && channelBuffer == old(channelBuffer)
      ensures channelLog == old(channelLog) && channelFlushed == old(channelFlushed)
    {
      UrlsDistinctAppend(keyLog, url);
      UrlSetAppend(keyLog, [url]);
      UrlSetSingle(url);
      ghost var log0 := videoLog;
      AddToVideoBuffer(rec);
      keyLog := keyLog + [url];
      scrapedVidUrls := scrapedVidUrls + {url};
      assert videoLog[videoFlushed..] == log0[videoFlushed..] + [rec];
    }

    /** `_scrape_loop`, for the given search visit and the given suggested
        iterations. */
    method ScrapeLoop(first: Visit, steps: seq<Step>, today: string) returns (exit: LoopExit, iterations: nat)
      requires Valid()
      modifies this
      ensures Valid()
      ensures var run := RunLoop(old(scrapedVidUrls), first, steps, today);
        && exit == run.exit && iterations == run.iterations
        && videoBuffer == old(videoBuffer) + run.records
        && videoLog == old(videoLog) + run.records
        && keyLog == old(keyLog) + run.keys
        && scrapedVidUrls == run.visited
      ensures videoFlushed == old(videoFlushed) && terminated == old(terminated)
      ensures scrapedChannelUrls == old(scrapedChannelUrls) && channelBuffer == old(channelBuffer)
      ensures channelLog == old(channelLog) && channelFlushed == old(channelFlushed)
    {
      ghost var run := RunLoop(scrapedVidUrls, first, steps, today);
      ghost var e0 := VisitEffect(scrapedVidUrls, first.selection, first.url, first.page, first.recordUrl, today);
      var died := VisitVideo(first.selection, first.url, first.page, first.recordUrl, today);
      if died {
        assert videoBuffer == old(videoBuffer) + run.records && videoLog == old(videoLog) + run.records;
        assert keyLog == old(keyLog) + run.keys;
        return Died, 0;
      }
      ghost var acc := Added(e0);
      ghost var accKeys := AddedKeys(e0);
      iterations := 0;
      assert steps[0..] == steps;
      while iterations < |steps|
        invariant 0 <= iterations <= |steps|
        invariant Valid()
        invariant videoBuffer == old(videoBuffer) + acc && videoLog == old(videoLog) + acc
        invariant keyLog == old(keyLog) + accKeys
        invariant run == Then(acc, accKeys, iterations, RunSteps(scrapedVidUrls, steps[iterations..], today))
        invariant videoFlushed == old(videoFlushed) && terminated == old(terminated)
        invariant scrapedChannelUrls == old(scrapedChannelUrls) && channelBuffer == old(channelBuffer)
        invariant channelLog == old(channelLog) && channelFlushed == old(channelFlushed)
      {
        var step := steps[iterations];
        assert steps[iterations..][0] == step && steps[iterations..][1..] == steps[iterations + 1..];
        var selection := SelectSuggested(step.attempts);
        ghost var e := VisitEffect(scrapedVidUrls, selection, step.url, step.page, step.recordUrl, today);
        ghost var rest := RunSteps(After(scrapedVidUrls, e), steps[iterations + 1..], today);
        died := VisitVideo(selection, step.url, step.page, step.recordUrl, today);
        ThenThen(acc, accKeys, iterations, Added(e), AddedKeys(e), 1, rest);
        AppendAssoc(old(videoBuffer), acc, Added(e));
        AppendAssoc(old(videoLog), acc, Added(e));
        AppendAssoc(old(keyLog), accKeys, AddedKeys(e));
        acc := acc + Added(e);
        accKeys := accKeys + AddedKeys(e);
        iterations := iterations + 1;
        if died {
          assert acc + [] == acc && accKeys + [] == accKeys;
          return Died, iterations;
        }
        // stop_check()
        if step.stopAfter {
          assert acc + [] == acc && accKeys + [] == accKeys;
          return Stopped, iterations;
        }
      }
      assert steps[iterations..] == [] && acc + [] == acc && accKeys + [] == accKeys;
      exit := StillRunning;
    }

    /** `_scrape_channel_page`: a channel is marked visited before its page is
        read, so it is never read twice, even when the read fails; a record is
        buffered only for aligned lists that all convert. */
    method ScrapeChannelPage(name: string, url: string, page: ChannelPage, today: string)
      returns (status: ChannelStatus)
      requires Valid()
      modifies this
      ensures Valid()
      ensures status == if url in old(scrapedChannelUrls) then AlreadyScraped
                        else ChannelExtraction(name, url, page, today)
      ensures scrapedChannelUrls == old(scrapedChannelUrls) + {url}
      ensures channelBuffer == old(channelBuffer) + (if status.Recorded? then [status.rec] else [])
      ensures channelLog == old(channelLog) + (if status.Recorded? then [status.rec] else [])
      ensures channelFlushed == old(channelFlushed) && terminated == old(terminated)
      ensures scrapedVidUrls == old(scrapedVidUrls) && videoBuffer == old(videoBuffer)
      ensures videoLog == old(videoLog) && keyLog == old(keyLog) && videoFlushed == old(videoFlushed)
    {
      if url in scrapedChannelUrls {
        return AlreadyScraped;
      }
      scrapedChannelUrls := scrapedChannelUrls + {url};
      // driver.get(channel_url + '/videos'); action_wait()
      if page.views.TimedOut? || page.uploadDates.TimedOut? || page.titles.TimedOut? {
        return PageRaised;
      }
      var viewCounts := Elements(page.views);
      var uploadDates := Elements(page.uploadDates);
      var titles := Elements(page.titles);
      if !(|viewCounts| == |uploadDates| == |titles|) {
        return Misaligned;
      }
      var counts := ConvertCounts(viewCounts);
      if counts.None? {
        return PageRaised;
      }
      var rec := ChannelRecord(name, url, Texts(titles), Texts(uploadDates), counts.value, today);
      ghost var log0 := channelLog;
      forall i | 0 <= i < |log0| ensures log0[i].channelLink != url {
      }
      AddToChannelBuffer(rec);
      assert channelLog[channelFlushed..] == log0[channelFlushed..] + [rec];
      status := Recorded(rec);
    }
  }
}
