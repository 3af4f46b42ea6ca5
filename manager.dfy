/** `YTSManager` (scraping.py:388-579): the roster of search threads and the
    monitor that flushes and respawns them, and the bounded pool of channel
    workers. Threads are handles whose liveness (`is_alive()`) the caller
    supplies as the set of handles still running; each method is one
    sequential step, taken while holding `_thread_lock`. */
module Manager {
  import opened Labels
  import opened Records
  import opened Scraper

  /** A `threading.Thread` handle. */
  class Thread {
    constructor()
    {
    }
  }

  /** A search roster entry: `_threads[thread] = (start_term, yts)`. */
  datatype Worker = Worker(thread: Thread, term: string, scraper: YouTubeScraper)

  /** A channel pool entry: `_threads[thread] = yts`. The serial numbers the
      pool's workers in the order they are started, so that the liveness of a
      worker can be given before its thread exists. */
  datatype PoolWorker = PoolWorker(thread: Thread, serial: nat, scraper: YouTubeScraper)

  function ThreadOf(w: Worker): Thread { w.thread }
  function TermOf(w: Worker): string { w.term }
  function ScraperOf(w: Worker): YouTubeScraper { w.scraper }
  function PoolThreadOf(p: PoolWorker): Thread { p.thread }
  function PoolScraperOf(p: PoolWorker): YouTubeScraper { p.scraper }
  function PoolSerialOf(p: PoolWorker): nat { p.serial }

  /** The serials of the workers, in order. */
  function Serials(ps: seq<PoolWorker>): seq<nat>
  {
    seq(|ps|, i requires 0 <= i < |ps| => ps[i].serial)
  }

  function IsAlive(alive: set<Thread>): Worker -> bool
  {
    (w: Worker) => w.thread in alive
  }

  /** A pool worker is alive unless its serial is among the finished ones. */
  function PoolRunning(finished: set<nat>): PoolWorker -> bool
  {
    (p: PoolWorker) => p.serial !in finished
  }

  function Running(finished: set<nat>): nat -> bool
  {
    (x: nat) => x !in finished
  }

  // ---------------------------------------------------------------------
  // Rebuilding a dict by liveness, in insertion order

  /** The entries `live` keeps, in order. */
  function Keep<T>(ws: seq<T>, live: T -> bool): (r: seq<T>)
    ensures |r| <= |ws|
  {
    if ws == [] then []
    else Keep(ws[..|ws| - 1], live) + (if live(ws[|ws| - 1]) then [ws[|ws| - 1]] else [])
  }

  /** The entries `live` drops, in order. */
  function Drop<T>(ws: seq<T>, live: T -> bool): (r: seq<T>)
    ensures |r| <= |ws|
  {
    if ws == [] then []
    else Drop(ws[..|ws| - 1], live) + (if live(ws[|ws| - 1]) then [] else [ws[|ws| - 1]])
  }

  function Map<T, U>(ws: seq<T>, f: T -> U): (r: seq<U>)
    ensures |r| == |ws| && forall i :: 0 <= i < |ws| ==> r[i] == f(ws[i])
  {
    seq(|ws|, i requires 0 <= i < |ws| => f(ws[i]))
  }

  /** One more entry examined while rebuilding. */
  lemma KeepDropStep<T>(ws: seq<T>, i: nat, live: T -> bool)
    requires i < |ws|
    ensures Keep(ws[..i + 1], live) == Keep(ws[..i], live) + (if live(ws[i]) then [ws[i]] else [])
    ensures Drop(ws[..i + 1], live) == Drop(ws[..i], live) + (if live(ws[i]) then [] else [ws[i]])
  {
    assert ws[..i + 1][..i] == ws[..i] && ws[..i + 1][i] == ws[i];
  }

  lemma MapSnoc<T, U>(ws: seq<T>, f: T -> U)
    requires ws != []
    ensures Map(ws, f) == Map(ws[..|ws| - 1], f) + [f(ws[|ws| - 1])]
  {
  }

  lemma MapConcat<T, U>(a: seq<T>, b: seq<T>, f: T -> U)
    ensures Map(a + b, f) == Map(a, f) + Map(b, f)
  {
  }

  /** Rebuilding loses nothing: the kept and the dropped entries together are
      the original entries, whatever is projected from them. */
  lemma {:induction false} KeepDropSplit<T, U>(ws: seq<T>, live: T -> bool, f: T -> U)
    ensures multiset(Map(Keep(ws, live), f)) + multiset(Map(Drop(ws, live), f)) == multiset(Map(ws, f))
    ensures |Keep(ws, live)| + |Drop(ws, live)| == |ws|
    decreases |ws|
  {
    if ws != [] {
      var init := ws[..|ws| - 1];
      var last := ws[|ws| - 1];
      KeepDropSplit(init, live, f);
      MapSnoc(ws, f);
      assert Map([last], f) == [f(last)];
      if live(last) {
        assert Keep(ws, live) == Keep(init, live) + [last];
        assert Drop(ws, live) == Drop(init, live) + [] == Drop(init, live);
        MapConcat(Keep(init, live), [last], f);
      } else {
        assert Drop(ws, live) == Drop(init, live) + [last];
        assert Keep(ws, live) == Keep(init, live) + [] == Keep(init, live);
        MapConcat(Drop(init, live), [last], f);
      }
    }
  }

  lemma {:induction false} KeepDropLength<T>(ws: seq<T>, live: T -> bool)
    ensures |Keep(ws, live)| + |Drop(ws, live)| == |ws|
    decreases |ws|
  {
    if ws != [] {
      KeepDropLength(ws[..|ws| - 1], live);
    }
  }

  /** The rebuilt dict holds exactly the live entries. */
  lemma {:induction false} KeepExact<T>(ws: seq<T>, live: T -> bool, x: T)
    ensures x in Keep(ws, live) <==> x in ws && live(x)
    ensures x in Drop(ws, live) <==> x in ws && !live(x)
    decreases |ws|
  {
    if ws != [] {
      KeepExact(ws[..|ws| - 1], live, x);
      assert ws == ws[..|ws| - 1] + [ws[|ws| - 1]];
    }
  }

  ghost predicate Distinct<T>(l: seq<T>)
  {
    forall i, j :: 0 <= i < j < |l| ==> l[i] != l[j]
  }

  lemma {:induction false} DistinctCount<T>(l: seq<T>, x: T)
    requires Distinct(l)
    ensures multiset(l)[x] <= 1
    decreases |l|
  {
    if l != [] {
      var rest := l[1..];
      assert l == [l[0]] + rest;
      assert Distinct(rest) by {
        forall i, j | 0 <= i < j < |rest| ensures rest[i] != rest[j] {
          assert rest[i] == l[i + 1] && rest[j] == l[j + 1];
        }
      }
      DistinctCount(rest, x);
      if x == l[0] {
        assert x !in rest by {
          forall j | 0 <= j < |rest| ensures rest[j] != x {
            assert rest[j] == l[j + 1];
          }
        }
      }
    }
  }

  lemma TwiceCount<T>(b: seq<T>, i: nat, j: nat)
    requires i < j < |b| && b[i] == b[j]
    ensures multiset(b)[b[i]] >= 2
  {
    assert b == b[..j] + [b[j]] + b[j + 1..];
    assert b[..j][i] == b[i];
    assert b[i] in multiset(b[..j]);
  }

  /** Distinctness survives taking part of a collection or reordering it. */
  lemma DistinctSub<T>(a: seq<T>, b: seq<T>)
    requires Distinct(a) && multiset(b) <= multiset(a)
    ensures Distinct(b)
  {
    forall i, j | 0 <= i < j < |b| ensures b[i] != b[j] {
      if b[i] == b[j] {
        TwiceCount(b, i, j);
        DistinctCount(a, b[i]);
        assert false;
      }
    }
  }

  /** The respawn rule of a monitor tick: the terms kept with live threads and
      the terms handed back for respawn are together exactly the roster's
      terms, so a respawned roster runs the same terms with the same count. */
  lemma RespawnKeepsTerms(ws: seq<Worker>, alive: set<Thread>)
    ensures multiset(Map(Keep(ws, IsAlive(alive)), TermOf)) + multiset(Map(Drop(ws, IsAlive(alive)), TermOf))
            == multiset(Map(ws, TermOf))
    ensures |Keep(ws, IsAlive(alive))| + |Drop(ws, IsAlive(alive))| == |ws|
  {
    KeepDropSplit(ws, IsAlive(alive), TermOf);
  }

  // ---------------------------------------------------------------------
  // Pending records

  ghost function ScraperSet(ws: seq<Worker>): set<YouTubeScraper>
  {
    set w | w in ws :: w.scraper
  }

  ghost function PoolScraperSet(ps: seq<PoolWorker>): set<YouTubeScraper>
  {
    set p | p in ps :: p.scraper
  }

  ghost function Elems(ss: seq<YouTubeScraper>): set<YouTubeScraper>
  {
    set s | s in ss
  }

  /** The records buffered in the roster's scrapers, in roster order. */
  ghost function PendingVideo(ws: seq<Worker>): seq<VideoRecord>
    reads ScraperSet(ws)
  {
    if ws == [] then []
    else
      assert ScraperSet(ws[..|ws| - 1]) <= ScraperSet(ws) by {
        forall w | w in ws[..|ws| - 1] ensures w in ws { }
      }
      PendingVideo(ws[..|ws| - 1]) + ws[|ws| - 1].scraper.videoBuffer
  }

  /** The channel records buffered in the active pool workers' scrapers. */
  ghost function PendingChannel(ps: seq<PoolWorker>): seq<ChannelRecord>
    reads PoolScraperSet(ps)
  {
    if ps == [] then []
    else
      assert PoolScraperSet(ps[..|ps| - 1]) <= PoolScraperSet(ps) by {
        forall p | p in ps[..|ps| - 1] ensures p in ps { }
      }
      PendingChannel(ps[..|ps| - 1]) + ps[|ps| - 1].scraper.channelBuffer
  }

  /** What `start_scrape_loops` is given: one string or a collection of them. */
  datatype StartTerms = OneTerm(term: string) | Terms(terms: seq<string>)

  /** The terms a call starts threads for: an empty string or collection has
      length 0 and starts nothing; a string is wrapped as a one-element tuple. */
  function TermsToStart(t: StartTerms): (ts: seq<string>)
    ensures t.OneTerm? ==> (ts == [] <==> t.term == [])
    ensures t.OneTerm? && t.term != [] ==> ts == [t.term]
    ensures t.Terms? ==> ts == t.terms
  {
    match t
    case OneTerm(s) => if |s| == 0 then [] else [s]
    case Terms(ts) => ts
  }

  /** How `_run_channel_scrape_loops` ends: nothing to do, all channels
      started and the pool torn down, stopped early, an `IndexError` from
      `channel_urls[i]`, or the supplied rounds ran out with the loop going. */
  datatype PoolExit = NoUrls | Finished | EarlyStop | UrlIndexError | OutOfRounds

  /** One pass of the pool loop after the start step: the serials of the
      workers found finished when they are reclaimed (a worker started in this
      very pass included), whether the flushing thread is still running, and
      what `_stop_check()` answers. */
  datatype Round = Round(finished: set<nat>, checkerAlive: bool, stop: bool)

  /** The pool as the loop sees it: the serials of the active workers in
      order, the number of free scrapers, and the serial of the next worker. */
  datatype Pool = Pool(active: seq<nat>, free: nat, next: nat)

  /** One pass on the pool: start the next worker when asked, then keep the
      workers still running and return the finished ones' scrapers. */
  function PoolPass(p: Pool, start: bool, finished: set<nat>): (r: Pool)
    requires start ==> p.free > 0
    ensures |r.active| + r.free == |p.active| + p.free
    ensures |r.active| <= |p.active| + (if start then 1 else 0)
    ensures r.next == p.next + (if start then 1 else 0)
  {
    var q := if start then Pool(p.active + [p.next], p.free - 1, p.next + 1) else p;
    KeepDropLength(q.active, Running(finished));
    Pool(Keep(q.active, Running(finished)), q.free + |Drop(q.active, Running(finished))|, q.next)
  }

  /** The pass as its two steps: the start gives `q`, and reclaiming keeps
      the running serials of `q` and frees the others. */
  lemma PoolPassReclaims(p: Pool, start: bool, finished: set<nat>, q: Pool)
    requires start ==> p.free > 0
    requires q == if start then Pool(p.active + [p.next], p.free - 1, p.next + 1) else p
    ensures PoolPass(p, start, finished)
         == Pool(Keep(q.active, Running(finished)), q.free + |Drop(q.active, Running(finished))|, q.next)
  {
  }

  /** Where a pool loop ends: how, the cursor `i`, and the pool. */
  datatype PoolRun = PoolRun(exit: PoolExit, cursor: nat, pool: Pool)

  /** The loop of `_run_channel_scrape_loops` once the free list exists, on
      the pool's view, driven by the rounds. A pass starts a worker exactly
      when fewer than `n_workers` are active, reading `channel_urls[i]` first
      and then finding no free scraper an early stop. */
  function PoolLoop(nNames: nat, nUrls: nat, nWorkers: nat, cursor: nat, p: Pool, rounds: seq<Round>): (r: PoolRun)
    ensures r.exit != NoUrls
    decreases |rounds|
  {
    if nNames <= cursor then PoolRun(Finished, cursor, p)
    else if rounds == [] then PoolRun(OutOfRounds, cursor, p)
    else
      var start := |p.active| < nWorkers;
      if start && nUrls <= cursor then PoolRun(UrlIndexError, cursor, p)
      else if start && p.free == 0 then PoolRun(EarlyStop, cursor, p)
      else
        var q := PoolPass(p, start, rounds[0].finished);
        var c := if start then cursor + 1 else cursor;
        if rounds[0].stop then PoolRun(EarlyStop, c, q)
        else PoolLoop(nNames, nUrls, nWorkers, c, q, rounds[1..])
  }

  /** What the pool loop keeps: the cursor moves exactly when a worker is
      started and never past the names or the URLs it may read, free plus
      active is conserved, the pool never grows past `n_workers` workers
      beyond those it started with, and `IndexError` comes only from a
      cursor that ran out of URLs before the names. */
  lemma {:induction false} PoolLoopBounds(nNames: nat, nUrls: nat, nWorkers: nat, cursor: nat, p: Pool, rounds: seq<Round>)
    ensures var r := PoolLoop(nNames, nUrls, nWorkers, cursor, p, rounds);
      && cursor <= r.cursor && r.cursor - cursor == r.pool.next - p.next
      && |r.pool.active| + r.pool.free == |p.active| + p.free
      && |r.pool.active| <= Max(nWorkers, |p.active|)
      && (cursor <= nNames ==> r.cursor <= nNames)
      && (cursor <= nUrls ==> r.cursor <= nUrls)
      && (r.exit == Finished ==> nNames <= r.cursor)
      && (r.exit == UrlIndexError ==> nUrls <= r.cursor < nNames)
    decreases |rounds|
  {
    if cursor < nNames && rounds != [] {
      var start := |p.active| < nWorkers;
      if !(start && nUrls <= cursor) && !(start && p.free == 0) {
        var q := PoolPass(p, start, rounds[0].finished);
        var c := if start then cursor + 1 else cursor;
        PoolLoopBounds(nNames, nUrls, nWorkers, c, q, rounds[1..]);
      }
    }
  }

  /** One pass of `PoolLoop` when the loop neither ends nor raises before it. */
  lemma PoolLoopPass(nNames: nat, nUrls: nat, nWorkers: nat, cursor: nat, p: Pool, rounds: seq<Round>, c: nat, q: Pool)
    requires cursor < nNames && rounds != []
    requires |p.active| < nWorkers ==> cursor < nUrls && p.free > 0
    requires q == PoolPass(p, |p.active| < nWorkers, rounds[0].finished)
    requires c == if |p.active| < nWorkers then cursor + 1 else cursor
    ensures rounds[0].stop ==> PoolLoop(nNames, nUrls, nWorkers, cursor, p, rounds) == PoolRun(EarlyStop, c, q)
    ensures !rounds[0].stop ==> PoolLoop(nNames, nUrls, nWorkers, cursor, p, rounds) == PoolLoop(nNames, nUrls, nWorkers, c, q, rounds[1..])
  {
  }

  /** Two workers, three channels, and no worker ever finishing: the first
      two passes fill the pool, and from then on the loop waits with both
      workers active and no scraper free. */
  lemma ExamplePoolWaits()
    ensures PoolLoop(3, 3, 2, 0, Pool([], 2, 0), [Round({}, true, false), Round({}, true, false), Round({}, true, false)])
         == PoolRun(OutOfRounds, 2, Pool([0, 1], 0, 2))
  {
  }

  /** The pool those passes fill, when worker 0 is then found finished: its
      scraper is returned, the next pass starts the third channel on it, and
      the loop ends with every channel started. */
  lemma ExamplePoolReuses()
    ensures PoolLoop(3, 3, 2, 2, Pool([0, 1], 0, 2), [Round({0}, true, false), Round({}, true, false)])
         == PoolRun(Finished, 3, Pool([1, 2], 0, 3))
  {
    var last: seq<nat> := [1, 2];
    KeepDropPair<nat>(0, 1, Running({0}));
    KeepDropPair<nat>(1, 2, Running({}));
    assert [1] + [2] == last;
  }

  /** `Keep` and `Drop` on one and on two entries. */
  lemma KeepDropPair<T>(x: T, y: T, live: T -> bool)
    ensures Keep([x], live) == (if live(x) then [x] else [])
    ensures Drop([x], live) == (if live(x) then [] else [x])
    ensures Keep([x, y], live) == Keep([x], live) + (if live(y) then [y] else [])
    ensures Drop([x, y], live) == Drop([x], live) + (if live(y) then [] else [y])
  {
    var two := [x, y];
    assert two[..0] == [] && two[..1] == [x] && two[..2] == two;
    KeepDropStep(two, 0, live);
    KeepDropStep(two, 1, live);
  }

  function Max(a: nat, b: nat): nat
  {
    if a < b then b else a
  }

  /** Dict keys are distinct, and no two roster entries share a scraper. */
  ghost predicate RosterShape(ws: seq<Worker>)
  {
    forall i, j :: 0 <= i < j < |ws| ==> ws[i].thread != ws[j].thread && ws[i].scraper != ws[j].scraper
  }

  /** No scraper is free twice, busy twice, or both free and busy; dict keys
      are distinct. */
  ghost predicate PoolShape(ss: seq<YouTubeScraper>, ps: seq<PoolWorker>)
  {
    && Distinct(ss)
    && (forall i, j :: 0 <= i < j < |ps| ==> ps[i].thread != ps[j].thread && ps[i].scraper != ps[j].scraper)
    && (forall i, j :: 0 <= i < |ss| && 0 <= j < |ps| ==> ss[i] != ps[j].scraper)
  }

  /** The active workers' serials are distinct and below the next one. */
  ghost predicate PoolSerials(ps: seq<PoolWorker>, next: nat)
  {
    && (forall i, j :: 0 <= i < j < |ps| ==> ps[i].serial != ps[j].serial)
    && (forall j :: 0 <= j < |ps| ==> ps[j].serial < next)
  }

  class YTSManager {
    var videoData: seq<VideoRecord>
    var channelData: seq<ChannelRecord>
    /** The search roster, `_threads`, in insertion order. */
    var threads: seq<Worker>
    var stopFlag: bool
    var checker: Option<Thread>
    var channelChecker: Option<Thread>
    /** The free list of the channel pool, `scrapers`. */
    var scrapers: seq<YouTubeScraper>
    /** The active channel workers. */
    var poolThreads: seq<PoolWorker>
    /** The channel URLs handed to pool workers, in order. */
    ghost var startedUrls: seq<string>
    /** How many pool workers were started: the serial of the next one. */
    var poolStarts: nat

    /** The roster's keys and scrapers are distinct, and so are the pool's;
        no scraper is both free and busy. */
    ghost predicate Valid()
      reads this
    {
      RosterShape(threads) && PoolShape(scrapers, poolThreads) && PoolSerials(poolThreads, poolStarts)
    }

    /** The scrapers of the channel pool, free or busy. */
    ghost function PoolOwned(): set<YouTubeScraper>
      reads this
    {
      Elems(scrapers) + PoolScraperSet(poolThreads)
    }

    /** The channel pool as `PoolLoop` sees it. */
    function PoolView(): Pool
      reads this
    {
      Pool(Serials(poolThreads), |scrapers|, poolStarts)
    }

    constructor()
      ensures Valid()
      ensures videoData == [] && channelData == [] && threads == [] && !stopFlag
      ensures checker == None && channelChecker == None
      ensures scrapers == [] && poolThreads == [] && startedUrls == [] && poolStarts == 0
    {
      videoData, channelData := [], [];
      threads := [];
      stopFlag := false;
      checker, channelChecker := None, None;
      scrapers, poolThreads := [], [];
      startedUrls := [];
      poolStarts := 0;
    }

    /** `is_thread_checking_active()` */
    predicate CheckerActive(alive: set<Thread>)
      reads this
    {
      checker.Some? && checker.value in alive
    }

    /** `is_channel_thread_checking_active()` */
    predicate ChannelCheckerActive(checkerAlive: bool)
      reads this
    {
      channelChecker.Some? && checkerAlive
    }

    /** `_stop_check()` */
    function StopCheck(): bool
      reads this
    {
      stopFlag
    }

    /** `start_scrape_loops`: one fresh scraper and thread per term, appended
        to the roster, then a monitor thread unless one is running. */
    method StartScrapeLoops(terms: StartTerms, alive: set<Thread>)
      requires Valid()
      modifies this
      ensures Valid()
      ensures var ts := TermsToStart(terms);
        && |threads| == |old(threads)| + |ts|
        && threads[..|old(threads)|] == old(threads)
        && Map(threads[|old(threads)|..], TermOf) == ts
        && (forall i :: |old(threads)| <= i < |threads| ==>
              && fresh(threads[i].thread)
              && fresh(threads[i].scraper)
              && threads[i].scraper.videoBuffer == []
              && threads[i].scraper.scrapedVidUrls == {})
        && (ts == [] || old(CheckerActive(alive)) ==> checker == old(checker))
        && (ts != [] && !old(CheckerActive(alive)) ==> checker.Some? && fresh(checker.value))
      ensures videoData == old(videoData) && channelData == old(channelData)
      ensures scrapers == old(scrapers) && poolThreads == old(poolThreads)
      ensures channelChecker == old(channelChecker) && stopFlag == old(stopFlag)
      ensures startedUrls == old(startedUrls) && poolStarts == old(poolStarts)
    {
      var ts := TermsToStart(terms);
      if |ts| == 0 {
        return;
      }
      var added := SpawnWorkers(threads, ts);
      if !CheckerActive(alive) {
        var c := new Thread();
        checker := Some(c);
      }
      threads := threads + added;
      assert threads[|old(threads)|..] == added;
    }

    /** One tick of `_check_video_threads`, run on the monitor thread itself:
        flush every scraper of the roster into `video_data` (dead ones too,
        before they are removed), keep the live entries in order, terminate
        the scrapers of the dead ones and respawn their terms. */
    method CheckVideoThreads(alive: set<Thread>)
      requires Valid() && CheckerActive(alive)
      modifies this, ScraperSet(threads)`videoBuffer, ScraperSet(threads)`videoFlushed, ScraperSet(threads)`terminated
      ensures Valid()
      ensures videoData == old(videoData) + old(PendingVideo(threads))
      ensures forall j :: 0 <= j < |old(threads)| ==> old(threads)[j].scraper.videoBuffer == []
      ensures forall j :: 0 <= j < |old(threads)| && old(threads)[j].thread !in alive ==> old(threads)[j].scraper.terminated
      ensures forall j :: 0 <= j < |old(threads)| && old(threads)[j].thread in alive ==>
        old(threads)[j].scraper.terminated == old(threads[j].scraper.terminated)
      ensures var kept := Keep(old(threads), IsAlive(alive));
        var dead := Drop(old(threads), IsAlive(alive));
        && |threads| == |old(threads)|
        && threads[..|kept|] == kept
        && Map(threads[|kept|..], TermOf) == Map(dead, TermOf)
        && forall i :: |kept| <= i < |threads| ==> fresh(threads[i].thread) && fresh(threads[i].scraper)
      ensures multiset(Map(threads, TermOf)) == multiset(Map(old(threads), TermOf))
      ensures checker == old(checker) && channelChecker == old(channelChecker)
      ensures channelData == old(channelData) && stopFlag == old(stopFlag)
      ensures scrapers == old(scrapers) && poolThreads == old(poolThreads)
      ensures startedUrls == old(startedUrls) && poolStarts == old(poolStarts)
    {
      FlushRoster();
      RenewRoster(alive);
    }

    /** The renewing half of a monitor tick: the live entries stay, in order,
        and the terms of the dead ones run again on new threads and scrapers. */
    method RenewRoster(alive: set<Thread>)
      requires Valid() && CheckerActive(alive)
      modifies this, ScraperSet(threads)`terminated
      ensures Valid()
      ensures forall j :: 0 <= j < |old(threads)| && old(threads)[j].thread !in alive ==> old(threads)[j].scraper.terminated
      ensures forall j :: 0 <= j < |old(threads)| && old(threads)[j].thread in alive ==>
        old(threads)[j].scraper.terminated == old(threads[j].scraper.terminated)
      ensures var kept := Keep(old(threads), IsAlive(alive));
        var dead := Drop(old(threads), IsAlive(alive));
        && |threads| == |old(threads)|
        && threads[..|kept|] == kept
        && Map(threads[|kept|..], TermOf) == Map(dead, TermOf)
        && forall i :: |kept| <= i < |threads| ==> fresh(threads[i].thread) && fresh(threads[i].scraper)
      ensures multiset(Map(threads, TermOf)) == multiset(Map(old(threads), TermOf))
      ensures videoData == old(videoData)
      ensures checker == old(checker) && channelChecker == old(channelChecker)
      ensures channelData == old(channelData) && stopFlag == old(stopFlag)
      ensures scrapers == old(scrapers) && poolThreads == old(poolThreads)
      ensures startedUrls == old(startedUrls) && poolStarts == old(poolStarts)
    {
      var refresh := PartitionRoster(alive);
      StartScrapeLoops(Terms(refresh), alive);
      RespawnTerms(old(threads), alive, threads);
    }

    /** The rebuilding half of a monitor tick: keep the live entries, in
        order; terminate the scrapers of the others and hand back their terms. */
    method PartitionRoster(alive: set<Thread>) returns (refresh: seq<string>)
      requires Valid()
      modifies this, ScraperSet(threads)`terminated
      ensures Valid()
      ensures threads == Keep(old(threads), IsAlive(alive))
      ensures refresh == Map(Drop(old(threads), IsAlive(alive)), TermOf)
      ensures forall j :: 0 <= j < |old(threads)| && old(threads)[j].thread !in alive ==> old(threads)[j].scraper.terminated
      ensures forall j :: 0 <= j < |old(threads)| && old(threads)[j].thread in alive ==>
        old(threads)[j].scraper.terminated == old(threads[j].scraper.terminated)
      ensures videoData == old(videoData)
      ensures checker == old(checker) && channelChecker == old(channelChecker)
      ensures channelData == old(channelData) && stopFlag == old(stopFlag)
      ensures scrapers == old(scrapers) && poolThreads == old(poolThreads)
      ensures startedUrls == old(startedUrls) && poolStarts == old(poolStarts)
    {
      var updated;
      updated, refresh := RetireDead(threads, alive);
      RosterShapeKeep(threads, IsAlive(alive));
      threads := updated;
    }

    /** The flushing half of a monitor tick. */
    method FlushRoster()
      requires Valid()
      modifies this, ScraperSet(threads)`videoBuffer, ScraperSet(threads)`videoFlushed
      ensures Valid()
      ensures threads == old(threads)
      ensures videoData == old(videoData) + old(PendingVideo(threads))
      ensures forall j :: 0 <= j < |threads| ==> threads[j].scraper.videoBuffer == []
      ensures checker == old(checker) && channelChecker == old(channelChecker)
      ensures channelData == old(channelData) && stopFlag == old(stopFlag)
      ensures scrapers == old(scrapers) && poolThreads == old(poolThreads)
      ensures startedUrls == old(startedUrls) && poolStarts == old(poolStarts)
    {
      var data := FlushEach(threads);
      videoData := videoData + data;
    }

    /** `stop_scraping`: raise the stop flag, join and terminate every roster
        thread, lower the flag and empty the roster. Nothing is flushed: the
        records still buffered stay in the discarded scrapers. */
    method StopScraping()
      requires Valid()
      modifies this, ScraperSet(threads)`terminated
      ensures Valid()
      ensures threads == [] && !stopFlag
      ensures forall j :: 0 <= j < |old(threads)| ==> old(threads)[j].scraper.terminated
      ensures videoData == old(videoData) && channelData == old(channelData)
      ensures checker == old(checker) && channelChecker == old(channelChecker)
      ensures scrapers == old(scrapers) && poolThreads == old(poolThreads)
      ensures startedUrls == old(startedUrls) && poolStarts == old(poolStarts)
    {
      stopFlag := true;
      TerminateEach(threads);
      stopFlag := false;
      threads := [];
    }

    // -------------------------------------------------------------------
    // The channel pool

    /** The start step of the pool loop: pop the first free scraper and run
        `_scrape_channel_page` for the next channel on a new thread. */
    method StartNext(url: string)
      requires Valid() && |scrapers| > 0
      modifies this
      ensures Valid()
      ensures scrapers == old(scrapers)[1..]
      ensures |poolThreads| == |old(poolThreads)| + 1 && poolThreads[..|old(poolThreads)|] == old(poolThreads)
      ensures poolThreads[|old(poolThreads)|].scraper == old(scrapers)[0]
      ensures poolThreads[|old(poolThreads)|].serial == old(poolStarts) && poolStarts == old(poolStarts) + 1
      ensures PoolView() == Pool(old(PoolView()).active + [old(poolStarts)], old(|scrapers|) - 1, old(poolStarts) + 1)
      ensures fresh(poolThreads[|old(poolThreads)|].thread)
      ensures Elems(scrapers) + PoolScraperSet(poolThreads) == old(Elems(scrapers) + PoolScraperSet(poolThreads))
      ensures startedUrls == old(startedUrls) + [url]
      ensures threads == old(threads) && videoData == old(videoData) && channelData == old(channelData)
      ensures checker == old(checker) && channelChecker == old(channelChecker) && stopFlag == old(stopFlag)
    {
      var yts := scrapers[0];
      var thread := new Thread();
      var p := PoolWorker(thread, poolStarts, yts);
      PoolShapeStart(scrapers, poolThreads, p);
      PoolSetsStart(scrapers, poolThreads, p);
      PoolSerialsStart(poolThreads, poolStarts, p);
      scrapers := scrapers[1..];
      poolThreads := poolThreads + [p];
      poolStarts := poolStarts + 1;
      startedUrls := startedUrls + [url];
      assert poolThreads[..|poolThreads| - 1] == old(poolThreads);
    }

    /** "Get rid of dead threads": keep the live workers in order and return
        the scrapers of the finished ones to the end of the free list. */
    method ReclaimFinished(finished: set<nat>)
      requires Valid()
      modifies this
      ensures Valid()
      ensures poolThreads == Keep(old(poolThreads), PoolRunning(finished))
      ensures scrapers == old(scrapers) + Map(Drop(old(poolThreads), PoolRunning(finished)), PoolScraperOf)
      ensures |scrapers| + |poolThreads| == |old(scrapers)| + |old(poolThreads)|
      ensures PoolView() == Pool(Keep(old(PoolView()).active, Running(finished)),
                                 old(|scrapers|) + |Drop(old(PoolView()).active, Running(finished))|, poolStarts)
      ensures Elems(scrapers) + PoolScraperSet(poolThreads) == old(Elems(scrapers) + PoolScraperSet(poolThreads))
      ensures startedUrls == old(startedUrls) && poolStarts == old(poolStarts)
      ensures threads == old(threads) && videoData == old(videoData) && channelData == old(channelData)
      ensures checker == old(checker) && channelChecker == old(channelChecker) && stopFlag == old(stopFlag)
    {
      SerialsKeep(poolThreads, finished);
      var updated, freed := SplitPool(poolThreads, finished);
      KeepDropSplit(poolThreads, PoolRunning(finished), PoolScraperOf);
      PoolShapeReclaim(scrapers, poolThreads, PoolRunning(finished));
      PoolSetsReclaim(scrapers, poolThreads, PoolRunning(finished));
      PoolSerialsKeep(poolThreads, poolStarts, PoolRunning(finished));
      scrapers := scrapers + freed;
      poolThreads := updated;
    }

    /** The rebuilding loop of the reclaim step: the live workers in order,
        and the scrapers of the others in order. */
    static method SplitPool(ps: seq<PoolWorker>, finished: set<nat>)
      returns (updated: seq<PoolWorker>, freed: seq<YouTubeScraper>)
      ensures updated == Keep(ps, PoolRunning(finished))
      ensures freed == Map(Drop(ps, PoolRunning(finished)), PoolScraperOf)
    {
      updated, freed := [], [];
      var i := 0;
      while i < |ps|
        invariant 0 <= i <= |ps|
        invariant updated == Keep(ps[..i], PoolRunning(finished))
        invariant freed == Map(Drop(ps[..i], PoolRunning(finished)), PoolScraperOf)
      {
        var p := ps[i];
        PoolStep(ps, i, finished);
        if p.serial !in finished {
          updated := updated + [p];
        } else {
          freed := freed + [p.scraper];
        }
        i := i + 1;
      }
      assert ps[..i] == ps;
    }

    /** One tick of `_check_channel_threads`: flush the scrapers of the active
        workers only; the free list is not flushed. */
    method CheckChannelThreads()
      requires Valid()
      modifies this, PoolScraperSet(poolThreads)`channelBuffer, PoolScraperSet(poolThreads)`channelFlushed
      ensures Valid()
      ensures channelData == old(channelData) + old(PendingChannel(poolThreads))
      ensures forall j :: 0 <= j < |poolThreads| ==> poolThreads[j].scraper.channelBuffer == []
      ensures poolThreads == old(poolThreads) && scrapers == old(scrapers) && startedUrls == old(startedUrls) && poolStarts == old(poolStarts)
      ensures threads == old(threads) && videoData == old(videoData)
      ensures checker == old(checker) && channelChecker == old(channelChecker) && stopFlag == old(stopFlag)
    {
      var data := FlushPoolEach(poolThreads);
      channelData := channelData + data;
    }

    /** The teardown after the pool loop: join the remaining workers, then
        terminate their scrapers and the free ones and empty both lists. */
    method TearDownPool()
      requires Valid()
      modifies this, Elems(scrapers)`terminated, PoolScraperSet(poolThreads)`terminated
      ensures Valid()
      ensures scrapers == [] && poolThreads == []
      ensures forall j :: 0 <= j < |old(scrapers)| ==> old(scrapers)[j].terminated
      ensures forall j :: 0 <= j < |old(poolThreads)| ==> old(poolThreads)[j].scraper.terminated
      ensures forall s :: s in old(Elems(scrapers) + PoolScraperSet(poolThreads)) ==> s.terminated
      ensures startedUrls == old(startedUrls) && poolStarts == old(poolStarts)
      ensures threads == old(threads) && videoData == old(videoData) && channelData == old(channelData)
      ensures checker == old(checker) && channelChecker == old(channelChecker) && stopFlag == old(stopFlag)
    {
      ghost var free, busy := scrapers, poolThreads;
      TerminatePoolEach(poolThreads);
      TerminateFree(scrapers);
      forall s | s in Elems(free) + PoolScraperSet(busy) ensures s.terminated {
        if s in Elems(free) {
          var j :| 0 <= j < |free| && free[j] == s;
        } else {
          var p :| p in busy && p.scraper == s;
          var j :| 0 <= j < |busy| && busy[j] == p;
        }
      }
      scrapers := [];
      poolThreads := [];
    }

    /** `_run_channel_scrape_loops` driven by the supplied rounds. The pool
        keeps `len(scrapers) + len(_threads)` at `n_workers` plus the workers
        it found active, never starts a worker beyond `n_workers`, and its
        cursor moves exactly when a worker is started. `owned` is the set of
        scrapers the call works with: the workers' scrapers it found and the
        free ones it creates; a finished run has terminated all of them. How
        the loop ends, how far its cursor got and the pool it leaves are
        those of `PoolLoop` on the pool the call starts from. */
    method RunChannelScrapeLoops(names: seq<string>, urls: seq<string>, nWorkers: nat, rounds: seq<Round>)
      returns (exit: PoolExit, started: nat, ghost owned: set<YouTubeScraper>)
      requires Valid()
      modifies this, Elems(scrapers)`terminated, PoolScraperSet(poolThreads)`terminated
      ensures Valid()
      ensures exit == NoUrls <==> |urls| == 0
      ensures exit == NoUrls ==> started == 0 && scrapers == old(scrapers) && poolThreads == old(poolThreads)
      ensures exit == NoUrls ==> poolStarts == old(poolStarts)
      ensures exit != NoUrls ==>
        var run := PoolLoop(|names|, |urls|, nWorkers, 0, Pool(Serials(old(poolThreads)), nWorkers, old(poolStarts)), rounds);
        && exit == run.exit && started == run.cursor && poolStarts == run.pool.next
        && (exit != Finished ==> PoolView() == run.pool)
      ensures started <= |names| && started <= |urls|
      ensures startedUrls == old(startedUrls) + urls[..started]
      ensures exit == Finished ==> started == |names| && scrapers == [] && poolThreads == []
      ensures old(PoolScraperSet(poolThreads)) <= owned
      ensures forall s :: s in owned ==> fresh(s) || s in old(PoolScraperSet(poolThreads))
      ensures exit == Finished ==> forall s :: s in owned ==> s.terminated
      ensures exit != Finished && exit != NoUrls ==> Elems(scrapers) + PoolScraperSet(poolThreads) == owned
      ensures exit == UrlIndexError ==> started == |urls| < |names|
      ensures exit == EarlyStop || exit == OutOfRounds || exit == UrlIndexError ==>
        && |scrapers| + |poolThreads| == nWorkers + |old(poolThreads)|
        && |poolThreads| <= Max(nWorkers, |old(poolThreads)|)
      ensures threads == old(threads) && videoData == old(videoData) && channelData == old(channelData)
      ensures checker == old(checker) && stopFlag == old(stopFlag)
    {
      started := 0;
      owned := PoolScraperSet(poolThreads);
      if |urls| == 0 {
        return NoUrls, 0, owned;
      }
      FreshScrapers(nWorkers);
      owned := Elems(scrapers) + PoolScraperSet(poolThreads);
      assert forall s :: s in owned ==> fresh(s) || s in old(PoolScraperSet(poolThreads));
      ghost var view := PoolView();
      assert view == Pool(Serials(old(poolThreads)), nWorkers, old(poolStarts));
      PoolLoopBounds(|names|, |urls|, nWorkers, 0, view, rounds);
      exit, started := PoolPasses(names, urls, nWorkers, rounds);
      if exit == Finished {
        TearDownPool();
      }
    }

    /** The loop of `_run_channel_scrape_loops` once the free list exists, up
        to the teardown: exactly the passes `PoolLoop` describes. A free slot
        always finds a free scraper, because free plus active stays at least
        `n_workers`. */
    method PoolPasses(names: seq<string>, urls: seq<string>, nWorkers: nat, rounds: seq<Round>)
      returns (exit: PoolExit, started: nat)
      requires Valid() && nWorkers <= |scrapers| + |poolThreads|
      modifies this
      ensures Valid()
      ensures var run := PoolLoop(|names|, |urls|, nWorkers, 0, old(PoolView()), rounds);
        exit == run.exit && started == run.cursor && PoolView() == run.pool
      ensures started <= |urls|
      ensures PoolOwned() == old(PoolOwned())
      ensures startedUrls == old(startedUrls) + urls[..started]
      ensures threads == old(threads) && videoData == old(videoData) && channelData == old(channelData)
      ensures checker == old(checker) && stopFlag == old(stopFlag)
    {
      ghost var run := PoolLoop(|names|, |urls|, nWorkers, 0, PoolView(), rounds);
      exit, started := Finished, 0;
      var rest := rounds;
      while started < |names|
        invariant started <= |urls|
        invariant Valid()
        invariant |scrapers| + |poolThreads| == old(|scrapers| + |poolThreads|)
        invariant PoolOwned() == old(PoolOwned())
        invariant startedUrls == old(startedUrls) + urls[..started]
        invariant threads == old(threads) && videoData == old(videoData) && channelData == old(channelData)
        invariant checker == old(checker) && stopFlag == old(stopFlag)
        invariant PoolLoop(|names|, |urls|, nWorkers, started, PoolView(), rest) == run
        decreases |rest|
      {
        if rest == [] {
          exit := OutOfRounds;
          break;
        }
        if |poolThreads| < nWorkers && started >= |urls| {
          // channel_urls[i] raises IndexError
          exit := UrlIndexError;
          break;
        }
        var round := rest[0];
        started := PoolRound(names, urls, nWorkers, started, rest, old(startedUrls));
        if round.stop {
          exit := EarlyStop;
          break;
        }
        rest := rest[1..];
      }
    }

    /** One pass of the pool loop, as one step of `PoolLoop`. */
    method PoolRound(names: seq<string>, urls: seq<string>, nWorkers: nat, i: nat, rest: seq<Round>, ghost base: seq<string>)
      returns (i': nat)
      requires Valid() && nWorkers <= |scrapers| + |poolThreads|
      requires i < |names| && rest != []
      requires i <= |urls| && (|poolThreads| < nWorkers ==> i < |urls|)
      requires startedUrls == base + urls[..i]
      modifies this
      ensures Valid()
      ensures |scrapers| + |poolThreads| == old(|scrapers| + |poolThreads|)
      ensures PoolOwned() == old(PoolOwned())
      ensures i <= i' <= |urls| && startedUrls == base + urls[..i']
      ensures rest[0].stop ==> old(PoolLoop(|names|, |urls|, nWorkers, i, PoolView(), rest)) == PoolRun(EarlyStop, i', PoolView())
      ensures !rest[0].stop ==> old(PoolLoop(|names|, |urls|, nWorkers, i, PoolView(), rest))
                                == PoolLoop(|names|, |urls|, nWorkers, i', PoolView(), rest[1..])
      ensures threads == old(threads) && videoData == old(videoData) && channelData == old(channelData)
      ensures checker == old(checker) && stopFlag == old(stopFlag)
    {
      ghost var view := PoolView();
      i' := PoolTick(urls, nWorkers, i, rest[0]);
      PoolLoopPass(|names|, |urls|, nWorkers, i, view, rest, i', PoolView());
      assert urls[..i'] == urls[..i] + urls[i..i'];
    }

    /** One pass of the pool loop up to `_stop_check()`, once `channel_urls[i]`
        has been read: start channel `i` when fewer than `n_workers` workers are
        active, let the interval pass, reclaim the finished workers and restart
        the flushing thread if it is not running. A free slot always finds a
        free scraper, because free plus active is at least `n_workers`. */
    method PoolTick(urls: seq<string>, nWorkers: nat, i: nat, round: Round) returns (i': nat)
      requires Valid() && nWorkers <= |scrapers| + |poolThreads|
      requires i <= |urls| && (|poolThreads| < nWorkers ==> i < |urls|)
      modifies this
      ensures Valid()
      ensures var start := old(|poolThreads|) < nWorkers;
        && i' == (if start then i + 1 else i)
        && PoolView() == PoolPass(old(PoolView()), start, round.finished)
      ensures |scrapers| + |poolThreads| == old(|scrapers| + |poolThreads|)
      ensures PoolOwned() == old(PoolOwned())
      ensures i' <= |urls| && startedUrls == old(startedUrls) + urls[i..i']
      ensures old(ChannelCheckerActive(round.checkerAlive)) ==> channelChecker == old(channelChecker)
      ensures !old(ChannelCheckerActive(round.checkerAlive)) ==> channelChecker.Some? && fresh(channelChecker.value)
      ensures threads == old(threads) && videoData == old(videoData) && channelData == old(channelData)
      ensures checker == old(checker) && stopFlag == old(stopFlag)
    {
      i' := StartIfFree(urls, nWorkers, i);
      // time.sleep(self._channel_scrape_interval)
      ghost var view := PoolView();
      ReclaimFinished(round.finished);
      assert PoolView() == PoolPass(old(PoolView()), old(|poolThreads|) < nWorkers, round.finished) by {
        PoolPassReclaims(old(PoolView()), old(|poolThreads|) < nWorkers, round.finished, view);
      }
      StartChannelChecker(round.checkerAlive);
    }

    /** The start step of a pass: channel `i` is started exactly when fewer
        than `n_workers` workers are active. */
    method StartIfFree(urls: seq<string>, nWorkers: nat, i: nat) returns (i': nat)
      requires Valid() && nWorkers <= |scrapers| + |poolThreads|
      requires i <= |urls| && (|poolThreads| < nWorkers ==> i < |urls|)
      modifies this
      ensures Valid()
      ensures var start := old(|poolThreads|) < nWorkers;
        && i' == (if start then i + 1 else i)
        && PoolView() == if start then Pool(old(PoolView()).active + [old(poolStarts)], old(|scrapers|) - 1, old(poolStarts) + 1)
                         else old(PoolView())
      ensures |scrapers| + |poolThreads| == old(|scrapers| + |poolThreads|)
      ensures PoolOwned() == old(PoolOwned())
      ensures i' <= |urls| && startedUrls == old(startedUrls) + urls[i..i']
      ensures threads == old(threads) && videoData == old(videoData) && channelData == old(channelData)
      ensures checker == old(checker) && channelChecker == old(channelChecker) && stopFlag == old(stopFlag)
    {
      i' := i;
      if |poolThreads| < nWorkers {
        // The `len(self.scrapers) == 0` early stop cannot fire: a slot is free,
        // so a scraper is too.
        StartNext(urls[i]);
        assert urls[i..i + 1] == [urls[i]];
        i' := i + 1;
      }
    }

    /** `if not self.is_channel_thread_checking_active(): self._start_check_channel_thread()` */
    method StartChannelChecker(checkerAlive: bool)
      requires Valid()
      modifies this
      ensures Valid()
      ensures old(ChannelCheckerActive(checkerAlive)) ==> channelChecker == old(channelChecker)
      ensures !old(ChannelCheckerActive(checkerAlive)) ==> channelChecker.Some? && fresh(channelChecker.value)
      ensures scrapers == old(scrapers) && poolThreads == old(poolThreads)
      ensures startedUrls == old(startedUrls) && poolStarts == old(poolStarts)
      ensures threads == old(threads) && videoData == old(videoData) && channelData == old(channelData)
      ensures checker == old(checker) && stopFlag == old(stopFlag)
    {
      if !ChannelCheckerActive(checkerAlive) {
        var c := new Thread();
        channelChecker := Some(c);
      }
    }

    /** `self.scrapers = [YouTubeScraper() for _ in range(n_workers)]` */
    method FreshScrapers(nWorkers: nat)
      requires Valid()
      modifies this
      ensures Valid()
      ensures |scrapers| == nWorkers && forall s :: s in scrapers ==> fresh(s)
      ensures poolThreads == old(poolThreads) && startedUrls == old(startedUrls) && poolStarts == old(poolStarts)
      ensures threads == old(threads) && videoData == old(videoData) && channelData == old(channelData)
      ensures checker == old(checker) && channelChecker == old(channelChecker) && stopFlag == old(stopFlag)
    {
      var fresh_: seq<YouTubeScraper> := [];
      while |fresh_| < nWorkers
        invariant |fresh_| <= nWorkers && unchanged(this)
        invariant forall s :: s in fresh_ ==> fresh(s)
        invariant PoolShape(fresh_, poolThreads)
        decreases nWorkers - |fresh_|
      {
        var yts := new YouTubeScraper();
        PoolShapeFresh(fresh_, poolThreads, yts);
        fresh_ := [yts] + fresh_;
      }
      scrapers := fresh_;
    }
  }

  // ---------------------------------------------------------------------
  // The loops over the scrapers of a roster or a pool

  /** The spawning loop of `start_scrape_loops`: one new scraper and one new
      thread per term, in order. */
  method SpawnWorkers(ws: seq<Worker>, ts: seq<string>) returns (added: seq<Worker>)
    requires RosterShape(ws)
    ensures RosterShape(ws + added)
    ensures Map(added, TermOf) == ts
    ensures forall i :: 0 <= i < |added| ==>
      && fresh(added[i].thread)
      && fresh(added[i].scraper)
      && added[i].scraper.videoBuffer == []
      && added[i].scraper.scrapedVidUrls == {}
  {
    added := [];
    while |added| < |ts|
      invariant |added| <= |ts|
      invariant RosterShape(ws + added)
      invariant Map(added, TermOf) == ts[..|added|]
      invariant forall i :: 0 <= i < |added| ==>
        && fresh(added[i].thread)
        && fresh(added[i].scraper)
        && added[i].scraper.videoBuffer == []
        && added[i].scraper.scrapedVidUrls == {}
      decreases |ts| - |added|
    {
      var yts := new YouTubeScraper();
      var thread := new Thread();
      var w := Worker(thread, ts[|added|], yts);
      RosterShapeFresh(ws, added, w);
      MapSnocAppend(added, w);
      assert ts[..|added| + 1] == ts[..|added|] + [ts[|added|]];
      added := added + [w];
    }
    assert ts[..|added|] == ts;
  }

  /** The rebuilding loop of a monitor tick: keep the live entries, in order;
      terminate the scrapers of the others and collect their terms. */
  method RetireDead(ws: seq<Worker>, alive: set<Thread>) returns (updated: seq<Worker>, refresh: seq<string>)
    requires RosterShape(ws)
    modifies ScraperSet(ws)`terminated
    ensures updated == Keep(ws, IsAlive(alive))
    ensures refresh == Map(Drop(ws, IsAlive(alive)), TermOf)
    ensures forall j :: 0 <= j < |ws| && ws[j].thread !in alive ==> ws[j].scraper.terminated
    ensures forall j :: 0 <= j < |ws| && ws[j].thread in alive ==> ws[j].scraper.terminated == old(ws[j].scraper.terminated)
  {
    updated, refresh := [], [];
    var i := 0;
    while i < |ws|
      invariant 0 <= i <= |ws|
      invariant updated == Keep(ws[..i], IsAlive(alive))
      invariant refresh == Map(Drop(ws[..i], IsAlive(alive)), TermOf)
      invariant forall j :: 0 <= j < |ws| ==>
        ws[j].scraper.terminated == ((j < i && ws[j].thread !in alive) || old(ws[j].scraper.terminated))
    {
      var w := ws[i];
      RosterStep(ws, i, alive);
      if w.thread in alive {
        updated := updated + [w];
      } else {
        assert w in ws;
        ScraperApart(ws, i);
        w.scraper.Terminate();
        refresh := refresh + [w.term];
      }
      i := i + 1;
    }
    assert ws[..i] == ws;
  }

  /** An entry's scraper belongs to no other entry. */
  lemma ScraperApart(ws: seq<Worker>, i: nat)
    requires RosterShape(ws) && i < |ws|
    ensures forall j :: 0 <= j < |ws| && j != i ==> ws[j].scraper != ws[i].scraper
  {
  }

  /** One more roster entry examined while rebuilding. */
  lemma RosterStep(ws: seq<Worker>, i: nat, alive: set<Thread>)
    requires i < |ws|
    ensures Keep(ws[..i + 1], IsAlive(alive)) == Keep(ws[..i], IsAlive(alive)) + (if ws[i].thread in alive then [ws[i]] else [])
    ensures Map(Drop(ws[..i + 1], IsAlive(alive)), TermOf)
         == Map(Drop(ws[..i], IsAlive(alive)), TermOf) + (if ws[i].thread in alive then [] else [ws[i].term])
  {
    KeepDropStep(ws, i, IsAlive(alive));
    assert IsAlive(alive)(ws[i]) == (ws[i].thread in alive);
    MapSnocAppend(Drop(ws[..i], IsAlive(alive)), ws[i]);
  }

  /** One more pool entry examined while reclaiming. */
  lemma PoolStep(ps: seq<PoolWorker>, i: nat, finished: set<nat>)
    requires i < |ps|
    ensures Keep(ps[..i + 1], PoolRunning(finished)) == Keep(ps[..i], PoolRunning(finished)) + (if ps[i].serial !in finished then [ps[i]] else [])
    ensures Map(Drop(ps[..i + 1], PoolRunning(finished)), PoolScraperOf)
         == Map(Drop(ps[..i], PoolRunning(finished)), PoolScraperOf) + (if ps[i].serial !in finished then [] else [ps[i].scraper])
  {
    KeepDropStep(ps, i, PoolRunning(finished));
    assert PoolRunning(finished)(ps[i]) == (ps[i].serial !in finished);
    MapSnocPool(Drop(ps[..i], PoolRunning(finished)), ps[i]);
  }

  /** The flushing loop of a monitor tick: every scraper's buffer, in roster
      order. The scrapers are distinct, so none is emptied before its turn. */
  method FlushEach(ws: seq<Worker>) returns (data: seq<VideoRecord>)
    requires RosterShape(ws)
    modifies ScraperSet(ws)`videoBuffer, ScraperSet(ws)`videoFlushed
    ensures data == old(PendingVideo(ws))
    ensures forall j :: 0 <= j < |ws| ==> ws[j].scraper.videoBuffer == []
  {
    data := [];
    var i := 0;
    while i < |ws|
      invariant 0 <= i <= |ws|
      invariant data == old(PendingVideo(ws[..i]))
      invariant forall j :: 0 <= j < i ==> ws[j].scraper.videoBuffer == []
      invariant forall j :: i <= j < |ws| ==> ws[j].scraper.videoBuffer == old(ws[j].scraper.videoBuffer)
    {
      var yts := ws[i].scraper;
      assert ws[i] in ws;
      var flushed := yts.FlushVideoData();
      PrefixStep(ws, i);
      data := data + flushed;
      i := i + 1;
    }
    assert ws[..i] == ws;
  }

  /** The flushing loop of `_check_channel_threads`, over the active workers. */
  method FlushPoolEach(ps: seq<PoolWorker>) returns (data: seq<ChannelRecord>)
    requires forall i, j :: 0 <= i < j < |ps| ==> ps[i].scraper != ps[j].scraper
    modifies PoolScraperSet(ps)`channelBuffer, PoolScraperSet(ps)`channelFlushed
    ensures data == old(PendingChannel(ps))
    ensures forall j :: 0 <= j < |ps| ==> ps[j].scraper.channelBuffer == []
  {
    data := [];
    var i := 0;
    while i < |ps|
      invariant 0 <= i <= |ps|
      invariant data == old(PendingChannel(ps[..i]))
      invariant forall j :: 0 <= j < i ==> ps[j].scraper.channelBuffer == []
      invariant forall j :: i <= j < |ps| ==> ps[j].scraper.channelBuffer == old(ps[j].scraper.channelBuffer)
    {
      var yts := ps[i].scraper;
      assert ps[i] in ps;
      var flushed := yts.FlushChannelData();
      PrefixStep(ps, i);
      data := data + flushed;
      i := i + 1;
    }
    assert ps[..i] == ps;
  }

  /** The joining loop of `stop_scraping`: every roster scraper terminated. */
  method TerminateEach(ws: seq<Worker>)
    modifies ScraperSet(ws)`terminated
    ensures forall j :: 0 <= j < |ws| ==> ws[j].scraper.terminated
  {
    var i := 0;
    while i < |ws|
      invariant 0 <= i <= |ws|
      invariant forall j :: 0 <= j < i ==> ws[j].scraper.terminated
    {
      // thread.join()
      assert ws[i] in ws;
      ws[i].scraper.Terminate();
      i := i + 1;
    }
  }

  /** The joining loop of the pool teardown, over the active workers. */
  method TerminatePoolEach(ps: seq<PoolWorker>)
    modifies PoolScraperSet(ps)`terminated
    ensures forall j :: 0 <= j < |ps| ==> ps[j].scraper.terminated
  {
    var i := 0;
    while i < |ps|
      invariant 0 <= i <= |ps|
      invariant forall j :: 0 <= j < i ==> ps[j].scraper.terminated
    {
      // if thread.is_alive(): thread.join()
      assert ps[i] in ps;
      ps[i].scraper.Terminate();
      i := i + 1;
    }
  }

  /** The last loop of the pool teardown, over the free list. */
  method TerminateFree(ss: seq<YouTubeScraper>)
    modifies Elems(ss)`terminated
    ensures forall j :: 0 <= j < |ss| ==> ss[j].terminated
  {
    var i := 0;
    while i < |ss|
      invariant 0 <= i <= |ss|
      invariant forall j :: 0 <= j < i ==> ss[j].terminated
    {
      assert ss[i] in ss;
      ss[i].Terminate();
      i := i + 1;
    }
  }

  // ---------------------------------------------------------------------
  // Helper lemmas for the loops above

  lemma MapSnocAppend(ws: seq<Worker>, w: Worker)
    ensures Map(ws + [w], ThreadOf) == Map(ws, ThreadOf) + [w.thread]
    ensures Map(ws + [w], ScraperOf) == Map(ws, ScraperOf) + [w.scraper]
    ensures Map(ws + [w], TermOf) == Map(ws, TermOf) + [w.term]
  {
  }

  lemma MapSnocPool(ps: seq<PoolWorker>, p: PoolWorker)
    ensures Map(ps + [p], PoolScraperOf) == Map(ps, PoolScraperOf) + [p.scraper]
  {
  }

  lemma RosterShapeSnoc(ws: seq<Worker>, w: Worker)
    requires RosterShape(ws)
    requires forall x :: x in ws ==> x.thread != w.thread && x.scraper != w.scraper
    ensures RosterShape(ws + [w])
  {
    var b := ws + [w];
    forall i, j | 0 <= i < j < |b| ensures b[i].thread != b[j].thread && b[i].scraper != b[j].scraper {
      assert b[i] == ws[i] && ws[i] in ws;
    }
  }

  /** A respawned roster: the live entries in order, then entries running the
      dropped terms in order, so the same terms with the same multiplicity. */
  lemma RespawnTerms(ws: seq<Worker>, alive: set<Thread>, ws': seq<Worker>)
    requires var kept := Keep(ws, IsAlive(alive));
      && |kept| <= |ws'| && ws'[..|kept|] == kept
      && Map(ws'[|kept|..], TermOf) == Map(Drop(ws, IsAlive(alive)), TermOf)
    ensures |ws'| == |ws|
    ensures multiset(Map(ws', TermOf)) == multiset(Map(ws, TermOf))
  {
    var kept := Keep(ws, IsAlive(alive));
    KeepDropSplit(ws, IsAlive(alive), TermOf);
    assert ws' == kept + ws'[|kept|..];
    MapConcat(kept, ws'[|kept|..], TermOf);
  }

  /** Appending an entry whose thread and scraper are newly allocated keeps
      the roster's keys and scrapers distinct. */
  lemma RosterShapeFresh(ws: seq<Worker>, added: seq<Worker>, w: Worker)
    requires RosterShape(ws + added)
    requires forall x :: x in ws + added ==> x.thread != w.thread && x.scraper != w.scraper
    ensures RosterShape(ws + (added + [w]))
  {
    assert ws + (added + [w]) == (ws + added) + [w];
    RosterShapeSnoc(ws + added, w);
  }

  /** Rebuilding the roster keeps its keys and scrapers distinct. */
  lemma {:induction false} RosterShapeKeep(ws: seq<Worker>, live: Worker -> bool)
    requires RosterShape(ws)
    ensures RosterShape(Keep(ws, live))
    decreases |ws|
  {
    if ws != [] {
      var init := ws[..|ws| - 1];
      var last := ws[|ws| - 1];
      assert RosterShape(init) by {
        forall i, j | 0 <= i < j < |init| ensures init[i].thread != init[j].thread && init[i].scraper != init[j].scraper {
          assert init[i] == ws[i] && init[j] == ws[j];
        }
      }
      RosterShapeKeep(init, live);
      if live(last) {
        forall x | x in Keep(init, live) ensures x.thread != last.thread && x.scraper != last.scraper {
          KeepExact(init, live, x);
          var k :| 0 <= k < |init| && init[k] == x;
          assert ws[k] == x;
        }
        RosterShapeSnoc(Keep(init, live), last);
      }
    }
  }

  /** The pool shape as one list of distinct scrapers, free ones first. */
  lemma PoolShapeFlat(ss: seq<YouTubeScraper>, ps: seq<PoolWorker>)
    ensures PoolShape(ss, ps) <==>
      Distinct(ss + Map(ps, PoolScraperOf)) && Distinct(Map(ps, PoolThreadOf))
  {
    var flat := ss + Map(ps, PoolScraperOf);
    if PoolShape(ss, ps) {
      forall i, j | 0 <= i < j < |flat| ensures flat[i] != flat[j] {
        if j < |ss| {
          assert flat[i] == ss[i] && flat[j] == ss[j];
        } else if i < |ss| {
          assert flat[i] == ss[i] && flat[j] == ps[j - |ss|].scraper;
        } else {
          assert flat[i] == ps[i - |ss|].scraper && flat[j] == ps[j - |ss|].scraper;
        }
      }
      var ts := Map(ps, PoolThreadOf);
      forall i, j | 0 <= i < j < |ts| ensures ts[i] != ts[j] {
        assert ts[i] == ps[i].thread && ts[j] == ps[j].thread;
      }
    }
    if Distinct(flat) && Distinct(Map(ps, PoolThreadOf)) {
      forall i, j | 0 <= i < j < |ss| ensures ss[i] != ss[j] {
        assert flat[i] == ss[i] && flat[j] == ss[j];
      }
      forall i, j | 0 <= i < j < |ps| ensures ps[i].thread != ps[j].thread && ps[i].scraper != ps[j].scraper {
        assert flat[|ss| + i] == ps[i].scraper && flat[|ss| + j] == ps[j].scraper;
        assert Map(ps, PoolThreadOf)[i] == ps[i].thread && Map(ps, PoolThreadOf)[j] == ps[j].thread;
      }
      forall i, j | 0 <= i < |ss| && 0 <= j < |ps| ensures ss[i] != ps[j].scraper {
        assert flat[i] == ss[i] && flat[|ss| + j] == ps[j].scraper;
      }
    }
  }

  /** The start step moves the first free scraper to a new busy entry. */
  lemma PoolShapeStart(ss: seq<YouTubeScraper>, ps: seq<PoolWorker>, p: PoolWorker)
    requires PoolShape(ss, ps) && |ss| > 0 && p.scraper == ss[0]
    requires forall j :: 0 <= j < |ps| ==> ps[j].thread != p.thread
    ensures PoolShape(ss[1..], ps + [p])
  {
    var ss' := ss[1..];
    var ps' := ps + [p];
    forall i, j | 0 <= i < j < |ss'| ensures ss'[i] != ss'[j] {
      assert ss'[i] == ss[i + 1] && ss'[j] == ss[j + 1];
    }
    forall i, j | 0 <= i < j < |ps'| ensures ps'[i].thread != ps'[j].thread && ps'[i].scraper != ps'[j].scraper {
      assert ps'[i] == ps[i];
      if j < |ps| {
        assert ps'[j] == ps[j];
      } else {
        assert ss[0] != ps[i].scraper;
      }
    }
    forall i, j | 0 <= i < |ss'| && 0 <= j < |ps'| ensures ss'[i] != ps'[j].scraper {
      assert ss'[i] == ss[i + 1];
      if j < |ps| {
        assert ps'[j] == ps[j];
      }
    }
  }

  lemma PoolSetsStart(ss: seq<YouTubeScraper>, ps: seq<PoolWorker>, p: PoolWorker)
    requires |ss| > 0 && p.scraper == ss[0]
    ensures Elems(ss[1..]) + PoolScraperSet(ps + [p]) == Elems(ss) + PoolScraperSet(ps)
  {
    assert forall x :: x in ps + [p] <==> x in ps || x == p;
    assert ss == [ss[0]] + ss[1..];
    assert forall s :: s in ss <==> s == ss[0] || s in ss[1..];
  }

  /** Reclaiming finished workers moves their scrapers to the free list, so
      the pool shape is kept. */
  lemma PoolShapeReclaim(ss: seq<YouTubeScraper>, ps: seq<PoolWorker>, live: PoolWorker -> bool)
    requires PoolShape(ss, ps)
    ensures PoolShape(ss + Map(Drop(ps, live), PoolScraperOf), Keep(ps, live))
  {
    var kept := Keep(ps, live);
    var freed := Map(Drop(ps, live), PoolScraperOf);
    PoolShapeFlat(ss, ps);
    KeepDropSplit(ps, live, PoolScraperOf);
    KeepDropSplit(ps, live, PoolThreadOf);
    assert multiset((ss + freed) + Map(kept, PoolScraperOf)) == multiset(ss + Map(ps, PoolScraperOf));
    DistinctSub(ss + Map(ps, PoolScraperOf), (ss + freed) + Map(kept, PoolScraperOf));
    DistinctSub(Map(ps, PoolThreadOf), Map(kept, PoolThreadOf));
    PoolShapeFlat(ss + freed, kept);
  }

  /** Reclaiming loses no scraper and invents none. */
  lemma PoolSetsReclaim(ss: seq<YouTubeScraper>, ps: seq<PoolWorker>, live: PoolWorker -> bool)
    ensures Elems(ss + Map(Drop(ps, live), PoolScraperOf)) + PoolScraperSet(Keep(ps, live))
            == Elems(ss) + PoolScraperSet(ps)
  {
    var kept := Keep(ps, live);
    var dropped := Drop(ps, live);
    var freed := Map(dropped, PoolScraperOf);
    forall p | p in kept ensures p in ps {
      KeepExact(ps, live, p);
    }
    forall s | s in freed ensures s in PoolScraperSet(ps) {
      var k :| 0 <= k < |freed| && freed[k] == s;
      assert dropped[k] in dropped;
      KeepExact(ps, live, dropped[k]);
    }
    forall p | p in ps ensures p.scraper in Elems(freed) + PoolScraperSet(kept) {
      KeepExact(ps, live, p);
      if p !in kept {
        var k :| 0 <= k < |dropped| && dropped[k] == p;
        assert freed[k] == p.scraper;
      }
    }
  }

  /** A worker started with the next serial keeps the serials distinct. */
  lemma PoolSerialsStart(ps: seq<PoolWorker>, next: nat, p: PoolWorker)
    requires PoolSerials(ps, next) && p.serial == next
    ensures PoolSerials(ps + [p], next + 1)
  {
    var ps' := ps + [p];
    forall i, j | 0 <= i < j < |ps'| ensures ps'[i].serial != ps'[j].serial {
      assert ps'[i] == ps[i];
      if j < |ps| {
        assert ps'[j] == ps[j];
      }
    }
  }

  /** Keeping some of the workers keeps their serials distinct. */
  lemma PoolSerialsKeep(ps: seq<PoolWorker>, next: nat, live: PoolWorker -> bool)
    requires PoolSerials(ps, next)
    ensures PoolSerials(Keep(ps, live), next)
  {
    var kept := Keep(ps, live);
    var m, mk := Map(ps, PoolSerialOf), Map(kept, PoolSerialOf);
    KeepDropSplit(ps, live, PoolSerialOf);
    assert Distinct(m) by {
      forall i, j | 0 <= i < j < |m| ensures m[i] != m[j] {
        assert m[i] == ps[i].serial && m[j] == ps[j].serial;
      }
    }
    DistinctSub(m, mk);
    forall i, j | 0 <= i < j < |kept| ensures kept[i].serial != kept[j].serial {
      assert mk[i] == kept[i].serial && mk[j] == kept[j].serial;
    }
    forall j | 0 <= j < |kept| ensures kept[j].serial < next {
      KeepExact(ps, live, kept[j]);
    }
  }

  /** Reclaiming by serial on the workers is reclaiming on their serials. */
  lemma {:induction false} SerialsKeep(ps: seq<PoolWorker>, finished: set<nat>)
    ensures Serials(Keep(ps, PoolRunning(finished))) == Keep(Serials(ps), Running(finished))
    ensures |Drop(ps, PoolRunning(finished))| == |Drop(Serials(ps), Running(finished))|
    decreases |ps|
  {
    if ps != [] {
      var init := ps[..|ps| - 1];
      var last := ps[|ps| - 1];
      var m := Serials(ps);
      SerialsKeep(init, finished);
      assert m[..|m| - 1] == Serials(init) && m[|m| - 1] == last.serial;
      ghost var kept := Keep(init, PoolRunning(finished));
      if last.serial !in finished {
        assert (kept + [last])[..|kept + [last]| - 1] == kept;
      }
    }
  }


  lemma PoolShapeFresh(ss: seq<YouTubeScraper>, ps: seq<PoolWorker>, y: YouTubeScraper)
    requires PoolShape(ss, ps) && y !in ss
    requires forall j :: 0 <= j < |ps| ==> ps[j].scraper != y
    ensures PoolShape([y] + ss, ps)
  {
    var ss' := [y] + ss;
    forall i, j | 0 <= i < j < |ss'| ensures ss'[i] != ss'[j] {
      assert ss'[j] == ss[j - 1];
      if i > 0 {
        assert ss'[i] == ss[i - 1];
      }
    }
    forall i, j | 0 <= i < |ss'| && 0 <= j < |ps| ensures ss'[i] != ps[j].scraper {
      if i > 0 {
        assert ss'[i] == ss[i - 1];
      }
    }
  }

  lemma PrefixStep<T>(s: seq<T>, i: nat)
    requires i < |s|
    ensures s[..i + 1][..i] == s[..i] && s[..i + 1][i] == s[i]
  {
  }
}
