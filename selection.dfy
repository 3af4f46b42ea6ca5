/** Candidate selection in `choose_vid_from_search` and
    `choose_vid_from_suggested` (scraping.py:138-234): the href filter of
    `_retrieve_*_videos`, the biased scroll count, the suffix slice of the
    candidate list and the pick. The coin flips of `np.random.rand() <
    scroll_chance` and the index of `np.random.choice` are inputs; each
    candidate element is abstracted to what reading its href and thumbnail
    gives. */
module Selection {
  import opened Labels
  import Retry

  const MaxSearchScrolls: nat := 15
  const MaxSuggestedScrolls: nat := 5
  const RetryTimes: int := 3

  /** Reading a candidate's href: a value (possibly None) or a stale element. */
  datatype HrefRead = Href(link: Option<string>) | StaleHref

  datatype Candidate = Candidate(href: HrefRead, thumbnailSrc: Option<string>)

  /** The outcome of a `choose_vid_*` call: the `{'thumbnail_link': ...}`
      dict, `None`, or an exception that leaves the call. */
  datatype Selection = Selected(thumbnailLink: Option<string>) | NoSelection | SelectionRaised

  /** Python's `pat in s` on strings: `pat` occurs in `s` at some offset. */
  predicate Contains(s: string, pat: string)
  {
    exists k :: 0 <= k <= |s| - |pat| && s[k..][..|pat|] == pat
  }

  /** The test of `_retrieve_*_videos`: `link is not None and 'youtube.com' in link.lower()`. */
  predicate IsVideoLink(link: Option<string>)
  {
    link.Some? && Contains(LowerAll(link.value), "youtube.com")
  }

  predicate Keeps(c: Candidate)
  {
    c.href.Href? && IsVideoLink(c.href.link)
  }

  /** The candidates kept by the href filter, in their original order. */
  function VideoLinks(cs: seq<Candidate>): seq<Candidate>
  {
    if cs == [] then []
    else (if Keeps(cs[0]) then [cs[0]] else []) + VideoLinks(cs[1..])
  }

  predicate AnyStale(cs: seq<Candidate>)
  {
    exists i :: 0 <= i < |cs| && cs[i].href.StaleHref?
  }

  /** `_retrieve_search_videos` (scraping.py:149-154): a stale element is
      not caught there, so it ends the call. */
  method RetrieveSearchVideos(found: seq<Candidate>) returns (r: Option<seq<Candidate>>)
    ensures r.None? <==> AnyStale(found)
    ensures r.Some? ==> r.value == VideoLinks(found)
  {
    var valid: seq<Candidate> := [];
    var i := 0;
    while i < |found|
      invariant 0 <= i <= |found|
      invariant forall j :: 0 <= j < i ==> !found[j].href.StaleHref?
      invariant VideoLinks(found) == valid + VideoLinks(found[i..])
    {
      if found[i].href.StaleHref? {
        assert AnyStale(found);
        return None;
      }
      valid := KeepIfVideoLink(found, i, valid);
      i := i + 1;
    }
    assert found[i..] == [] && valid + [] == valid;
    assert !AnyStale(found);
    r := Some(valid);
  }

  /** `_retrieve_suggested_videos` (scraping.py:167-176): a stale element is
      skipped. */
  method RetrieveSuggestedVideos(found: seq<Candidate>) returns (valid: seq<Candidate>)
    ensures valid == VideoLinks(found)
  {
    valid := [];
    var i := 0;
    while i < |found|
      invariant 0 <= i <= |found|
      invariant VideoLinks(found) == valid + VideoLinks(found[i..])
    {
      match found[i].href {
        case StaleHref =>
          // except StaleElementReferenceException: continue
          VideoLinksSkip(found, i);
        case Href(_) =>
          valid := KeepIfVideoLink(found, i, valid);
      }
      i := i + 1;
    }
    assert found[i..] == [] && valid + [] == valid;
  }

  /** The body of both filtering loops once the href of candidate `i` is
      read: `if link is not None and 'youtube.com' in link.lower():
      valid_videos.append(video)`, which is one step of `VideoLinks`. */
  method KeepIfVideoLink(found: seq<Candidate>, i: nat, valid: seq<Candidate>) returns (valid': seq<Candidate>)
    requires i < |found| && found[i].href.Href?
    ensures valid + VideoLinks(found[i..]) == valid' + VideoLinks(found[i + 1..])
  {
    VideoLinksStep(found, i, valid);
    var video := found[i];
    valid' := valid;
    if IsVideoLink(video.href.link) {
      valid' := valid + [video];
    }
  }

  /** A stale candidate is never kept. */
  lemma VideoLinksSkip(found: seq<Candidate>, i: nat)
    requires i < |found| && found[i].href.StaleHref?
    ensures VideoLinks(found[i..]) == VideoLinks(found[i + 1..])
  {
    assert found[i..][0] == found[i] && found[i..][1..] == found[i + 1..];
  }

  /** One more candidate examined by a filtering loop. */
  lemma VideoLinksStep(found: seq<Candidate>, i: nat, valid: seq<Candidate>)
    requires i < |found|
    ensures valid + VideoLinks(found[i..]) == (valid + (if Keeps(found[i]) then [found[i]] else [])) + VideoLinks(found[i + 1..])
  {
    assert found[i..][0] == found[i] && found[i..][1..] == found[i + 1..];
  }

  /** The filter keeps exactly the candidates with a youtube.com href. */
  lemma {:induction false} VideoLinksExact(cs: seq<Candidate>, c: Candidate)
    ensures c in VideoLinks(cs) <==> c in cs && Keeps(c)
  {
    if cs != [] {
      VideoLinksExact(cs[1..], c);
      assert c in cs <==> c == cs[0] || c in cs[1..];
    }
  }

  /** The filter keeps the original order: it distributes over concatenation. */
  lemma {:induction false} VideoLinksConcat(a: seq<Candidate>, b: seq<Candidate>)
    ensures VideoLinks(a + b) == VideoLinks(a) + VideoLinks(b)
  {
    if a == [] {
      assert a + b == b;
    } else {
      var head := if Keeps(a[0]) then [a[0]] else [];
      assert (a + b)[0] == a[0] && (a + b)[1..] == a[1..] + b;
      assert VideoLinks(a + b) == head + VideoLinks(a[1..] + b);
      VideoLinksConcat(a[1..], b);
      assert VideoLinks(a) == head + VideoLinks(a[1..]);
    }
  }

  // ---------------------------------------------------------------------
  // The scroll loop

  /** The value `n_scrolls` has after `for n_scrolls in range(max_scrolls)`
      when the loop is left at the first flip that does not scroll. */
  function ScrollStop(flips: seq<bool>, maxScrolls: nat): nat
    requires 1 <= maxScrolls <= |flips|
  {
    StopFrom(flips, 0, maxScrolls)
  }

  function StopFrom(flips: seq<bool>, k: nat, maxScrolls: nat): nat
    requires k < maxScrolls <= |flips|
    decreases maxScrolls - k
  {
    if !flips[k] || k == maxScrolls - 1 then k else StopFrom(flips, k + 1, maxScrolls)
  }

  /** n_scrolls + 1 flips are consumed: n_scrolls is the index of the first
      flip that does not scroll, or max_scrolls - 1 if every flip scrolled. */
  lemma {:induction false} ScrollStopMeaning(flips: seq<bool>, maxScrolls: nat)
    requires 1 <= maxScrolls <= |flips|
    ensures ScrollStop(flips, maxScrolls) < maxScrolls
    ensures forall j :: 0 <= j < ScrollStop(flips, maxScrolls) ==> flips[j]
    ensures ScrollStop(flips, maxScrolls) < maxScrolls - 1 ==> !flips[ScrollStop(flips, maxScrolls)]
  {
    StopFromMeaning(flips, 0, maxScrolls);
  }

  lemma {:induction false} StopFromMeaning(flips: seq<bool>, k: nat, maxScrolls: nat)
    requires k < maxScrolls <= |flips|
    ensures k <= StopFrom(flips, k, maxScrolls) < maxScrolls
    ensures forall j :: k <= j < StopFrom(flips, k, maxScrolls) ==> flips[j]
    ensures StopFrom(flips, k, maxScrolls) < maxScrolls - 1 ==> !flips[StopFrom(flips, k, maxScrolls)]
    decreases maxScrolls - k
  {
    if flips[k] && k < maxScrolls - 1 {
      StopFromMeaning(flips, k + 1, maxScrolls);
    }
  }

  /** The scroll loop (scraping.py:180-186 and 206-212). `scrolls` counts the
      page scrolls performed: n_scrolls, plus one when the last flip consumed
      also scrolled. */
  method ScrollCount(flips: seq<bool>, maxScrolls: nat) returns (nScrolls: nat, scrolls: nat)
    requires 1 <= maxScrolls <= |flips|
    ensures nScrolls < maxScrolls && nScrolls == ScrollStop(flips, maxScrolls)
    ensures scrolls == if flips[nScrolls] then nScrolls + 1 else nScrolls
  {
    nScrolls, scrolls := 0, 0;
    var k := 0;
    while k < maxScrolls
      invariant 0 <= k <= maxScrolls
      invariant scrolls == k
      invariant forall j :: 0 <= j < k ==> flips[j]
      invariant k > 0 ==> nScrolls == k - 1
      invariant k < maxScrolls ==> StopFrom(flips, k, maxScrolls) == ScrollStop(flips, maxScrolls)
      invariant k > 0 ==> StopFrom(flips, k - 1, maxScrolls) == ScrollStop(flips, maxScrolls)
    {
      nScrolls := k;
      if flips[k] {
        scrolls := scrolls + 1;
      } else {
        break;
      }
      k := k + 1;
    }
  }

  // ---------------------------------------------------------------------
  // The candidate pool

  /** ceil(a / b) for b > 0, exactly (Dafny's `/` on int rounds down for b > 0). */
  function CeilDiv(a: int, b: int): int
    requires b > 0
  {
    -((-a) / b)
  }

  /** Python's slice `s[start:]`, with a negative start counting from the end. */
  function SliceFrom<T>(s: seq<T>, start: int): seq<T>
  {
    if start < 0 then (if -start >= |s| then s else s[|s| + start..])
    else if start >= |s| then [] else s[start..]
  }

  /** `all_vids[int(np.ceil(-len(all_vids) / (n_scrolls + 1))):]` (scraping.py:192, 219). */
  function BottomPool<T>(all: seq<T>, nScrolls: nat): seq<T>
  {
    SliceFrom(all, CeilDiv(-|all|, nScrolls + 1))
  }

  /** The pool is the last L div (n_scrolls + 1) candidates, or the whole
      list when that is 0; it is never empty when the list is not. */
  lemma BottomPoolShape<T>(all: seq<T>, nScrolls: nat)
    ensures var q := |all| / (nScrolls + 1);
      BottomPool(all, nScrolls) == if q == 0 then all else all[|all| - q..]
    ensures |all| > 0 ==> |BottomPool(all, nScrolls)| > 0
  {
    var q := |all| / (nScrolls + 1);
    assert CeilDiv(-|all|, nScrolls + 1) == -q;
    DivAtMost(|all|, nScrolls + 1);
    assert SliceFrom(all, -q) == if q == 0 then all else all[|all| - q..];
  }

  lemma DivAtMost(a: nat, b: nat)
    requires b >= 1
    ensures 0 <= a / b <= a
  {
    if b > 1 {
      assert a / b * b <= a;
    }
  }

  /** What `choose_vid_from_search` yields (scraping.py:178-202). `found` is
      the wait for thumbnails (None when it times out and raises), `choice`
      the random pick, `clickOk` whether the click succeeds. */
  function SearchChoice(flips: seq<bool>, found: Option<seq<Candidate>>, choice: nat, clickOk: bool): Selection
    requires MaxSearchScrolls <= |flips|
  {
    if found.None? || AnyStale(found.value) then SelectionRaised
    else
      var all := VideoLinks(found.value);
      if all == [] then NoSelection
      else
        var pool := BottomPool(all, ScrollStop(flips, MaxSearchScrolls));
        BottomPoolShape(all, ScrollStop(flips, MaxSearchScrolls));
        if !clickOk then SelectionRaised
        else Selected(pool[choice % |pool|].thumbnailSrc)
  }

  /** What `choose_vid_from_suggested` yields (scraping.py:204-234): stale
      candidates are skipped and the click goes through `run_with_retry`,
      taken in its corrected form, so the call raises only when all three
      click attempts raise. */
  function SuggestedChoice(flips: seq<bool>, found: Option<seq<Candidate>>, choice: nat,
                           click: nat -> Retry.Outcome<()>): Selection
    requires MaxSuggestedScrolls <= |flips|
  {
    if found.None? then SelectionRaised
    else
      var all := VideoLinks(found.value);
      if all == [] then NoSelection
      else
        var pool := BottomPool(all, ScrollStop(flips, MaxSuggestedScrolls));
        BottomPoolShape(all, ScrollStop(flips, MaxSuggestedScrolls));
        if click(0).Raised? && click(1).Raised? && click(2).Raised? then SelectionRaised
        else Selected(pool[choice % |pool|].thumbnailSrc)
  }

  method ChooseVidFromSearch(flips: seq<bool>, found: Option<seq<Candidate>>, choice: nat, clickOk: bool)
    returns (r: Selection)
    requires MaxSearchScrolls <= |flips|
    ensures r == SearchChoice(flips, found, choice, clickOk)
  {
    var nScrolls, scrolls := ScrollCount(flips, MaxSearchScrolls);
    if found.None? {
      return SelectionRaised;
    }
    var allVids := RetrieveSearchVideos(found.value);
    if allVids.None? {
      return SelectionRaised;
    }
    if allVids.value == [] {
      return NoSelection;
    }
    var bottomVids := BottomPool(allVids.value, nScrolls);
    BottomPoolShape(allVids.value, nScrolls);
    var selectedVid := bottomVids[choice % |bottomVids|];
    var thumbnailLink := selectedVid.thumbnailSrc;
    if !clickOk {
      return SelectionRaised;
    }
    r := Selected(thumbnailLink);
  }

  method ChooseVidFromSuggested(flips: seq<bool>, found: Option<seq<Candidate>>, choice: nat,
                                click: nat -> Retry.Outcome<()>)
    returns (r: Selection)
    requires MaxSuggestedScrolls <= |flips|
    ensures r == SuggestedChoice(flips, found, choice, click)
  {
    var nScrolls, scrolls := ScrollCount(flips, MaxSuggestedScrolls);
    if found.None? {
      return SelectionRaised;
    }
    var allVids := RetrieveSuggestedVideos(found.value);
    if allVids == [] {
      return NoSelection;
    }
    var bottomVids := BottomPool(allVids, nScrolls);
    BottomPoolShape(allVids, nScrolls);
    var selectedVid := bottomVids[choice % |bottomVids|];
    var thumbnailLink := selectedVid.thumbnailSrc;
    var clicked, made, refreshes := Retry.RunWithRetryIntended(click, RetryTimes, false);
    Retry.ThreeTriesPropagate(click, made, clicked);
    if clicked.Propagated? {
      return SelectionRaised;
    }
    r := Selected(thumbnailLink);
  }

  /** A choice is `None` exactly when no candidate passes the filter, and a
      selection is always a candidate of the pool that passed it. */
  lemma SearchChoiceMeaning(flips: seq<bool>, found: Option<seq<Candidate>>, choice: nat, clickOk: bool)
    requires MaxSearchScrolls <= |flips|
    ensures SearchChoice(flips, found, choice, clickOk) == NoSelection <==>
      found.Some? && !AnyStale(found.value) && VideoLinks(found.value) == []
    ensures SearchChoice(flips, found, choice, clickOk).Selected? ==>
      exists c :: c in found.value && Keeps(c) && c.thumbnailSrc == SearchChoice(flips, found, choice, clickOk).thumbnailLink
  {
    if SearchChoice(flips, found, choice, clickOk).Selected? {
      var all := VideoLinks(found.value);
      var n := ScrollStop(flips, MaxSearchScrolls);
      BottomPoolShape(all, n);
      var pool := BottomPool(all, n);
      var c := pool[choice % |pool|];
      assert c in all;
      VideoLinksExact(found.value, c);
    }
  }

  /** The same for the suggested bar, where stale candidates are skipped
      rather than raising. */
  lemma SuggestedChoiceMeaning(flips: seq<bool>, found: Option<seq<Candidate>>, choice: nat,
                               click: nat -> Retry.Outcome<()>)
    requires MaxSuggestedScrolls <= |flips|
    ensures SuggestedChoice(flips, found, choice, click) == NoSelection <==>
      found.Some? && VideoLinks(found.value) == []
    ensures SuggestedChoice(flips, found, choice, click).Selected? ==>
      exists c :: c in found.value && Keeps(c) && c.thumbnailSrc == SuggestedChoice(flips, found, choice, click).thumbnailLink
  {
    if SuggestedChoice(flips, found, choice, click).Selected? {
      var all := VideoLinks(found.value);
      var n := ScrollStop(flips, MaxSuggestedScrolls);
      BottomPoolShape(all, n);
      var pool := BottomPool(all, n);
      var c := pool[choice % |pool|];
      assert c in all;
      VideoLinksExact(found.value, c);
    }
  }
}
