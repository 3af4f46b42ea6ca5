/** The records a scraper produces and the page reads it builds them from:
    `scrape_vid_data` (scraping.py:236-269) and the conversion part of
    `_scrape_channel_page` (scraping.py:282-330). A page is given as what
    each `WebDriverWait(...).until(presence_of_all_elements_located(...))`
    returns: a timeout, or a non-empty list of elements. */
module Records {
  import opened Labels

  /** What the scraper reads from one element: `.text`, the `href`
      property and the `aria-label` attribute. */
  datatype Element = Element(text: string, href: Option<string>, ariaLabel: Option<string>)

  /** One wait for all elements of a locator. The wait only returns once the
      list is non-empty, so a found list has a first element. */
  datatype Lookup = TimedOut | Found(first: Element, more: seq<Element>)

  function Elements(l: Lookup): (es: seq<Element>)
    requires l.Found?
    ensures |es| >= 1
  {
    [l.first] + l.more
  }

  /** `elements[0]` */
  function FirstOf(l: Lookup): Element
    requires l.Found?
  {
    l.first
  }

  /** `elements[-1]` */
  function LastOf(l: Lookup): Element
    requires l.Found?
  {
    if l.more == [] then l.first else l.more[|l.more| - 1]
  }

  /** The keys of `target_items`, in the order the source waits for them. */
  datatype Item = ViewCount | Date | VideoTitle | VideoDescription | ChannelNameLink | SubscriberCount | Likes

  const TargetItems: seq<Item> :=
    [ViewCount, Date, VideoTitle, VideoDescription, ChannelNameLink, SubscriberCount, Likes]

  /** A video page: the outcome of the wait for each target item. */
  datatype VideoPage = VideoPage(viewCount: Lookup, date: Lookup, videoTitle: Lookup,
                                 videoDescription: Lookup, channelNameLink: Lookup,
                                 subscriberCount: Lookup, likes: Lookup)

  function Wait(page: VideoPage, item: Item): Lookup
  {
    match item
    case ViewCount => page.viewCount
    case Date => page.date
    case VideoTitle => page.videoTitle
    case VideoDescription => page.videoDescription
    case ChannelNameLink => page.channelNameLink
    case SubscriberCount => page.subscriberCount
    case Likes => page.likes
  }

  /** The fields `scrape_vid_data` returns once `channel_name_link` is deleted. */
  datatype VideoFields = VideoFields(
    viewCount: nat, date: string, title: string, description: string,
    channelName: string, channelLink: Option<string>, subscriberCount: nat,
    likes: Option<nat>, videoUrl: string, scrapeDate: string)

  /** A buffered video record: the selection's thumbnail link merged with the
      extracted fields (the `video_data.update(new_video_data)` of `_scrape_loop`). */
  datatype VideoRecord = VideoRecord(thumbnailLink: Option<string>, fields: VideoFields)

  /** `scrape_vid_data`'s result: `None`, the record, or an exception (the
      `ValueError` of a count label with two dots) that leaves the call. */
  datatype Extraction = NoRecord | Extracted(fields: VideoFields) | ExtractionRaised

  predicate AllLoaded(page: VideoPage)
  {
    && page.viewCount.Found? && page.date.Found? && page.videoTitle.Found?
    && page.videoDescription.Found? && page.channelNameLink.Found?
    && page.subscriberCount.Found? && page.likes.Found?
  }

  /** Every item is waited for: loaded means loaded at every position of
      `TargetItems`. */
  lemma AllLoadedMeaning(page: VideoPage)
    ensures AllLoaded(page) <==> forall k :: 0 <= k < |TargetItems| ==> Wait(page, TargetItems[k]).Found?
  {
    if forall k :: 0 <= k < |TargetItems| ==> Wait(page, TargetItems[k]).Found? {
      assert Wait(page, TargetItems[0]).Found? && Wait(page, TargetItems[1]).Found?;
      assert Wait(page, TargetItems[2]).Found? && Wait(page, TargetItems[3]).Found?;
      assert Wait(page, TargetItems[4]).Found? && Wait(page, TargetItems[5]).Found?;
      assert Wait(page, TargetItems[6]).Found?;
    }
  }

  /** The label conversions of scraping.py:255-263 as exact values. */
  function VideoExtraction(page: VideoPage, currentUrl: string, today: string): (r: Extraction)
    ensures r.Extracted? ==> r.fields.videoUrl == currentUrl && r.fields.scrapeDate == today
  {
    if !AllLoaded(page) then NoRecord
    else
      var viewCount := LabelValue(Some(FirstOf(page.viewCount).text));
      var subscriberCount := LabelValue(Some(LastOf(page.subscriberCount).text));
      var likes := LabelValue(FirstOf(page.likes).ariaLabel);
      if viewCount.FloatError? || subscriberCount.FloatError? || likes.FloatError? then ExtractionRaised
      else
        assert viewCount.Num? && subscriberCount.Num?;
        Extracted(VideoFields(
          viewCount.n,
          FirstOf(page.date).text,
          FirstOf(page.videoTitle).text,
          FirstOf(page.videoDescription).text,
          LastOf(page.channelNameLink).text,
          LastOf(page.channelNameLink).href,
          subscriberCount.n,
          if likes.Num? then Some(likes.n) else None,
          currentUrl,
          today))
  }

  /** `scrape_vid_data`: wait for the seven items in order, give up with
      `None` at the first timeout, then convert. */
  method ScrapeVidData(page: VideoPage, currentUrl: string, today: string) returns (r: Extraction)
    ensures r == VideoExtraction(page, currentUrl, today)
  {
    var data: map<Item, Lookup> := map[];
    var k := 0;
    while k < |TargetItems|
      invariant 0 <= k <= |TargetItems|
      invariant forall j :: 0 <= j < k ==>
        TargetItems[j] in data && data[TargetItems[j]] == Wait(page, TargetItems[j]) && data[TargetItems[j]].Found?
    {
      var item := TargetItems[k];
      var element := Wait(page, item);
      if element.TimedOut? {
        AllLoadedMeaning(page);
        return NoRecord;
      }
      data := data[item := element];
      k := k + 1;
    }
    AllLoadedMeaning(page);
    assert TargetItems[0] == ViewCount && TargetItems[5] == SubscriberCount && TargetItems[6] == Likes;
    var viewCount := LabelToNum(Some(FirstOf(data[ViewCount]).text));
    var subscriberCount := LabelToNum(Some(LastOf(data[SubscriberCount]).text));
    var likes := LabelToNum(FirstOf(data[Likes]).ariaLabel);
    if viewCount.FloatError? || subscriberCount.FloatError? || likes.FloatError? {
      return ExtractionRaised;
    }
    r := Extracted(VideoFields(
      viewCount.n,
      FirstOf(page.date).text,
      FirstOf(page.videoTitle).text,
      FirstOf(page.videoDescription).text,
      LastOf(page.channelNameLink).text,
      LastOf(page.channelNameLink).href,
      subscriberCount.n,
      if likes.Num? then Some(likes.n) else None,
      currentUrl,
      today));
  }

  /** All or nothing: a timeout on any of the seven items gives `None`, and
      no partial record is ever produced. */
  lemma ExtractionAllOrNothing(page: VideoPage, currentUrl: string, today: string)
    ensures VideoExtraction(page, currentUrl, today) == NoRecord <==>
      exists k :: 0 <= k < |TargetItems| && Wait(page, TargetItems[k]).TimedOut?
  {
    AllLoadedMeaning(page);
  }

  /** Where each field comes from: view count, date, title, description and
      likes from element [0]; channel name, channel link and subscriber count
      from element [-1]. */
  lemma ExtractedFieldSources(page: VideoPage, currentUrl: string, today: string)
    requires VideoExtraction(page, currentUrl, today).Extracted?
    ensures var f := VideoExtraction(page, currentUrl, today).fields;
      var name := Elements(page.channelNameLink);
      var subs := Elements(page.subscriberCount);
      && LabelValue(Some(Elements(page.viewCount)[0].text)) == Num(f.viewCount)
      && f.date == Elements(page.date)[0].text
      && f.title == Elements(page.videoTitle)[0].text
      && f.description == Elements(page.videoDescription)[0].text
      && f.channelName == name[|name| - 1].text
      && f.channelLink == name[|name| - 1].href
      && LabelValue(Some(subs[|subs| - 1].text)) == Num(f.subscriberCount)
      && (f.likes.Some? <==> LabelValue(Elements(page.likes)[0].ariaLabel).Num?)
      && (f.likes.Some? ==> LabelValue(Elements(page.likes)[0].ariaLabel) == Num(f.likes.value))
  {
    assert LastElement(page.channelNameLink);
    assert LastElement(page.subscriberCount);
  }

  predicate LastElement(l: Lookup)
    requires l.Found?
  {
    LastOf(l) == Elements(l)[|Elements(l)| - 1]
  }

  // ---------------------------------------------------------------------
  // Channel pages

  /** The three element lists read from a channel's videos page. */
  datatype ChannelPage = ChannelPage(views: Lookup, uploadDates: Lookup, titles: Lookup)

  /** The `channel_data` dict of scraping.py:323-330. */
  datatype ChannelRecord = ChannelRecord(
    channelName: string, channelLink: string, titles: seq<string>,
    uploadDates: seq<string>, viewCounts: seq<nat>, scrapeDate: string)

  /** How `_scrape_channel_page` ends: skipped as already visited, a record
      buffered, skipped as misaligned, or left by an exception (a load
      timeout, or a view-count label `float()` rejects). */
  datatype ChannelStatus = AlreadyScraped | Recorded(rec: ChannelRecord) | Misaligned | PageRaised

  function Texts(es: seq<Element>): (ts: seq<string>)
    ensures |ts| == |es| && forall i :: 0 <= i < |es| ==> ts[i] == es[i].text
  {
    seq(|es|, i requires 0 <= i < |es| => es[i].text)
  }

  /** `[yt_label_to_num(v.text) for v in view_counts]`, or None when one of
      the conversions raises. */
  function CountsOf(es: seq<Element>): Option<seq<nat>>
  {
    if es == [] then Some([])
    else
      match LabelValue(Some(es[0].text))
      case Num(n) => (match CountsOf(es[1..]) case Some(rest) => Some([n] + rest) case None => None)
      case _ => None
  }

  lemma {:induction false} CountsOfMeaning(es: seq<Element>)
    ensures CountsOf(es).Some? <==> forall i :: 0 <= i < |es| ==> LabelValue(Some(es[i].text)).Num?
    ensures CountsOf(es).Some? ==>
      && |CountsOf(es).value| == |es|
      && forall i :: 0 <= i < |es| ==> LabelValue(Some(es[i].text)) == Num(CountsOf(es).value[i])
  {
    if es != [] {
      CountsOfMeaning(es[1..]);
      assert forall i :: 1 <= i < |es| ==> es[i] == es[1..][i - 1];
      if CountsOf(es).Some? {
        var rest := CountsOf(es[1..]).value;
        assert CountsOf(es).value == [LabelValue(Some(es[0].text)).n] + rest;
      }
    }
  }

  method ConvertCounts(es: seq<Element>) returns (r: Option<seq<nat>>)
    ensures r == CountsOf(es)
  {
    var counts: seq<nat> := [];
    var i := 0;
    assert es[0..] == es;
    PrependEmpty(CountsOf(es));
    while i < |es|
      invariant 0 <= i <= |es|
      invariant CountsOf(es) == Prepend(counts, CountsOf(es[i..]))
    {
      assert es[i..][1..] == es[i + 1..];
      var n := LabelToNum(Some(es[i].text));
      if !n.Num? {
        return None;
      }
      PrependStep(counts, n.n, CountsOf(es[i + 1..]));
      counts := counts + [n.n];
      i := i + 1;
    }
    assert es[i..] == [] && counts + [] == counts;
    r := Some(counts);
  }

  function Prepend(xs: seq<nat>, o: Option<seq<nat>>): Option<seq<nat>>
  {
    match o
    case None => None
    case Some(ys) => Some(xs + ys)
  }

  lemma PrependEmpty(o: Option<seq<nat>>)
    ensures Prepend([], o) == o
  {
    if o.Some? {
      assert [] + o.value == o.value;
    }
  }

  lemma PrependStep(xs: seq<nat>, n: nat, o: Option<seq<nat>>)
    ensures Prepend(xs, match o case None => None case Some(ys) => Some([n] + ys)) == Prepend(xs + [n], o)
  {
    if o.Some? {
      assert xs + ([n] + o.value) == (xs + [n]) + o.value;
    }
  }

  /** The page part of `_scrape_channel_page` for a channel not yet visited. */
  function ChannelExtraction(name: string, url: string, page: ChannelPage, today: string): ChannelStatus
  {
    if page.views.TimedOut? || page.uploadDates.TimedOut? || page.titles.TimedOut? then PageRaised
    else
      var views := Elements(page.views);
      var dates := Elements(page.uploadDates);
      var titles := Elements(page.titles);
      if !(|views| == |dates| == |titles|) then Misaligned
      else
        match CountsOf(views)
        case None => PageRaised
        case Some(counts) => Recorded(ChannelRecord(name, url, Texts(titles), Texts(dates), counts, today))
  }

  /** The alignment rule: a record is produced only from three lists of one
      common length, and its three tuples keep that length and the element
      order; lists of different lengths never produce one. */
  lemma ChannelRecordAligned(name: string, url: string, page: ChannelPage, today: string)
    ensures ChannelExtraction(name, url, page, today).Recorded? ==>
      var rec := ChannelExtraction(name, url, page, today).rec;
      var n := |Elements(page.titles)|;
      && |Elements(page.views)| == n && |Elements(page.uploadDates)| == n
      && |rec.titles| == n && |rec.uploadDates| == n && |rec.viewCounts| == n
      && rec.channelName == name && rec.channelLink == url
      && (forall i :: 0 <= i < n ==>
            && rec.titles[i] == Elements(page.titles)[i].text
            && rec.uploadDates[i] == Elements(page.uploadDates)[i].text
            && LabelValue(Some(Elements(page.views)[i].text)) == Num(rec.viewCounts[i]))
    ensures (&& page.views.Found? && page.uploadDates.Found? && page.titles.Found?
             && !(|Elements(page.views)| == |Elements(page.uploadDates)| == |Elements(page.titles)|))
      ==> ChannelExtraction(name, url, page, today) == Misaligned
  {
    if ChannelExtraction(name, url, page, today).Recorded? {
      CountsOfMeaning(Elements(page.views));
    }
  }
}
