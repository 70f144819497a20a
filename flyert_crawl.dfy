/**
 * The flyert crawler's two passes.  `GetArticleLinksByPage` walks the search
 * result pages of one hotel, keeps the links whose post time falls in a window
 * and merges the new ones into the links file; `GetPageContent` reads one
 * thread with its replies across reply pages; `GetAllContents` drives the
 * second pass over the links file, resuming at the hotel cursor and skipping
 * links the progress manager already knows.  The browser is an oracle: each
 * page is a value saying what the page's elements show.
 */
module FlyertCrawl {
  import opened Wrappers
  import opened Text
  import opened Clock
  import opened FlyertTime
  import opened FlyertProgress
  import PyDict

  // ===========================================================================
  // Search result pages

  /**
   * One search entry: the text of its time element and of the fallback time
   * element (None when the element is missing), and its title link (None when
   * the element is missing, Some(None) when it has no href).
   */
  datatype Entry = Entry(time: Option<string>, fallbackTime: Option<string>, anchor: Option<Option<string>>)

  /** A listing page: whether `.tl` appeared, the texts of the `p.emp` notices, and the entries. */
  datatype ListingPage = ListingPage(loaded: bool, notices: seq<string>, entries: seq<Entry>)

  /** One hotel's entry of the links file. */
  datatype HotelLinks = HotelLinks(hotel: string, links: seq<string>)

  const Sorry: string := "抱歉"

  /** What the site shows past the last result page. */
  const PastLastPage: ListingPage := ListingPage(true, [Sorry], [])

  /** The default window, `2024-3-1` to `2025-2-28`, both at midnight. */
  const DefaultStart: Civil := Civil(2024, 3, 1, 0, 0, 0)
  const DefaultEnd: Civil := Civil(2025, 2, 28, 0, 0, 0)

  /** `f"{search_result_link}&page={page_num}"` */
  function PageUrl(link: string, n: nat): string {
    link + "&page=" + NatToString(n)
  }

  /** The URLs of pages 1 to `n`, in order. */
  function Requests(link: string, n: nat): (r: seq<string>)
    ensures |r| == n && forall i | 0 <= i < n :: r[i] == PageUrl(link, i + 1)
  {
    if n == 0 then [] else Requests(link, n - 1) + [PageUrl(link, n)]
  }

  /** The time parser the crawler applies to time elements. */
  type Parser = string -> Outcome<Option<Civil>>

  /** The flyert parser, `parse_timestamp` at a fixed now. */
  function FlyertParser(now: int, cal: Calendar): Parser {
    t => ParseTimestamp(t, now, cal)
  }

  /** Looking up a time element and parsing its text with `parse`; a missing element raises. */
  function ReadWith(text: Option<string>, parse: Parser): Outcome<Option<Civil>> {
    match text
    case None => Raised
    case Some(t) => parse(t)
  }

  /** Result page `n` (from 1) of a site whose pages are `site`. */
  function Listing(site: seq<ListingPage>, n: nat): ListingPage {
    if 1 <= n <= |site| then site[n - 1] else PastLastPage
  }

  /** Some `p.emp` notice says "抱歉": the last page has been passed. */
  predicate SaysSorry(page: ListingPage) {
    exists i | 0 <= i < |page.notices| :: Contains(page.notices[i], Sorry)
  }

  /** Some entry has a time element: the wait for it succeeds. */
  predicate ShowsTimes(page: ListingPage) {
    exists i | 0 <= i < |page.entries| :: page.entries[i].time.Some?
  }

  /** The entry's time: the first element, then the fallback element when the first raised, else None. */
  function EntryTime(e: Entry, parse: Parser): Option<Civil> {
    match ReadWith(e.time, parse)
    case Done(r) => r
    case Raised =>
      match ReadWith(e.fallbackTime, parse)
      case Done(r) => r
      case Raised => None
  }

  predicate InWindow(t: Civil, start: Civil, end: Civil) {
    !Later(t, end) && !Later(start, t)
  }

  /** What scanning one page yields: its links, and whether an entry older than the window stopped it. */
  datatype PageScan = PageScan(links: seq<string>, older: bool)

  function ThenScan(got: seq<string>, o: Outcome<PageScan>): Outcome<PageScan> {
    match o
    case Raised => Raised
    case Done(ps) => Done(PageScan(got + ps.links, ps.older))
  }

  function ThenLinks(got: seq<string>, o: Outcome<seq<string>>): Outcome<seq<string>> {
    match o
    case Raised => Raised
    case Done(ls) => Done(got + ls)
  }

  /** The entry loop of one page: skip untimed and too-new entries, stop at the first too-old one. */
  function ScanEntries(es: seq<Entry>, parse: Parser, start: Civil, end: Civil): Outcome<PageScan>
    decreases |es|
  {
    if |es| == 0 then Done(PageScan([], false))
    else
      var e := es[0];
      match EntryTime(e, parse)
      case None => ScanEntries(es[1..], parse, start, end)
      case Some(t) =>
        if Later(t, end) then ScanEntries(es[1..], parse, start, end)
        else if Later(start, t) then Done(PageScan([], true))
        else
          match e.anchor
          case None => Raised
          case Some(href) => ThenScan(if href.Some? then [href.value] else [], ScanEntries(es[1..], parse, start, end))
  }

  lemma PastLastPageSaysSorry()
    ensures SaysSorry(PastLastPage)
  {
    assert IsAt(PastLastPage.notices[0], 0, Sorry);
  }

  /** The page loop from page `n` on: the links it collects, or Raised when a wait or lookup fails. */
  function Walk(site: seq<ListingPage>, n: nat, parse: Parser, start: Civil, end: Civil): Outcome<seq<string>>
    requires n >= 1
    decreases |site| + 1 - n
  {
    PastLastPageSaysSorry();
    var page := Listing(site, n);
    if !page.loaded then Raised
    else if SaysSorry(page) then Done([])
    else if !ShowsTimes(page) then Raised
    else
      match ScanEntries(page.entries, parse, start, end)
      case Raised => Raised
      case Done(ps) => if ps.older then Done(ps.links) else ThenLinks(ps.links, Walk(site, n + 1, parse, start, end))
  }

  lemma ThenLinksJoins(a: seq<string>, b: seq<string>, o: Outcome<seq<string>>)
    ensures ThenLinks(a, ThenLinks(b, o)) == ThenLinks(a + b, o)
    ensures ThenLinks([], o) == o
  {
    match o
    case Raised =>
    case Done(ls) => assert a + (b + ls) == (a + b) + ls && [] + ls == ls;
  }

  /** One page of the loop, as the loop body meets it. */
  lemma WalkStep(site: seq<ListingPage>, n: nat, parse: Parser, start: Civil, end: Civil)
    requires n >= 1
    ensures var page := Listing(site, n);
      && (!page.loaded ==> Walk(site, n, parse, start, end).Raised?)
      && (page.loaded && SaysSorry(page) ==> Walk(site, n, parse, start, end) == Done([]))
      && (page.loaded && !SaysSorry(page) && !ShowsTimes(page) ==> Walk(site, n, parse, start, end).Raised?)
      && (page.loaded && !SaysSorry(page) && ShowsTimes(page) ==>
            && n <= |site|
            && var scan := ScanEntries(page.entries, parse, start, end);
            && (scan.Raised? ==> Walk(site, n, parse, start, end).Raised?)
            && (scan.Done? && scan.value.older ==> Walk(site, n, parse, start, end) == Done(scan.value.links))
            && (scan.Done? && !scan.value.older ==> Walk(site, n, parse, start, end) == ThenLinks(scan.value.links, Walk(site, n + 1, parse, start, end))))
  {
    PastLastPageSaysSorry();
  }

  /** `[l for l in links if l not in stored]` */
  function Unstored(links: seq<string>, stored: seq<string>): (r: seq<string>)
    ensures forall l | l in r :: l in links && l !in stored
    ensures forall l | l in links && l !in stored :: l in r
    decreases |links|
  {
    if |links| == 0 then []
    else (if links[0] in stored then [] else [links[0]]) + Unstored(links[1..], stored)
  }

  /** Filtering a concatenation filters each part in turn, so the kept links keep their order. */
  lemma {:induction false} UnstoredSplits(a: seq<string>, b: seq<string>, stored: seq<string>)
    ensures Unstored(a + b, stored) == Unstored(a, stored) + Unstored(b, stored)
    decreases |a|
  {
    if |a| == 0 {
      assert a + b == b;
    } else {
      assert (a + b)[0] == a[0] && (a + b)[1..] == a[1..] + b;
      UnstoredSplits(a[1..], b, stored);
    }
  }

  /** A single link is kept exactly when it is not stored. */
  lemma UnstoredOne(l: string, stored: seq<string>)
    ensures Unstored([l], stored) == if l in stored then [] else [l]
  {
    assert [l][1..] == [];
  }

  /** The hotel names of a file's entries, in file order, for `PyDict.Find`. */
  function HotelNames<E>(es: seq<E>, hotel: E -> string): (r: seq<string>)
    ensures |r| == |es| && forall i | 0 <= i < |es| :: r[i] == hotel(es[i])
  {
    seq(|es|, i requires 0 <= i < |es| => hotel(es[i]))
  }

  function LinkHotels(es: seq<HotelLinks>): seq<string> {
    HotelNames(es, (e: HotelLinks) => e.hotel)
  }

  /** The links file after the merge: the first entry of the hotel gains the links it does not hold yet. */
  function MergeLinks(es: seq<HotelLinks>, hotel: string, links: seq<string>): seq<HotelLinks> {
    match PyDict.Find(LinkHotels(es), hotel)
    case None => es
    case Some(j) => es[j := es[j].(links := es[j].links + Unstored(links, es[j].links))]
  }

  /**
   * The merge keeps every stored link in place, appends the collected links
   * the hotel's entry lacked, in their order (`Unstored`), and leaves the other
   * entries alone; with no entry for the hotel nothing changes.
   */
  lemma MergeKeepsAndAdds(es: seq<HotelLinks>, hotel: string, links: seq<string>)
    ensures var r := MergeLinks(es, hotel, links);
      && |r| == |es| && LinkHotels(r) == LinkHotels(es)
      && (PyDict.Find(LinkHotels(es), hotel).None? ==> r == es)
      && (PyDict.Find(LinkHotels(es), hotel).Some? ==>
            var j := PyDict.Find(LinkHotels(es), hotel).value;
            && (forall i | 0 <= i < |es| && i != j :: r[i] == es[i])
            && |es[j].links| <= |r[j].links| && r[j].links[..|es[j].links|] == es[j].links
            && r[j].links[|es[j].links|..] == Unstored(links, es[j].links)
            && (forall l | l in links :: l in r[j].links)
            && (forall l | l in r[j].links[|es[j].links|..] :: l in links && l !in es[j].links))
  {
    var r := MergeLinks(es, hotel, links);
    if PyDict.Find(LinkHotels(es), hotel).Some? {
      var j := PyDict.Find(LinkHotels(es), hotel).value;
      var added := Unstored(links, es[j].links);
      assert r[j].links == es[j].links + added;
      assert r[j].links[|es[j].links|..] == added;
      assert LinkHotels(r) == LinkHotels(es);
    }
  }

  /** Every collected link comes from an entry of some page whose time lies in the window. */
  predicate CollectedFrom(e: Entry, l: string, parse: Parser, start: Civil, end: Civil) {
    e.anchor == Some(Some(l)) && EntryTime(e, parse).Some? && InWindow(EntryTime(e, parse).value, start, end)
  }

  lemma {:induction false} ScanCollectsInWindow(es: seq<Entry>, parse: Parser, start: Civil, end: Civil)
    requires ScanEntries(es, parse, start, end).Done?
    ensures forall l | l in ScanEntries(es, parse, start, end).value.links ::
      exists i | 0 <= i < |es| :: CollectedFrom(es[i], l, parse, start, end)
    decreases |es|
  {
    if |es| > 0 {
      var t := EntryTime(es[0], parse);
      var here: seq<string> := [];
      if t.Some? && !Later(t.value, end) && Later(start, t.value) {
      } else {
        var rest := ScanEntries(es[1..], parse, start, end);
        assert rest.Done?;
        if t.Some? && !Later(t.value, end) {
          here := if es[0].anchor.value.Some? then [es[0].anchor.value.value] else [];
          assert ScanEntries(es, parse, start, end).value.links == here + rest.value.links;
          assert forall l | l in here :: CollectedFrom(es[0], l, parse, start, end);
        } else {
          assert ScanEntries(es, parse, start, end) == rest;
        }
        ScanCollectsInWindow(es[1..], parse, start, end);
        forall l | l in rest.value.links ensures exists i | 0 <= i < |es| :: CollectedFrom(es[i], l, parse, start, end) {
          var i :| 0 <= i < |es[1..]| && CollectedFrom(es[1..][i], l, parse, start, end);
          assert es[1..][i] == es[i + 1];
        }
      }
    }
  }

  /** The times of a page's entries, in order. */
  function EntryTimes(es: seq<Entry>, parse: Parser): (r: seq<Option<Civil>>)
    ensures |r| == |es| && forall i | 0 <= i < |es| :: r[i] == EntryTime(es[i], parse)
  {
    seq(|es|, i requires 0 <= i < |es| => EntryTime(es[i], parse))
  }

  /** An entry whose time `t` lies inside the window and that has an href: one whose link a scan keeps. */
  predicate Collectable(e: Entry, t: Option<Civil>, start: Civil, end: Civil) {
    t.Some? && InWindow(t.value, start, end) && e.anchor.Some? && e.anchor.value.Some?
  }

  /** A time before the window's start and not after its end: its entry stops the scan. */
  predicate IsOlder(t: Option<Civil>, start: Civil, end: Civil) {
    t.Some? && !Later(t.value, end) && Later(start, t.value)
  }

  /** The hrefs of the collectable entries, in page order; `times` are the entries' times. */
  function InWindowLinks(es: seq<Entry>, times: seq<Option<Civil>>, start: Civil, end: Civil): seq<string>
    requires |times| == |es|
    decreases |es|
  {
    if |es| == 0 then []
    else (if Collectable(es[0], times[0], start, end) then [es[0].anchor.value.value] else []) + InWindowLinks(es[1..], times[1..], start, end)
  }

  /** The index of the first time older than the window, or the number of times when there is none. */
  function StopIndex(times: seq<Option<Civil>>, start: Civil, end: Civil): (k: nat)
    ensures k <= |times| && (k < |times| ==> IsOlder(times[k], start, end))
    ensures forall i | 0 <= i < k :: !IsOlder(times[i], start, end)
    decreases |times|
  {
    if |times| == 0 then 0
    else if IsOlder(times[0], start, end) then 0
    else
      var k := StopIndex(times[1..], start, end);
      assert forall i | 1 <= i < k + 1 :: times[i] == times[1..][i - 1];
      k + 1
  }

  /**
   * A page scan that does not raise collects exactly the hrefs of the entries
   * dated in the window that come before the first older entry, in page order,
   * and reports an older entry exactly when there is one.
   */
  lemma {:induction false} ScanIsFilter(es: seq<Entry>, parse: Parser, start: Civil, end: Civil)
    requires ScanEntries(es, parse, start, end).Done?
    ensures var ts := EntryTimes(es, parse); var k := StopIndex(ts, start, end);
      ScanEntries(es, parse, start, end).value.links == InWindowLinks(es[..k], ts[..k], start, end)
    ensures ScanEntries(es, parse, start, end).value.older <==> StopIndex(EntryTimes(es, parse), start, end) < |es|
    decreases |es|
  {
    var ts := EntryTimes(es, parse);
    if |es| > 0 && !IsOlder(ts[0], start, end) {
      var rest := ScanEntries(es[1..], parse, start, end);
      var t := EntryTime(es[0], parse);
      if t.Some? && !Later(t.value, end) {
        assert es[0].anchor.Some?;
      }
      assert rest.Done?;
      ScanIsFilter(es[1..], parse, start, end);
      assert ts[1..] == EntryTimes(es[1..], parse);
      InWindowPrefixStep(es, ts, start, end);
    }
  }

  /** Past an entry that is not older, the prefix up to the stop index is that entry followed by the rest's prefix. */
  lemma InWindowPrefixStep(es: seq<Entry>, ts: seq<Option<Civil>>, start: Civil, end: Civil)
    requires |ts| == |es| > 0 && !IsOlder(ts[0], start, end)
    ensures var k := StopIndex(ts, start, end);
      && k >= 1 && StopIndex(ts[1..], start, end) == k - 1
      && InWindowLinks(es[..k], ts[..k], start, end) ==
           (if Collectable(es[0], ts[0], start, end) then [es[0].anchor.value.value] else [])
           + InWindowLinks(es[1..][..k - 1], ts[1..][..k - 1], start, end)
  {
    var k := StopIndex(ts, start, end);
    assert es[..k][0] == es[0] && ts[..k][0] == ts[0];
    assert es[..k][1..] == es[1..][..k - 1];
    assert ts[..k][1..] == ts[1..][..k - 1];
  }

  lemma {:induction false} InWindowLinksHas(es: seq<Entry>, times: seq<Option<Civil>>, start: Civil, end: Civil, i: nat)
    requires |times| == |es| && i < |es| && Collectable(es[i], times[i], start, end)
    ensures es[i].anchor.value.value in InWindowLinks(es, times, start, end)
    decreases |es|
  {
    if i > 0 {
      assert es[1..][i - 1] == es[i] && times[1..][i - 1] == times[i];
      InWindowLinksHas(es[1..], times[1..], start, end, i - 1);
    }
  }

  /** Every entry before the first older one that is dated in the window and has an href gives its link. */
  lemma ScanCollectsAllInWindow(es: seq<Entry>, parse: Parser, start: Civil, end: Civil, i: nat)
    requires ScanEntries(es, parse, start, end).Done?
    requires i < StopIndex(EntryTimes(es, parse), start, end) && Collectable(es[i], EntryTime(es[i], parse), start, end)
    ensures es[i].anchor.value.value in ScanEntries(es, parse, start, end).value.links
  {
    var ts := EntryTimes(es, parse);
    var k := StopIndex(ts, start, end);
    ScanIsFilter(es, parse, start, end);
    assert es[..k][i] == es[i] && ts[..k][i] == ts[i];
    InWindowLinksHas(es[..k], ts[..k], start, end, i);
  }

  /**
   * A page scan stops early exactly when some entry no newer than the window's
   * end is older than its start; otherwise every dated entry up to the end is
   * at or after the start.
   */
  lemma {:induction false} ScanStopsAtOlder(es: seq<Entry>, parse: Parser, start: Civil, end: Civil)
    requires ScanEntries(es, parse, start, end).Done?
    ensures ScanEntries(es, parse, start, end).value.older <==>
      exists i | 0 <= i < |es| :: EntryTime(es[i], parse).Some? && !Later(EntryTime(es[i], parse).value, end) && Later(start, EntryTime(es[i], parse).value)
    decreases |es|
  {
    if |es| > 0 {
      var t := EntryTime(es[0], parse);
      if t.Some? && !Later(t.value, end) && Later(start, t.value) {
      } else {
        var rest := ScanEntries(es[1..], parse, start, end);
        if t.Some? && !Later(t.value, end) {
          assert es[0].anchor.Some?;
        }
        assert rest.Done? && ScanEntries(es, parse, start, end).value.older == rest.value.older;
        ScanStopsAtOlder(es[1..], parse, start, end);
        if rest.value.older {
          var i :| 0 <= i < |es[1..]| && EntryTime(es[1..][i], parse).Some? && !Later(EntryTime(es[1..][i], parse).value, end)
            && Later(start, EntryTime(es[1..][i], parse).value);
          assert es[1..][i] == es[i + 1];
        } else {
          forall i | 1 <= i < |es| ensures EntryTime(es[i], parse) == EntryTime(es[1..][i - 1], parse) {
            assert es[i] == es[1..][i - 1];
          }
        }
      }
    }
  }

  /** Different page numbers give different page URLs, so no page is requested twice. */
  lemma PageUrlsDistinct(link: string, m: nat, n: nat)
    requires PageUrl(link, m) == PageUrl(link, n)
    ensures m == n
  {
    var k := |link + "&page="|;
    assert PageUrl(link, m)[k..] == NatToString(m);
    assert PageUrl(link, n)[k..] == NatToString(n);
  }

  /** The links file. */
  class LinkStore {
    var entries: seq<HotelLinks>

    constructor(stored: seq<HotelLinks>)
      ensures entries == stored
    {
      entries := stored;
    }

    /** The merge loop: the first entry of the hotel gains the new links, and the file is written. */
    method Merge(hotel: string, links: seq<string>)
      modifies this
      ensures entries == MergeLinks(old(entries), hotel, links)
    {
      var k := 0;
      while k < |entries|
        invariant 0 <= k <= |entries| && entries == old(entries)
        invariant forall i | 0 <= i < k :: entries[i].hotel != hotel
      {
        if entries[k].hotel == hotel {
          assert PyDict.Find(LinkHotels(entries), hotel) == Some(k);
          var unique := Unstored(links, entries[k].links);
          entries := entries[k := entries[k].(links := entries[k].links + unique)];
          return;
        }
        k := k + 1;
      }
      assert PyDict.Find(LinkHotels(entries), hotel).None?;
    }
  }

  /** The entry loop of one result page, appending the links of in-window entries in page order. */
  method ScanPage(es: seq<Entry>, parse: Parser, start: Civil, end: Civil) returns (r: Outcome<PageScan>)
    ensures r == ScanEntries(es, parse, start, end)
  {
    var links: seq<string> := [];
    var j := 0;
    match ScanEntries(es, parse, start, end) {
      case Raised =>
      case Done(ps) => assert [] + ps.links == ps.links;
    }
    while j < |es|
      invariant 0 <= j <= |es|
      invariant ScanEntries(es, parse, start, end) == ThenScan(links, ScanEntries(es[j..], parse, start, end))
    {
      var e := es[j];
      assert es[j..][0] == e && es[j..][1..] == es[j + 1..];
      var t := EntryTime(e, parse);
      if t.None? || Later(t.value, end) {
        j := j + 1;
        continue;
      }
      if Later(start, t.value) {
        assert links + [] == links;
        return Done(PageScan(links, true));
      }
      if e.anchor.None? {
        return Raised;
      }
      if e.anchor.value.Some? {
        ghost var rest := ScanEntries(es[j + 1..], parse, start, end);
        assert rest.Done? ==> (links + [e.anchor.value.value]) + rest.value.links == links + ([e.anchor.value.value] + rest.value.links);
        links := links + [e.anchor.value.value];
      } else {
        ghost var rest := ScanEntries(es[j + 1..], parse, start, end);
        assert rest.Done? ==> [] + rest.value.links == rest.value.links;
      }
      j := j + 1;
    }
    assert links + [] == links;
    r := Done(PageScan(links, false));
  }

  /**
   * The `while more` loop of `get_article_links_by_page`: requests result
   * pages 1, 2, ... in turn and returns the links `Walk` collects, or None
   * when a wait or lookup raised.
   */
  method WalkPages(link: string, site: seq<ListingPage>, parse: Parser, start: Civil, end: Civil)
      returns (r: Option<seq<string>>, ghost requested: seq<string>)
    ensures r.Some? <==> Walk(site, 1, parse, start, end).Done?
    ensures r.Some? ==> r.value == Walk(site, 1, parse, start, end).value
    ensures |requested| >= 1 && requested == Requests(link, |requested|)
  {
    var more := true;
    var pageNum: nat := 1;
    var links: seq<string> := [];
    requested := [];
    ThenLinksJoins([], [], Walk(site, 1, parse, start, end));
    while more
      invariant pageNum >= 1 && requested == Requests(link, pageNum - 1)
      invariant more ==> Walk(site, 1, parse, start, end) == ThenLinks(links, Walk(site, pageNum, parse, start, end))
      invariant !more ==> |requested| >= 1 && Walk(site, 1, parse, start, end) == Done(links)
      decreases |site| + 1 - pageNum, more
    {
      requested := requested + [PageUrl(link, pageNum)];
      assert requested == Requests(link, pageNum) && |requested| == pageNum;
      var page := Listing(site, pageNum);
      WalkStep(site, pageNum, parse, start, end);
      if !page.loaded {
        return None, requested;
      }
      if SaysSorry(page) {
        assert links + [] == links;
        more := false;
        break;
      }
      if !ShowsTimes(page) {
        return None, requested;
      }
      var scan := ScanPage(page.entries, parse, start, end);
      if scan.Raised? {
        return None, requested;
      }
      ThenLinksJoins(links, scan.value.links, Walk(site, pageNum + 1, parse, start, end));
      links := links + scan.value.links;
      if scan.value.older {
        more := false;
      }
      pageNum := pageNum + 1;
    }
    r := Some(links);
  }

  /**
   * `get_article_links_by_page`: the page walk, then, when it did not raise,
   * the merge of its links into the links file; None (and the file
   * untouched) when a wait or lookup raised.
   */
  method GetArticleLinksByPage(hotel: string, link: string, site: seq<ListingPage>, now: int, cal: Calendar,
                               start: Civil, end: Civil, store: LinkStore)
      returns (r: Option<seq<string>>, ghost requested: seq<string>)
    modifies store
    ensures r.Some? <==> Walk(site, 1, FlyertParser(now, cal), start, end).Done?
    ensures r.Some? ==> r.value == Walk(site, 1, FlyertParser(now, cal), start, end).value
    ensures store.entries == if r.Some? then MergeLinks(old(store.entries), hotel, r.value) else old(store.entries)
    ensures |requested| >= 1 && requested == Requests(link, |requested|)
  {
    r, requested := WalkPages(link, site, FlyertParser(now, cal), start, end);
    if r.Some? {
      store.Merge(hotel, r.value);
    }
  }

  // ===========================================================================
  // Thread pages

  /** A link in a reply's author block: its text and its href. */
  datatype AuthorLink = AuthorLink(text: string, href: Option<string>)

  /** A `.comiis_viewbox` container: its author links, its `.post_message` and its time element (None: missing). */
  datatype Container = Container(authorLinks: seq<AuthorLink>, message: Option<string>, postedOn: Option<string>)

  /** One reply page: its containers and the hrefs of its `.nxt` buttons. */
  datatype ReplyPage = ReplyPage(containers: seq<Container>, nextHrefs: seq<Option<string>>)

  /**
   * A thread as the browser shows it: the `#ShowDiv` text, the title, time,
   * content and author elements (None: the wait for it fails), and the reply
   * pages reached by following next buttons, the first being the opening page.
   */
  datatype Thread = Thread(jump: Option<string>, title: Option<string>, postedOn: Option<string>,
                           content: Option<string>, author: Option<AuthorLink>, pages: seq<ReplyPage>)

  datatype Reply = Reply(commenterName: string, commentContent: string, commenterLink: string, commentTime: Option<Civil>)

  datatype Article = Article(title: string, timestamp: Option<Civil>, content: string,
                             authorName: string, authorLink: Option<string>, replies: seq<Reply>)

  /** How reading a thread ends: a redirect notice, an exception, or the article. */
  datatype Fetch = Redirected | Failed | Fetched(article: Article)

  const JumpNotice: string := "自动跳转"
  const SpaceLink: string := "home.php?mod=space&uid="
  const PageWord: string := "page"

  /** An author link that names a member: a non-empty href pointing at a member space. */
  predicate IsProfile(a: AuthorLink) {
    a.href.Some? && a.href.value != "" && Contains(a.href.value, SpaceLink)
  }

  /** The commenter's name and link: those of the first profile link, or empty. */
  function Commenter(links: seq<AuthorLink>): (string, string)
    decreases |links|
  {
    if |links| == 0 then ("", "")
    else if IsProfile(links[0]) then (links[0].text, links[0].href.value)
    else Commenter(links[1..])
  }

  /** The commenter is taken from the first profile link; with none, both fields stay empty. */
  lemma {:induction false} CommenterIsFirstProfile(links: seq<AuthorLink>, i: nat)
    requires i <= |links| && forall k | 0 <= k < i :: !IsProfile(links[k])
    ensures i == |links| ==> Commenter(links) == ("", "")
    ensures i < |links| && IsProfile(links[i]) ==> Commenter(links) == (links[i].text, links[i].href.value)
    decreases i
  {
    if i > 0 {
      assert !IsProfile(links[0]);
      CommenterIsFirstProfile(links[1..], i - 1);
      assert forall k | 0 <= k < i - 1 :: links[1..][k] == links[k + 1];
    }
  }

  /** One container's reply; a missing message or time element raises. */
  function ContainerReply(c: Container, parse: Parser): Outcome<Reply> {
    match c.message
    case None => Raised
    case Some(m) =>
      match ReadWith(c.postedOn, parse)
      case Raised => Raised
      case Done(t) => Done(Reply(Commenter(c.authorLinks).0, m, Commenter(c.authorLinks).1, t))
  }

  function ThenReplies(got: seq<Reply>, o: Outcome<seq<Reply>>): Outcome<seq<Reply>> {
    match o
    case Raised => Raised
    case Done(rs) => Done(got + rs)
  }

  /** The container loop of one page. */
  function PageReplies(cs: seq<Container>, parse: Parser): Outcome<seq<Reply>>
    decreases |cs|
  {
    if |cs| == 0 then Done([])
    else
      match ContainerReply(cs[0], parse)
      case Raised => Raised
      case Done(r) => ThenReplies([r], PageReplies(cs[1..], parse))
  }

  /** The button loop: the first `.nxt` whose href mentions "page" leads on; an href-less button raises. */
  function NextStep(hrefs: seq<Option<string>>): (r: Outcome<bool>)
    ensures r == Done(false) <==> forall i | 0 <= i < |hrefs| :: hrefs[i].Some? && !Contains(hrefs[i].value, PageWord)
    ensures r == Done(true) ==> exists i | 0 <= i < |hrefs| :: hrefs[i].Some? && Contains(hrefs[i].value, PageWord)
    decreases |hrefs|
  {
    if |hrefs| == 0 then Done(false)
    else if hrefs[0].None? then Raised
    else if Contains(hrefs[0].value, PageWord) then Done(true)
    else
      assert forall i | 1 <= i < |hrefs| :: hrefs[i] == hrefs[1..][i - 1];
      NextStep(hrefs[1..])
  }

  /** Python's `s[1:]`. */
  function Tail<T>(s: seq<T>): seq<T> {
    if |s| == 0 then [] else s[1..]
  }

  /** Reply page `k` as the loop sees it; past the last page the browser shows nothing more. */
  function ReplyPageAt(pages: seq<ReplyPage>, k: nat): ReplyPage {
    if k < |pages| then pages[k] else ReplyPage([], [])
  }

  /** The containers read on page `k`: on the opening page the first one is the post itself. */
  function PageContainers(pages: seq<ReplyPage>, k: nat): seq<Container> {
    if k == 0 then Tail(ReplyPageAt(pages, k).containers) else ReplyPageAt(pages, k).containers
  }

  /** The reply loop from page `k` on. */
  function ThreadReplies(pages: seq<ReplyPage>, k: nat, parse: Parser): Outcome<seq<Reply>>
    requires k <= |pages|
    decreases |pages| - k
  {
    match PageReplies(PageContainers(pages, k), parse)
    case Raised => Raised
    case Done(rs) =>
      match NextStep(ReplyPageAt(pages, k).nextHrefs)
      case Raised => Raised
      case Done(more) => if more && k < |pages| then ThenReplies(rs, ThreadReplies(pages, k + 1, parse)) else Done(rs)
  }

  /** One page of the reply loop, as the loop body meets it. */
  lemma ThreadStep(pages: seq<ReplyPage>, k: nat, parse: Parser)
    requires k <= |pages|
    ensures var got := PageReplies(PageContainers(pages, k), parse);
      var next := NextStep(ReplyPageAt(pages, k).nextHrefs);
      && (k == |pages| ==> next == Done(false))
      && (got.Raised? || next.Raised? ==> ThreadReplies(pages, k, parse).Raised?)
      && (got.Done? && next == Done(true) && k < |pages| ==>
            ThreadReplies(pages, k, parse) == ThenReplies(got.value, ThreadReplies(pages, k + 1, parse)))
      && (got.Done? && next == Done(false) ==> ThreadReplies(pages, k, parse) == Done(got.value))
  {
  }

  predicate IsRedirect(v: Thread) {
    v.jump.Some? && Contains(v.jump.value, JumpNotice)
  }

  /** `get_page_content` as a value. */
  function ReadThread(v: Thread, parse: Parser): Fetch {
    if IsRedirect(v) then Redirected
    else if v.title.None? || v.postedOn.None? || v.content.None? || v.author.None? then Failed
    else
      match parse(v.postedOn.value)
      case Raised => Failed
      case Done(ts) =>
        match ThreadReplies(v.pages, 0, parse)
        case Raised => Failed
        case Done(rs) => Fetched(Article(v.title.value, ts, v.content.value, v.author.value.text, v.author.value.href, rs))
  }

  /** A page's replies are its containers' replies, one each, in order. */
  lemma {:induction false} PageRepliesInOrder(cs: seq<Container>, parse: Parser)
    ensures PageReplies(cs, parse).Done? <==> forall i | 0 <= i < |cs| :: ContainerReply(cs[i], parse).Done?
    ensures PageReplies(cs, parse).Done? ==>
      |PageReplies(cs, parse).value| == |cs| &&
      forall i | 0 <= i < |cs| :: PageReplies(cs, parse).value[i] == ContainerReply(cs[i], parse).value
    decreases |cs|
  {
    if |cs| > 0 {
      var rest := cs[1..];
      PageRepliesInOrder(rest, parse);
      assert forall i | 1 <= i < |cs| :: cs[i] == rest[i - 1];
      var head := ContainerReply(cs[0], parse);
      var tail := PageReplies(rest, parse);
      if head.Done? && tail.Done? {
        var rs := [head.value] + tail.value;
        assert PageReplies(cs, parse) == Done(rs);
        assert forall i | 1 <= i < |cs| :: rs[i] == tail.value[i - 1];
      }
    }
  }

  /**
   * The opening post is not a reply: a read thread's replies start with the
   * replies of the opening page's containers after the first, in page order.
   */
  lemma OpeningPageReplies(v: Thread, parse: Parser)
    requires ReadThread(v, parse).Fetched? && |v.pages| > 0
    ensures var rs := ReadThread(v, parse).article.replies;
      var cs := v.pages[0].containers;
      |cs| > 0 ==> |cs| - 1 <= |rs| && forall i | 1 <= i < |cs| :: ContainerReply(cs[i], parse).Done? && rs[i - 1] == ContainerReply(cs[i], parse).value
  {
    var cs := v.pages[0].containers;
    var first := PageReplies(Tail(cs), parse);
    assert ThreadReplies(v.pages, 0, parse).Done?;
    assert first.Done?;
    PageRepliesInOrder(Tail(cs), parse);
    var rs := ThreadReplies(v.pages, 0, parse).value;
    assert rs[..|first.value|] == first.value;
    if |cs| > 0 {
      forall i | 1 <= i < |cs| ensures ContainerReply(cs[i], parse).Done? && rs[i - 1] == ContainerReply(cs[i], parse).value {
        assert Tail(cs)[i - 1] == cs[i];
        assert rs[..|first.value|][i - 1] == rs[i - 1];
      }
    }
  }

  /** The author-link loop of one container, then its message and time. */
  method ReadContainer(c: Container, parse: Parser) returns (r: Outcome<Reply>)
    ensures r == ContainerReply(c, parse)
  {
    var name := "";
    var link := "";
    var i := 0;
    while i < |c.authorLinks|
      invariant 0 <= i <= |c.authorLinks|
      invariant Commenter(c.authorLinks) == Commenter(c.authorLinks[i..])
    {
      var a := c.authorLinks[i];
      assert c.authorLinks[i..][0] == a && c.authorLinks[i..][1..] == c.authorLinks[i + 1..];
      if a.href.Some? && a.href.value != "" && Contains(a.href.value, SpaceLink) {
        name := a.text;
        link := a.href.value;
        break;
      }
      i := i + 1;
    }
    if c.message.None? {
      return Raised;
    }
    var t := ReadWith(c.postedOn, parse);
    if t.Raised? {
      return Raised;
    }
    r := Done(Reply(name, c.message.value, link, t.value));
  }

  /** The `.nxt` button loop. */
  method FindNextButton(hrefs: seq<Option<string>>) returns (r: Outcome<bool>)
    ensures r == NextStep(hrefs)
  {
    var i := 0;
    while i < |hrefs|
      invariant 0 <= i <= |hrefs|
      invariant NextStep(hrefs) == NextStep(hrefs[i..])
    {
      assert hrefs[i..][0] == hrefs[i] && hrefs[i..][1..] == hrefs[i + 1..];
      if hrefs[i].None? {
        return Raised;
      }
      if Contains(hrefs[i].value, PageWord) {
        return Done(true);
      }
      i := i + 1;
    }
    r := Done(false);
  }

  /** The container loop of one reply page. */
  method ReadPage(cs: seq<Container>, parse: Parser) returns (r: Outcome<seq<Reply>>)
    ensures r == PageReplies(cs, parse)
  {
    var replies: seq<Reply> := [];
    var i := 0;
    match PageReplies(cs, parse) {
      case Raised =>
      case Done(rs) => assert [] + rs == rs;
    }
    while i < |cs|
      invariant 0 <= i <= |cs|
      invariant PageReplies(cs, parse) == ThenReplies(replies, PageReplies(cs[i..], parse))
    {
      assert cs[i..][0] == cs[i] && cs[i..][1..] == cs[i + 1..];
      var reply := ReadContainer(cs[i], parse);
      if reply.Raised? {
        return Raised;
      }
      ghost var rest := PageReplies(cs[i + 1..], parse);
      assert rest.Done? ==> (replies + [reply.value]) + rest.value == replies + ([reply.value] + rest.value);
      replies := replies + [reply.value];
      i := i + 1;
    }
    assert replies + [] == replies;
    r := Done(replies);
  }

  lemma ThenRepliesJoins(a: seq<Reply>, b: seq<Reply>, o: Outcome<seq<Reply>>)
    ensures ThenReplies(a, ThenReplies(b, o)) == ThenReplies(a + b, o)
    ensures ThenReplies([], o) == o
  {
    match o
    case Raised =>
    case Done(rs) => assert a + (b + rs) == (a + b) + rs && [] + rs == rs;
  }

  /** The progress manager's state after one fetch: empty on a redirect, errored on a failure, processed on success. */
  function AfterFetch(p: Progress, link: string, f: Fetch): Progress {
    match f
    case Redirected => MarkEmpty(p, link)
    case Failed => MarkError(p, link)
    case Fetched(_) => MarkProcessed(p, link)
  }

  /** Every link the progress manager skipped before, it still skips. */
  ghost predicate Grows(p: Progress, q: Progress) {
    forall l :: IsProcessed(p, l) ==> IsProcessed(q, l)
  }

  /**
   * Whatever a fetch ends in, its link is skipped from then on, no skipped
   * link stops being skipped, the cursor is kept, and only a successful fetch
   * adds to the processed list.
   */
  lemma AfterFetchEffect(p: Progress, link: string, f: Fetch)
    ensures var q := AfterFetch(p, link, f);
      && IsProcessed(q, link) && Grows(p, q) && q.currentHotel == p.currentHotel
      && forall l | l in q.processedLinks :: l in p.processedLinks || (l == link && f.Fetched?)
  {
    forall l | IsProcessed(p, l) ensures IsProcessed(AfterFetch(p, link, f), l) {
      MarksOnlyGrowTheSkipSet(p, link, l);
    }
    MarksOnlyGrowTheSkipSet(p, link, link);
  }

  /** The reply loop: the opening page without its first container, then each page a next button leads to. */
  method ReadReplies(pages: seq<ReplyPage>, parse: Parser) returns (r: Outcome<seq<Reply>>)
    ensures r == ThreadReplies(pages, 0, parse)
  {
    var morePages := true;
    var firstPage := true;
    var k: nat := 0;
    var replies: seq<Reply> := [];
    ThenRepliesJoins([], [], ThreadReplies(pages, 0, parse));
    while morePages
      invariant k <= |pages| && (firstPage <==> k == 0)
      invariant morePages ==> ThreadReplies(pages, 0, parse) == ThenReplies(replies, ThreadReplies(pages, k, parse))
      invariant !morePages ==> ThreadReplies(pages, 0, parse) == Done(replies)
      decreases |pages| - k, morePages
    {
      var page := ReplyPageAt(pages, k);
      var cs := if firstPage then Tail(page.containers) else page.containers;
      assert cs == PageContainers(pages, k);
      ThreadStep(pages, k, parse);
      var got := ReadPage(cs, parse);
      if got.Raised? {
        return Raised;
      }
      var next := FindNextButton(page.nextHrefs);
      if next.Raised? {
        return Raised;
      }
      ghost var before := replies;
      replies := replies + got.value;
      if next.value && k < |pages| {
        ThenRepliesJoins(before, got.value, ThreadReplies(pages, k + 1, parse));
        k := k + 1;
        firstPage := false;
      } else {
        morePages := false;
      }
    }
    r := Done(replies);
  }

  /**
   * `get_page_content`: reads the thread as `ReadThread` says, marking the link
   * empty on a redirect and errored on any exception; a read thread leaves the
   * progress manager as it was.
   */
  method GetPageContent(url: string, v: Thread, parse: Parser, pm: ProgressManager) returns (r: Option<Article>)
    modifies pm
    ensures ReadThread(v, parse).Fetched? ==> r == Some(ReadThread(v, parse).article) && pm.State() == old(pm.State()) && pm.saved == old(pm.saved)
    ensures ReadThread(v, parse).Redirected? ==> r.None? && pm.State() == MarkEmpty(old(pm.State()), url) && pm.saved == pm.State()
    ensures ReadThread(v, parse).Failed? ==>
      && r.None? && pm.State() == MarkError(old(pm.State()), url)
      && pm.saved == if url in old(pm.errorLinks) then old(pm.saved) else pm.State()
  {
    if v.jump.Some? && Contains(v.jump.value, JumpNotice) {
      pm.MarkEmptyLink(url);
      return None;
    }
    if v.title.None? || v.postedOn.None? || v.content.None? || v.author.None? {
      pm.MarkErrorLink(url);
      return None;
    }
    var timestamp := parse(v.postedOn.value);
    if timestamp.Raised? {
      pm.MarkErrorLink(url);
      return None;
    }
    var replies := ReadReplies(v.pages, parse);
    if replies.Raised? {
      pm.MarkErrorLink(url);
      return None;
    }
    r := Some(Article(v.title.value, timestamp.value, v.content.value, v.author.value.text, v.author.value.href, replies.value));
  }

  // ===========================================================================
  // The content pass

  datatype StoredPost = StoredPost(article: Article, link: string)

  /** One hotel's entry of the results file. */
  datatype HotelPosts = HotelPosts(hotel: string, posts: seq<StoredPost>)

  function PostHotels(hs: seq<HotelPosts>): seq<string> {
    HotelNames(hs, (h: HotelPosts) => h.hotel)
  }

  /** `any(i['hotel'] == hotel for i in new_data)` */
  predicate HasHotel(hs: seq<HotelPosts>, hotel: string) {
    exists i | 0 <= i < |hs| :: hs[i].hotel == hotel
  }

  /** The first entry of the hotel gains the post at its end. */
  function AddPost(hs: seq<HotelPosts>, hotel: string, post: StoredPost): seq<HotelPosts> {
    match PyDict.Find(PostHotels(hs), hotel)
    case None => hs
    case Some(j) => hs[j := hs[j].(posts := hs[j].posts + [post])]
  }

  /** `b` keeps every hotel entry of `a`, in place, and every post of it, in place. */
  predicate Extends(a: seq<HotelPosts>, b: seq<HotelPosts>) {
    |a| <= |b| &&
    forall i | 0 <= i < |a| :: b[i].hotel == a[i].hotel && |a[i].posts| <= |b[i].posts| && b[i].posts[..|a[i].posts|] == a[i].posts
  }

  /** Some stored post carries the link. */
  predicate Saved(hs: seq<HotelPosts>, link: string) {
    exists i, k | 0 <= i < |hs| && 0 <= k < |hs[i].posts| :: hs[i].posts[k].link == link
  }

  predicate DistinctHotels(hs: seq<HotelPosts>) {
    forall i, j | 0 <= i < j < |hs| :: hs[i].hotel != hs[j].hotel
  }

  lemma ExtendsTransitive(a: seq<HotelPosts>, b: seq<HotelPosts>, c: seq<HotelPosts>)
    requires Extends(a, b) && Extends(b, c)
    ensures Extends(a, c)
  {
    forall i | 0 <= i < |a| ensures c[i].posts[..|a[i].posts|] == a[i].posts {
      assert c[i].posts[..|a[i].posts|] == c[i].posts[..|b[i].posts|][..|a[i].posts|];
    }
  }

  lemma SavedExtends(a: seq<HotelPosts>, b: seq<HotelPosts>, link: string)
    requires Extends(a, b) && Saved(a, link)
    ensures Saved(b, link)
  {
    var i, k :| 0 <= i < |a| && 0 <= k < |a[i].posts| && a[i].posts[k].link == link;
    assert b[i].posts[..|a[i].posts|][k] == b[i].posts[k];
  }

  /**
   * Adding a post keeps everything stored, stores the post when the hotel has
   * an entry, and keeps the hotels as they were.
   */
  lemma AddPostEffect(hs: seq<HotelPosts>, hotel: string, post: StoredPost)
    ensures var r := AddPost(hs, hotel, post);
      && Extends(hs, r) && PostHotels(r) == PostHotels(hs)
      && (HasHotel(hs, hotel) ==> Saved(r, post.link))
      && (forall h | HasHotel(hs, h) :: HasHotel(r, h))
      && (DistinctHotels(hs) ==> DistinctHotels(r))
  {
    var r := AddPost(hs, hotel, post);
    match PyDict.Find(PostHotels(hs), hotel)
    case None =>
    case Some(j) =>
      assert r[j].posts[..|hs[j].posts|] == hs[j].posts;
      assert r[j].posts[|hs[j].posts|] == post;
      assert PostHotels(r) == PostHotels(hs);
      forall h | HasHotel(hs, h) ensures HasHotel(r, h) {
        var i :| 0 <= i < |hs| && hs[i].hotel == h;
        assert r[i].hotel == h;
      }
  }

  /** A new empty entry for a hotel not in the file keeps everything stored and keeps the hotels distinct. */
  lemma AddHotelEffect(hs: seq<HotelPosts>, hotel: string)
    requires !HasHotel(hs, hotel)
    ensures var r := hs + [HotelPosts(hotel, [])];
      && Extends(hs, r) && HasHotel(r, hotel) && (forall h | HasHotel(hs, h) :: HasHotel(r, h))
      && (DistinctHotels(hs) ==> DistinctHotels(r))
  {
    var r := hs + [HotelPosts(hotel, [])];
    assert r[|hs|].hotel == hotel;
    forall i | 0 <= i < |hs| ensures r[i].posts[..|hs[i].posts|] == hs[i].posts {
      assert r[i] == hs[i];
    }
    forall h | HasHotel(hs, h) ensures HasHotel(r, h) {
      var i :| 0 <= i < |hs| && hs[i].hotel == h;
      assert r[i].hotel == h;
    }
  }

  /** The results file. */
  class ResultsFile {
    var hotels: seq<HotelPosts>
    /** The contents of the file as last written. */
    ghost var saved: seq<HotelPosts>

    /** The stored results, or none when the file cannot be read. */
    constructor(stored: Option<seq<HotelPosts>>)
      ensures hotels == stored.GetOr([]) && saved == hotels
    {
      hotels := stored.GetOr([]);
      saved := hotels;
    }

    method Save()
      modifies this
      ensures hotels == old(hotels) && saved == hotels
    {
      saved := hotels;
    }

    /** The `for tmp in new_data` loop: the post goes to the first entry of its hotel. */
    method AppendPost(hotel: string, post: StoredPost)
      modifies this
      ensures hotels == AddPost(old(hotels), hotel, post) && saved == old(saved)
    {
      var k := 0;
      while k < |hotels|
        invariant 0 <= k <= |hotels| && hotels == old(hotels)
        invariant forall i | 0 <= i < k :: hotels[i].hotel != hotel
      {
        if hotels[k].hotel == hotel {
          assert PyDict.Find(PostHotels(hotels), hotel) == Some(k);
          hotels := hotels[k := hotels[k].(posts := hotels[k].posts + [post])];
          return;
        }
        k := k + 1;
      }
      assert PyDict.Find(PostHotels(hotels), hotel).None?;
    }
  }

  /** Where the pass starts: the first hotel under a blank cursor, else the cursor's hotel; `|data|` when it names none. */
  function StartIndex(data: seq<HotelLinks>, cursor: string): (j: nat)
    ensures j <= |data| && (cursor == "" ==> j == 0)
    ensures cursor != "" && j < |data| ==> data[j].hotel == cursor && forall h | 0 <= h < j :: data[h].hotel != cursor
    ensures cursor != "" && j == |data| ==> forall h | 0 <= h < |data| :: data[h].hotel != cursor
  {
    if cursor == "" then 0
    else
      match PyDict.Find(LinkHotels(data), cursor)
      case Some(j) => j
      case None => |data|
  }

  /**
   * What the content pass keeps true, from the stored progress `p0` and
   * results `h0` to the current progress `p`, results `hs` and file `saved`,
   * having fetched `fetched`: each fetched link was not skipped at the start
   * and is skipped now, none is fetched twice, no skipped link stops being
   * skipped, a link newly processed has its post in the file, and no stored
   * result is lost.
   */
  ghost predicate Consistent(p0: Progress, h0: seq<HotelPosts>, p: Progress, hs: seq<HotelPosts>, saved: seq<HotelPosts>, fetched: seq<string>) {
    Tracked(p0, p, fetched) && Stored(p0, h0, p, hs, saved)
  }

  /** The progress side: fetched links were new and are skipped now, once each, and skipped links stay skipped. */
  ghost predicate Tracked(p0: Progress, p: Progress, fetched: seq<string>) {
    && (forall k | 0 <= k < |fetched| :: !IsProcessed(p0, fetched[k]) && IsProcessed(p, fetched[k]))
    && NoDup(fetched) && Grows(p0, p)
  }

  /** The results side: newly processed links are in the file, and nothing stored is lost. */
  ghost predicate Stored(p0: Progress, h0: seq<HotelPosts>, p: Progress, hs: seq<HotelPosts>, saved: seq<HotelPosts>) {
    && (forall l | l in p.processedLinks && l !in p0.processedLinks :: Saved(saved, l))
    && Extends(h0, hs) && Extends(saved, hs)
    && (DistinctHotels(h0) ==> DistinctHotels(hs))
  }

  /** One fetch of a link not yet skipped keeps the progress side, whatever the fetch ends in. */
  lemma FetchKeepsTracked(p0: Progress, p: Progress, fetched: seq<string>, link: string, f: Fetch)
    requires Tracked(p0, p, fetched) && !IsProcessed(p, link)
    ensures Tracked(p0, AfterFetch(p, link, f), fetched + [link])
    ensures AfterFetch(p, link, f).currentHotel == p.currentHotel
  {
    var q := AfterFetch(p, link, f);
    AfterFetchEffect(p, link, f);
    var fs := fetched + [link];
    assert link !in fetched;
    forall k | 0 <= k < |fs| ensures !IsProcessed(p0, fs[k]) && IsProcessed(q, fs[k]) {
      if k < |fetched| { assert fs[k] == fetched[k]; }
    }
  }

  /**
   * One fetch keeps the results side: a failed one changes neither the results
   * nor the file and adds no processed link; a successful one adds the post to
   * its hotel, saves, and then marks the link processed.
   */
  lemma FetchKeepsStored(p0: Progress, h0: seq<HotelPosts>, p: Progress, hs: seq<HotelPosts>, saved: seq<HotelPosts>,
                         hotel: string, link: string, f: Fetch)
    requires Stored(p0, h0, p, hs, saved) && HasHotel(hs, hotel)
    ensures var hs' := if f.Fetched? then AddPost(hs, hotel, StoredPost(f.article, link)) else hs;
      && Stored(p0, h0, AfterFetch(p, link, f), hs', if f.Fetched? then hs' else saved)
      && (forall h | HasHotel(hs, h) :: HasHotel(hs', h))
  {
    var q := AfterFetch(p, link, f);
    AfterFetchEffect(p, link, f);
    if f.Fetched? {
      var post := StoredPost(f.article, link);
      var r := AddPost(hs, hotel, post);
      AddPostEffect(hs, hotel, post);
      ExtendsTransitive(h0, hs, r);
      ExtendsTransitive(saved, hs, r);
      forall l | l in q.processedLinks && l !in p0.processedLinks ensures Saved(r, l) {
        if l != link {
          assert l in p.processedLinks;
          SavedExtends(saved, r, l);
        }
      }
    }
  }

  /** Moving the cursor changes no link's standing. */
  lemma CursorKeepsConsistent(p0: Progress, h0: seq<HotelPosts>, p: Progress, hs: seq<HotelPosts>, saved: seq<HotelPosts>,
                              fetched: seq<string>, hotel: string)
    requires Consistent(p0, h0, p, hs, saved, fetched)
    ensures Consistent(p0, h0, p.(currentHotel := hotel), hs, saved, fetched)
  {
    var q := p.(currentHotel := hotel);
    assert forall l :: IsProcessed(q, l) == IsProcessed(p, l);
  }

  /** A new empty entry for a hotel not in the file keeps the results side. */
  lemma AddHotelKeepsStored(p0: Progress, h0: seq<HotelPosts>, p: Progress, hs: seq<HotelPosts>, saved: seq<HotelPosts>, hotel: string)
    requires Stored(p0, h0, p, hs, saved) && !HasHotel(hs, hotel)
    ensures Stored(p0, h0, p, hs + [HotelPosts(hotel, [])], saved)
  {
    AddHotelEffect(hs, hotel);
    ExtendsTransitive(h0, hs, hs + [HotelPosts(hotel, [])]);
    ExtendsTransitive(saved, hs, hs + [HotelPosts(hotel, [])]);
  }

  /**
   * One link the progress manager does not skip: fetch it, and on success
   * store the post under the hotel, save, and mark the link processed.
   */
  method FetchLink(hotel: string, link: string, threads: string -> Thread, parse: Parser,
                   pm: ProgressManager, out: ResultsFile,
                   ghost p0: Progress, ghost h0: seq<HotelPosts>, ghost fetched0: seq<string>)
    requires pm.currentHotel == hotel && HasHotel(out.hotels, hotel) && !IsProcessed(pm.State(), link)
    requires Consistent(p0, h0, pm.State(), out.hotels, out.saved, fetched0)
    modifies pm, out
    ensures Consistent(p0, h0, pm.State(), out.hotels, out.saved, fetched0 + [link])
    ensures pm.currentHotel == hotel && HasHotel(out.hotels, hotel)
    ensures forall h | HasHotel(old(out.hotels), h) :: HasHotel(out.hotels, h)
    ensures Grows(old(pm.State()), pm.State()) && IsProcessed(pm.State(), link)
  {
    ghost var f := ReadThread(threads(link), parse);
    AfterFetchEffect(pm.State(), link, f);
    FetchKeepsTracked(p0, pm.State(), fetched0, link, f);
    FetchKeepsStored(p0, h0, pm.State(), out.hotels, out.saved, hotel, link, f);
    ghost var after := AfterFetch(pm.State(), link, f);
    ghost var hs := if f.Fetched? then AddPost(out.hotels, hotel, StoredPost(f.article, link)) else out.hotels;
    ghost var saved := if f.Fetched? then hs else out.saved;
    var result := GetPageContent(link, threads(link), parse, pm);
    if result.Some? {
      out.AppendPost(hotel, StoredPost(result.value, link));
      out.Save();
      pm.MarkLinkProcessed(link);
    }
    assert pm.State() == after && out.hotels == hs && out.saved == saved;
  }

  /** The link loop of one hotel, whose entry exists and whose name is the cursor. */
  method FetchLinks(hotel: string, links: seq<string>, threads: string -> Thread, parse: Parser,
                    pm: ProgressManager, out: ResultsFile,
                    ghost p0: Progress, ghost h0: seq<HotelPosts>, ghost fetched0: seq<string>)
      returns (ghost fetched: seq<string>)
    requires pm.currentHotel == hotel && HasHotel(out.hotels, hotel)
    requires Consistent(p0, h0, pm.State(), out.hotels, out.saved, fetched0)
    modifies pm, out
    ensures Consistent(p0, h0, pm.State(), out.hotels, out.saved, fetched)
    ensures pm.currentHotel == hotel && |fetched0| <= |fetched| && fetched[..|fetched0|] == fetched0
    ensures forall k | |fetched0| <= k < |fetched| :: fetched[k] in links
    ensures forall h | HasHotel(old(out.hotels), h) :: HasHotel(out.hotels, h)
    ensures Grows(old(pm.State()), pm.State()) && forall l | l in links :: IsProcessed(pm.State(), l)
  {
    fetched := fetched0;
    ghost var start := pm.State();
    var m := 0;
    while m < |links|
      invariant 0 <= m <= |links|
      invariant pm.currentHotel == hotel && HasHotel(out.hotels, hotel)
      invariant Consistent(p0, h0, pm.State(), out.hotels, out.saved, fetched)
      invariant |fetched0| <= |fetched| && fetched[..|fetched0|] == fetched0
      invariant forall k | |fetched0| <= k < |fetched| :: fetched[k] in links
      invariant forall h | HasHotel(old(out.hotels), h) :: HasHotel(out.hotels, h)
      invariant SkipsFrom(start, pm.State(), links, m)
    {
      var link := links[m];
      ghost var before := pm.State();
      if !pm.IsLinkProcessed(link) {
        FetchLink(hotel, link, threads, parse, pm, out, p0, h0, fetched);
        fetched := fetched + [link];
      }
      SkipsStep(start, before, pm.State(), links, m);
      m := m + 1;
    }
    assert links[..m] == links;
  }

  /** From `p0` to `p` no skipped link stopped being skipped, and the first `m` links are all skipped. */
  ghost predicate SkipsFrom(p0: Progress, p: Progress, links: seq<string>, m: nat) {
    m <= |links| && Grows(p0, p) && forall l | l in links[..m] :: IsProcessed(p, l)
  }

  /** A step of the link loop that ends with link `m` skipped extends `SkipsFrom` by one link. */
  lemma SkipsStep(p0: Progress, p: Progress, q: Progress, links: seq<string>, m: nat)
    requires SkipsFrom(p0, p, links, m) && m < |links| && Grows(p, q) && IsProcessed(q, links[m])
    ensures SkipsFrom(p0, q, links, m + 1)
  {
    assert links[..m + 1] == links[..m] + [links[m]];
  }

  /**
   * One turn of the hotel loop: the hotel becomes the cursor, gets an empty
   * entry when the results have none, has each of its links that the progress
   * manager does not skip fetched, and the cursor is cleared.  Afterwards the
   * manager skips every link of the hotel, and every link it skipped before.
   */
  method ProcessHotel(hotel: string, links: seq<string>, threads: string -> Thread, parse: Parser,
                      pm: ProgressManager, out: ResultsFile,
                      ghost p0: Progress, ghost h0: seq<HotelPosts>, ghost fetched0: seq<string>)
      returns (ghost fetched: seq<string>)
    requires Consistent(p0, h0, pm.State(), out.hotels, out.saved, fetched0)
    modifies pm, out
    ensures Consistent(p0, h0, pm.State(), out.hotels, out.saved, fetched)
    ensures pm.currentHotel == "" && |fetched0| <= |fetched| && fetched[..|fetched0|] == fetched0
    ensures forall k | |fetched0| <= k < |fetched| :: fetched[k] in links
    ensures HasHotel(out.hotels, hotel) && forall h | HasHotel(old(out.hotels), h) :: HasHotel(out.hotels, h)
    ensures Grows(old(pm.State()), pm.State()) && forall l | l in links :: IsProcessed(pm.State(), l)
  {
    CursorKeepsConsistent(p0, h0, pm.State(), out.hotels, out.saved, fetched0, hotel);
    ghost var q0 := pm.State();
    pm.SetCurrentHotel(hotel);
    assert forall l :: IsProcessed(pm.State(), l) == IsProcessed(q0, l);
    if !HasHotel(out.hotels, hotel) {
      AddHotelEffect(out.hotels, hotel);
      AddHotelKeepsStored(p0, h0, pm.State(), out.hotels, out.saved, hotel);
      out.hotels := out.hotels + [HotelPosts(hotel, [])];
    }
    fetched := FetchLinks(hotel, links, threads, parse, pm, out, p0, h0, fetched0);
    CursorKeepsConsistent(p0, h0, pm.State(), out.hotels, out.saved, fetched, "");
    ghost var q1 := pm.State();
    pm.SetCurrentHotel("");
    assert forall l :: IsProcessed(pm.State(), l) == IsProcessed(q1, l);
  }

  /** The link is one of the hotels `data[lo..hi]`. */
  ghost predicate OfHotels(data: seq<HotelLinks>, lo: int, hi: int, link: string) {
    exists h | lo <= h < hi && 0 <= h < |data| :: link in data[h].links
  }

  /**
   * `get_all_contents`: from the cursor's hotel on (from the first hotel when
   * the cursor is blank, nowhere when it names no hotel), fetches every link
   * the progress manager does not skip, stores each read post under its
   * hotel, saves, and only then marks the link processed.  `fetched` lists the
   * links fetched, in order.  At the end the manager skips every link of
   * those hotels.
   */
  method GetAllContents(data: seq<HotelLinks>, storedProgress: Option<Progress>, storedResults: Option<seq<HotelPosts>>,
                        threads: string -> Thread, now: int, cal: Calendar)
      returns (pm: ProgressManager, out: ResultsFile, ghost fetched: seq<string>)
    ensures fresh(pm) && fresh(out)
    ensures Consistent(storedProgress.GetOr(Default), storedResults.GetOr([]), pm.State(), out.hotels, out.saved, fetched)
    ensures var p0 := storedProgress.GetOr(Default); var j := StartIndex(data, p0.currentHotel);
      && (forall k | 0 <= k < |fetched| :: OfHotels(data, j, |data|, fetched[k]))
      && (forall h | j <= h < |data| :: HasHotel(out.hotels, data[h].hotel))
      && (forall h, l | j <= h < |data| && l in data[h].links :: IsProcessed(pm.State(), l))
      && pm.currentHotel == (if j < |data| then "" else p0.currentHotel)
      && (j == |data| ==> pm.State() == p0 && out.hotels == storedResults.GetOr([]) && fetched == [])
  {
    pm := new ProgressManager(storedProgress);
    out := new ResultsFile(storedResults);
    var parse := FlyertParser(now, cal);
    ghost var p0 := pm.State();
    ghost var h0 := out.hotels;
    ghost var j0 := StartIndex(data, p0.currentHotel);
    fetched := [];
    var startFromHotel := pm.GetCurrentHotel() == "";
    var i := 0;
    while i < |data|
      invariant 0 <= i <= |data|
      invariant ContentsLoop(data, j0, i, startFromHotel, p0, h0, pm.State(), out.hotels, out.saved, fetched)
    {
      var hotel := data[i].hotel;
      if !startFromHotel && hotel != pm.GetCurrentHotel() {
        SkipHotel(data, j0, i, p0, h0, pm.State(), out.hotels, out.saved, fetched);
        i := i + 1;
        continue;
      }
      assert j0 <= i;
      startFromHotel := true;
      fetched := HotelTurn(data, i, j0, threads, parse, pm, out, p0, h0, fetched);
      TurnHotel(data, j0, i, p0, h0, pm.State(), out.hotels, out.saved, fetched);
      i := i + 1;
    }
  }

  /**
   * The hotel loop after `i` hotels, `started` once the start hotel `data[j0]`
   * is reached: nothing changed before it, the cursor is blank after it, and
   * the run's invariant and `HotelsDone` hold.
   */
  ghost predicate ContentsLoop(data: seq<HotelLinks>, j0: int, i: int, started: bool, p0: Progress, h0: seq<HotelPosts>,
                               p: Progress, hs: seq<HotelPosts>, saved: seq<HotelPosts>, fetched: seq<string>) {
    && j0 == StartIndex(data, p0.currentHotel)
    && (started <==> (p0.currentHotel == "" || j0 < i))
    && (i <= j0 ==> p == p0 && hs == h0 && saved == h0 && fetched == [])
    && (started ==> p.currentHotel == "")
    && Consistent(p0, h0, p, hs, saved, fetched)
    && HotelsDone(data, j0, i, fetched, hs, p)
  }

  /** Passing over a hotel before the start hotel keeps the loop's invariant. */
  lemma SkipHotel(data: seq<HotelLinks>, j0: int, i: int, p0: Progress, h0: seq<HotelPosts>,
                  p: Progress, hs: seq<HotelPosts>, saved: seq<HotelPosts>, fetched: seq<string>)
    requires 0 <= i < |data| && ContentsLoop(data, j0, i, false, p0, h0, p, hs, saved, fetched)
    requires data[i].hotel != p.currentHotel
    ensures ContentsLoop(data, j0, i + 1, false, p0, h0, p, hs, saved, fetched)
  {
  }

  /** A turn over a hotel from the start hotel on keeps the loop's invariant. */
  lemma TurnHotel(data: seq<HotelLinks>, j0: int, i: int, p0: Progress, h0: seq<HotelPosts>,
                  p: Progress, hs: seq<HotelPosts>, saved: seq<HotelPosts>, fetched: seq<string>)
    requires j0 == StartIndex(data, p0.currentHotel) && j0 <= i < |data| && p.currentHotel == ""
    requires Consistent(p0, h0, p, hs, saved, fetched) && HotelsDone(data, j0, i + 1, fetched, hs, p)
    ensures ContentsLoop(data, j0, i + 1, true, p0, h0, p, hs, saved, fetched)
  {
  }

  /** A turn of the hotel loop over `data[i]`, from the start hotel `data[j0]` on. */
  method HotelTurn(data: seq<HotelLinks>, i: nat, ghost j0: nat, threads: string -> Thread, parse: Parser,
                   pm: ProgressManager, out: ResultsFile,
                   ghost p0: Progress, ghost h0: seq<HotelPosts>, ghost fetched0: seq<string>)
      returns (ghost fetched: seq<string>)
    requires j0 <= i < |data|
    requires Consistent(p0, h0, pm.State(), out.hotels, out.saved, fetched0)
    requires HotelsDone(data, j0, i, fetched0, out.hotels, pm.State())
    modifies pm, out
    ensures Consistent(p0, h0, pm.State(), out.hotels, out.saved, fetched)
    ensures HotelsDone(data, j0, i + 1, fetched, out.hotels, pm.State()) && pm.currentHotel == ""
  {
    ghost var hs0, ps0 := out.hotels, pm.State();
    fetched := ProcessHotel(data[i].hotel, data[i].links, threads, parse, pm, out, p0, h0, fetched0);
    HotelDone(data, j0, i, fetched0, hs0, ps0, fetched, out.hotels, pm.State());
  }

  /**
   * The hotels `data[lo..hi]` are done: every link fetched is one of theirs,
   * each has an entry in the results, and each of their links is skipped.
   */
  ghost predicate HotelsDone(data: seq<HotelLinks>, lo: int, hi: int, fetched: seq<string>, hs: seq<HotelPosts>, p: Progress) {
    && (forall k | 0 <= k < |fetched| :: OfHotels(data, lo, hi, fetched[k]))
    && (forall h | lo <= h < hi && 0 <= h < |data| :: HasHotel(hs, data[h].hotel))
    && (forall h, l | lo <= h < hi && 0 <= h < |data| && l in data[h].links :: IsProcessed(p, l))
  }

  /** One more turn of the hotel loop, over hotel `i`, extends `HotelsDone` by that hotel. */
  lemma HotelDone(data: seq<HotelLinks>, lo: int, i: int, fetched0: seq<string>, hs0: seq<HotelPosts>, p0: Progress,
                  fetched: seq<string>, hs: seq<HotelPosts>, p: Progress)
    requires 0 <= lo <= i < |data| && HotelsDone(data, lo, i, fetched0, hs0, p0)
    requires |fetched0| <= |fetched| && fetched[..|fetched0|] == fetched0
    requires forall k | |fetched0| <= k < |fetched| :: fetched[k] in data[i].links
    requires HasHotel(hs, data[i].hotel) && forall h | HasHotel(hs0, h) :: HasHotel(hs, h)
    requires Grows(p0, p) && forall l | l in data[i].links :: IsProcessed(p, l)
    ensures HotelsDone(data, lo, i + 1, fetched, hs, p)
  {
    forall k | 0 <= k < |fetched| ensures OfHotels(data, lo, i + 1, fetched[k]) {
      if k < |fetched0| {
        assert fetched[k] == fetched0[k];
        var h :| lo <= h < i && 0 <= h < |data| && fetched[k] in data[h].links;
      } else {
        assert fetched[k] in data[i].links;
      }
    }
    forall h | lo <= h < i + 1 ensures HasHotel(hs, data[h].hotel) {
      if h < i { assert HasHotel(hs0, data[h].hotel); }
    }
    forall h, l | lo <= h < i + 1 && l in data[h].links ensures IsProcessed(p, l) {
      if h < i { assert IsProcessed(p0, l); }
    }
  }
}
