/**
 * The Autohome page readers.  `GetPostDetailLinks` collects the post links of
 * one forum listing page, normalising relative hrefs against the site's base
 * URL, inside a retry loop; `GetPostDetail` reads one post: its author, time,
 * title and paragraphs, composed into one content text, and its replies
 * paired with their times.  The browser is an oracle: each page is a value
 * saying what its elements show.
 */
module AutohomeScraper {
  import opened Wrappers
  import opened Text
  import opened Clock
  import opened AutohomeTime

  const BaseUrl: string := "https://club.autohome.com.cn"
  const MaxRetries: nat := 3

  // ===========================================================================
  // Listing pages

  /** A post-list item: its title anchor (None when looking it up raises) and the anchor's href (None when it has none). */
  datatype ListItem = ListItem(anchor: Option<Option<string>>)

  /**
   * A listing page: whether it loaded (the body appeared and scrolling worked),
   * and what each attempt to look up the list items gives (None: the wait
   * timed out); attempts past the end of `lookups` time out too.
   */
  datatype LinksPage = LinksPage(loaded: bool, lookups: seq<Option<seq<ListItem>>>)

  function Lookup(p: LinksPage, attempt: nat): Option<seq<ListItem>> {
    if attempt < |p.lookups| then p.lookups[attempt] else None
  }

  /** A relative href gets the base URL in front; one starting with "http" is kept. */
  function Normalize(href: string): (r: string)
    ensures StartsWith(href, "http") ==> r == href
    ensures !StartsWith(href, "http") ==> r == BaseUrl + href
  {
    if StartsWith(href, "http") then href else BaseUrl + href
  }

  /** The link an item contributes: none for a failed lookup, a missing or an empty href. */
  function ItemLink(it: ListItem): seq<string> {
    match it.anchor
    case Some(Some(h)) => if h != "" then [Normalize(h)] else []
    case _ => []
  }

  /** The links of the items, in item order. */
  function ItemLinks(items: seq<ListItem>): seq<string>
    decreases |items|
  {
    if items == [] then [] else ItemLinks(items[..|items| - 1]) + ItemLink(items[|items| - 1])
  }

  /**
   * What `get_post_detail_links` returns.  The retry handler calls
   * `random.uniform`, and `random` is not imported by the scraper, so the
   * first timed-out lookup raises a NameError out of the loop; the outer
   * handler swallows it and `finally` returns the links gathered so far,
   * which are none.
   */
  function DetailLinks(p: LinksPage): seq<string> {
    if !p.loaded then []
    else
      match Lookup(p, 0)
      case None => []
      case Some(items) => ItemLinks(items)
  }

  /** The loop over the list items. */
  method CollectLinks(items: seq<ListItem>) returns (links: seq<string>)
    ensures links == ItemLinks(items)
  {
    links := [];
    for k := 0 to |items|
      invariant links == ItemLinks(items[..k])
    {
      assert items[..k + 1][..k] == items[..k];
      var it := items[k];
      match it.anchor {
        case Some(Some(href)) =>
          if href != "" {
            var h := href;
            if !StartsWith(h, "http") {
              h := BaseUrl + h;
            }
            links := links + [h];
          }
        case _ =>
      }
    }
    assert items[..|items|] == items;
  }

  /**
   * `get_post_detail_links`.  `tries` counts the lookups made: at most
   * `MaxRetries`, and as written never more than one.
   */
  method GetPostDetailLinks(p: LinksPage) returns (links: seq<string>, ghost tries: nat)
    ensures links == DetailLinks(p)
    ensures tries <= MaxRetries && tries == if p.loaded then 1 else 0
  {
    links := [];
    tries := 0;
    if !p.loaded {
      return;
    }
    var retries := 0;
    var stop := false;
    while retries < MaxRetries && !stop
      invariant retries <= 1 && (!stop ==> retries == 0 && tries == 0 && links == [])
      invariant stop ==> tries == 1 && links == DetailLinks(p)
      decreases MaxRetries - retries, if stop then 0 else 1
    {
      tries := tries + 1;
      var found := Lookup(p, retries);
      if found.None? {
        retries := retries + 1;
        // The handler's `time.sleep(random.uniform(1, 3))` raises a NameError
        // here, which leaves the loop for the outer handler.
        stop := true;
      } else {
        if found.value != [] {
          links := CollectLinks(found.value);
        }
        stop := true;
      }
    }
  }

  // ---------------------------------------------------------------------------
  // Properties of the listing reader

  /** Collecting is order-preserving: the links of two runs of items are the links of each, one after the other. */
  lemma {:induction false} ItemLinksConcat(a: seq<ListItem>, b: seq<ListItem>)
    ensures ItemLinks(a + b) == ItemLinks(a) + ItemLinks(b)
    decreases |b|
  {
    if b == [] {
      assert a + b == a;
    } else {
      var c := b[..|b| - 1];
      var ab := a + b;
      assert ab[..|ab| - 1] == a + c && ab[|ab| - 1] == b[|b| - 1];
      assert ItemLinks(ab) == ItemLinks(a + c) + ItemLink(b[|b| - 1]);
      ItemLinksConcat(a, c);
      assert ItemLinks(b) == ItemLinks(c) + ItemLink(b[|b| - 1]);
    }
  }

  /** Every link comes from an item with a non-empty href, normalised, and begins with "http"; there are no more links than items. */
  lemma {:induction false} ItemLinksFromItems(items: seq<ListItem>)
    ensures |ItemLinks(items)| <= |items|
    ensures forall l | l in ItemLinks(items) ::
      StartsWith(l, "http") && exists i, h | 0 <= i < |items| && items[i].anchor == Some(Some(h)) :: h != "" && l == Normalize(h)
    decreases |items|
  {
    if items != [] {
      var init := items[..|items| - 1];
      ItemLinksFromItems(init);
      var last := items[|items| - 1];
      forall l | l in ItemLinks(items)
        ensures StartsWith(l, "http") && exists i, h | 0 <= i < |items| && items[i].anchor == Some(Some(h)) :: h != "" && l == Normalize(h)
      {
        if l in ItemLinks(init) {
          var i, h :| 0 <= i < |init| && init[i].anchor == Some(Some(h)) && h != "" && l == Normalize(h);
          assert items[i] == init[i];
        } else {
          assert l in ItemLink(last);
          var h := last.anchor.value.value;
          NormalizeStartsHttp(h);
          assert items[|items| - 1].anchor == Some(Some(h));
        }
      }
    }
  }

  /** Normalised links begin with "http", so normalising twice is normalising once. */
  lemma NormalizeStartsHttp(h: string)
    ensures StartsWith(Normalize(h), "http")
    ensures Normalize(Normalize(h)) == Normalize(h)
  {
    if !StartsWith(h, "http") {
      assert (BaseUrl + h)[..4] == BaseUrl[..4] == "http";
    }
  }

  // ===========================================================================
  // Post pages

  const NoUser: string := "无用户名"
  const NoTime: string := "无时间戳"
  const NoTitle: string := "无标题"
  const NoContent: string := "无内容"
  const NoContentOrTitle: string := "无内容或标题"

  /**
   * A post page: whether it loaded, the texts of the author, time and title
   * elements (None when missing), the texts of the paragraphs, and the texts
   * of the reply elements and of the reply time elements.
   */
  datatype PostPage = PostPage(loaded: bool, userName: Option<string>, publishTime: Option<string>, title: Option<string>,
                               paragraphs: seq<string>, replyTexts: seq<string>, replyTimes: seq<string>)

  datatype Reply = Reply(content: string, timestamp: Stamp)

  datatype Post = Post(url: string, timestamp: Stamp, username: string, content: string, replies: seq<Reply>)

  /** An element's stripped text, or the placeholder when it is missing. */
  function TextOr(e: Option<string>, placeholder: string): string {
    match e
    case Some(t) => Strip(t)
    case None => placeholder
  }

  /** The paragraphs' stripped texts joined by newlines, or the placeholder when there are none. */
  function Paragraphs(ps: seq<string>): string {
    if ps == [] then NoContent else Join(StripAll(ps), "\n")
  }

  /** The conditional expression that composes `full_content`. */
  function FullContent(title: string, content: string): string {
    if title != "" && content != NoContent then title + "\n" + content
    else if content != NoContent then content
    else title
  }

  /** `full_content` after the two corrections that follow the expression. */
  function Composed(title: string, content: string): string {
    var f := FullContent(title, content);
    if f == NoContent && title == NoTitle then NoContentOrTitle
    else if f == NoContent && title != NoTitle then title
    else f
  }

  function AutohomeReader(now: int, cal: Calendar): Reader {
    t => ToTimestamp(t, now, cal)
  }

  /**
   * The reply loop over the first `k` pairs of stripped texts: each pair's
   * time is read, and the pair is kept when its content is not empty; an exception from reading a
   * time ends the loop.
   */
  function Replies(texts: seq<string>, times: seq<string>, k: nat, read: Reader): Outcome<seq<Reply>>
    requires k <= |texts| && k <= |times|
  {
    if k == 0 then Done([])
    else
      match Replies(texts, times, k - 1, read)
      case Raised => Raised
      case Done(rs) =>
        var c := texts[k - 1];
        match read(times[k - 1])
        case Raised => Raised
        case Done(t) => Done(if c != "" then rs + [Reply(c, t)] else rs)
  }

  /**
   * What `get_post_detail` returns.  Nothing for a page that fails to load, a
   * post time that raises, or no usable content.  Once the record exists,
   * `finally` returns it even when reading a reply time raises, and then it
   * has no replies.
   */
  function PostDetail(url: string, v: PostPage, read: Reader): Option<Post> {
    if !v.loaded then None
    else
      var username := TextOr(v.userName, NoUser);
      match read(TextOr(v.publishTime, NoTime))
      case Raised => None
      case Done(ts) =>
        var full := Composed(TextOr(v.title, NoTitle), Paragraphs(v.paragraphs));
        if full == "" || full == NoContentOrTitle then None
        else
          var post := Post(url, ts, username, full, []);
          match Replies(StripAll(v.replyTexts), StripAll(v.replyTimes), Min(|v.replyTexts|, |v.replyTimes|), read)
          case Raised => Some(post)
          case Done(rs) => Some(post.(replies := rs))
  }

  /** The reply loop of `get_post_detail`, over the stripped texts of the reply and time elements. */
  method ReadReplies(contents: seq<string>, stamps: seq<string>, read: Reader) returns (r: Outcome<seq<Reply>>)
    ensures r == Replies(contents, stamps, Min(|contents|, |stamps|), read)
  {
    var n := Min(|contents|, |stamps|);
    var replies: seq<Reply> := [];
    for i := 0 to n
      invariant Replies(contents, stamps, i, read) == Done(replies)
    {
      var content := contents[i];
      var time := read(stamps[i]);
      if time.Raised? {
        RaisedPersists(contents, stamps, i + 1, n, read);
        return Raised;
      }
      if content != "" {
        replies := replies + [Reply(content, time.value)];
      }
    }
    r := Done(replies);
  }

  /** `get_post_detail` */
  method GetPostDetail(url: string, v: PostPage, read: Reader) returns (r: Option<Post>)
    ensures r == PostDetail(url, v, read)
  {
    if !v.loaded {
      return None;
    }
    var username := TextOr(v.userName, NoUser);
    var timestamp := read(TextOr(v.publishTime, NoTime));
    if timestamp.Raised? {
      return None;
    }
    var title := TextOr(v.title, NoTitle);
    var content := Paragraphs(v.paragraphs);
    var full := FullContent(title, content);
    if full == NoContent && title == NoTitle {
      full := NoContentOrTitle;
    } else if full == NoContent && title != NoTitle {
      full := title;
    }
    if full == "" || full == NoContentOrTitle {
      return None;
    }
    r := Some(Post(url, timestamp.value, username, full, []));
    var replies := ReadReplies(StripAll(v.replyTexts), StripAll(v.replyTimes), read);
    if replies.Done? {
      r := Some(r.value.(replies := replies.value));
    }
  }

  // ---------------------------------------------------------------------------
  // Properties of the post reader

  /** Once the loop has raised, later pairs do not matter. */
  lemma {:induction false} RaisedPersists(texts: seq<string>, times: seq<string>, k: nat, n: nat, read: Reader)
    requires k <= n <= |texts| && n <= |times| && Replies(texts, times, k, read).Raised?
    ensures Replies(texts, times, n, read).Raised?
    decreases n - k
  {
    if k < n {
      RaisedPersists(texts, times, k + 1, n, read);
    }
  }

  /** The indices of the first `k` pairs whose content is not empty, in order. */
  function Kept(texts: seq<string>, k: nat): seq<nat>
    requires k <= |texts|
  {
    if k == 0 then [] else Kept(texts, k - 1) + (if texts[k - 1] != "" then [k - 1] else [])
  }

  predicate TimeOk(times: seq<string>, i: nat, read: Reader)
    requires i < |times|
  {
    read(times[i]).Done?
  }

  /** `Kept` lists, in ascending order, indices below `k` whose content is not empty. */
  lemma {:induction false} KeptSound(texts: seq<string>, k: nat)
    requires k <= |texts|
    ensures var ix := Kept(texts, k);
      && |ix| <= k
      && (forall j | 0 <= j < |ix| :: ix[j] < k && texts[ix[j]] != "")
      && (forall j, j' | 0 <= j < j' < |ix| :: ix[j] < ix[j'])
  {
    if k > 0 {
      KeptSound(texts, k - 1);
      var prev := Kept(texts, k - 1);
      if texts[k - 1] != "" {
        var ix := prev + [k - 1];
        assert Kept(texts, k) == ix;
        assert forall j | 0 <= j < |prev| :: ix[j] == prev[j];
      }
    }
  }

  /** Every index below `k` whose content is not empty is listed by `Kept`. */
  lemma {:induction false} KeptComplete(texts: seq<string>, k: nat)
    requires k <= |texts|
    ensures forall i | 0 <= i < k && texts[i] != "" :: i in Kept(texts, k)
  {
    if k > 0 {
      KeptComplete(texts, k - 1);
      var prev := Kept(texts, k - 1);
      assert forall i | i in prev :: i in Kept(texts, k);
    }
  }

  /**
   * Reply pairing: the loop raises exactly when some time among the first `k`
   * pairs raises; otherwise reply `j` pairs the content and the time of the
   * `j`-th pair with non-empty content (see `KeptSound` and `KeptComplete`).
   */
  lemma {:induction false} RepliesPairUp(texts: seq<string>, times: seq<string>, k: nat, read: Reader)
    requires k <= |texts| && k <= |times|
    ensures var r := Replies(texts, times, k, read);
      r.Raised? <==> exists i | 0 <= i < k :: !TimeOk(times, i, read)
    ensures var r := Replies(texts, times, k, read); var ix := Kept(texts, k);
      r.Done? ==>
        && |r.value| == |ix|
        && (forall j | 0 <= j < |ix| :: ix[j] < k && r.value[j].content == texts[ix[j]] && read(times[ix[j]]) == Done(r.value[j].timestamp))
  {
    if k > 0 {
      RepliesPairUp(texts, times, k - 1, read);
      var r := Replies(texts, times, k, read);
      var prev := Replies(texts, times, k - 1, read);
      if prev.Raised? {
        var i :| 0 <= i < k - 1 && !TimeOk(times, i, read);
        assert 0 <= i < k;
      } else if !TimeOk(times, k - 1, read) {
        assert r.Raised?;
      } else {
        assert forall i | 0 <= i < k - 1 :: TimeOk(times, i, read);
        assert forall i | 0 <= i < k :: TimeOk(times, i, read);
      }
    }
  }

  /** The content is composed from the title and the paragraphs in the three ways the expression allows, and the corrections after it never apply. */
  lemma ComposedCases(title: string, content: string)
    ensures Composed(title, content) == FullContent(title, content)
    ensures title != "" && content != NoContent ==> Composed(title, content) == title + "\n" + content
    ensures title == "" ==> Composed(title, content) == if content != NoContent then content else ""
    ensures content == NoContent ==> Composed(title, content) == title
  {
    var f := FullContent(title, content);
    if title != "" && content != NoContent {
      var n := |title|;
      assert f[n] == '\n';
      assert f != NoContent by {
        if |f| == |NoContent| {
          assert forall i | 0 <= i < |NoContent| :: NoContent[i] != '\n';
        }
      }
    }
  }

  /**
   * A post is returned only with usable content, for the URL asked for, with
   * the author's name or its placeholder, the post time as read, and with
   * either no replies or the paired replies.
   */
  lemma PostDetailShape(url: string, v: PostPage, read: Reader)
    ensures var r := PostDetail(url, v, read);
      r.Some? ==>
        && v.loaded && r.value.url == url && r.value.content != "" && r.value.content != NoContentOrTitle
        && r.value.content == FullContent(TextOr(v.title, NoTitle), Paragraphs(v.paragraphs))
        && r.value.username == TextOr(v.userName, NoUser)
        && read(TextOr(v.publishTime, NoTime)) == Done(r.value.timestamp)
        && var rs := Replies(StripAll(v.replyTexts), StripAll(v.replyTimes), Min(|v.replyTexts|, |v.replyTimes|), read);
           r.value.replies == if rs.Done? then rs.value else []
  {
    var title, content := TextOr(v.title, NoTitle), Paragraphs(v.paragraphs);
    ComposedCases(title, content);
    var r := PostDetail(url, v, read);
    if r.Some? {
      var ts := read(TextOr(v.publishTime, NoTime));
      assert ts.Done?;
      var full := Composed(title, content);
      var post := Post(url, ts.value, TextOr(v.userName, NoUser), full, []);
      var rs := Replies(StripAll(v.replyTexts), StripAll(v.replyTimes), Min(|v.replyTexts|, |v.replyTimes|), read);
      assert r.value == if rs.Done? then post.(replies := rs.value) else post;
    }
  }

  /** No post comes back exactly when the page fails to load, its time raises, or the composed content is empty or the placeholder. */
  lemma PostDetailNone(url: string, v: PostPage, read: Reader)
    ensures PostDetail(url, v, read).None? <==>
      || !v.loaded
      || read(TextOr(v.publishTime, NoTime)).Raised?
      || Composed(TextOr(v.title, NoTitle), Paragraphs(v.paragraphs)) == ""
      || Composed(TextOr(v.title, NoTitle), Paragraphs(v.paragraphs)) == NoContentOrTitle
  {
  }
}
