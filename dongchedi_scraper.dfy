/**
 * The Dongchedi page readers.  `GetPostsOnPage` reads one community listing
 * page: every anchor to an article whose enclosing section shows a content
 * text becomes a post record, with the site's base URL put before its href;
 * `GetRepliesForPost` pairs the reply texts of a post page with their times,
 * as `zip` does.  The browser is an oracle: each page is a value saying what
 * its elements show.  Both readers return what they collected before an
 * exception, since their `finally` clauses return it.
 */
module DongchediScraper {
  import opened Wrappers
  import opened Text
  import opened Clock
  import opened DongchediTime

  const BaseUrl: string := "https://www.dongchedi.com"
  /** The href fragment that marks a post link. */
  const ArticleMark: string := "/ugc/article/"
  const NoUser: string := "无用户名"
  const NoTime: string := "无时间戳"

  /** The section around an anchor: the texts of its content, user name and time elements (None when missing). */
  datatype Section = Section(content: Option<string>, username: Option<string>, timestamp: Option<string>)

  /** An anchor the listing selector matches: its href (None when absent) and its enclosing section (None when there is none). */
  datatype Anchor = Anchor(href: Option<string>, section: Option<Section>)

  /** A listing page: whether it loaded (the body appeared and scrolling worked), and its anchors in document order. */
  datatype ListingPage = ListingPage(loaded: bool, anchors: seq<Anchor>)

  /** A post page: whether it loaded, and the texts of its reply elements and of its reply time elements. */
  datatype ReplyPage = ReplyPage(loaded: bool, replyTexts: seq<string>, replyTimes: seq<string>)

  datatype Reply = Reply(content: string, timestamp: Stamp)

  datatype Post = Post(url: string, timestamp: Stamp, username: string, content: string, replies: seq<Reply>)

  /** What a loop collected, and whether an exception stopped it. */
  datatype Partial<T> = Partial(items: seq<T>, stopped: bool)

  /** The crawler's time reader: `parse_time_string` with the clock and calendar fixed. */
  function DongchediReader(now: int, cal: Calendar): Reader {
    t => ParseTimeString(t, now, cal)
  }

  /** An element's stripped text, or the placeholder when it is missing. */
  function TextOr(e: Option<string>, placeholder: string): string {
    match e
    case Some(t) => Strip(t)
    case None => placeholder
  }

  // ===========================================================================
  // Listing pages

  /**
   * One anchor of the listing loop: a post record, nothing, or the exception
   * from parsing its section's time, which is parsed before the content is
   * looked at.  A record needs an article href, a section, and a content text
   * that is not empty once stripped; its URL is the base URL before the href,
   * its user name defaults to a placeholder, and it has no replies.
   */
  function AnchorPost(a: Anchor, read: Reader): (r: Outcome<Option<Post>>)
    ensures r.Done? && r.value.Some? ==>
      && a.href.Some? && Contains(a.href.value, ArticleMark) && a.section.Some?
      && a.section.value.content.Some? && r.value.value.content == Strip(a.section.value.content.value) != ""
      && r.value.value.url == BaseUrl + a.href.value && r.value.value.replies == []
      && r.value.value.username == TextOr(a.section.value.username, NoUser)
      && read(TextOr(a.section.value.timestamp, NoTime)) == Done(r.value.value.timestamp)
    ensures r.Raised? ==>
      a.href.Some? && Contains(a.href.value, ArticleMark) && a.section.Some?
      && read(TextOr(a.section.value.timestamp, NoTime)).Raised?
  {
    if a.href.None? || a.section.None? || a.href.value == "" || !Contains(a.href.value, ArticleMark) then Done(None)
    else
      var link, sec := a.href.value, a.section.value;
      var username := TextOr(sec.username, NoUser);
      match read(TextOr(sec.timestamp, NoTime))
      case Raised => Raised
      case Done(ts) =>
        if sec.content.Some? && Strip(sec.content.value) != "" then Done(Some(Post(BaseUrl + link, ts, username, Strip(sec.content.value), [])))
        else Done(None)
  }

  /** The listing loop over the anchors: records in anchor order, until a time raises. */
  function Posts(anchors: seq<Anchor>, read: Reader): Partial<Post>
    decreases |anchors|
  {
    if anchors == [] then Partial([], false)
    else
      var r := Posts(anchors[..|anchors| - 1], read);
      if r.stopped then r
      else
        match AnchorPost(anchors[|anchors| - 1], read)
        case Raised => r.(stopped := true)
        case Done(None) => r
        case Done(Some(p)) => r.(items := r.items + [p])
  }

  /** What `get_posts_on_page` returns: nothing for a page that fails to load, else the records collected. */
  function PostsOnPage(p: ListingPage, read: Reader): seq<Post> {
    if !p.loaded then [] else Posts(p.anchors, read).items
  }

  /** One anchor of `get_posts_on_page`'s loop: its record, nothing, or the time parser's exception. */
  method ReadAnchor(a: Anchor, read: Reader) returns (r: Outcome<Option<Post>>)
    ensures r == AnchorPost(a, read)
  {
    if a.href.None? || a.section.None? || a.href.value == "" || !Contains(a.href.value, ArticleMark) {
      return Done(None);
    }
    var sec := a.section.value;
    var content := if sec.content.Some? then Some(Strip(sec.content.value)) else None;
    var username := TextOr(sec.username, NoUser);
    var timestamp := read(TextOr(sec.timestamp, NoTime));
    if timestamp.Raised? {
      return Raised;
    }
    r := Done(None);
    if content.Some? && content.value != "" {
      r := Done(Some(Post(BaseUrl + a.href.value, timestamp.value, username, content.value, [])));
    }
  }

  /** The listing loop after one more anchor. */
  lemma PostsNext(anchors: seq<Anchor>, i: nat, read: Reader)
    requires i < |anchors| && !Posts(anchors[..i], read).stopped
    ensures var r := Posts(anchors[..i], read);
      Posts(anchors[..i + 1], read) ==
        match AnchorPost(anchors[i], read)
        case Raised => r.(stopped := true)
        case Done(None) => r
        case Done(Some(p)) => r.(items := r.items + [p])
  {
    assert anchors[..i + 1][..i] == anchors[..i];
  }

  /** `get_posts_on_page` */
  method GetPostsOnPage(p: ListingPage, read: Reader) returns (posts: seq<Post>)
    ensures posts == PostsOnPage(p, read)
  {
    posts := [];
    if !p.loaded {
      return;
    }
    var i := 0;
    while i < |p.anchors|
      invariant 0 <= i <= |p.anchors|
      invariant Posts(p.anchors[..i], read) == Partial(posts, false)
    {
      var made := ReadAnchor(p.anchors[i], read);
      PostsNext(p.anchors, i, read);
      if made.Raised? {
        PostsStayStopped(p.anchors, i + 1, read);
        return;
      }
      if made.value.Some? {
        posts := posts + [made.value.value];
      }
      i := i + 1;
    }
    assert p.anchors[..i] == p.anchors;
  }

  /** Once the listing loop has stopped, later anchors do not matter. */
  lemma {:induction false} PostsStayStopped(anchors: seq<Anchor>, k: nat, read: Reader)
    requires k <= |anchors| && Posts(anchors[..k], read).stopped
    ensures Posts(anchors, read) == Posts(anchors[..k], read)
    decreases |anchors|
  {
    if k < |anchors| {
      assert anchors[..|anchors| - 1][..k] == anchors[..k];
      PostsStayStopped(anchors[..|anchors| - 1], k, read);
    } else {
      assert anchors[..k] == anchors;
    }
  }

  /** The indices of the anchors the listing loop made records of. */
  function Sources(anchors: seq<Anchor>, read: Reader): seq<nat>
    decreases |anchors|
  {
    if anchors == [] then []
    else
      var ix := Sources(anchors[..|anchors| - 1], read);
      if Posts(anchors[..|anchors| - 1], read).stopped then ix
      else
        match AnchorPost(anchors[|anchors| - 1], read)
        case Done(Some(_)) => ix + [|anchors| - 1]
        case _ => ix
  }

  /** The record, if any, that the listing loop makes of an anchor. */
  function Maker(read: Reader): Anchor -> Outcome<Option<Post>> {
    a => AnchorPost(a, read)
  }

  /**
   * Record `j` of `items` is what `make` gives for anchor `ix[j]` of
   * `anchors`, and the indices strictly increase.
   */
  predicate Sourced(anchors: seq<Anchor>, make: Anchor -> Outcome<Option<Post>>, items: seq<Post>, ix: seq<nat>) {
    && |ix| == |items|
    && (forall j | 0 <= j < |ix| :: ix[j] < |anchors| && make(anchors[ix[j]]) == Done(Some(items[j])))
    && (forall j, j' | 0 <= j < j' < |ix| :: ix[j] < ix[j'])
  }

  /** An anchor appended after the sources keeps them. */
  lemma SourcedGrow(init: seq<Anchor>, anchors: seq<Anchor>, make: Anchor -> Outcome<Option<Post>>, items: seq<Post>, ix: seq<nat>)
    requires anchors != [] && init == anchors[..|anchors| - 1] && Sourced(init, make, items, ix)
    ensures Sourced(anchors, make, items, ix)
  {
    forall j | 0 <= j < |ix| ensures anchors[ix[j]] == init[ix[j]] { }
  }

  /** A record made from the appended anchor extends the sources by that anchor. */
  lemma SourcedAppend(init: seq<Anchor>, anchors: seq<Anchor>, make: Anchor -> Outcome<Option<Post>>, items: seq<Post>, ix: seq<nat>, p: Post)
    requires anchors != [] && init == anchors[..|anchors| - 1] && Sourced(init, make, items, ix)
    requires make(anchors[|anchors| - 1]) == Done(Some(p))
    ensures Sourced(anchors, make, items + [p], ix + [|anchors| - 1])
  {
    SourcedGrow(init, anchors, make, items, ix);
    var last := |anchors| - 1;
    var ix', items' := ix + [last], items + [p];
    forall j | 0 <= j < |ix'| ensures ix'[j] < |anchors| && make(anchors[ix'[j]]) == Done(Some(items'[j])) {
      if j < |ix| {
        assert ix'[j] == ix[j] && items'[j] == items[j];
      } else {
        assert ix'[j] == last && items'[j] == p;
      }
    }
    IncreasingAppend(ix, last);
  }

  /** Each record comes from an anchor, in anchor order, each anchor at most once. */
  lemma {:induction false} PostsFromAnchors(anchors: seq<Anchor>, read: Reader)
    ensures Sourced(anchors, Maker(read), Posts(anchors, read).items, Sources(anchors, read))
    decreases |anchors|
  {
    if anchors != [] {
      var init := anchors[..|anchors| - 1];
      PostsFromAnchors(init, read);
      var ix, r := Sources(init, read), Posts(init, read);
      var a := AnchorPost(anchors[|anchors| - 1], read);
      if !r.stopped && a.Done? && a.value.Some? {
        assert Sources(anchors, read) == ix + [|anchors| - 1];
        assert Posts(anchors, read).items == r.items + [a.value.value];
        assert Maker(read)(anchors[|anchors| - 1]) == a;
        SourcedAppend(init, anchors, Maker(read), r.items, ix, a.value.value);
      } else {
        assert Sources(anchors, read) == ix;
        assert Posts(anchors, read).items == r.items;
        SourcedGrow(init, anchors, Maker(read), r.items, ix);
      }
    }
  }

  /** A strictly increasing sequence of indices below `n` stays so with `n` appended. */
  lemma IncreasingAppend(ix: seq<nat>, n: nat)
    requires forall j | 0 <= j < |ix| :: ix[j] < n
    requires forall j, j' | 0 <= j < j' < |ix| :: ix[j] < ix[j']
    ensures forall j, j' | 0 <= j < j' < |ix| + 1 :: (ix + [n])[j] < (ix + [n])[j']
  {
    var ix' := ix + [n];
    forall j, j' | 0 <= j < j' < |ix'| ensures ix'[j] < ix'[j'] {
      assert ix'[j] == ix[j];
      if j' < |ix| {
        assert ix'[j'] == ix[j'];
      }
    }
  }

  /** The listing loop stops exactly when some anchor's time raises. */
  lemma {:induction false} PostsStop(anchors: seq<Anchor>, read: Reader)
    ensures Posts(anchors, read).stopped <==> exists i | 0 <= i < |anchors| :: AnchorPost(anchors[i], read).Raised?
    decreases |anchors|
  {
    if anchors != [] {
      var last := |anchors| - 1;
      var init := anchors[..last];
      PostsStop(init, read);
      var r := Posts(init, read);
      if r.stopped {
        var i :| 0 <= i < |init| && AnchorPost(init[i], read).Raised?;
        assert anchors[i] == init[i];
        assert Posts(anchors, read) == r;
      } else {
        var a := AnchorPost(anchors[last], read);
        assert Posts(anchors, read).stopped == a.Raised?;
        forall i | 0 <= i < last ensures AnchorPost(anchors[i], read) == AnchorPost(init[i], read) {
          assert anchors[i] == init[i];
        }
      }
    }
  }

  /** A listing loop that did not stop made a record of every anchor that yields one. */
  lemma {:induction false} PostsComplete(anchors: seq<Anchor>, read: Reader)
    ensures !Posts(anchors, read).stopped ==>
      forall i | 0 <= i < |anchors| && AnchorPost(anchors[i], read).Done? && AnchorPost(anchors[i], read).value.Some? :: i in Sources(anchors, read)
    decreases |anchors|
  {
    if anchors != [] {
      var init := anchors[..|anchors| - 1];
      var last := |anchors| - 1;
      PostsComplete(init, read);
      var prev := Sources(init, read);
      if !Posts(anchors, read).stopped {
        assert !Posts(init, read).stopped;
        var ix := Sources(anchors, read);
        var a := AnchorPost(anchors[last], read);
        if a.Done? && a.value.Some? {
          assert ix == prev + [last];
          assert last in ix;
        }
        forall i | 0 <= i < |anchors| && AnchorPost(anchors[i], read).Done? && AnchorPost(anchors[i], read).value.Some?
          ensures i in ix
        {
          if i < last {
            assert anchors[i] == init[i];
            assert i in prev;
          } else {
            assert i == last;
          }
        }
      }
    }
  }

  // ===========================================================================
  // Post pages

  /** The reply loop over the first `k` pairs of stripped texts and times, until a time raises. */
  function Paired(texts: seq<string>, times: seq<string>, k: nat, read: Reader): Partial<Reply>
    requires k <= |texts| && k <= |times|
  {
    if k == 0 then Partial([], false)
    else
      var r := Paired(texts, times, k - 1, read);
      if r.stopped then r
      else
        match read(times[k - 1])
        case Raised => r.(stopped := true)
        case Done(t) => r.(items := r.items + [Reply(texts[k - 1], t)])
  }

  /** What `get_replies_for_post` returns: nothing for a page that fails to load or shows no replies, else the pairs read. */
  function RepliesForPost(v: ReplyPage, read: Reader): seq<Reply> {
    if !v.loaded || v.replyTexts == [] then []
    else Paired(StripAll(v.replyTexts), StripAll(v.replyTimes), Min(|v.replyTexts|, |v.replyTimes|), read).items
  }

  /** `get_replies_for_post` */
  method GetRepliesForPost(v: ReplyPage, read: Reader) returns (replies: seq<Reply>)
    ensures replies == RepliesForPost(v, read)
  {
    replies := [];
    if !v.loaded || v.replyTexts == [] {
      return;
    }
    replies := PairReplies(StripAll(v.replyTexts), StripAll(v.replyTimes), read);
  }

  /** The `zip` loop of `get_replies_for_post`, over the stripped texts of the reply and time elements. */
  method PairReplies(texts: seq<string>, times: seq<string>, read: Reader) returns (replies: seq<Reply>)
    ensures replies == Paired(texts, times, Min(|texts|, |times|), read).items
  {
    replies := [];
    var n := Min(|texts|, |times|);
    for i := 0 to n
      invariant Paired(texts, times, i, read) == Partial(replies, false)
    {
      var content := texts[i];
      var timestamp := read(times[i]);
      if timestamp.Raised? {
        PairedStaysStopped(texts, times, i + 1, n, read);
        return;
      }
      replies := replies + [Reply(content, timestamp.value)];
    }
  }

  /** Once the reply loop has stopped, later pairs do not matter. */
  lemma {:induction false} PairedStaysStopped(texts: seq<string>, times: seq<string>, k: nat, n: nat, read: Reader)
    requires k <= n <= |texts| && n <= |times| && Paired(texts, times, k, read).stopped
    ensures Paired(texts, times, n, read) == Paired(texts, times, k, read)
    decreases n
  {
    if k < n {
      PairedStaysStopped(texts, times, k, n - 1, read);
    }
  }

  /**
   * Reply `i` pairs text `i` with time `i`; the loop keeps every pair up to the
   * first time that raises, and all `k` pairs when none does.
   */
  lemma {:induction false} PairedZip(texts: seq<string>, times: seq<string>, k: nat, read: Reader)
    requires k <= |texts| && k <= |times|
    ensures var r := Paired(texts, times, k, read);
      && |r.items| <= k
      && (forall i | 0 <= i < |r.items| :: read(times[i]).Done? && r.items[i] == Reply(texts[i], read(times[i]).value))
      && (r.stopped <==> |r.items| < k)
      && (r.stopped ==> read(times[|r.items|]).Raised?)
    decreases k
  {
    if k > 0 {
      PairedZip(texts, times, k - 1, read);
    }
  }

  /** A page that loads and shows replies yields at most as many replies as the shorter of the two element lists, in order. */
  lemma RepliesForPostZip(v: ReplyPage, read: Reader)
    ensures var r := RepliesForPost(v, read);
      && |r| <= Min(|v.replyTexts|, |v.replyTimes|)
      && (forall i | 0 <= i < |r| :: r[i].content == Strip(v.replyTexts[i]) && read(Strip(v.replyTimes[i])) == Done(r[i].timestamp))
      && (v.loaded && (forall i | 0 <= i < Min(|v.replyTexts|, |v.replyTimes|) :: read(Strip(v.replyTimes[i])).Done?) ==>
            |r| == Min(|v.replyTexts|, |v.replyTimes|))
  {
    if v.loaded && v.replyTexts != [] {
      PairedZip(StripAll(v.replyTexts), StripAll(v.replyTimes), Min(|v.replyTexts|, |v.replyTimes|), read);
    }
  }
}
