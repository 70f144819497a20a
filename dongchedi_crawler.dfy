/**
 * The Dongchedi crawler: a dict from community key to the community's stored
 * posts, and the list of post URLs whose replies were already read.  The post
 * pass resumes each community at its page offset plus the number of posts it
 * has stored and appends the posts of every further page, writing the posts
 * file after each page; the reply pass reads the replies of every post whose
 * URL is not yet in the list, appends them to the post, appends the URL to the
 * list, and writes both files.
 *
 * The files are fields holding what a read of each gives (a missing or
 * corrupt posts file reads as an empty dict, a missing progress file as an
 * empty list).  The browser is a pair of oracles from URL to page.  Each pass
 * is specified by a function of the state it starts from; the post pass's is
 * a `Step`, since an exception may escape it and `run` then swallows it.
 */
module DongchediCrawler {
  import opened Wrappers
  import opened Text
  import opened Clock
  import opened PyDict
  import opened DongchediScraper

  /** A community's settings: its URL (None: the key is missing), and `total_pages` and `page_offset` when given. */
  datatype Community = Community(url: Option<string>, totalPages: Option<int>, pageOffset: Option<int>)

  function TotalPages(c: Community): int {
    c.totalPages.GetOr(1)
  }

  function PageOffset(c: Community): int {
    c.pageOffset.GetOr(0)
  }

  /** The crawler's state: the posts, the processed URLs, and what the posts and progress files hold. */
  datatype Crawler = Crawler(posts: Dict<Slot<Post>>, processed: seq<string>,
                             postsFile: Dict<Slot<Post>>, progressFile: seq<string>)

  // ===========================================================================
  // The post pass

  /** `f"{community_url}/{i + 1}"` */
  function PageUrl(url: string, i: int): string {
    url + "/" + IntToString(i + 1)
  }

  /** Different pages of a community have different URLs: the page index can be read back from the URL. */
  lemma PageUrlsDistinct(url: string, i: int, j: int)
    requires PageUrl(url, i) == PageUrl(url, j)
    ensures i == j
  {
    var a, b := IntToString(i + 1), IntToString(j + 1);
    assert a == PageUrl(url, i)[|url| + 1..];
    assert b == PageUrl(url, j)[|url| + 1..];
    if i + 1 < 0 && j + 1 < 0 {
      assert a[1..] == b[1..];
    }
  }

  /**
   * The post pass's state: the posts, the posts file, the pages requested (a
   * community URL and an index `i`, for the page at `PageUrl(url, i)`), and
   * how often the file was written.
   */
  datatype PostsPass = PostsPass(posts: Dict<Slot<Post>>, file: Dict<Slot<Post>>, requested: seq<(string, int)>, saves: nat)

  /** What `get_posts_on_page` gives for page `i`. */
  function PageFound(url: string, i: int, scrape: (string, int) -> seq<Post>): seq<Post> {
    scrape(url, i)
  }

  /** One page: request it, extend the community's list by its posts (raising on a non-list), and write the file. */
  function PageStep(s: PostsPass, key: string, url: string, i: int, scrape: (string, int) -> seq<Post>): Step<PostsPass> {
    var s1 := s.(requested := s.requested + [(url, i)]);
    match Extend(s.posts, key, PageFound(url, i, scrape))
    case None => Escaped(s1)
    case Some(d) => Going(s1.(posts := d, file := d, saves := s.saves + 1))
  }

  /** The loop `for i in range(lo, hi)` over one community's pages. */
  function PageLoop(s: PostsPass, key: string, url: string, lo: int, hi: int,
                    scrape: (string, int) -> seq<Post>): Step<PostsPass>
    decreases hi - lo
  {
    if hi <= lo then Going(s)
    else
      match PageLoop(s, key, url, lo, hi - 1, scrape)
      case Escaped(e) => Escaped(e)
      case Going(g) => PageStep(g, key, url, hi - 1, scrape)
  }

  /** The pages `range(lo, hi)` of a community, in order. */
  function Requests(url: string, lo: int, hi: int): seq<(string, int)> {
    if hi <= lo then [] else seq(hi - lo, j requires 0 <= j < hi - lo => (url, lo + j))
  }

  /** The posts of the pages `range(lo, hi)`, in order. */
  function Found(url: string, lo: int, hi: int, scrape: (string, int) -> seq<Post>): seq<Post>
    decreases hi - lo
  {
    if hi <= lo then [] else Found(url, lo, hi - 1, scrape) + PageFound(url, hi - 1, scrape)
  }

  /** The value stored under a key, where a missing key holds the `[]` the pass inserts for it. */
  function Stored(d: Dict<Slot<Post>>, key: string): Slot<Post> {
    Get(d, key).GetOr(Items([]))
  }

  /**
   * One community: a missing URL raises a KeyError; a missing key gets an
   * empty list; the start index is the page offset plus the `len` of the
   * stored value; past `total_pages + page_offset` the community is skipped,
   * and otherwise its pages from the start index on are read.
   */
  function CommunityPosts(s: PostsPass, e: Entry<Community>, scrape: (string, int) -> seq<Post>): Step<PostsPass> {
    match e.value.url
    case None => Escaped(s)
    case Some(url) =>
      var s1 := Inserted(s, e.key);
      match Len(Stored(s.posts, e.key))
      case Raised => Escaped(s1)
      case Done(n) =>
        var start, end := PageOffset(e.value) + n, TotalPages(e.value) + PageOffset(e.value);
        if start > end then Going(s1) else PageLoop(s1, e.key, url, start, end, scrape)
  }

  /** `if community_key not in self.posts: self.posts[community_key] = []` */
  function Inserted(s: PostsPass, key: string): PostsPass {
    if Has(s.posts, key) then s else s.(posts := Put(s.posts, key, Items([])))
  }

  /** `scrape_posts`: the community loop over the settings. */
  function AllPosts(s: PostsPass, communities: Dict<Community>, scrape: (string, int) -> seq<Post>): Step<PostsPass>
    decreases |communities|
  {
    if communities == [] then Going(s)
    else
      match AllPosts(s, communities[..|communities| - 1], scrape)
      case Escaped(e) => Escaped(e)
      case Going(g) => CommunityPosts(g, communities[|communities| - 1], scrape)
  }

  /** A page loop that runs through requests exactly the pages of `range(lo, hi)`, in order, and writes the file once per page. */
  lemma {:induction false} PageLoopLog(s: PostsPass, key: string, url: string, lo: int, hi: int, scrape: (string, int) -> seq<Post>)
    ensures var r := PageLoop(s, key, url, lo, hi, scrape);
      r.Going? ==> r.state.requested == s.requested + Requests(url, lo, hi) && r.state.saves == s.saves + |Requests(url, lo, hi)|
    decreases hi - lo
  {
    if lo < hi {
      var q := PageLoop(s, key, url, lo, hi - 1, scrape);
      if q.Going? {
        PageLoopLog(s, key, url, lo, hi - 1, scrape);
        assert Requests(url, lo, hi) == Requests(url, lo, hi - 1) + [(url, hi - 1)];
      }
    }
  }

  /** After a page loop that reads a page and does not raise, the file holds the posts; an empty range changes nothing. */
  lemma PageLoopSaved(s: PostsPass, key: string, url: string, lo: int, hi: int, scrape: (string, int) -> seq<Post>)
    ensures var r := PageLoop(s, key, url, lo, hi, scrape);
      && (r.Going? && lo < hi ==> r.state.file == r.state.posts)
      && (hi <= lo ==> r == Going(s))
  {
  }

  /** A page that is read and does not raise appends its posts after the community's list. */
  lemma PageStepAppend(g: PostsPass, key: string, url: string, i: int, scrape: (string, int) -> seq<Post>)
    ensures var r := PageStep(g, key, url, i, scrape);
      && (r.Escaped? <==> ListOr(g.posts, key).None?)
      && (r.Going? ==> Get(r.state.posts, key) == Some(Items(ListOr(g.posts, key).value + PageFound(url, i, scrape))))
      && (r.Going? ==> forall k | k != key :: Get(r.state.posts, k) == Get(g.posts, k))
      && (r.Going? && UniqueKeys(g.posts) ==> UniqueKeys(r.state.posts))
  {
    ExtendEffect(g.posts, key, PageFound(url, i, scrape));
  }

  /**
   * Unless an exception escapes, a page loop that reads at least one page
   * leaves the community's old posts followed by every page's posts.
   */
  lemma {:induction false} PageLoopEffect(s: PostsPass, key: string, url: string, lo: int, hi: int,
                                          scrape: (string, int) -> seq<Post>)
    ensures var r := PageLoop(s, key, url, lo, hi, scrape);
      r.Going? && lo < hi ==>
        ListOr(s.posts, key).Some? && Get(r.state.posts, key) == Some(Items(ListOr(s.posts, key).value + Found(url, lo, hi, scrape)))
    decreases hi - lo
  {
    if lo < hi - 1 {
      PageLoopEffect(s, key, url, lo, hi - 1, scrape);
      PageLoopEffectStep(s, key, url, lo, hi, scrape);
    } else if lo < hi {
      var q := PageLoop(s, key, url, lo, hi - 1, scrape);
      assert q == Going(s);
      PageStepAppend(s, key, url, hi - 1, scrape);
      assert Found(url, lo, hi, scrape) == PageFound(url, hi - 1, scrape);
    }
  }

  /** The inductive step of `PageLoopEffect`: one more page appends its posts. */
  lemma PageLoopEffectStep(s: PostsPass, key: string, url: string, lo: int, hi: int, scrape: (string, int) -> seq<Post>)
    requires lo < hi - 1
    requires var q := PageLoop(s, key, url, lo, hi - 1, scrape);
      q.Going? ==>
        ListOr(s.posts, key).Some? && Get(q.state.posts, key) == Some(Items(ListOr(s.posts, key).value + Found(url, lo, hi - 1, scrape)))
    ensures var r := PageLoop(s, key, url, lo, hi, scrape);
      r.Going? ==>
        ListOr(s.posts, key).Some? && Get(r.state.posts, key) == Some(Items(ListOr(s.posts, key).value + Found(url, lo, hi, scrape)))
  {
    var q := PageLoop(s, key, url, lo, hi - 1, scrape);
    var r := PageLoop(s, key, url, lo, hi, scrape);
    if q.Going? && r.Going? {
      var g := q.state;
      assert r == PageStep(g, key, url, hi - 1, scrape);
      PageStepGrows(g, key, url, hi - 1, scrape, r.state);
      var xs, a, b := ListOr(s.posts, key).value, Found(url, lo, hi - 1, scrape), PageFound(url, hi - 1, scrape);
      assert Found(url, lo, hi, scrape) == a + b;
      assert ListOr(g.posts, key) == Some(xs + a);
      assert (xs + a) + b == xs + (a + b);
    }
  }

  /** A page step that does not raise appends the page's posts to the community's list. */
  lemma PageStepGrows(g: PostsPass, key: string, url: string, i: int, scrape: (string, int) -> seq<Post>, t: PostsPass)
    requires PageStep(g, key, url, i, scrape) == Going(t)
    ensures ListOr(g.posts, key).Some? && Get(t.posts, key) == Some(Items(ListOr(g.posts, key).value + PageFound(url, i, scrape)))
  {
    PageStepAppend(g, key, url, i, scrape);
  }

  /** A page loop escapes exactly when it reads some page and the community holds a value that is not a list. */
  lemma {:induction false} PageLoopRaises(s: PostsPass, key: string, url: string, lo: int, hi: int,
                                          scrape: (string, int) -> seq<Post>)
    ensures PageLoop(s, key, url, lo, hi, scrape).Escaped? <==> lo < hi && ListOr(s.posts, key).None?
    decreases hi - lo
  {
    if lo < hi {
      PageLoopRaises(s, key, url, lo, hi - 1, scrape);
      PageLoopEffect(s, key, url, lo, hi - 1, scrape);
      var q := PageLoop(s, key, url, lo, hi - 1, scrape);
      if q.Going? {
        PageStepAppend(q.state, key, url, hi - 1, scrape);
        if hi - 1 <= lo {
          assert q.state == s;
        }
      }
    }
  }

  /** A page loop touches no other community, and keeps the keys unique. */
  lemma {:induction false} PageLoopOthers(s: PostsPass, key: string, url: string, lo: int, hi: int,
                                          scrape: (string, int) -> seq<Post>)
    ensures var r := PageLoop(s, key, url, lo, hi, scrape);
      && (r.Going? ==> forall k | k != key :: Get(r.state.posts, k) == Get(s.posts, k))
      && (r.Going? && UniqueKeys(s.posts) ==> UniqueKeys(r.state.posts))
    decreases hi - lo
  {
    if lo < hi {
      PageLoopOthers(s, key, url, lo, hi - 1, scrape);
      var q := PageLoop(s, key, url, lo, hi - 1, scrape);
      if q.Going? {
        PageStepAppend(q.state, key, url, hi - 1, scrape);
      }
    }
  }

  /** Inserting the empty list for a missing key leaves the key's list as `ListOr` saw it. */
  lemma InsertEmpty(d: Dict<Slot<Post>>, key: string)
    requires !Has(d, key)
    ensures ListOr(Put(d, key, Items([])), key) == ListOr(d, key) == Some([])
    ensures Get(Put(d, key, Items([])), key) == Some(Items([]))
    ensures forall k | k != key :: Get(Put(d, key, Items([])), k) == Get(d, k)
    ensures UniqueKeys(d) ==> UniqueKeys(Put(d, key, Items([])))
  {
    PutEffect(d, key, Items([]));
  }

  /**
   * The resume rule: with `n` the number of posts (the `len` of the value)
   * stored for the community, the pass requests exactly the page URLs of
   * `range(page_offset + n, total_pages + page_offset)`, in order, none when
   * the start lies past the end.
   */
  lemma CommunityResume(s: PostsPass, e: Entry<Community>, scrape: (string, int) -> seq<Post>)
    requires e.value.url.Some? && Len(Stored(s.posts, e.key)).Done?
    ensures var r := CommunityPosts(s, e, scrape);
      r.Going? ==>
        r.state.requested == s.requested + Requests(e.value.url.value, PageOffset(e.value) + Len(Stored(s.posts, e.key)).value, TotalPages(e.value) + PageOffset(e.value))
  {
    var start, end := PageOffset(e.value) + Len(Stored(s.posts, e.key)).value, TotalPages(e.value) + PageOffset(e.value);
    CommunityAsLoop(s, e, scrape);
    PageLoopLog(Inserted(s, e.key), e.key, e.value.url.value, start, end, scrape);
  }

  /** The community escapes exactly when it would read a page into a value that is not a list. */
  lemma CommunityEscapes(s: PostsPass, e: Entry<Community>, scrape: (string, int) -> seq<Post>)
    requires e.value.url.Some? && Len(Stored(s.posts, e.key)).Done?
    ensures CommunityPosts(s, e, scrape).Escaped?
        <==> PageOffset(e.value) + Len(Stored(s.posts, e.key)).value < TotalPages(e.value) + PageOffset(e.value) && ListOr(s.posts, e.key).None?
  {
    var start, end := PageOffset(e.value) + Len(Stored(s.posts, e.key)).value, TotalPages(e.value) + PageOffset(e.value);
    CommunityAsLoop(s, e, scrape);
    if !Has(s.posts, e.key) {
      InsertEmpty(s.posts, e.key);
    }
    assert ListOr(Inserted(s, e.key).posts, e.key) == ListOr(s.posts, e.key);
    PageLoopRaises(Inserted(s, e.key), e.key, e.value.url.value, start, end, scrape);
  }

  /** Unless it escapes, a community that held a list (or nothing) holds its old posts followed by the posts of the pages requested. */
  lemma CommunityStored(s: PostsPass, e: Entry<Community>, scrape: (string, int) -> seq<Post>)
    requires e.value.url.Some? && Len(Stored(s.posts, e.key)).Done?
    ensures var r := CommunityPosts(s, e, scrape);
      r.Going? && ListOr(s.posts, e.key).Some? ==>
        Get(r.state.posts, e.key)
        == Some(Items(ListOr(s.posts, e.key).value
                      + Found(e.value.url.value, PageOffset(e.value) + Len(Stored(s.posts, e.key)).value, TotalPages(e.value) + PageOffset(e.value), scrape)))
  {
    var url, start, end := e.value.url.value, PageOffset(e.value) + Len(Stored(s.posts, e.key)).value, TotalPages(e.value) + PageOffset(e.value);
    var s1 := Inserted(s, e.key);
    CommunityAsLoop(s, e, scrape);
    if !Has(s.posts, e.key) {
      InsertEmpty(s.posts, e.key);
    }
    assert ListOr(s1.posts, e.key) == ListOr(s.posts, e.key);
    if end <= start {
      PageLoopSaved(s1, e.key, url, start, end, scrape);
      if ListOr(s.posts, e.key).Some? {
        var xs := ListOr(s.posts, e.key).value;
        assert Found(url, start, end, scrape) == [];
        assert xs + [] == xs;
        assert Get(s1.posts, e.key) == Some(Items(xs));
      }
    } else {
      PageLoopEffect(s1, e.key, url, start, end, scrape);
    }
  }

  /** With a URL and a stored length, a community is the page loop from its start index, run on the dict with its key present. */
  lemma CommunityAsLoop(s: PostsPass, e: Entry<Community>, scrape: (string, int) -> seq<Post>)
    requires e.value.url.Some? && Len(Stored(s.posts, e.key)).Done?
    ensures CommunityPosts(s, e, scrape)
         == PageLoop(Inserted(s, e.key), e.key, e.value.url.value, PageOffset(e.value) + Len(Stored(s.posts, e.key)).value,
                     TotalPages(e.value) + PageOffset(e.value), scrape)
  {
  }

  /** `CommunityAsLoop` with the inserted dict, the URL and the page range named. */
  lemma CommunityIsLoop(s: PostsPass, e: Entry<Community>, scrape: (string, int) -> seq<Post>,
                        s1: PostsPass, url: string, n: int, start: int, end: int)
    requires e.value.url == Some(url) && s1 == Inserted(s, e.key) && Len(Stored(s.posts, e.key)) == Done(n)
    requires start == PageOffset(e.value) + n && end == TotalPages(e.value) + PageOffset(e.value)
    ensures CommunityPosts(s, e, scrape) == PageLoop(s1, e.key, url, start, end, scrape)
  {
    CommunityAsLoop(s, e, scrape);
  }

  /** A missing URL, or a stored value without a length, raises before any page is requested. */
  lemma CommunityRaises(s: PostsPass, e: Entry<Community>, scrape: (string, int) -> seq<Post>)
    requires e.value.url.None? || Len(Stored(s.posts, e.key)).Raised?
    ensures var r := CommunityPosts(s, e, scrape);
      r.Escaped? && r.state.requested == s.requested && r.state.file == s.file
  {
  }

  // ===========================================================================
  // The reply pass

  /** The reply pass's state: the posts, the processed URLs, the two files, and the URLs whose replies it read. */
  datatype RepliesPass = RepliesPass(posts: Dict<Slot<Post>>, processed: seq<string>,
                                     postsFile: Dict<Slot<Post>>, progressFile: seq<string>, fetched: seq<string>)

  /** Entry `m` of the dict holds a list. */
  predicate ListAt(d: Dict<Slot<Post>>, m: int) {
    0 <= m < |d| && d[m].value.Items?
  }

  /**
   * Post `j` of the list in entry `m`: skipped without a URL or when its URL
   * is processed; otherwise its replies are read and appended to it, its URL
   * appended to the processed list, and both files written.  (Entry `m`
   * holds a list of more than `j` posts on every step the pass takes.)
   */
  function ReplyStep(s: RepliesPass, m: nat, j: nat, fetch: string -> seq<Reply>): RepliesPass {
    if !ListAt(s.posts, m) || j >= |s.posts[m].value.items| then s
    else
      var xs := s.posts[m].value.items;
      var post := xs[j];
      if post.url == "" || post.url in s.processed then s
      else
        var d := s.posts[m := Entry(s.posts[m].key, Items(xs[j := post.(replies := post.replies + fetch(post.url))]))];
        var p := s.processed + [post.url];
        s.(posts := d, processed := p, postsFile := d, progressFile := p, fetched := s.fetched + [post.url])
  }

  /** The loop over the first `k` posts of entry `m`. */
  function ListReplies(s: RepliesPass, m: nat, k: nat, fetch: string -> seq<Reply>): RepliesPass
    decreases k
  {
    if k == 0 then s else ReplyStep(ListReplies(s, m, k - 1, fetch), m, k - 1, fetch)
  }

  /** `scrape_replies` over the first `m` entries: a value that is not a list is skipped. */
  function AllReplies(s: RepliesPass, m: nat, fetch: string -> seq<Reply>): RepliesPass
    decreases m
  {
    if m == 0 then s
    else
      var g := AllReplies(s, m - 1, fetch);
      if ListAt(g.posts, m - 1) then ListReplies(g, m - 1, |g.posts[m - 1].value.items|, fetch) else g
  }

  /** `q` is `p`, or, when the pass read `p`'s URL, `p` with the replies read for that URL appended once. */
  ghost predicate Grown(p: Post, q: Post, fetched: seq<string>, fetch: string -> seq<Reply>) {
    q == p || (p.url in fetched && q == p.(replies := p.replies + fetch(p.url)))
  }

  /** A list keeps its length and each post grows; any other value is kept. */
  ghost predicate SlotGrown(a: Slot<Post>, b: Slot<Post>, fetched: seq<string>, fetch: string -> seq<Reply>) {
    match a
    case Other(_) => b == a
    case Items(xs) => b.Items? && |b.items| == |xs| && forall j | 0 <= j < |xs| :: Grown(xs[j], b.items[j], fetched, fetch)
  }

  /**
   * From the pass's start `s0` to `s`: the processed list is the start's
   * followed by the URLs read, each non-empty, not processed at the start, and
   * read once; after the first read both files hold the state, and before it
   * nothing changed.
   */
  ghost predicate ProgressKept(s0: RepliesPass, s: RepliesPass) {
    && s0.fetched == []
    && s.processed == s0.processed + s.fetched
    && (forall i | 0 <= i < |s.fetched| :: s.fetched[i] != "" && s.fetched[i] !in s0.processed)
    && Distinct(s.fetched)
    && (s.fetched != [] ==> s.postsFile == s.posts && s.progressFile == s.processed)
    && (s.fetched == [] ==> s == s0)
  }

  /**
   * Post `j` of entry `i` has URL `u` at the pass's start `s0`, and in `s` it
   * is that post with the replies read for `u` appended.
   */
  ghost predicate AppendedAt(s0: RepliesPass, s: RepliesPass, i: int, j: int, u: string, fetch: string -> seq<Reply>) {
    && ListAt(s0.posts, i) && 0 <= j < |s0.posts[i].value.items| && s0.posts[i].value.items[j].url == u
    && ListAt(s.posts, i) && j < |s.posts[i].value.items|
    && s.posts[i].value.items[j] == s0.posts[i].value.items[j].(replies := s0.posts[i].value.items[j].replies + fetch(u))
  }

  /** Every URL the pass read has a post with that URL that got the replies read for it. */
  ghost predicate FetchedAppended(s0: RepliesPass, s: RepliesPass, fetch: string -> seq<Reply>) {
    forall u | u in s.fetched :: exists i, j :: AppendedAt(s0, s, i, j, u, fetch)
  }

  /**
   * The dict keeps its keys in place and every list its length; every post is
   * as it was or has the replies read for its URL appended once, and every URL
   * read has its replies appended to a post with that URL.
   */
  ghost predicate PostsKept(s0: RepliesPass, s: RepliesPass, fetch: string -> seq<Reply>) {
    && |s.posts| == |s0.posts|
    && (forall i | 0 <= i < |s0.posts| :: s.posts[i].key == s0.posts[i].key && SlotGrown(s0.posts[i].value, s.posts[i].value, s.fetched, fetch))
    && FetchedAppended(s0, s, fetch)
  }

  ghost predicate RepliesKeep(s0: RepliesPass, s: RepliesPass, fetch: string -> seq<Reply>) {
    ProgressKept(s0, s) && PostsKept(s0, s, fetch)
  }

  /** Growth judged against fewer reads still holds against more. */
  lemma SlotGrownMore(a: Slot<Post>, b: Slot<Post>, fetched: seq<string>, u: string, fetch: string -> seq<Reply>)
    requires SlotGrown(a, b, fetched, fetch)
    ensures SlotGrown(a, b, fetched + [u], fetch)
  {
    if a.Items? {
      forall j | 0 <= j < |a.items| ensures Grown(a.items[j], b.items[j], fetched + [u], fetch) {
        assert Grown(a.items[j], b.items[j], fetched, fetch);
      }
    }
  }

  /** Reading one post's replies keeps the processed list as the pass keeps it. */
  lemma ReplyStepProgress(s0: RepliesPass, s: RepliesPass, m: nat, j: nat, fetch: string -> seq<Reply>)
    requires ProgressKept(s0, s)
    ensures ProgressKept(s0, ReplyStep(s, m, j, fetch))
  {
    if ListAt(s.posts, m) && j < |s.posts[m].value.items| {
      var post := s.posts[m].value.items[j];
      if post.url != "" && post.url !in s.processed {
        var r := ReplyStep(s, m, j, fetch);
        var u := post.url;
        assert r.fetched == s.fetched + [u];
        assert u !in s0.processed && u !in s.fetched;
        forall i | 0 <= i < |r.fetched| ensures r.fetched[i] != "" && r.fetched[i] !in s0.processed {
          if i < |s.fetched| {
            assert r.fetched[i] == s.fetched[i];
          }
        }
        forall a, b | 0 <= a < b < |r.fetched| ensures r.fetched[a] != r.fetched[b] {
          if b < |s.fetched| {
            assert r.fetched[a] == s.fetched[a] && r.fetched[b] == s.fetched[b];
          } else {
            assert r.fetched[a] == s.fetched[a] && r.fetched[b] == u;
          }
        }
        assert r.processed == s0.processed + r.fetched;
      }
    }
  }

  /** Every URL the pass read is in the processed list. */
  ghost predicate ReadAreProcessed(s: RepliesPass) {
    forall u | u in s.fetched :: u in s.processed
  }

  /**
   * Reading one post's replies appends them to that post, which the pass had
   * not read before, and changes nothing else.
   */
  lemma ReplyStepPosts(s0: RepliesPass, s: RepliesPass, m: nat, j: nat, fetch: string -> seq<Reply>)
    requires ReadAreProcessed(s) && PostsKept(s0, s, fetch)
    ensures PostsKept(s0, ReplyStep(s, m, j, fetch), fetch)
  {
    if ListAt(s.posts, m) && j < |s.posts[m].value.items| {
      var xs := s.posts[m].value.items;
      var post := xs[j];
      if post.url != "" && post.url !in s.processed {
        var r := ReplyStep(s, m, j, fetch);
        var u := post.url;
        assert r.fetched == s.fetched + [u];
        assert u !in s.fetched;
        forall i | 0 <= i < |s0.posts|
          ensures r.posts[i].key == s0.posts[i].key && SlotGrown(s0.posts[i].value, r.posts[i].value, r.fetched, fetch)
        {
          SlotGrownMore(s0.posts[i].value, s.posts[i].value, s.fetched, u, fetch);
          if i == m {
            var ys := s0.posts[m].value.items;
            var zs := r.posts[m].value.items;
            assert zs == xs[j := post.(replies := post.replies + fetch(u))];
            forall k | 0 <= k < |ys| ensures Grown(ys[k], zs[k], r.fetched, fetch) {
              assert Grown(ys[k], xs[k], s.fetched, fetch);
              if k == j {
                assert xs[k] == ys[k];
                assert u in r.fetched;
              } else {
                assert zs[k] == xs[k];
                assert Grown(ys[k], xs[k], r.fetched, fetch);
              }
            }
          }
        }
        ReplyStepAppended(s0, s, m, j, fetch);
      }
    }
  }

  /** The URL a step reads gets its replies at the post read, and the earlier reads keep theirs. */
  lemma ReplyStepAppended(s0: RepliesPass, s: RepliesPass, m: nat, j: nat, fetch: string -> seq<Reply>)
    requires ReadAreProcessed(s) && PostsKept(s0, s, fetch)
    requires ListAt(s.posts, m) && j < |s.posts[m].value.items|
    requires s.posts[m].value.items[j].url != "" && s.posts[m].value.items[j].url !in s.processed
    ensures FetchedAppended(s0, ReplyStep(s, m, j, fetch), fetch)
  {
    var r := ReplyStep(s, m, j, fetch);
    var xs := s.posts[m].value.items;
    var u := xs[j].url;
    assert r.fetched == s.fetched + [u];
    assert SlotGrown(s0.posts[m].value, s.posts[m].value, s.fetched, fetch);
    var ys := s0.posts[m].value.items;
    assert Grown(ys[j], xs[j], s.fetched, fetch);
    assert xs[j] == ys[j];
    forall v | v in r.fetched ensures exists a, b :: AppendedAt(s0, r, a, b, v, fetch) {
      if v == u {
        assert AppendedAt(s0, r, m, j, u, fetch);
      } else {
        assert v in s.fetched;
        var a, b :| AppendedAt(s0, s, a, b, v, fetch);
        assert r.posts[a].value.items[b] == s.posts[a].value.items[b];
        assert AppendedAt(s0, r, a, b, v, fetch);
      }
    }
  }

  lemma {:induction false} ListRepliesProgress(s0: RepliesPass, s: RepliesPass, m: nat, k: nat, fetch: string -> seq<Reply>)
    requires ProgressKept(s0, s)
    ensures ProgressKept(s0, ListReplies(s, m, k, fetch))
    decreases k
  {
    if k > 0 {
      ListRepliesProgress(s0, s, m, k - 1, fetch);
      ReplyStepProgress(s0, ListReplies(s, m, k - 1, fetch), m, k - 1, fetch);
    }
  }

  lemma {:induction false} ListRepliesPosts(s0: RepliesPass, s: RepliesPass, m: nat, k: nat, fetch: string -> seq<Reply>)
    requires ProgressKept(s0, s) && PostsKept(s0, s, fetch)
    ensures PostsKept(s0, ListReplies(s, m, k, fetch), fetch)
    decreases k
  {
    if k > 0 {
      ListRepliesPosts(s0, s, m, k - 1, fetch);
      ListRepliesProgress(s0, s, m, k - 1, fetch);
      var g := ListReplies(s, m, k - 1, fetch);
      assert ReadAreProcessed(g);
      ListStepPosts(s0, g, ListReplies(s, m, k, fetch), m, k - 1, fetch);
    }
  }

  /** One more post of the loop keeps what `PostsKept` says; `t` is the state after it. */
  lemma ListStepPosts(s0: RepliesPass, g: RepliesPass, t: RepliesPass, m: nat, j: nat, fetch: string -> seq<Reply>)
    requires ReadAreProcessed(g) && PostsKept(s0, g, fetch) && t == ReplyStep(g, m, j, fetch)
    ensures PostsKept(s0, t, fetch)
  {
    ReplyStepPosts(s0, g, m, j, fetch);
  }

  lemma {:induction false} AllRepliesKeeps(s0: RepliesPass, m: nat, fetch: string -> seq<Reply>)
    requires s0.fetched == [] && m <= |s0.posts|
    ensures RepliesKeep(s0, AllReplies(s0, m, fetch), fetch)
    decreases m
  {
    if m > 0 {
      AllRepliesKeeps(s0, m - 1, fetch);
      var g := AllReplies(s0, m - 1, fetch);
      if ListAt(g.posts, m - 1) {
        ListRepliesProgress(s0, g, m - 1, |g.posts[m - 1].value.items|, fetch);
        ListRepliesPosts(s0, g, m - 1, |g.posts[m - 1].value.items|, fetch);
      }
    }
  }

  /**
   * The whole reply pass: what `RepliesKeep` says (each post as it was or with
   * the replies read for its URL appended once, and every URL read appended to
   * a post carrying it), and so a processed list without duplicates stays
   * without them, however often a URL occurs among the posts.
   */
  lemma RepliesEffect(s0: RepliesPass, fetch: string -> seq<Reply>)
    requires s0.fetched == []
    ensures var r := AllReplies(s0, |s0.posts|, fetch);
      && RepliesKeep(s0, r, fetch)
      && (Distinct(s0.processed) ==> Distinct(r.processed))
  {
    var r := AllReplies(s0, |s0.posts|, fetch);
    AllRepliesKeeps(s0, |s0.posts|, fetch);
    if Distinct(s0.processed) {
      ProgressDistinct(s0, r);
    }
  }

  /** The processed list gains only URLs it does not hold, each once. */
  lemma ProgressDistinct(s0: RepliesPass, s: RepliesPass)
    requires ProgressKept(s0, s) && Distinct(s0.processed)
    ensures Distinct(s.processed)
  {
    var n := |s0.processed|;
    forall a, b | 0 <= a < b < |s.processed| ensures s.processed[a] != s.processed[b] {
      if b < n {
        assert s.processed[a] == s0.processed[a] && s.processed[b] == s0.processed[b];
      } else if a < n {
        assert s.processed[a] == s0.processed[a] && s.processed[b] == s.fetched[b - n];
        assert s.fetched[b - n] !in s0.processed;
      } else {
        assert s.processed[a] == s.fetched[a - n] && s.processed[b] == s.fetched[b - n];
      }
    }
  }

  /** Every post of entry `i` before index `k` has no URL or a processed one. */
  ghost predicate ListCovered(s: RepliesPass, i: nat, k: nat) {
    ListAt(s.posts, i) ==>
      forall j | 0 <= j < k && j < |s.posts[i].value.items| ::
        s.posts[i].value.items[j].url == "" || s.posts[i].value.items[j].url in s.processed
  }

  /** A step changes no URL and removes nothing from the processed list, so what was covered stays covered. */
  lemma ReplyStepKeepsCover(s: RepliesPass, m: nat, j: nat, fetch: string -> seq<Reply>, i: nat, k: nat)
    requires ListCovered(s, i, k)
    ensures ListCovered(ReplyStep(s, m, j, fetch), i, k)
  {
    var r := ReplyStep(s, m, j, fetch);
    if r != s && ListAt(r.posts, i) {
      forall t | 0 <= t < k && t < |r.posts[i].value.items|
        ensures r.posts[i].value.items[t].url == "" || r.posts[i].value.items[t].url in r.processed
      {
        assert r.posts[i].value.items[t].url == s.posts[i].value.items[t].url;
      }
    }
  }

  /** Post `j` counts as covered after its step. */
  lemma ReplyStepCovers(s: RepliesPass, m: nat, j: nat, fetch: string -> seq<Reply>)
    requires ListCovered(s, m, j)
    ensures ListCovered(ReplyStep(s, m, j, fetch), m, j + 1)
  {
    ReplyStepKeepsCover(s, m, j, fetch, m, j);
  }

  lemma {:induction false} ListRepliesKeepCover(s: RepliesPass, m: nat, k: nat, fetch: string -> seq<Reply>, i: nat, n: nat)
    requires ListCovered(s, i, n)
    ensures ListCovered(ListReplies(s, m, k, fetch), i, n)
    decreases k
  {
    if k > 0 {
      ListRepliesKeepCover(s, m, k - 1, fetch, i, n);
      ReplyStepKeepsCover(ListReplies(s, m, k - 1, fetch), m, k - 1, fetch, i, n);
    }
  }

  lemma {:induction false} ListRepliesCover(s: RepliesPass, m: nat, k: nat, fetch: string -> seq<Reply>)
    ensures ListCovered(ListReplies(s, m, k, fetch), m, k)
    decreases k
  {
    if k > 0 {
      ListRepliesCover(s, m, k - 1, fetch);
      ReplyStepCovers(ListReplies(s, m, k - 1, fetch), m, k - 1, fetch);
    }
  }

  lemma {:induction false} AllRepliesKeepCover(s: RepliesPass, m: nat, fetch: string -> seq<Reply>, i: nat, n: nat)
    requires ListCovered(s, i, n)
    ensures ListCovered(AllReplies(s, m, fetch), i, n)
    decreases m
  {
    if m > 0 {
      AllRepliesKeepCover(s, m - 1, fetch, i, n);
      var g := AllReplies(s, m - 1, fetch);
      if ListAt(g.posts, m - 1) {
        ListRepliesKeepCover(g, m - 1, |g.posts[m - 1].value.items|, fetch, i, n);
      }
    }
  }

  /**
   * After the pass over the first `m` entries, every post of every list among
   * them has no URL or a processed one (`n` bounds the lists' lengths).
   */
  lemma {:induction false} AllRepliesCover(s0: RepliesPass, m: nat, fetch: string -> seq<Reply>, n: nat)
    requires s0.fetched == [] && m <= |s0.posts|
    requires forall i | 0 <= i < |s0.posts| && s0.posts[i].value.Items? :: |s0.posts[i].value.items| <= n
    ensures forall i | 0 <= i < m :: ListCovered(AllReplies(s0, m, fetch), i, n)
    decreases m
  {
    if m > 0 {
      AllRepliesCover(s0, m - 1, fetch, n);
      var g := AllReplies(s0, m - 1, fetch);
      forall i | 0 <= i < m ensures ListCovered(AllReplies(s0, m, fetch), i, n) {
        if ListAt(g.posts, m - 1) {
          var k := |g.posts[m - 1].value.items|;
          if i < m - 1 {
            ListRepliesKeepCover(g, m - 1, k, fetch, i, n);
          } else {
            AllRepliesKeeps(s0, m - 1, fetch);
            AllRepliesKeeps(s0, m, fetch);
            var r := AllReplies(s0, m, fetch);
            assert SlotGrown(s0.posts[m - 1].value, g.posts[m - 1].value, g.fetched, fetch);
            assert SlotGrown(s0.posts[m - 1].value, r.posts[m - 1].value, r.fetched, fetch);
            assert k <= n && |r.posts[m - 1].value.items| == k;
            ListRepliesCover(g, m - 1, k, fetch);
          }
        } else if i == m - 1 {
          assert !ListAt(AllReplies(s0, m, fetch).posts, i);
        }
      }
    }
  }

  /** After the whole reply pass there is no post with a URL that is not processed. */
  lemma RepliesComplete(s0: RepliesPass, fetch: string -> seq<Reply>)
    requires s0.fetched == []
    ensures var r := AllReplies(s0, |s0.posts|, fetch);
      forall i, j | 0 <= i < |r.posts| && r.posts[i].value.Items? && 0 <= j < |r.posts[i].value.items| ::
        r.posts[i].value.items[j].url == "" || r.posts[i].value.items[j].url in r.processed
  {
    var r := AllReplies(s0, |s0.posts|, fetch);
    var n := MaxLength(s0.posts);
    AllRepliesCover(s0, |s0.posts|, fetch, n);
    AllRepliesKeeps(s0, |s0.posts|, fetch);
    forall i, j | 0 <= i < |r.posts| && r.posts[i].value.Items? && 0 <= j < |r.posts[i].value.items|
      ensures r.posts[i].value.items[j].url == "" || r.posts[i].value.items[j].url in r.processed
    {
      assert SlotGrown(s0.posts[i].value, r.posts[i].value, r.fetched, fetch);
      assert ListCovered(r, i, n);
    }
  }

  /** A bound on the lengths of the dict's lists. */
  function MaxLength(d: Dict<Slot<Post>>): (n: nat)
    ensures forall i | 0 <= i < |d| && d[i].value.Items? :: |d[i].value.items| <= n
  {
    if d == [] then 0
    else
      var n := MaxLength(d[..|d| - 1]);
      var last := if d[|d| - 1].value.Items? then |d[|d| - 1].value.items| else 0;
      assert forall i | 0 <= i < |d| - 1 :: d[i] == d[..|d| - 1][i];
      if n < last then last else n
  }

  // ===========================================================================
  // The run

  /** `get_posts_on_page` on page `i` of a community, as the post pass sees it. */
  function PageScraper(listing: string -> ListingPage, read: Reader): (string, int) -> seq<Post> {
    (url, i) => PostsOnPage(listing(PageUrl(url, i)), read)
  }

  /** `get_replies_for_post` on a post URL, as the reply pass sees it. */
  function ReplyScraper(pages: string -> ReplyPage, read: Reader): string -> seq<Reply> {
    url => RepliesForPost(pages(url), read)
  }

  /** `_load_data_and_progress`: the posts and the processed list are what the files hold. */
  function Loaded(c: Crawler): Crawler {
    c.(posts := c.postsFile, processed := c.progressFile)
  }

  /** The reply pass started on a crawler's state. */
  function StartReplies(c: Crawler): RepliesPass {
    RepliesPass(c.posts, c.processed, c.postsFile, c.progressFile, [])
  }

  function EndReplies(r: RepliesPass): Crawler {
    Crawler(r.posts, r.processed, r.postsFile, r.progressFile)
  }

  /** `run`: load, the post pass, and, unless it raised, the reply pass; an escaping exception ends the run. */
  function Ran(c: Crawler, communities: Dict<Community>, scrape: (string, int) -> seq<Post>, fetch: string -> seq<Reply>): Crawler {
    var c1 := Loaded(c);
    var p := AllPosts(PostsPass(c1.posts, c1.postsFile, [], 0), communities, scrape);
    var c2 := c1.(posts := p.state.posts, postsFile := p.state.file);
    if p.Escaped? then c2 else EndReplies(AllReplies(StartReplies(c2), |c2.posts|, fetch))
  }

  /**
   * Over a whole run the processed list read from the progress file is kept
   * as a prefix, everything added is a non-empty URL not in it, and a list
   * without duplicates stays without them; the progress file is the file read
   * or the final list.
   */
  lemma RunEffect(c: Crawler, communities: Dict<Community>, scrape: (string, int) -> seq<Post>, fetch: string -> seq<Reply>)
    ensures var r := Ran(c, communities, scrape, fetch);
      && c.progressFile <= r.processed
      && (forall i | |c.progressFile| <= i < |r.processed| :: r.processed[i] != "" && r.processed[i] !in c.progressFile)
      && (Distinct(c.progressFile) ==> Distinct(r.processed))
      && (r.progressFile == c.progressFile || r.progressFile == r.processed)
  {
    var c1 := Loaded(c);
    var p := AllPosts(PostsPass(c1.posts, c1.postsFile, [], 0), communities, scrape);
    var c2 := c1.(posts := p.state.posts, postsFile := p.state.file);
    if p.Going? {
      var s0 := StartReplies(c2);
      RepliesEffect(s0, fetch);
      var q := AllReplies(s0, |s0.posts|, fetch);
      assert q.processed == c.progressFile + q.fetched;
      forall i | |c.progressFile| <= i < |q.processed| ensures q.processed[i] != "" && q.processed[i] !in c.progressFile {
        assert q.processed[i] == q.fetched[i - |c.progressFile|];
      }
    }
  }

  /** A page loop that is still going takes one more page by one more step. */
  lemma PageLoopNext(s: PostsPass, key: string, url: string, lo: int, i: int, scrape: (string, int) -> seq<Post>)
    requires lo <= i && PageLoop(s, key, url, lo, i, scrape).Going?
    ensures PageLoop(s, key, url, lo, i + 1, scrape) == PageStep(PageLoop(s, key, url, lo, i, scrape).state, key, url, i, scrape)
  {
  }

  /** A loop that reached `g` at page `i` and whose step there ends in `t` reaches `t` at page `i + 1`. */
  lemma PageLoopAdvance(s: PostsPass, key: string, url: string, lo: int, i: int, scrape: (string, int) -> seq<Post>,
                        g: PostsPass, t: PostsPass, escaped: bool)
    requires lo <= i && PageLoop(s, key, url, lo, i, scrape) == Going(g)
    requires escaped == PageStep(g, key, url, i, scrape).Escaped? && t == PageStep(g, key, url, i, scrape).state
    ensures PageLoop(s, key, url, lo, i + 1, scrape) == if escaped then Escaped(t) else Going(t)
  {
    PageLoopNext(s, key, url, lo, i, scrape);
  }

  /** Once a page loop escapes, the later pages change nothing. */
  lemma {:induction false} PageLoopStays(s: PostsPass, key: string, url: string, lo: int, i: int, hi: int,
                                         scrape: (string, int) -> seq<Post>)
    requires lo <= i <= hi && PageLoop(s, key, url, lo, i, scrape).Escaped?
    ensures PageLoop(s, key, url, lo, hi, scrape) == PageLoop(s, key, url, lo, i, scrape)
    decreases hi - lo
  {
    if i < hi {
      PageLoopStays(s, key, url, lo, i, hi - 1, scrape);
    }
  }

  lemma {:induction false} AllPostsStays(s: PostsPass, communities: Dict<Community>, i: nat, scrape: (string, int) -> seq<Post>)
    requires i <= |communities| && AllPosts(s, communities[..i], scrape).Escaped?
    ensures AllPosts(s, communities, scrape) == AllPosts(s, communities[..i], scrape)
    decreases |communities|
  {
    if i < |communities| {
      assert communities[..|communities| - 1][..i] == communities[..i];
      AllPostsStays(s, communities[..|communities| - 1], i, scrape);
    } else {
      assert communities[..i] == communities;
    }
  }

  // ===========================================================================
  // The crawler object

  class DongchediCrawler {
    var posts: Dict<Slot<Post>>
    var processed: seq<string>
    var postsFile: Dict<Slot<Post>>
    var progressFile: seq<string>
    /** The pages the last post pass requested and how often it wrote the posts file. */
    ghost var requested: seq<(string, int)>
    ghost var pageSaves: nat
    /** The URLs whose replies the last reply pass read. */
    ghost var fetched: seq<string>

    function State(): Crawler
      reads this
    {
      Crawler(posts, processed, postsFile, progressFile)
    }

    /** The object seen as the post pass's state. */
    ghost function PostsNow(): PostsPass
      reads this
    {
      PostsPass(posts, postsFile, requested, pageSaves)
    }

    /** The object seen as the reply pass's state. */
    ghost function RepliesNow(): RepliesPass
      reads this
    {
      RepliesPass(posts, processed, postsFile, progressFile, fetched)
    }

    /** `__init__`: no posts and nothing processed; the files hold what they hold. */
    constructor (postsFile: Dict<Slot<Post>>, progressFile: seq<string>)
      ensures State() == Crawler([], [], postsFile, progressFile)
      ensures requested == [] && pageSaves == 0 && fetched == []
    {
      posts, processed := [], [];
      this.postsFile, this.progressFile := postsFile, progressFile;
      requested, pageSaves, fetched := [], 0, [];
    }

    method LoadDataAndProgress()
      modifies this
      ensures State() == Loaded(old(State()))
      ensures requested == old(requested) && pageSaves == old(pageSaves) && fetched == old(fetched)
    {
      posts := postsFile;
      processed := progressFile;
    }

    /** `_save_data` */
    method SaveData()
      modifies this
      ensures State() == old(State()).(postsFile := old(posts))
      ensures requested == old(requested) && pageSaves == old(pageSaves) && fetched == old(fetched)
    {
      postsFile := posts;
    }

    /** `_save_progress` */
    method SaveProgress()
      modifies this
      ensures State() == old(State()).(progressFile := old(processed))
      ensures requested == old(requested) && pageSaves == old(pageSaves) && fetched == old(fetched)
    {
      progressFile := processed;
    }

    /** One page of `scrape_posts`: read its posts, extend the community's list, write the file. */
    method ScrapePage(key: string, url: string, i: int, listing: string -> ListingPage, read: Reader) returns (escaped: bool)
      modifies this
      ensures var r := PageStep(old(PostsNow()), key, url, i, PageScraper(listing, read));
        escaped == r.Escaped? && PostsNow() == r.state
      ensures processed == old(processed) && progressFile == old(progressFile) && fetched == old(fetched)
    {
      requested := requested + [(url, i)];
      var found := GetPostsOnPage(listing(PageUrl(url, i)), read);
      var extended := Extend(posts, key, found);
      if extended.None? {
        return true;
      }
      posts := extended.value;
      SaveData();
      pageSaves := pageSaves + 1;
      return false;
    }

    /** The page loop `for i in range(lo, hi)` of `scrape_posts` for one community. */
    method ScrapePages(key: string, url: string, lo: int, hi: int, listing: string -> ListingPage, read: Reader) returns (escaped: bool)
      modifies this
      ensures var r := PageLoop(old(PostsNow()), key, url, lo, hi, PageScraper(listing, read));
        escaped == r.Escaped? && PostsNow() == r.state
      ensures processed == old(processed) && progressFile == old(progressFile) && fetched == old(fetched)
    {
      ghost var sc := PageScraper(listing, read);
      ghost var s0 := PostsNow();
      ghost var g := s0;
      var i := lo;
      while i < hi
        invariant lo <= i && (i <= hi || i == lo)
        invariant PageLoop(s0, key, url, lo, i, sc) == Going(g) && g == PostsNow()
        invariant processed == old(processed) && progressFile == old(progressFile) && fetched == old(fetched)
        decreases hi - i
      {
        escaped := ScrapePage(key, url, i, listing, read);
        PageLoopAdvance(s0, key, url, lo, i, sc, g, PostsNow(), escaped);
        g := PostsNow();
        if escaped {
          PageLoopStays(s0, key, url, lo, i + 1, hi, sc);
          return;
        }
        i := i + 1;
      }
      assert PageLoop(s0, key, url, lo, hi, sc) == Going(g);
      return false;
    }

    /** `if community_key not in self.posts: self.posts[community_key] = []` */
    method InsertCommunity(key: string)
      modifies this
      ensures PostsNow() == Inserted(old(PostsNow()), key)
      ensures Get(posts, key) == Some(Stored(old(posts), key))
      ensures processed == old(processed) && progressFile == old(progressFile) && fetched == old(fetched)
    {
      if !Has(posts, key) {
        InsertEmpty(posts, key);
        posts := Put(posts, key, Items([]));
      }
    }

    /** One community of `scrape_posts`. */
    method ScrapeCommunity(e: Entry<Community>, listing: string -> ListingPage, read: Reader) returns (escaped: bool)
      modifies this
      ensures var r := CommunityPosts(old(PostsNow()), e, PageScraper(listing, read));
        escaped == r.Escaped? && PostsNow() == r.state
      ensures processed == old(processed) && progressFile == old(progressFile) && fetched == old(fetched)
    {
      if e.value.url.None? {
        return true;
      }
      ghost var s := PostsNow();
      ghost var sc := PageScraper(listing, read);
      var url := e.value.url.value;
      InsertCommunity(e.key);
      ghost var s1 := PostsNow();
      var size := Len(Get(posts, e.key).value);
      if size.Raised? {
        assert CommunityPosts(s, e, sc) == Escaped(s1);
        return true;
      }
      assert size == Len(Stored(s.posts, e.key)) && s1 == Inserted(s, e.key);
      var start, end := PageOffset(e.value) + size.value, TotalPages(e.value) + PageOffset(e.value);
      CommunityIsLoop(s, e, sc, s1, url, size.value, start, end);
      if start > end {
        assert PageLoop(s1, e.key, url, start, end, sc) == Going(s1);
        return false;
      }
      escaped := ScrapePages(e.key, url, start, end, listing, read);
    }

    /** `scrape_posts`: every community in settings order, until an exception escapes. */
    method ScrapePosts(communities: Dict<Community>, listing: string -> ListingPage, read: Reader) returns (escaped: bool)
      modifies this
      ensures var r := AllPosts(PostsPass(old(posts), old(postsFile), [], 0), communities, PageScraper(listing, read));
        escaped == r.Escaped? && PostsNow() == r.state
      ensures processed == old(processed) && progressFile == old(progressFile) && fetched == old(fetched)
    {
      ghost var sc := PageScraper(listing, read);
      requested, pageSaves := [], 0;
      ghost var s0 := PostsNow();
      escaped := false;
      var i := 0;
      while i < |communities| && !escaped
        invariant 0 <= i <= |communities|
        invariant var r := AllPosts(s0, communities[..i], sc); escaped == r.Escaped? && PostsNow() == r.state
        invariant processed == old(processed) && progressFile == old(progressFile) && fetched == old(fetched)
      {
        assert communities[..i + 1][..i] == communities[..i];
        escaped := ScrapeCommunity(communities[i], listing, read);
        i := i + 1;
      }
      if escaped {
        AllPostsStays(s0, communities, i, sc);
      } else {
        assert communities[..i] == communities;
      }
    }

    /** One post of `scrape_replies`: a post with a URL not yet processed gets its replies, and both files are written. */
    method ScrapeReply(m: nat, j: nat, pages: string -> ReplyPage, read: Reader)
      requires ListAt(posts, m) && j < |posts[m].value.items|
      modifies this
      ensures RepliesNow() == ReplyStep(old(RepliesNow()), m, j, ReplyScraper(pages, read))
      ensures ListAt(posts, m) && |posts[m].value.items| == |old(posts)[m].value.items|
      ensures requested == old(requested) && pageSaves == old(pageSaves)
    {
      var post := posts[m].value.items[j];
      if post.url != "" && post.url !in processed {
        var replies := GetRepliesForPost(pages(post.url), read);
        posts := posts[m := Entry(posts[m].key, Items(posts[m].value.items[j := post.(replies := post.replies + replies)]))];
        processed := processed + [post.url];
        fetched := fetched + [post.url];
        SaveData();
        SaveProgress();
      }
    }

    /** The post loop of `scrape_replies` over the list in entry `m`. */
    method ScrapeList(m: nat, pages: string -> ReplyPage, read: Reader)
      requires ListAt(posts, m)
      modifies this
      ensures RepliesNow() == ListReplies(old(RepliesNow()), m, |old(posts)[m].value.items|, ReplyScraper(pages, read))
      ensures requested == old(requested) && pageSaves == old(pageSaves)
    {
      ghost var fetch := ReplyScraper(pages, read);
      ghost var s0 := RepliesNow();
      var n := |posts[m].value.items|;
      var j := 0;
      while j < n
        invariant 0 <= j <= n
        invariant ListAt(posts, m) && |posts[m].value.items| == n
        invariant RepliesNow() == ListReplies(s0, m, j, fetch)
        invariant requested == old(requested) && pageSaves == old(pageSaves)
      {
        ScrapeReply(m, j, pages, read);
        j := j + 1;
      }
    }

    /** `scrape_replies`: every list in the dict's order; any other value is skipped. */
    method ScrapeReplies(pages: string -> ReplyPage, read: Reader)
      modifies this
      ensures RepliesNow() == AllReplies(StartReplies(old(State())), |old(posts)|, ReplyScraper(pages, read))
      ensures requested == old(requested) && pageSaves == old(pageSaves)
    {
      ghost var fetch := ReplyScraper(pages, read);
      fetched := [];
      ghost var s0 := RepliesNow();
      var m := 0;
      while m < |posts|
        invariant |s0.posts| == |old(posts)| && 0 <= m <= |s0.posts|
        invariant RepliesNow() == AllReplies(s0, m, fetch)
        invariant |posts| == |s0.posts|
        invariant requested == old(requested) && pageSaves == old(pageSaves)
      {
        if ListAt(posts, m) {
          ScrapeList(m, pages, read);
        }
        m := m + 1;
        AllRepliesKeeps(s0, m, fetch);
      }
    }

    /** `run`, with the browser set up and logged in; an exception escaping the post pass ends it. */
    method Run(communities: Dict<Community>, listing: string -> ListingPage, pages: string -> ReplyPage, read: Reader)
      modifies this
      ensures State() == Ran(old(State()), communities, PageScraper(listing, read), ReplyScraper(pages, read))
    {
      LoadDataAndProgress();
      var escaped := ScrapePosts(communities, listing, read);
      if !escaped {
        ScrapeReplies(pages, read);
      }
    }
  }
}
