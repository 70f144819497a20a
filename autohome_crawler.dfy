/**
 * The Autohome crawler: per-community dicts of stored posts and of collected
 * post links, and the set of post URLs already scraped.  A link pass walks
 * each community's listing pages and appends their links; a detail pass reads
 * every link not yet scraped, appends the post to its community, records the
 * URL, and saves every ten posts.
 *
 * The JSON files are fields holding what a read of each file gives; a file
 * that is missing or does not parse reads as an empty dict.  The browser is a
 * pair of oracles from URL to page.  Each pass is specified by a function of
 * the state it starts from, over a `Step`: the state reached, and whether an
 * exception escaped (which `run` then swallows).
 */
module AutohomeCrawler {
  import opened Wrappers
  import opened Text
  import opened Clock
  import opened PyDict
  import opened AutohomeScraper

  /** What `read_json` gives for a data file: a dict, or some other JSON value. */
  datatype DictFile<T> = NotADict | ADict(dict: Dict<Slot<T>>)

  /**
   * What `read_json` gives for the progress file: a list of URLs (read into a
   * set), a list holding an element that cannot be hashed such as `[[1]]`
   * (`set(...)` raises a TypeError), or some other JSON value.
   */
  datatype ListFile = NotAList | AList(urls: set<string>) | Unhashable

  // ===========================================================================
  // Loading

  function AsDict<T>(f: DictFile<T>): Dict<Slot<T>> {
    match f
    case ADict(d) => d
    case NotADict => []
  }

  function AsSet(f: ListFile): set<string> {
    match f
    case AList(urls) => urls
    case _ => {}
  }

  /** One turn of the normalising loop: a missing or non-list value becomes an empty list. */
  function EnsureList<T>(d: Dict<Slot<T>>, key: string): Dict<Slot<T>> {
    if IsList(d, key) then d else Put(d, key, Items([]))
  }

  /** The normalising loop over the community keys. */
  function EnsureLists<T>(d: Dict<Slot<T>>, keys: seq<string>): Dict<Slot<T>>
    decreases |keys|
  {
    if keys == [] then d else EnsureList(EnsureLists(d, keys[..|keys| - 1]), keys[|keys| - 1])
  }

  /** One turn makes its key a list, keeps a list that was there, and touches no other key. */
  lemma EnsureListEffect<T>(d: Dict<Slot<T>>, key: string)
    ensures IsList(EnsureList(d, key), key)
    ensures IsList(d, key) ==> Get(EnsureList(d, key), key) == Get(d, key)
    ensures forall k | k != key :: Get(EnsureList(d, key), k) == Get(d, k)
    ensures UniqueKeys(d) ==> UniqueKeys(EnsureList(d, key))
  {
    if !IsList(d, key) {
      PutEffect(d, key, Items([]));
    }
  }

  /**
   * After loading, every community key holds a list; a key that held a list
   * keeps it, and keys of no community keep their values, so a dict read from
   * a file keeps its unique keys.
   */
  lemma {:induction false} EnsureListsEffect<T>(d: Dict<Slot<T>>, keys: seq<string>)
    ensures forall k | k in keys :: IsList(EnsureLists(d, keys), k)
    ensures forall k | IsList(d, k) :: Get(EnsureLists(d, keys), k) == Get(d, k)
    ensures forall k | k !in keys :: Get(EnsureLists(d, keys), k) == Get(d, k)
    ensures UniqueKeys(d) ==> UniqueKeys(EnsureLists(d, keys))
    decreases |keys|
  {
    if keys != [] {
      var init, last := keys[..|keys| - 1], keys[|keys| - 1];
      EnsureListsEffect(d, init);
      var e := EnsureLists(d, init);
      EnsureListEffect(e, last);
      assert keys == init + [last];
    }
  }

  /** The crawler's in-memory state and its three files. */
  datatype Crawler = Crawler(posts: Dict<Slot<Post>>, links: Dict<Slot<string>>, processed: set<string>,
                             postsFile: DictFile<Post>, linksFile: DictFile<string>, progressFile: ListFile)

  /**
   * `_load_data_and_progress`: the files read and normalised over the community
   * keys.  An unhashable progress list raises before the processed set is
   * assigned, so the set is then the one held before.
   */
  function Loaded(c: Crawler, keys: seq<string>): Crawler {
    c.(posts := EnsureLists(AsDict(c.postsFile), keys), links := EnsureLists(AsDict(c.linksFile), keys),
       processed := if c.progressFile.Unhashable? then c.processed else AsSet(c.progressFile))
  }

  // ===========================================================================
  // The link pass

  /** A part of a URL template: literal text, the `{page_num}` field, or a field of another name. */
  datatype Part = Lit(text: string) | PageNum | Field(name: string)

  type Template = seq<Part>

  /** `template.format(page_num=n)`, None when a field other than `page_num` raises a KeyError. */
  function Format(t: Template, n: int): Option<string>
    decreases |t|
  {
    if t == [] then Some("")
    else
      match (t[0], Format(t[1..], n))
      case (Field(_), _) => None
      case (_, None) => None
      case (Lit(s), Some(rest)) => Some(s + rest)
      case (PageNum, Some(rest)) => Some(IntToString(n) + rest)
  }

  predicate HasOtherField(t: Template) {
    exists i | 0 <= i < |t| :: t[i].Field?
  }

  /** Formatting fails exactly for a template with another field, whatever the page number. */
  lemma {:induction false} FormatFailsOnOtherField(t: Template, n: int)
    ensures Format(t, n).None? <==> HasOtherField(t)
    decreases |t|
  {
    if t != [] {
      FormatFailsOnOtherField(t[1..], n);
      if HasOtherField(t[1..]) {
        var i :| 0 <= i < |t[1..]| && t[1..][i].Field?;
        assert t[i + 1].Field?;
      }
      if HasOtherField(t) && !t[0].Field? {
        var i :| 0 <= i < |t| && t[i].Field?;
        assert t[1..][i - 1].Field?;
      }
    }
  }

  /** A community's settings: its URL template (None when the key is missing), `total_pages` and `page_offset`. */
  datatype Community = Community(template: Option<Template>, totalPages: Option<int>, pageOffset: Option<int>)

  function TotalPages(c: Community): int {
    c.totalPages.GetOr(1)
  }

  function PageOffset(c: Community): int {
    c.pageOffset.GetOr(0)
  }

  /** `[i + 1 for i in range(page_offset, total_pages + page_offset)]` */
  function PageNumbers(c: Community): seq<int> {
    var total := if TotalPages(c) > 0 then TotalPages(c) else 0;
    seq(total, i requires 0 <= i < total => PageOffset(c) + i + 1)
  }

  /** Pages `page_offset + 1` to `page_offset + total_pages`, ascending, each once; none when `total_pages` is not positive. */
  lemma PageNumbersRange(c: Community)
    ensures var ns := PageNumbers(c);
      && |ns| == (if TotalPages(c) > 0 then TotalPages(c) else 0)
      && (ns != [] ==> ns[0] == PageOffset(c) + 1 && ns[|ns| - 1] == PageOffset(c) + TotalPages(c))
      && (forall i, j | 0 <= i < j < |ns| :: ns[i] < ns[j])
      && (forall n :: n in ns <==> PageOffset(c) + 1 <= n <= PageOffset(c) + TotalPages(c))
  {
    var ns := PageNumbers(c);
    forall n | PageOffset(c) + 1 <= n <= PageOffset(c) + TotalPages(c) ensures n in ns {
      assert ns[n - PageOffset(c) - 1] == n;
    }
  }

  /**
   * The link pass's state: the links dict, the links file, the listing pages
   * requested as (community, page number), and how often the file was written.
   */
  datatype LinkState = LinkState(links: Dict<Slot<string>>, file: DictFile<string>, requested: seq<(string, int)>, saves: nat)

  /** The links a page with a formattable URL contributes. */
  function PageFound(t: Template, n: int, listing: string -> LinksPage): seq<string> {
    match Format(t, n)
    case None => []
    case Some(url) => DetailLinks(listing(url))
  }

  /** One turn of the page loop: format the URL (skip the page on a KeyError), read the page, extend the community's list, save. */
  function PageLinks(s: LinkState, key: string, t: Template, n: int, listing: string -> LinksPage): Step<LinkState> {
    match Format(t, n)
    case None => Going(s)
    case Some(url) =>
      var s1 := s.(requested := s.requested + [(key, n)]);
      match Extend(s.links, key, DetailLinks(listing(url)))
      case None => Escaped(s1)
      case Some(d) => Going(s1.(links := d, file := ADict(d), saves := s.saves + 1))
  }

  /** The page loop over the first pages of `ns`. */
  function CommunityLinks(s: LinkState, key: string, t: Template, ns: seq<int>, listing: string -> LinksPage): Step<LinkState>
    decreases |ns|
  {
    if ns == [] then Going(s)
    else
      match CommunityLinks(s, key, t, ns[..|ns| - 1], listing)
      case Escaped(e) => Escaped(e)
      case Going(g) => PageLinks(g, key, t, ns[|ns| - 1], listing)
  }

  /** All the links the pages of `ns` contribute, in page order. */
  function FoundLinks(t: Template, ns: seq<int>, listing: string -> LinksPage): seq<string>
    decreases |ns|
  {
    if ns == [] then [] else FoundLinks(t, ns[..|ns| - 1], listing) + PageFound(t, ns[|ns| - 1], listing)
  }

  /** The requests the pages of `ns` make for a community. */
  function Requests(key: string, t: Template, ns: seq<int>): seq<(string, int)> {
    if HasOtherField(t) then [] else seq(|ns|, i requires 0 <= i < |ns| => (key, ns[i]))
  }

  /** A template with another field skips every page: the page loop changes nothing. */
  lemma {:induction false} OtherFieldSkipsPages(s: LinkState, key: string, t: Template, ns: seq<int>, listing: string -> LinksPage)
    requires HasOtherField(t)
    ensures CommunityLinks(s, key, t, ns, listing) == Going(s) && FoundLinks(t, ns, listing) == []
    decreases |ns|
  {
    if ns != [] {
      OtherFieldSkipsPages(s, key, t, ns[..|ns| - 1], listing);
      FormatFailsOnOtherField(t, ns[|ns| - 1]);
    }
  }

  /**
   * The page loop of one community requests every page of `ns` in order (none
   * when the template has another field) and writes the links file after
   * each request; a loop that requests nothing changes nothing.
   */
  lemma {:induction false} CommunityRequests(s: LinkState, key: string, t: Template, ns: seq<int>, listing: string -> LinksPage)
    ensures var r := CommunityLinks(s, key, t, ns, listing);
      r.Going? ==>
        && r.state.requested == s.requested + Requests(key, t, ns)
        && r.state.saves == s.saves + |Requests(key, t, ns)|
        && (r.state.saves != s.saves ==> r.state.file == ADict(r.state.links))
        && (r.state.saves == s.saves ==> r.state == s)
    decreases |ns|
  {
    if HasOtherField(t) {
      OtherFieldSkipsPages(s, key, t, ns, listing);
    } else if ns != [] {
      var init, n := ns[..|ns| - 1], ns[|ns| - 1];
      CommunityRequests(s, key, t, init, listing);
      FormatFailsOnOtherField(t, n);
      assert Requests(key, t, ns) == Requests(key, t, init) + [(key, n)];
    }
  }

  /** One page of a template without another field extends the community's list by the page's links, or escapes when it holds a non-list. */
  lemma PageLinksEffect(g: LinkState, key: string, t: Template, n: int, listing: string -> LinksPage)
    requires !HasOtherField(t)
    ensures var r := PageLinks(g, key, t, n, listing);
      && (r.Escaped? <==> ListOr(g.links, key).None?)
      && (r.Going? ==> r.state.links == Extend(g.links, key, PageFound(t, n, listing)).value)
  {
    FormatFailsOnOtherField(t, n);
  }

  /** A page that is read and does not raise appends its links after the community's list. */
  lemma PageLinksAppend(g: LinkState, key: string, t: Template, n: int, listing: string -> LinksPage)
    requires !HasOtherField(t)
    ensures var r := PageLinks(g, key, t, n, listing);
      r.Going? ==> ListOr(g.links, key).Some? && Get(r.state.links, key) == Some(Items(ListOr(g.links, key).value + PageFound(t, n, listing)))
  {
    PageLinksEffect(g, key, t, n, listing);
    ExtendEffect(g.links, key, PageFound(t, n, listing));
  }

  /**
   * Unless an exception escapes, the community's links are its old links (none
   * when it had no entry) followed by every page's links.
   */
  lemma {:induction false} CommunityLinksEffect(s: LinkState, key: string, t: Template, ns: seq<int>, listing: string -> LinksPage)
    ensures var r := CommunityLinks(s, key, t, ns, listing);
      r.Going? && Requests(key, t, ns) != [] ==>
        ListOr(s.links, key).Some? && Get(r.state.links, key) == Some(Items(ListOr(s.links, key).value + FoundLinks(t, ns, listing)))
    decreases |ns|
  {
    if HasOtherField(t) {
      OtherFieldSkipsPages(s, key, t, ns, listing);
    } else if ns != [] {
      var init, n := ns[..|ns| - 1], ns[|ns| - 1];
      var q := CommunityLinks(s, key, t, init, listing);
      if q.Going? {
        var g := q.state;
        PageLinksAppend(g, key, t, n, listing);
        assert CommunityLinks(s, key, t, ns, listing) == PageLinks(g, key, t, n, listing);
        var b := PageFound(t, n, listing);
        assert FoundLinks(t, ns, listing) == FoundLinks(t, init, listing) + b;
        if init == [] {
          assert g == s;
          assert FoundLinks(t, ns, listing) == b;
        } else {
          CommunityLinksEffect(s, key, t, init, listing);
          assert |Requests(key, t, init)| == |init|;
          var xs, a := ListOr(s.links, key).value, FoundLinks(t, init, listing);
          assert Get(g.links, key) == Some(Items(xs + a));
          assert ListOr(g.links, key) == Some(xs + a);
          assert (xs + a) + b == xs + (a + b);
        }
      }
    }
  }

  /** The page loop escapes exactly when some page is read and the community holds a value that is not a list. */
  lemma {:induction false} CommunityLinksRaises(s: LinkState, key: string, t: Template, ns: seq<int>, listing: string -> LinksPage)
    ensures CommunityLinks(s, key, t, ns, listing).Escaped? <==> Requests(key, t, ns) != [] && ListOr(s.links, key).None?
    decreases |ns|
  {
    if HasOtherField(t) {
      OtherFieldSkipsPages(s, key, t, ns, listing);
    } else if ns != [] {
      var init, n := ns[..|ns| - 1], ns[|ns| - 1];
      CommunityLinksRaises(s, key, t, init, listing);
      CommunityLinksEffect(s, key, t, init, listing);
      assert |Requests(key, t, ns)| == |ns| && |Requests(key, t, init)| == |init|;
      var q := CommunityLinks(s, key, t, init, listing);
      if q.Going? {
        PageLinksEffect(q.state, key, t, n, listing);
        if init == [] {
          assert q.state == s;
        }
      }
    }
  }

  /** The page loop of one community touches no other community, and keeps the keys unique. */
  lemma {:induction false} CommunityLinksOthers(s: LinkState, key: string, t: Template, ns: seq<int>, listing: string -> LinksPage)
    ensures var r := CommunityLinks(s, key, t, ns, listing);
      && (r.Going? ==> forall k | k != key :: Get(r.state.links, k) == Get(s.links, k))
      && (r.Going? && UniqueKeys(s.links) ==> UniqueKeys(r.state.links))
    decreases |ns|
  {
    if HasOtherField(t) {
      OtherFieldSkipsPages(s, key, t, ns, listing);
    } else if ns != [] {
      var init, n := ns[..|ns| - 1], ns[|ns| - 1];
      CommunityLinksOthers(s, key, t, init, listing);
      var q := CommunityLinks(s, key, t, init, listing);
      if q.Going? {
        var g := q.state;
        PageLinksEffect(g, key, t, n, listing);
        ExtendEffect(g.links, key, PageFound(t, n, listing));
      }
    }
  }

  /** One community: a missing URL template raises a KeyError before any page. */
  function CommunityStep(s: LinkState, e: Entry<Community>, listing: string -> LinksPage): Step<LinkState> {
    match e.value.template
    case None => Escaped(s)
    case Some(t) => CommunityLinks(s, e.key, t, PageNumbers(e.value), listing)
  }

  /** `scrape_links`: the community loop over the first communities of the settings. */
  function AllLinks(s: LinkState, communities: Dict<Community>, listing: string -> LinksPage): Step<LinkState>
    decreases |communities|
  {
    if communities == [] then Going(s)
    else
      match AllLinks(s, communities[..|communities| - 1], listing)
      case Escaped(e) => Escaped(e)
      case Going(g) => CommunityStep(g, communities[|communities| - 1], listing)
  }

  // ===========================================================================
  // The detail pass

  /**
   * The detail pass's state: the posts, the processed URLs, the session's
   * success count, the two files, the success counts at which the files were
   * written, the links fetched, and (community, URL) for each post appended.
   */
  datatype Session = Session(posts: Dict<Slot<Post>>, processed: set<string>, count: nat,
                             postsFile: DictFile<Post>, progressFile: ListFile,
                             saves: seq<nat>, fetched: seq<string>, posted: seq<(string, string)>)

  /** `_save_data_and_progress` */
  function SaveData(s: Session): Session {
    s.(postsFile := ADict(s.posts), progressFile := AList(s.processed), saves := s.saves + [s.count])
  }

  /**
   * One link: skipped when empty or processed; otherwise read, and on success
   * its post appended to the community (raising when it holds a non-list), the
   * URL recorded, the count raised, and the files written on a multiple of ten.
   */
  function LinkStep(s: Session, key: string, link: string, pages: string -> PostPage, read: Reader): Step<Session> {
    if link == "" || link in s.processed then Going(s)
    else AfterFetch(s.(fetched := s.fetched + [link]), key, link, PostDetail(link, pages(link), read))
  }

  /** What a fetched link's detail does to the session. */
  function AfterFetch(s: Session, key: string, link: string, detail: Option<Post>): Step<Session> {
    match detail
    case None => Going(s)
    case Some(post) =>
      match Extend(s.posts, key, [post])
      case None => Escaped(s)
      case Some(d) =>
        var s2 := WithPost(s, key, link, d);
        Going(if s2.count % 10 == 0 then SaveData(s2) else s2)
  }

  /** The loop over one community's links. */
  function ListDetails(s: Session, key: string, links: seq<string>, pages: string -> PostPage, read: Reader): Step<Session>
    decreases |links|
  {
    if links == [] then Going(s)
    else
      match ListDetails(s, key, links[..|links| - 1], pages, read)
      case Escaped(e) => Escaped(e)
      case Going(g) => LinkStep(g, key, links[|links| - 1], pages, read)
  }

  /** The loop over the communities' links, skipping values that are not lists. */
  function EntriesDetails(s: Session, es: Dict<Slot<string>>, pages: string -> PostPage, read: Reader): Step<Session>
    decreases |es|
  {
    if es == [] then Going(s)
    else
      match EntriesDetails(s, es[..|es| - 1], pages, read)
      case Escaped(e) => Escaped(e)
      case Going(g) =>
        match es[|es| - 1].value
        case Items(links) => ListDetails(g, es[|es| - 1].key, links, pages, read)
        case Other(_) => Going(g)
  }

  /** `sum(len(v) for v in d.values())`, raising a TypeError at the first value without a length. */
  function TotalLen<T>(es: Dict<Slot<T>>): Outcome<nat>
    decreases |es|
  {
    if es == [] then Done(0)
    else
      match (TotalLen(es[..|es| - 1]), Len(es[|es| - 1].value))
      case (Done(a), Done(b)) => Done(a + b)
      case _ => Raised
  }

  /** The sum of the lengths raises exactly when some value has no length. */
  lemma {:induction false} TotalLenRaises<T>(es: Dict<Slot<T>>)
    ensures TotalLen(es).Raised? <==> exists i | 0 <= i < |es| :: Len(es[i].value).Raised?
    decreases |es|
  {
    if es != [] {
      var init := es[..|es| - 1];
      TotalLenRaises(init);
      if TotalLen(init).Raised? {
        var i :| 0 <= i < |init| && Len(init[i].value).Raised?;
        assert es[i] == init[i];
      }
      forall i | 0 <= i < |init| ensures es[i] == init[i] { }
    }
  }

  /** A session starts from the crawler's posts and processed set, with nothing counted, saved or fetched. */
  function StartSession(c: Crawler): Session {
    Session(c.posts, c.processed, 0, c.postsFile, c.progressFile, [], [], [])
  }

  /** `scrape_details`: nothing at all without links; otherwise the loops, then a final save. */
  function Details(s: Session, links: Dict<Slot<string>>, pages: string -> PostPage, read: Reader): Step<Session> {
    if links == [] then Going(s)
    else
      match TotalLen(links)
      case Raised => Escaped(s)
      case Done(total) =>
        if total == 0 then Going(s)
        else
          match EntriesDetails(s, links, pages, read)
          case Escaped(e) => Escaped(e)
          case Going(g) => Going(SaveData(g))
  }

  // ---------------------------------------------------------------------------
  // What a session keeps true

  /** The counts at which a session has saved when `c` posts have succeeded: 10, 20, … up to `c`. */
  function Tens(c: nat): seq<nat> {
    seq(c / 10, i requires 0 <= i < c / 10 => 10 * (i + 1))
  }

  /** Every list stored in `p0` is a prefix of the same key's list in `p`. */
  ghost predicate PostsGrow(p0: Dict<Slot<Post>>, p: Dict<Slot<Post>>) {
    forall k | IsList(p0, k) :: IsList(p, k) && Get(p0, k).value.items <= Get(p, k).value.items
  }

  /** Community `key` holds a list with a post for `url`. */
  ghost predicate HasPost(p: Dict<Slot<Post>>, key: string, url: string) {
    IsList(p, key) && exists i | 0 <= i < |Get(p, key).value.items| :: Get(p, key).value.items[i].url == url
  }

  function Urls(ps: seq<(string, string)>): seq<string> {
    seq(|ps|, i requires 0 <= i < |ps| => ps[i].1)
  }

  /** The post `url`'s page gives, as a list of at most one. */
  function ReadPost(url: string, pages: string -> PostPage, read: Reader): seq<Post> {
    match PostDetail(url, pages(url), read)
    case None => []
    case Some(p) => [p]
  }

  /** The posts read for the URLs recorded under `key`, in the order they were recorded. */
  function PostsRead(posted: seq<(string, string)>, key: string, pages: string -> PostPage, read: Reader): seq<Post>
    decreases |posted|
  {
    if posted == [] then []
    else
      PostsRead(posted[..|posted| - 1], key, pages, read)
      + (if posted[|posted| - 1].0 == key then ReadPost(posted[|posted| - 1].1, pages, read) else [])
  }

  /**
   * Every URL recorded was read from its page; each community's list is its
   * list at the start followed by exactly the posts read for the URLs recorded
   * under it, in that order; a community that held no list at the start had
   * nothing recorded under it; one with nothing recorded is as it was.
   */
  ghost predicate ListsAppended(s0: Session, s: Session, pages: string -> PostPage, read: Reader) {
    && (forall e | e in s.posted :: PostDetail(e.1, pages(e.1), read).Some?)
    && forall k: string :: KeyAppended(s0.posts, s.posts, PostsRead(s.posted, k, pages, read), k)
  }

  /** Key `k` of `p` is its list in `p0` followed by `added`, and is as it was in `p0` when nothing was added. */
  predicate KeyAppended(p0: Dict<Slot<Post>>, p: Dict<Slot<Post>>, added: seq<Post>, k: string) {
    && (ListOr(p0, k).Some? ==> ListOr(p, k) == Some(ListOr(p0, k).value + added))
    && (ListOr(p0, k).None? ==> added == [])
    && (added == [] ==> Get(p, k) == Get(p0, k))
  }

  /**
   * From the session start `s0` to `s`: every link fetched was neither empty
   * nor processed at the start; the URLs recorded are exactly the start's plus
   * those of the posts appended, each once, as many as the count; each
   * community's list is its start list followed by the posts read for the URLs
   * recorded under it; and the files were written at 10, 20, … successes.
   */
  ghost predicate SessionKeeps(s0: Session, s: Session, pages: string -> PostPage, read: Reader) {
    SessionIntact(s0, s, pages, read) && s.saves == s0.saves + Tens(s.count)
  }

  /** What a session keeps, the saves apart. */
  ghost predicate SessionIntact(s0: Session, s: Session, pages: string -> PostPage, read: Reader) {
    && s0.count == 0 && s0.fetched == [] && s0.posted == []
    && (forall i | 0 <= i < |s.fetched| :: s.fetched[i] != "" && s.fetched[i] !in s0.processed)
    && PostedFor(s) && Recorded(s0, s) && ListsAppended(s0, s, pages, read)
    && PostsGrow(s0.posts, s.posts)
  }

  /** Every URL recorded was fetched and has its post under its community. */
  ghost predicate PostedFor(s: Session) {
    forall e | e in s.posted :: e.1 in s.fetched && HasPost(s.posts, e.0, e.1)
  }

  /** The processed URLs are the start's and the recorded ones, each recorded once, as many as the count. */
  ghost predicate Recorded(s0: Session, s: Session) {
    && s.processed == s0.processed + (set i | 0 <= i < |s.posted| :: s.posted[i].1)
    && Distinct(Urls(s.posted)) && s.count == |s.posted|
  }

  lemma PostsGrowTransitive(a: Dict<Slot<Post>>, b: Dict<Slot<Post>>, c: Dict<Slot<Post>>)
    requires PostsGrow(a, b) && PostsGrow(b, c)
    ensures PostsGrow(a, c)
  {
  }

  /** Appending after a key's list keeps every stored post and adds one for the new post's URL. */
  lemma AppendKeepsPosts(p: Dict<Slot<Post>>, key: string, post: Post)
    requires Extend(p, key, [post]).Some?
    ensures var d := Extend(p, key, [post]).value;
      && PostsGrow(p, d) && HasPost(d, key, post.url)
      && (forall k, u | HasPost(p, k, u) :: HasPost(d, k, u))
  {
    var d := Extend(p, key, [post]).value;
    ExtendEffect(p, key, [post]);
    var xs := ListOr(p, key).value;
    assert Get(d, key).value.items == xs + [post];
    assert Get(d, key).value.items[|xs|].url == post.url;
    forall k, u | HasPost(p, k, u) ensures HasPost(d, k, u) {
      if k == key {
        var i :| 0 <= i < |Get(p, k).value.items| && Get(p, k).value.items[i].url == u;
        assert Get(d, k).value.items[i] == Get(p, k).value.items[i];
      }
    }
  }

  lemma TensStep(c: nat)
    ensures Tens(c + 1) == if (c + 1) % 10 == 0 then Tens(c) + [c + 1] else Tens(c)
  {
    if (c + 1) % 10 == 0 {
      assert (c + 1) / 10 == c / 10 + 1;
      assert Tens(c + 1)[c / 10] == c + 1;
    } else {
      assert (c + 1) / 10 == c / 10;
    }
  }

  /** Fetching a link that is neither empty nor processed keeps what a session keeps. */
  lemma FetchKeeps(s0: Session, s: Session, link: string, pages: string -> PostPage, read: Reader)
    requires SessionKeeps(s0, s, pages, read) && link != "" && link !in s.processed
    ensures SessionKeeps(s0, s.(fetched := s.fetched + [link]), pages, read)
  {
    var s1 := s.(fetched := s.fetched + [link]);
    assert s1.posts == s.posts && s1.posted == s.posted;
    assert forall i | 0 <= i < |s.fetched| :: s1.fetched[i] == s.fetched[i];
    assert forall i | 0 <= i < |s.posted| :: s.posted[i].1 in s1.fetched;
  }

  /** The recorded session one success makes. */
  function WithPost(s: Session, key: string, link: string, d: Dict<Slot<Post>>): Session {
    s.(posts := d, processed := s.processed + {link}, count := s.count + 1, posted := s.posted + [(key, link)])
  }

  lemma RecordKeepsPosted(s: Session, key: string, link: string, post: Post)
    requires PostedFor(s) && link in s.fetched && post.url == link && Extend(s.posts, key, [post]).Some?
    ensures PostedFor(WithPost(s, key, link, Extend(s.posts, key, [post]).value))
  {
    AppendKeepsPosts(s.posts, key, post);
  }

  lemma RecordKeepsRecorded(s0: Session, s: Session, key: string, link: string, d: Dict<Slot<Post>>)
    requires Recorded(s0, s) && link !in s.processed
    ensures Recorded(s0, WithPost(s, key, link, d))
  {
    var ps := s.posted + [(key, link)];
    assert Urls(ps) == Urls(s.posted) + [link];
    assert forall i | 0 <= i < |s.posted| :: Urls(s.posted)[i] == s.posted[i].1 && s.posted[i].1 in s.processed;
    assert (set i | 0 <= i < |ps| :: ps[i].1) == (set i | 0 <= i < |s.posted| :: s.posted[i].1) + {link} by {
      assert ps[|s.posted|].1 == link;
      assert forall i | 0 <= i < |s.posted| :: ps[i] == s.posted[i];
    }
  }

  /** Recording a fetched, unprocessed link with its appended post keeps what a session keeps, with or without the save on a tenth success. */
  lemma RecordKeeps(s0: Session, s: Session, key: string, link: string, post: Post, pages: string -> PostPage, read: Reader)
    requires SessionKeeps(s0, s, pages, read) && link in s.fetched && link !in s.processed && post.url == link
    requires PostDetail(link, pages(link), read) == Some(post) && Extend(s.posts, key, [post]).Some?
    ensures var s2 := WithPost(s, key, link, Extend(s.posts, key, [post]).value);
      SessionKeeps(s0, if s2.count % 10 == 0 then SaveData(s2) else s2, pages, read)
  {
    var d := Extend(s.posts, key, [post]).value;
    var s2 := WithPost(s, key, link, d);
    RecordIntact(s0, s, key, link, post, pages, read);
    SavesAfterRecord(s0.saves, s, s2);
    if s2.count % 10 == 0 {
      SaveKeepsIntact(s0, s2, pages, read);
    }
  }

  /** The saves after one more success: one more at a multiple of ten. */
  lemma SavesAfterRecord(saves0: seq<nat>, s: Session, s2: Session)
    requires s.saves == saves0 + Tens(s.count) && s2.count == s.count + 1 && s2.saves == s.saves
    ensures var s3 := if s2.count % 10 == 0 then SaveData(s2) else s2; s3.saves == saves0 + Tens(s3.count)
  {
    TensStep(s.count);
    if s2.count % 10 == 0 {
      assert SaveData(s2).saves == (saves0 + Tens(s.count)) + [s2.count];
    }
  }

  /** Writing the files changes nothing a session keeps, the saves apart. */
  lemma SaveKeepsIntact(s0: Session, s: Session, pages: string -> PostPage, read: Reader)
    requires SessionIntact(s0, s, pages, read)
    ensures SessionIntact(s0, SaveData(s), pages, read)
  {
    var s3 := SaveData(s);
    assert s3.posts == s.posts && s3.posted == s.posted && s3.fetched == s.fetched && s3.processed == s.processed;
    assert s3.(postsFile := s.postsFile, progressFile := s.progressFile, saves := s.saves) == s;
  }

  /** Recording one more URL under `key` appends the post read for it to that key's posts and to no other's. */
  lemma PostsReadStep(posted: seq<(string, string)>, key: string, link: string, post: Post, pages: string -> PostPage, read: Reader)
    requires PostDetail(link, pages(link), read) == Some(post)
    ensures forall k: string ::
      (PostsRead(posted + [(key, link)], k, pages, read) == PostsRead(posted, k, pages, read) + (if k == key then [post] else []))
  {
    var ps := posted + [(key, link)];
    assert ps[..|ps| - 1] == posted && ps[|ps| - 1] == (key, link);
    assert ReadPost(link, pages, read) == [post];
  }

  /** Appending `post` under `key` adds it to what `key` gained since `p0`, and leaves every other key as it was. */
  lemma KeyStep(p0: Dict<Slot<Post>>, p: Dict<Slot<Post>>, d: Dict<Slot<Post>>, before: seq<Post>, key: string, k: string, post: Post)
    requires KeyAppended(p0, p, before, k) && Extend(p, key, [post]) == Some(d)
    ensures KeyAppended(p0, d, before + (if k == key then [post] else []), k)
  {
    ExtendEffect(p, key, [post]);
    if k == key {
      assert before == [] ==> ListOr(p, k) == ListOr(p0, k);
      assert ListOr(p0, k).Some?;
      var xs := ListOr(p0, k).value;
      assert ListOr(p, k) == Some(xs + before);
      assert ListOr(d, k) == Some((xs + before) + [post]);
      assert (xs + before) + [post] == xs + (before + [post]);
    } else {
      assert Get(d, k) == Get(p, k);
      assert before + [] == before;
    }
  }

  lemma RecordKeepsLists(s0: Session, s: Session, key: string, link: string, post: Post, pages: string -> PostPage, read: Reader)
    requires ListsAppended(s0, s, pages, read) && PostDetail(link, pages(link), read) == Some(post)
    requires Extend(s.posts, key, [post]).Some?
    ensures ListsAppended(s0, WithPost(s, key, link, Extend(s.posts, key, [post]).value), pages, read)
  {
    var d := Extend(s.posts, key, [post]).value;
    var s2 := WithPost(s, key, link, d);
    ExtendEffect(s.posts, key, [post]);
    PostsReadStep(s.posted, key, link, post, pages, read);
    forall k: string ensures KeyAppended(s0.posts, d, PostsRead(s2.posted, k, pages, read), k) {
      KeyStep(s0.posts, s.posts, d, PostsRead(s.posted, k, pages, read), key, k, post);
    }
    forall e | e in s2.posted ensures PostDetail(e.1, pages(e.1), read).Some? {
      if e != (key, link) {
        assert e in s.posted;
      }
    }
  }

  lemma RecordIntact(s0: Session, s: Session, key: string, link: string, post: Post, pages: string -> PostPage, read: Reader)
    requires SessionIntact(s0, s, pages, read) && link in s.fetched && link !in s.processed && post.url == link
    requires PostDetail(link, pages(link), read) == Some(post) && Extend(s.posts, key, [post]).Some?
    ensures SessionIntact(s0, WithPost(s, key, link, Extend(s.posts, key, [post]).value), pages, read)
  {
    var d := Extend(s.posts, key, [post]).value;
    AppendKeepsPosts(s.posts, key, post);
    PostsGrowTransitive(s0.posts, s.posts, d);
    RecordKeepsPosted(s, key, link, post);
    RecordKeepsRecorded(s0, s, key, link, d);
    RecordKeepsLists(s0, s, key, link, post, pages, read);
  }

  /** One link keeps what a session keeps, whether it is skipped, fails, succeeds or raises. */
  lemma LinkStepKeeps(s0: Session, s: Session, key: string, link: string, pages: string -> PostPage, read: Reader)
    requires SessionKeeps(s0, s, pages, read)
    ensures SessionKeeps(s0, LinkStep(s, key, link, pages, read).state, pages, read)
  {
    if link != "" && link !in s.processed {
      var s1 := s.(fetched := s.fetched + [link]);
      FetchKeeps(s0, s, link, pages, read);
      var detail := PostDetail(link, pages(link), read);
      if detail.Some? && Extend(s.posts, key, [detail.value]).Some? {
        PostDetailShape(link, pages(link), read);
        RecordKeeps(s0, s1, key, link, detail.value, pages, read);
      }
    }
  }

  /** The loop over one community's links keeps what a session keeps. */
  lemma {:induction false} ListDetailsKeeps(s0: Session, s: Session, key: string, links: seq<string>, pages: string -> PostPage, read: Reader)
    requires SessionKeeps(s0, s, pages, read)
    ensures SessionKeeps(s0, ListDetails(s, key, links, pages, read).state, pages, read)
    decreases |links|
  {
    if links != [] {
      ListDetailsKeeps(s0, s, key, links[..|links| - 1], pages, read);
      var q := ListDetails(s, key, links[..|links| - 1], pages, read);
      if q.Going? {
        LinkStepKeeps(s0, q.state, key, links[|links| - 1], pages, read);
      }
    }
  }

  /** The loop over the communities keeps what a session keeps. */
  lemma {:induction false} EntriesDetailsKeeps(s0: Session, s: Session, es: Dict<Slot<string>>, pages: string -> PostPage, read: Reader)
    requires SessionKeeps(s0, s, pages, read)
    ensures SessionKeeps(s0, EntriesDetails(s, es, pages, read).state, pages, read)
    decreases |es|
  {
    if es != [] {
      EntriesDetailsKeeps(s0, s, es[..|es| - 1], pages, read);
      var q := EntriesDetails(s, es[..|es| - 1], pages, read);
      if q.Going? && es[|es| - 1].value.Items? {
        ListDetailsKeeps(s0, q.state, es[|es| - 1].key, es[|es| - 1].value.items, pages, read);
      }
    }
  }

  /**
   * `scrape_details` never fetches an empty link or one processed when it
   * started; a URL is recorded exactly when the post read for it is appended
   * under its community, and each community's list becomes its old list
   * followed by those posts in order; the files are written at every
   * tenth success and, when no exception escapes, once more with the final
   * state.  With no links, or only empty lists of them, nothing changes.
   */
  lemma DetailsEffect(c: Crawler, pages: string -> PostPage, read: Reader)
    ensures var s0 := StartSession(c); var r := Details(s0, c.links, pages, read);
      && SessionKeeps(s0, r.state.(saves := Tens(r.state.count)), pages, read)
      && (r.Escaped? ==> r.state.saves == Tens(r.state.count))
      && (c.links != [] && TotalLen(c.links).Done? && TotalLen(c.links).value > 0 && r.Going? ==>
            && r.state.saves == Tens(r.state.count) + [r.state.count]
            && r.state.postsFile == ADict(r.state.posts) && r.state.progressFile == AList(r.state.processed))
      && (c.links == [] || TotalLen(c.links) == Done(0) ==> r == Going(s0))
  {
    var s0 := StartSession(c);
    forall k: string ensures KeyAppended(s0.posts, s0.posts, PostsRead(s0.posted, k, pages, read), k) {
      assert PostsRead(s0.posted, k, pages, read) == [];
      if ListOr(s0.posts, k).Some? {
        assert ListOr(s0.posts, k).value + [] == ListOr(s0.posts, k).value;
      }
    }
    assert Tens(0) == [];
    assert ListsAppended(s0, s0, pages, read);
    assert SessionKeeps(s0, s0, pages, read);
    EntriesDetailsKeeps(s0, s0, c.links, pages, read);
  }

  // ---------------------------------------------------------------------------
  // A whole run

  /**
   * `_load_data_and_progress` raises a TypeError when `set(processed_list)`
   * meets an unhashable element, and when the closing print's
   * `sum(len(v) ...)` over the values of the links meets a value with no length.
   */
  predicate LoadRaises(c: Crawler, keys: seq<string>) {
    c.progressFile.Unhashable? || TotalLen(Loaded(c, keys).links).Raised?
  }

  /**
   * `run`: load; the link pass when asked; then, unless it raised, the detail
   * pass when asked, after a reload when links were scraped.  Escaped when the
   * first load raises: it is outside the `try`, so the exception leaves `run`
   * and no pass runs.  Every later exception, a raising reload included, is
   * caught and ends the run where it was raised.
   */
  function Ran(c: Crawler, communities: Dict<Community>, doLinks: bool, doDetails: bool,
               listing: string -> LinksPage, pages: string -> PostPage, read: Reader): Step<Crawler>
  {
    var keys := Keys(communities);
    var c1 := Loaded(c, keys);
    if LoadRaises(c, keys) then Escaped(c1)
    else
      var s1 := LinkState(c1.links, c1.linksFile, [], 0);
      var l := if doLinks then AllLinks(s1, communities, listing) else Going(s1);
      var c2 := c1.(links := l.state.links, linksFile := l.state.file);
      if l.Escaped? || !doDetails then Going(c2)
      else if doLinks && LoadRaises(c2, keys) then Going(Loaded(c2, keys))
      else
        var c3 := if doLinks then Loaded(c2, keys) else c2;
        var d := Details(StartSession(c3), c3.links, pages, read).state;
        Going(c3.(posts := d.posts, processed := d.processed, postsFile := d.postsFile, progressFile := d.progressFile))
  }

  /** Normalising a dict whose community keys all hold lists changes nothing. */
  lemma {:induction false} EnsureListsKeeps<T>(d: Dict<Slot<T>>, keys: seq<string>)
    requires forall k | k in keys :: IsList(d, k)
    ensures EnsureLists(d, keys) == d
    decreases |keys|
  {
    if keys != [] {
      EnsureListsKeeps(d, keys[..|keys| - 1]);
    }
  }

  /**
   * One community's page loop keeps every list a list, and either writes the
   * links file at least once, leaving it in step with the links, or changes
   * nothing.
   */
  lemma CommunityKeepsLists(s: LinkState, key: string, t: Template, ns: seq<int>, listing: string -> LinksPage)
    ensures var r := CommunityLinks(s, key, t, ns, listing);
      r.Going? ==>
        && (forall k | IsList(s.links, k) :: IsList(r.state.links, k))
        && r.state.saves >= s.saves
        && (r.state.saves == s.saves ==> r.state == s)
        && (r.state.saves != s.saves ==> r.state.file == ADict(r.state.links))
  {
    CommunityRequests(s, key, t, ns, listing);
    CommunityLinksEffect(s, key, t, ns, listing);
    CommunityLinksOthers(s, key, t, ns, listing);
  }

  /** The link pass keeps every list a list, and either leaves the links file in step with the links or changes nothing. */
  lemma {:induction false} AllLinksKeepsLists(s: LinkState, communities: Dict<Community>, listing: string -> LinksPage)
    ensures var r := AllLinks(s, communities, listing);
      r.Going? ==>
        && (forall k | IsList(s.links, k) :: IsList(r.state.links, k))
        && r.state.saves >= s.saves
        && (r.state.saves == s.saves ==> r.state == s)
        && (r.state.saves != s.saves ==> r.state.file == ADict(r.state.links))
    decreases |communities|
  {
    if communities != [] {
      var init, e := communities[..|communities| - 1], communities[|communities| - 1];
      AllLinksKeepsLists(s, init, listing);
      var q := AllLinks(s, init, listing);
      if q.Going? && e.value.template.Some? {
        CommunityKeepsLists(q.state, e.key, e.value.template.value, PageNumbers(e.value), listing);
      }
    }
  }

  /** After loading, the link pass raises only for a community without a URL template. */
  lemma {:induction false} LoadedLinksRaiseOnlyOnTemplate(s: LinkState, communities: Dict<Community>, listing: string -> LinksPage)
    requires forall k | k in Keys(communities) :: IsList(s.links, k)
    ensures AllLinks(s, communities, listing).Escaped? ==>
      exists i | 0 <= i < |communities| :: communities[i].value.template.None?
    decreases |communities|
  {
    if communities != [] {
      var init, e := communities[..|communities| - 1], communities[|communities| - 1];
      assert Keys(communities) == Keys(init) + [e.key];
      LoadedLinksRaiseOnlyOnTemplate(s, init, listing);
      AllLinksKeepsLists(s, init, listing);
      var q := AllLinks(s, init, listing);
      if q.Escaped? {
        var i :| 0 <= i < |init| && init[i].value.template.None?;
        assert communities[i] == init[i];
      } else if e.value.template.None? {
        assert communities[|communities| - 1].value.template.None?;
      } else {
        assert IsList(q.state.links, e.key);
        CommunityLinksRaises(q.state, e.key, e.value.template.value, PageNumbers(e.value), listing);
      }
    }
  }

  /**
   * The reload before the detail pass of a run that scraped links reads back
   * exactly what is in memory: the posts and progress files were not written,
   * and the links file was written after the last change to the links.
   */
  lemma ReloadChangesNothing(c: Crawler, communities: Dict<Community>, listing: string -> LinksPage)
    ensures var keys := Keys(communities); var c1 := Loaded(c, keys);
      var l := AllLinks(LinkState(c1.links, c1.linksFile, [], 0), communities, listing);
      var c2 := c1.(links := l.state.links, linksFile := l.state.file);
      l.Going? ==> Loaded(c2, keys) == c2
  {
    var keys := Keys(communities);
    var c1 := Loaded(c, keys);
    var s1 := LinkState(c1.links, c1.linksFile, [], 0);
    EnsureListsEffect(AsDict(c.linksFile), keys);
    AllLinksKeepsLists(s1, communities, listing);
    var l := AllLinks(s1, communities, listing);
    if l.Going? && l.state.saves != 0 {
      EnsureListsKeeps(l.state.links, keys);
    }
  }

  /**
   * A run never forgets a processed URL, never loses a stored post, and every
   * URL it adds to the progress has its post stored under a community.  An
   * exception leaves the run exactly when the first load raises, on an
   * unhashable progress list or on a link value with no length, and then
   * nothing but the load has happened.
   */
  lemma RunEffect(c: Crawler, communities: Dict<Community>, doLinks: bool, doDetails: bool,
                  listing: string -> LinksPage, pages: string -> PostPage, read: Reader)
    ensures var c1 := Loaded(c, Keys(communities)); var r := Ran(c, communities, doLinks, doDetails, listing, pages, read);
      && (r.Escaped? <==> c.progressFile.Unhashable? || TotalLen(c1.links).Raised?)
      && (r.Escaped? ==> r.state == c1)
      && c1.processed <= r.state.processed
      && PostsGrow(c1.posts, r.state.posts)
      && (forall u | u in r.state.processed && u !in c1.processed :: exists k :: HasPost(r.state.posts, k, u))
  {
    var keys := Keys(communities);
    var c1 := Loaded(c, keys);
    if !LoadRaises(c, keys) {
      var s1 := LinkState(c1.links, c1.linksFile, [], 0);
      var l := if doLinks then AllLinks(s1, communities, listing) else Going(s1);
      var c2 := c1.(links := l.state.links, linksFile := l.state.file);
      if !l.Escaped? && doDetails {
        if doLinks {
          ReloadChangesNothing(c, communities, listing);
        }
        if !(doLinks && LoadRaises(c2, keys)) {
          DetailsKeepAndRecord(c2, pages, read);
        }
      }
    }
  }

  /** The detail pass from a crawler's state keeps its processed URLs and posts, and stores a post for each URL it adds. */
  lemma DetailsKeepAndRecord(c: Crawler, pages: string -> PostPage, read: Reader)
    ensures var d := Details(StartSession(c), c.links, pages, read).state;
      && c.processed <= d.processed && PostsGrow(c.posts, d.posts)
      && forall u | u in d.processed && u !in c.processed :: exists k :: HasPost(d.posts, k, u)
  {
    DetailsEffect(c, pages, read);
    var d := Details(StartSession(c), c.links, pages, read).state;
    forall u | u in d.processed && u !in c.processed ensures exists k :: HasPost(d.posts, k, u) {
      var i :| 0 <= i < |d.posted| && d.posted[i].1 == u;
      assert d.posted[i] in d.posted;
    }
  }

  /**
   * A progress file such as `[[1]]` makes `run` raise from its first load,
   * before either pass, whatever the other files hold.
   */
  lemma RunRaisesOnUnhashableProgress(c: Crawler, communities: Dict<Community>, doLinks: bool, doDetails: bool,
                                      listing: string -> LinksPage, pages: string -> PostPage, read: Reader)
    requires c.progressFile == Unhashable
    ensures Ran(c, communities, doLinks, doDetails, listing, pages, read) == Escaped(Loaded(c, Keys(communities)))
    ensures Loaded(c, Keys(communities)).processed == c.processed
  {
  }

  /**
   * A links file holding a number under a key of no community, `{"x": 5}`,
   * makes `run` raise from its first load, before either pass.
   */
  lemma RunRaisesOnNumberLink(c: Crawler, communities: Dict<Community>, doLinks: bool, doDetails: bool,
                              listing: string -> LinksPage, pages: string -> PostPage, read: Reader)
    requires c.linksFile == ADict([Entry("x", Other(None))]) && "x" !in Keys(communities)
    ensures Ran(c, communities, doLinks, doDetails, listing, pages, read) == Escaped(Loaded(c, Keys(communities)))
  {
    var keys := Keys(communities);
    var d := AsDict(c.linksFile);
    EnsureListsEffect(d, keys);
    var e := EnsureLists(d, keys);
    assert Get(d, "x") == Some(Other(None));
    var i :| 0 <= i < |e| && e[i] == Entry("x", Other(None));
    TotalLenRaises(e);
  }

  // ---------------------------------------------------------------------------
  // An escape stays an escape

  lemma {:induction false} CommunityLinksStays(s: LinkState, key: string, t: Template, ns: seq<int>, i: nat, listing: string -> LinksPage)
    requires i <= |ns| && CommunityLinks(s, key, t, ns[..i], listing).Escaped?
    ensures CommunityLinks(s, key, t, ns, listing) == CommunityLinks(s, key, t, ns[..i], listing)
    decreases |ns|
  {
    if i < |ns| {
      assert ns[..|ns| - 1][..i] == ns[..i];
      CommunityLinksStays(s, key, t, ns[..|ns| - 1], i, listing);
    } else {
      assert ns[..i] == ns;
    }
  }

  lemma {:induction false} AllLinksStays(s: LinkState, communities: Dict<Community>, i: nat, listing: string -> LinksPage)
    requires i <= |communities| && AllLinks(s, communities[..i], listing).Escaped?
    ensures AllLinks(s, communities, listing) == AllLinks(s, communities[..i], listing)
    decreases |communities|
  {
    if i < |communities| {
      assert communities[..|communities| - 1][..i] == communities[..i];
      AllLinksStays(s, communities[..|communities| - 1], i, listing);
    } else {
      assert communities[..i] == communities;
    }
  }

  lemma {:induction false} ListDetailsStays(s: Session, key: string, links: seq<string>, i: nat, pages: string -> PostPage, read: Reader)
    requires i <= |links| && ListDetails(s, key, links[..i], pages, read).Escaped?
    ensures ListDetails(s, key, links, pages, read) == ListDetails(s, key, links[..i], pages, read)
    decreases |links|
  {
    if i < |links| {
      assert links[..|links| - 1][..i] == links[..i];
      ListDetailsStays(s, key, links[..|links| - 1], i, pages, read);
    } else {
      assert links[..i] == links;
    }
  }

  lemma {:induction false} EntriesDetailsStays(s: Session, es: Dict<Slot<string>>, i: nat, pages: string -> PostPage, read: Reader)
    requires i <= |es| && EntriesDetails(s, es[..i], pages, read).Escaped?
    ensures EntriesDetails(s, es, pages, read) == EntriesDetails(s, es[..i], pages, read)
    decreases |es|
  {
    if i < |es| {
      assert es[..|es| - 1][..i] == es[..i];
      EntriesDetailsStays(s, es[..|es| - 1], i, pages, read);
    } else {
      assert es[..i] == es;
    }
  }

  // ===========================================================================
  // The crawler object

  /** The normalising loop of `_load_data_and_progress` over the community keys. */
  method EnsureAll<T>(d: Dict<Slot<T>>, keys: seq<string>) returns (r: Dict<Slot<T>>)
    ensures r == EnsureLists(d, keys)
  {
    r := d;
    var i := 0;
    while i < |keys|
      invariant 0 <= i <= |keys|
      invariant r == EnsureLists(d, keys[..i])
    {
      assert keys[..i + 1][..i] == keys[..i];
      if !IsList(r, keys[i]) {
        r := Put(r, keys[i], Items([]));
      }
      i := i + 1;
    }
    assert keys[..i] == keys;
  }

  /** What the passes have done, for the proofs: the link pass's requests and writes, the detail pass's writes, fetches and posts. */
  datatype Logs = Logs(requested: seq<(string, int)>, linkSaves: nat, saves: seq<nat>, fetched: seq<string>, posted: seq<(string, string)>)

  /**
   * The crawler object.  The WebDriver is replaced by the page oracles each
   * pass is given; the three files are fields reassigned when written.
   */
  class AutohomeCrawler {
    var posts: Dict<Slot<Post>>
    var links: Dict<Slot<string>>
    var processed: set<string>
    var postsFile: DictFile<Post>
    var linksFile: DictFile<string>
    var progressFile: ListFile
    /** The listing pages the last link pass requested, and how often it wrote the links file. */
    ghost var requested: seq<(string, int)>
    ghost var linkSaves: nat
    /** The success counts at which the last detail pass wrote the data files, the links it fetched, and what it appended. */
    ghost var saves: seq<nat>
    ghost var fetched: seq<string>
    ghost var posted: seq<(string, string)>

    function State(): Crawler
      reads this
    {
      Crawler(posts, links, processed, postsFile, linksFile, progressFile)
    }

    ghost function Log(): Logs
      reads this
    {
      Logs(requested, linkSaves, saves, fetched, posted)
    }

    /** The object seen as the link pass's state. */
    ghost function LinkNow(): LinkState
      reads this
    {
      LinkState(links, linksFile, requested, linkSaves)
    }

    /** The object seen as the detail pass's state, with the pass's success count. */
    ghost function SessionNow(count: nat): Session
      reads this
    {
      Session(posts, processed, count, postsFile, progressFile, saves, fetched, posted)
    }

    /** `__init__`: no posts, no links, nothing processed; the files hold what they hold. */
    constructor (postsFile: DictFile<Post>, linksFile: DictFile<string>, progressFile: ListFile)
      ensures State() == Crawler([], [], {}, postsFile, linksFile, progressFile)
      ensures Log() == Logs([], 0, [], [], [])
    {
      posts, links, processed := [], [], {};
      this.postsFile, this.linksFile, this.progressFile := postsFile, linksFile, progressFile;
      requested, linkSaves, saves, fetched, posted := [], 0, [], [], [];
    }

    /**
     * `_load_data_and_progress`: read the three files and give every community
     * key a list; `raised` when `set(...)` of the progress list or the closing
     * print's sum of the link list lengths raises.
     */
    method LoadDataAndProgress(keys: seq<string>) returns (raised: bool)
      modifies this
      ensures State() == Loaded(old(State()), keys)
      ensures raised == LoadRaises(old(State()), keys)
      ensures Log() == old(Log())
    {
      posts := EnsureAll(AsDict(postsFile), keys);
      links := EnsureAll(AsDict(linksFile), keys);
      if !progressFile.Unhashable? {
        processed := AsSet(progressFile);
      }
      raised := progressFile.Unhashable? || TotalLen(links).Raised?;
    }

    /** `_save_data_and_progress` */
    method SaveDataAndProgress(ghost count: nat)
      modifies this
      ensures SessionNow(count) == SaveData(old(SessionNow(count)))
      ensures links == old(links) && linksFile == old(linksFile) && requested == old(requested) && linkSaves == old(linkSaves)
    {
      postsFile := ADict(posts);
      progressFile := AList(processed);
      saves := saves + [count];
    }

    /** `_save_links` */
    method SaveLinks()
      modifies this
      ensures LinkNow() == old(LinkNow()).(file := ADict(links), saves := old(linkSaves) + 1)
      ensures SessionNow(0) == old(SessionNow(0))
    {
      linksFile := ADict(links);
      linkSaves := linkSaves + 1;
    }

    /** The page loop of `scrape_links` for one community. */
    method ScrapePages(key: string, t: Template, ns: seq<int>, listing: string -> LinksPage) returns (escaped: bool)
      modifies this
      ensures var r := CommunityLinks(old(LinkNow()), key, t, ns, listing); escaped == r.Escaped? && LinkNow() == r.state
      ensures SessionNow(0) == old(SessionNow(0))
    {
      escaped := false;
      var i := 0;
      while i < |ns| && !escaped
        invariant 0 <= i <= |ns|
        invariant var r := CommunityLinks(old(LinkNow()), key, t, ns[..i], listing); escaped == r.Escaped? && LinkNow() == r.state
        invariant SessionNow(0) == old(SessionNow(0))
      {
        assert ns[..i + 1][..i] == ns[..i];
        var url := Format(t, ns[i]);
        if url.Some? {
          requested := requested + [(key, ns[i])];
          var found, _ := GetPostDetailLinks(listing(url.value));
          var xs := ListOr(links, key);
          if xs.None? {
            escaped := true;
          } else {
            links := Put(links, key, Items(xs.value + found));
            SaveLinks();
          }
        }
        i := i + 1;
      }
      if escaped {
        CommunityLinksStays(old(LinkNow()), key, t, ns, i, listing);
      } else {
        assert ns[..i] == ns;
      }
    }

    /** `scrape_links`: every community's pages in settings order. */
    method ScrapeLinks(communities: Dict<Community>, listing: string -> LinksPage) returns (escaped: bool)
      modifies this
      ensures var r := AllLinks(LinkState(old(links), old(linksFile), [], 0), communities, listing);
        escaped == r.Escaped? && LinkNow() == r.state
      ensures SessionNow(0) == old(SessionNow(0))
    {
      requested, linkSaves := [], 0;
      ghost var s0 := LinkNow();
      escaped := false;
      var i := 0;
      while i < |communities| && !escaped
        invariant 0 <= i <= |communities|
        invariant var r := AllLinks(s0, communities[..i], listing); escaped == r.Escaped? && LinkNow() == r.state
        invariant SessionNow(0) == old(SessionNow(0))
      {
        assert communities[..i + 1][..i] == communities[..i];
        var e := communities[i];
        if e.value.template.None? {
          escaped := true;
        } else {
          escaped := ScrapePages(e.key, e.value.template.value, PageNumbers(e.value), listing);
        }
        i := i + 1;
      }
      if escaped {
        AllLinksStays(s0, communities, i, listing);
      } else {
        assert communities[..i] == communities;
      }
    }

    /** One link of the inner loop of `scrape_details`. */
    method ScrapeLink(key: string, link: string, count0: nat, pages: string -> PostPage, read: Reader) returns (escaped: bool, count: nat)
      modifies this
      ensures var r := LinkStep(old(SessionNow(count0)), key, link, pages, read); escaped == r.Escaped? && SessionNow(count) == r.state
      ensures links == old(links) && linksFile == old(linksFile) && requested == old(requested) && linkSaves == old(linkSaves)
    {
      count, escaped := count0, false;
      if link != "" && link !in processed {
        fetched := fetched + [link];
        var detail := GetPostDetail(link, pages(link), read);
        escaped, count := AddPost(key, link, detail, count);
      }
    }

    /** A fetched link's detail: nothing on failure; otherwise the post appended, the URL recorded, and a save on a tenth success. */
    method AddPost(key: string, link: string, detail: Option<Post>, count0: nat) returns (escaped: bool, count: nat)
      modifies this
      ensures var r := AfterFetch(old(SessionNow(count0)), key, link, detail); escaped == r.Escaped? && SessionNow(count) == r.state
      ensures links == old(links) && linksFile == old(linksFile) && requested == old(requested) && linkSaves == old(linkSaves)
    {
      count, escaped := count0, false;
      if detail.Some? {
        var xs := ListOr(posts, key);
        if xs.None? {
          escaped := true;
        } else {
          posts := Put(posts, key, Items(xs.value + [detail.value]));
          processed := processed + {link};
          count := count + 1;
          posted := posted + [(key, link)];
          if count % 10 == 0 {
            SaveDataAndProgress(count);
          }
        }
      }
    }

    /** The inner loop of `scrape_details` over one community's links, with the session's success count. */
    method ScrapeList(key: string, ls: seq<string>, count0: nat, pages: string -> PostPage, read: Reader) returns (escaped: bool, count: nat)
      modifies this
      ensures var r := ListDetails(old(SessionNow(count0)), key, ls, pages, read); escaped == r.Escaped? && SessionNow(count) == r.state
      ensures links == old(links) && linksFile == old(linksFile) && requested == old(requested) && linkSaves == old(linkSaves)
    {
      ghost var s0 := SessionNow(count0);
      count, escaped := count0, false;
      var i := 0;
      while i < |ls| && !escaped
        invariant 0 <= i <= |ls|
        invariant var r := ListDetails(s0, key, ls[..i], pages, read); escaped == r.Escaped? && SessionNow(count) == r.state
        invariant links == old(links) && linksFile == old(linksFile) && requested == old(requested) && linkSaves == old(linkSaves)
      {
        assert ls[..i + 1][..i] == ls[..i];
        ghost var g := SessionNow(count);
        escaped, count := ScrapeLink(key, ls[i], count, pages, read);
        assert ListDetails(s0, key, ls[..i + 1], pages, read) == LinkStep(g, key, ls[i], pages, read);
        i := i + 1;
      }
      if escaped {
        ListDetailsStays(s0, key, ls, i, pages, read);
      } else {
        assert ls[..i] == ls;
      }
    }

    /** `scrape_details`: every link of every community, then a final save; nothing without links. */
    method ScrapeDetails(pages: string -> PostPage, read: Reader) returns (escaped: bool, ghost count: nat)
      modifies this
      ensures var r := Details(StartSession(old(State())), old(links), pages, read);
        escaped == r.Escaped? && SessionNow(count) == r.state
      ensures links == old(links) && linksFile == old(linksFile) && requested == old(requested) && linkSaves == old(linkSaves)
    {
      saves, fetched, posted := [], [], [];
      ghost var s0 := SessionNow(0);
      count, escaped := 0, false;
      if links == [] {
        return;
      }
      var total := TotalLen(links);
      if total.Raised? {
        escaped := true;
        return;
      }
      if total.value == 0 {
        return;
      }
      var n := 0;
      var i := 0;
      while i < |links| && !escaped
        invariant 0 <= i <= |links| && n == count
        invariant var r := EntriesDetails(s0, links[..i], pages, read); escaped == r.Escaped? && SessionNow(count) == r.state
        invariant links == old(links) && linksFile == old(linksFile) && requested == old(requested) && linkSaves == old(linkSaves)
      {
        assert links[..i + 1][..i] == links[..i];
        var e := links[i];
        if e.value.Items? {
          escaped, n := ScrapeList(e.key, e.value.items, n, pages, read);
          count := n;
        }
        i := i + 1;
      }
      if escaped {
        EntriesDetailsStays(s0, links, i, pages, read);
      } else {
        assert links[..i] == links;
        SaveDataAndProgress(count);
      }
    }

    /**
     * `run`: `raised` when the first load raises, which is outside the `try`;
     * an exception from the reload or either pass is caught and ends the run.
     */
    method Run(communities: Dict<Community>, doLinks: bool, doDetails: bool,
               listing: string -> LinksPage, pages: string -> PostPage, read: Reader) returns (raised: bool)
      modifies this
      ensures var r := Ran(old(State()), communities, doLinks, doDetails, listing, pages, read);
        State() == r.state && raised == r.Escaped?
    {
      raised := LoadDataAndProgress(Keys(communities));
      if raised {
        return;
      }
      var escaped := false;
      if doLinks {
        escaped := ScrapeLinks(communities, listing);
      }
      if !escaped && doDetails {
        var reloadRaised := false;
        if doLinks {
          reloadRaised := LoadDataAndProgress(Keys(communities));
        }
        if !reloadRaised {
          ghost var count;
          escaped, count := ScrapeDetails(pages, read);
        }
      }
    }
  }
}
