# Resumable forum crawlers, modelled in Dafny

The repository holds three Selenium crawlers. Each wraps a small resume and
dedup state machine around browser calls:

- **Flyert** (`flyertCrawler/`). `get_article_links_by_page` walks a hotel's
  search result pages. It keeps the links whose post time falls in a window
  and merges the new ones into the links file. `get_all_contents` reads every
  stored thread with its replies. It resumes at the hotel cursor of a
  `ProgressManager` and skips links the manager already knows: processed,
  errored or empty.
- **Autohome** (`AutohomeCrawler/`). `AutohomeCrawler` keeps two dicts of
  lists, `posts` and `links`, keyed by community, and a set of processed post
  URLs. The link pass walks pages `page_offset+1 … page_offset+total_pages`.
  The detail pass reads each unprocessed link and records the post together
  with its URL. It saves every ten successes and once at the end.
- **Dongchedi** (`DongchediCrawler/`). The post pass resumes each community
  at `page_offset` plus the number of posts it has stored. The reply pass
  reads replies only for posts whose URL is not yet in the progress list.
- **Three time-text parsers**: `parse_timestamp` (Flyert), `to_timestamp`
  (Autohome) and `parse_time_string` (Dongchedi). Each is an ordered list of
  match-and-return rules.

## How the model is built

- **Modules** follow the source files:
  - `FlyertTime` and `FlyertProgress`: `flyertCrawler/utils.py`.
  - `FlyertCrawl`: `flyertCrawler/flyert_crawl.py`.
  - `AutohomeTime`, `AutohomeScraper` and `AutohomeCrawler`: `AutohomeCrawler/src/*.py`.
  - `DongchediTime`, `DongchediScraper` and `DongchediCrawler`: `DongchediCrawler/src/*.py`.
  - Shared support:
    - `Wrappers`: Option and Outcome.
    - `Text`: `str()`, zero padding and `strip`.
    - `Scan`: the regular expressions used, as token sequences, with
      `re.match`, `re.search` and `re.finditer`.
    - `Clock`: civil dates and the range of `datetime`.
    - `PyDict`: Python dicts in insertion order and lists stored under keys.
- **Classes for mutable state.** The objects whose fields the source updates
  in place are classes whose methods carry `modifies` clauses:
  `ProgressManager`, `AutohomeCrawler`, `DongchediCrawler`, and the links
  and results files of the Flyert crawler.
- **Loops stay loops.** Each loop of the source is a `method` with a `while`
  or `for` loop. Its `ensures` ties the result or the new state to a
  specification function of the old state. The properties are lemmas about
  those functions.
- **The browser is an oracle.** Each page is a datatype value saying what its
  elements show: present or missing, texts, hrefs, and whether a wait times
  out.
- **Exceptions are values.** Uncaught ones are `Outcome.Raised` or
  `Step.Escaped`. A `finally: return` is modelled as the source writes it.
- **Time is a parameter.** `now` is an integer epoch. Conversion between
  epoch and local civil time is a `Calendar` parameter. Gregorian validity
  (month lengths, leap years) and the range of Python's `datetime` are
  concrete.
- **Files are fields.** A JSON file is a field holding what a read of it
  gives. A write assigns it, and a ghost log counts the writes.

### Where the code and its own comments or names differ (the model follows the code)

- **Dongchedi resume index.** The comment at
  `DongchediCrawler/src/crawler.py:93-95` assumes that each entry of
  `posts[community]` stands for one page. The code extends that list with
  each page's posts (line 114). So `page_offset + len(posts[community])`
  (line 96) counts stored posts, not pages.
- **Autohome retries.** `get_post_detail_links` sets `max_retries = 3` and
  loops on `retries` (`AutohomeCrawler/src/scraper.py:29-64`). Its handler
  calls `random.uniform(1, 3)` (line 63), but the scraper never imports
  `random`. So the first failed lookup raises a NameError inside its
  handler, the outer handler catches it, and `finally` returns the links
  gathered so far. The model counts those tries:
  `AutohomeScraper.GetPostDetailLinks` makes at most one lookup.
- **Bad URL template.** The comment at `AutohomeCrawler/src/crawler.py:128`
  says an invalid template skips the community. The `continue` there is
  inside the page loop, so it skips one page only. Every page of that
  community then fails the same way, so the result is the same. A community
  with no `url_template` key raises a KeyError (line 115), which ends the
  link pass.

## Model

| member | source | states |
|---|---|---|
| PyDict.Get | AutohomeCrawler/src/crawler.py:53 | `d.get(k)` is Some exactly when the key is present, and then it is the value of the key's entry; otherwise no entry has that key |
| PyDict.PutEffect | AutohomeCrawler/src/crawler.py:52-54 | after `d[k] = v`: `k` maps to `v`; every other key keeps its value; a present key keeps its place and a new key comes last; keys stay unique |
| PyDict.ExtendEffect | DongchediCrawler/src/crawler.py:114 | `d[k].extend(more)` succeeds exactly when the key holds a list or nothing; then the key's list is the old list followed by `more`, and no other key changes |
| Text.Strip | DongchediCrawler/src/utils.py:14 | `strip()` leaves a text that neither starts nor ends with whitespace and occurs inside the input |
| Text.StripCuts | DongchediCrawler/src/utils.py:14 | `strip()` cuts only whitespace from the front and only whitespace from the back |
| Text.StripUnique | DongchediCrawler/src/utils.py:14 | those two properties determine `strip()`: any piece of the input with no whitespace at its ends, cut out by whitespace alone, is the stripped text |
| Text.LStripAt | DongchediCrawler/src/utils.py:14 | `lstrip()` removes exactly the run of whitespace before the first other character |
| Text.RStripAt | DongchediCrawler/src/utils.py:14 | `rstrip(chars)` removes exactly the run of those characters after the last other character |
| Scan.FindAllFrom | AutohomeCrawler/src/utils.py:41 | `re.finditer`: no match exactly when the pattern does not occur; each element is a match of the pattern that starts at or after the search position; after a non-empty last match the pattern occurs nowhere |
| Scan.FindAllChain | AutohomeCrawler/src/utils.py:41 | the matches `re.finditer` yields are chained: the first is the leftmost match, and each later one is the leftmost match from where the previous one lets the search go on |
| Scan.FoundStartRuns | AutohomeCrawler/src/utils.py:41 | every match of `(\d+)` + literal that `re.finditer` yields starts a whole digit run |
| Scan.SearchIs | DongchediCrawler/src/utils.py:23 | a match with no match starting before it is the one `re.search` returns |
| Clock.Ago | DongchediCrawler/src/utils.py:20 | `int((now - timedelta(seconds=d)).timestamp())` is `now - d` when that lies in `datetime`'s range, and raises otherwise |
| FlyertTime.RuleOrder | flyertCrawler/utils.py:16-85 | an empty text gives None; a valid embedded date wins over every relative phrase; then a deciding 前天 rule gives its result; with no 前天 phrase a deciding 昨天 rule gives its result; with neither phrase the hours/days/刚刚 rules decide, and they give None exactly when none of 小时前, 天前, 刚刚 occurs |
| FlyertTime.AgoRulesOffsets | flyertCrawler/utils.py:62-83 | "N小时前" goes before "N天前", which goes before "刚刚"; each gives now minus N hours, N days or nothing, to the minute; an out-of-range offset raises |
| FlyertTime.DayTimeGoesBack | flyertCrawler/utils.py:40-59 | a 前天/昨天 rule that decides on a time found its phrase, and gives the hour and minute its group reads, at second 0, on the calendar day two days or one day before now, which is within `datetime`'s range; the result is a valid minute |
| FlyertTime.DayTimeDecidesOnValidTime | flyertCrawler/utils.py:40-59 | when the 前天/昨天 phrase occurs, going back out of `datetime`'s range raises; otherwise the rule decides exactly when the hour read is at most 23 and the minute at most 59, and falls through to the later rules otherwise |
| FlyertTime.MissedTimeIsDigitsAndColons | flyertCrawler/utils.py:43 | when a day-time rule rejects its time, what the later rules see, the reassigned `time_str`, is made of digits and colons only |
| FlyertTime.InvalidBeforeYesterdaySilencesLaterRules | flyertCrawler/utils.py:40-85 | "前天" followed by an invalid time makes the result None, whatever else the text says |
| FlyertTime.Format | flyertCrawler/utils.py:35 | `%Y-%m-%d %H:%M` is 16 characters, with digits everywhere except the separators `-`, `-`, ` `, `:` |
| FlyertTime.ResultsAreValid | flyertCrawler/utils.py:32-83 | every time the parser returns is a valid civil minute, so it has a `%Y-%m-%d %H:%M` rendering |
| FlyertTime.FormatRoundTrip | flyertCrawler/utils.py:32-37 | parsing the rendering of any valid minute gives that minute back |
| FlyertTime.FormatDateRule | flyertCrawler/utils.py:32-37 | the date rule reads the `%Y-%m-%d %H:%M` rendering of any valid minute back as that minute |
| FlyertProgress.AppendAbsent | flyertCrawler/utils.py:198-199 | append-if-absent contains the link, adds it at the end only when it was missing, and keeps a list free of duplicates |
| FlyertProgress.RemoveFirstDropsFirst | flyertCrawler/utils.py:200-201 | `list.remove` takes out exactly the first occurrence, and nothing when there is none |
| FlyertProgress.RemoveFirstMembers | flyertCrawler/utils.py:200-201 | other links keep their membership; in a duplicate-free list the removed link is gone |
| FlyertProgress.MarkProcessedEffect | flyertCrawler/utils.py:197-202 | after `mark_link_processed(l)`: `l` is processed and, in a duplicate-free state, no longer errored; the empty list and the cursor are untouched; every other link keeps its standing |
| FlyertProgress.MarkEmptyEffect | flyertCrawler/utils.py:209-214 | after `mark_empty_link(l)`: `l` is empty and, in a duplicate-free state, no longer errored; processed links and the cursor are untouched; every other link keeps its standing |
| FlyertProgress.MarkErrorIdempotent | flyertCrawler/utils.py:204-207 | `mark_error_link` twice is `mark_error_link` once; it touches only the error list |
| FlyertProgress.MarksOnlyGrowTheSkipSet | flyertCrawler/utils.py:194-214 | after any mark, `is_link_processed(l)` holds, and no mark makes another link unprocessed |
| FlyertProgress.ProgressManager.constructor | flyertCrawler/utils.py:178-188 | the stored state when the file reads, else the default: empty cursor, three empty lists |
| FlyertProgress.ProgressManager.Save | flyertCrawler/utils.py:190-192 | the file holds the state, and the state is unchanged |
| FlyertProgress.ProgressManager.IsLinkProcessed | flyertCrawler/utils.py:194-195 | true exactly when the link is in the processed, error or empty list |
| FlyertProgress.ProgressManager.MarkLinkProcessed | flyertCrawler/utils.py:197-202 | the new state is `MarkProcessed` of the old, and it is saved |
| FlyertProgress.ProgressManager.MarkErrorLink | flyertCrawler/utils.py:204-207 | the new state is `MarkError` of the old; it saves only when the link was new to the error list |
| FlyertProgress.ProgressManager.MarkEmptyLink | flyertCrawler/utils.py:209-214 | the new state is `MarkEmpty` of the old, and it is saved |
| FlyertProgress.ProgressManager.SetCurrentHotel | flyertCrawler/utils.py:216-218 | only the cursor changes, and the state is saved |
| FlyertProgress.ProgressManager.GetCurrentHotel | flyertCrawler/utils.py:220-221 | returns the cursor last set |
| FlyertCrawl.Requests | flyertCrawler/flyert_crawl.py:49-55 | the listing URLs are `{link}&page=1`, `&page=2`, … in order |
| FlyertCrawl.PageUrlsDistinct | flyertCrawler/flyert_crawl.py:55 | different page numbers give different URLs, so no page is requested twice |
| FlyertCrawl.WalkStep | flyertCrawler/flyert_crawl.py:53-102 | page by page: a failed wait raises; a "抱歉" notice ends the walk; an older entry ends it after that page's links; otherwise the next page follows |
| FlyertCrawl.PastLastPageSaysSorry | flyertCrawler/flyert_crawl.py:60-67 | the page shown past the last result page carries the "抱歉" notice, so the walk ends there |
| FlyertCrawl.ScanCollectsInWindow | flyertCrawler/flyert_crawl.py:73-100 | soundness: every link kept comes from an entry whose time parsed and lies in the window |
| FlyertCrawl.ScanIsFilter | flyertCrawler/flyert_crawl.py:73-100 | a scan that does not raise keeps exactly the hrefs of the entries dated in the window before the first older entry, in page order, and reports an older entry exactly when there is one |
| FlyertCrawl.ScanCollectsAllInWindow | flyertCrawler/flyert_crawl.py:73-100 | completeness: every entry before the first older one that is dated in the window and has an href gives its link |
| FlyertCrawl.ScanStopsAtOlder | flyertCrawler/flyert_crawl.py:83-95 | a page scan stops exactly when some dated entry no later than the end is earlier than the start |
| FlyertCrawl.ScanPage | flyertCrawler/flyert_crawl.py:73-100 | the entry loop returns the scan `ScanEntries` specifies: the in-window links in page order, and whether it stopped |
| FlyertCrawl.Unstored | flyertCrawler/flyert_crawl.py:109 | a link is kept exactly when it is collected and not stored |
| FlyertCrawl.UnstoredSplits | flyertCrawler/flyert_crawl.py:109 | filtering a concatenation filters each part in turn, so the kept links keep collection order |
| FlyertCrawl.UnstoredOne | flyertCrawler/flyert_crawl.py:109 | a single link is kept exactly when it is not stored |
| FlyertCrawl.MergeKeepsAndAdds | flyertCrawler/flyert_crawl.py:104-114 | the merge keeps every stored link in place and appends after them exactly `Unstored(links, stored)`, the collected links the hotel's first entry lacked, in collection order; every collected link is then in the entry; other entries are untouched; with no entry nothing changes |
| FlyertCrawl.LinkStore.constructor | flyertCrawler/flyert_crawl.py:104-105 | the links file is read as stored |
| FlyertCrawl.LinkStore.Merge | flyertCrawler/flyert_crawl.py:107-114 | the links file becomes `MergeLinks` of the old file |
| FlyertCrawl.GetArticleLinksByPage | flyertCrawler/flyert_crawl.py:31-119 | returns Some exactly when the walk does not raise, and then the walk's links; the file is the merge of those links, or untouched on None; the pages requested are 1, 2, … in order |
| FlyertCrawl.WalkPages | flyertCrawler/flyert_crawl.py:52-102 | the `while more` page loop returns Some exactly when `Walk` does not raise, and then `Walk`'s links; it requests pages 1, 2, … in order, at least one |
| FlyertCrawl.CommenterIsFirstProfile | flyertCrawler/flyert_crawl.py:225-231 | the commenter is the first author link whose href names a member space; with none, name and link stay empty |
| FlyertCrawl.NextStep | flyertCrawler/flyert_crawl.py:248-261 | the reply loop goes on when some `.nxt` href mentions "page", and ends exactly when every href exists and none does |
| FlyertCrawl.FindNextButton | flyertCrawler/flyert_crawl.py:248-261 | the button loop returns what `NextStep` specifies |
| FlyertCrawl.ReadContainer | flyertCrawler/flyert_crawl.py:219-245 | one container's reply as `ContainerReply` specifies; a missing message or time element raises |
| FlyertCrawl.ReadPage | flyertCrawler/flyert_crawl.py:219-245 | the container loop returns the page's replies as `PageReplies` specifies |
| FlyertCrawl.PageRepliesInOrder | flyertCrawler/flyert_crawl.py:219-245 | a page yields one reply per container, in container order, unless some container raises |
| FlyertCrawl.ThreadStep | flyertCrawler/flyert_crawl.py:213-261 | one pass of the reply loop: this page's replies, then the next page's when a button leads on |
| FlyertCrawl.ReadReplies | flyertCrawler/flyert_crawl.py:210-261 | the reply loop returns `ThreadReplies` from the opening page |
| FlyertCrawl.OpeningPageReplies | flyertCrawler/flyert_crawl.py:214-217 | the opening post is not a reply: the replies start with those of the opening page's containers after the first |
| FlyertCrawl.AfterFetchEffect | flyertCrawler/flyert_crawl.py:182-278 | whatever a fetch ends in, its link is skipped from then on; no skipped link becomes unskipped; the cursor is kept; only a success adds to the processed list |
| FlyertCrawl.GetPageContent | flyertCrawler/flyert_crawl.py:162-278 | a redirect notice marks the link empty and gives None; any exception marks it errored and gives None; otherwise the article is returned and the progress is unchanged |
| FlyertCrawl.AddPostEffect | flyertCrawler/flyert_crawl.py:338-341 | adding a post keeps every stored post in place, stores the new one when the hotel has an entry, and keeps the hotel list |
| FlyertCrawl.AddHotelEffect | flyertCrawler/flyert_crawl.py:321-325 | a new empty entry for an absent hotel keeps everything stored and keeps hotels distinct, so there is at most one entry per hotel |
| FlyertCrawl.ResultsFile.AppendPost | flyertCrawler/flyert_crawl.py:338-341 | the post goes to the first entry of its hotel, and the file is not yet written |
| FlyertCrawl.ResultsFile.constructor | flyertCrawler/flyert_crawl.py:295-299 | the stored results, or none when the file cannot be read; the file is as read |
| FlyertCrawl.ResultsFile.Save | flyertCrawler/flyert_crawl.py:343-345 | the file holds the results, which are unchanged |
| FlyertCrawl.StartIndex | flyertCrawler/flyert_crawl.py:302-315 | a blank cursor starts at the first hotel; otherwise at the first hotel the cursor names; past the end when it names none |
| FlyertCrawl.FetchKeepsTracked | flyertCrawler/flyert_crawl.py:330-334 | fetching a link not yet skipped keeps the run's invariant: fetched links were new, are skipped now, once each |
| FlyertCrawl.FetchKeepsStored | flyertCrawler/flyert_crawl.py:335-348 | a successful fetch appends the post, tagged with its link, to its hotel, saves, and only then marks the link processed; a failed one changes no results |
| FlyertCrawl.CursorKeepsConsistent | flyertCrawler/flyert_crawl.py:318 | moving the cursor keeps the run's invariant |
| FlyertCrawl.AddHotelKeepsStored | flyertCrawler/flyert_crawl.py:321-325 | a new empty entry for a hotel not in the results keeps the results side of the invariant |
| FlyertCrawl.FetchLinks | flyertCrawler/flyert_crawl.py:328-355 | the link loop keeps the run's invariant, leaves the cursor on the hotel, fetches only links of this hotel, and keeps every hotel entry; at its end the manager skips every link of the hotel and every link it skipped before |
| FlyertCrawl.FetchLink | flyertCrawler/flyert_crawl.py:333-351 | one unskipped link keeps the run's invariant with the link added to those fetched, keeps the cursor and every hotel entry, and leaves the link skipped, whatever the fetch ended in |
| FlyertCrawl.ProcessHotel | flyertCrawler/flyert_crawl.py:318-358 | one hotel keeps the run's invariant, fetches only that hotel's links, leaves the hotel with an entry in the results, and ends with the cursor cleared, every link of the hotel skipped and every link skipped before still skipped |
| FlyertCrawl.GetAllContents | flyertCrawler/flyert_crawl.py:281-358 | only links of the hotels from the start hotel on are fetched; each was not skipped when the run began and is skipped at the end, and none is fetched twice; every newly processed link has its post in the saved file; no stored post is lost; every hotel from the start on has an entry and every one of its links is skipped at the end; the cursor ends blank, or unchanged when it named no hotel |
| FlyertCrawl.HotelTurn | flyertCrawler/flyert_crawl.py:318-358 | one turn of the hotel loop keeps the run's invariant and extends the finished hotels by this one: every link fetched so far belongs to a finished hotel, each finished hotel has an entry in the results, and each of its links is skipped; the cursor ends cleared |
| AutohomeTime.LastMatch | AutohomeCrawler/src/utils.py:41-44 | the last element of `re.finditer`: a match that starts a whole digit run and after whose end the pattern occurs nowhere; None exactly when there is no match |
| AutohomeTime.LastMatchIs | AutohomeCrawler/src/utils.py:41-43 | the last match of `(\d+)` + a digit-free word is pinned by the text: the whole digit run `s[i..j]` before an occurrence of the word after which no match starts |
| AutohomeTime.LastValueIs | AutohomeCrawler/src/utils.py:43 | the number that last match reads, `int(group(1))`, is `int(s[i..j])` |
| AutohomeTime.HoursRule | AutohomeCrawler/src/utils.py:41-44 | the hours rule comes first and gives now minus the number of its last match in hours |
| AutohomeTime.DaysRule | AutohomeCrawler/src/utils.py:47-50 | with no hours phrase, the days rule gives now minus the number of its last match in days |
| AutohomeTime.HoursDecide | AutohomeCrawler/src/utils.py:41-44 | when `s[i..j]` is a whole digit run followed by "小时前" and no hours phrase starts after it, the result is now minus `int(s[i..j])` hours, whatever else the text says |
| AutohomeTime.DaysDecide | AutohomeCrawler/src/utils.py:41-50 | with no hours phrase, when `s[i..j]` is a whole digit run followed by "天前" and no days phrase starts after it, the result is now minus `int(s[i..j])` days, never after now |
| AutohomeTime.StampMatchEndsText | AutohomeCrawler/src/utils.py:53 | a date-time match is 19 characters and ends the text, or stands just before a final newline (Python's `$`) |
| AutohomeTime.Render | AutohomeCrawler/src/utils.py:58 | `%Y-%m-%d %H:%M:%S` is 19 characters, digits apart from the five separators |
| AutohomeTime.RenderRoundTrip | AutohomeCrawler/src/utils.py:53-60 | a valid date-time at the end of any text without "前" reads back as that date-time's epoch, independent of now |
| AutohomeTime.StampRuleOfRender | AutohomeCrawler/src/utils.py:53-57 | the date-time rule reads back a rendering that ends the text, whatever precedes it |
| AutohomeTime.FallbackIsInput | AutohomeCrawler/src/utils.py:59-63 | the text comes back unchanged exactly when no relative phrase occurs and no valid date-time ends it; otherwise the result is an epoch |
| AutohomeScraper.Normalize | AutohomeCrawler/src/scraper.py:50-51 | an href starting with "http" is kept; any other gets the base URL in front |
| AutohomeScraper.NormalizeStartsHttp | AutohomeCrawler/src/scraper.py:50-51 | normalised links start with "http", so normalising is idempotent |
| AutohomeScraper.CollectLinks | AutohomeCrawler/src/scraper.py:43-55 | the item loop returns `ItemLinks` of the items |
| AutohomeScraper.ItemLinksConcat | AutohomeCrawler/src/scraper.py:43-55 | collecting preserves item order: two runs of items give their links one after the other |
| AutohomeScraper.ItemLinksFromItems | AutohomeCrawler/src/scraper.py:43-52 | every link comes from an item with a non-empty href, normalised, and starts with "http"; there are at most as many links as items |
| AutohomeScraper.GetPostDetailLinks | AutohomeCrawler/src/scraper.py:16-75 | always returns a list, the one `DetailLinks` specifies; it makes one lookup when the page loads and none otherwise, within the three allowed |
| AutohomeScraper.ComposedCases | AutohomeCrawler/src/scraper.py:106-113 | title and content give `title\ncontent`; an empty title gives the content (or nothing when it is the placeholder); the content placeholder gives the title |
| AutohomeScraper.PostDetailNone | AutohomeCrawler/src/scraper.py:116-119 | no post exactly when the page fails to load, the time raises, or the composed content is empty or `无内容或标题` |
| AutohomeScraper.PostDetailShape | AutohomeCrawler/src/scraper.py:121-162 | a returned post comes from a loaded page and has the URL asked for, the composed content (neither empty nor the placeholder), the author or `无用户名`, and the time read; its replies are the paired replies, or none when pairing raises, since `finally` still returns the record |
| AutohomeScraper.RepliesPairUp | AutohomeCrawler/src/scraper.py:137-151 | the loop raises exactly when a time among the first `min` pairs raises; otherwise reply `j` pairs content and time of the `j`-th pair with non-empty content |
| AutohomeScraper.RaisedPersists | AutohomeCrawler/src/scraper.py:139-151 | once the reply loop has raised, later pairs do not matter |
| AutohomeScraper.KeptSound | AutohomeCrawler/src/scraper.py:147 | the kept indices ascend and each has non-empty content |
| AutohomeScraper.KeptComplete | AutohomeCrawler/src/scraper.py:147 | every index with non-empty content is kept |
| AutohomeScraper.ReadReplies | AutohomeCrawler/src/scraper.py:135-151 | the reply loop returns `Replies` over the first `min(len(replies), len(times))` pairs |
| AutohomeScraper.GetPostDetail | AutohomeCrawler/src/scraper.py:78-162 | returns the record `PostDetail` specifies |
| AutohomeCrawler.EnsureListsEffect | AutohomeCrawler/src/crawler.py:50-62 | after loading, every community key holds a list; a list already there is kept; other keys keep their values |
| AutohomeCrawler.EnsureListEffect | AutohomeCrawler/src/crawler.py:52-54 | one key becomes a list, a list already there is kept, and no other key changes |
| AutohomeCrawler.EnsureListsKeeps | AutohomeCrawler/src/crawler.py:48-62 | a dict whose community keys all hold lists is left as it is |
| AutohomeCrawler.EnsureAll | AutohomeCrawler/src/crawler.py:48-62 | the normalising loop over the community keys gives `EnsureLists` of the dict |
| AutohomeCrawler.AutohomeCrawler.constructor | AutohomeCrawler/src/crawler.py:22-29 | no posts, no links and nothing processed; the files hold what they hold |
| AutohomeCrawler.AutohomeCrawler.LoadDataAndProgress | AutohomeCrawler/src/crawler.py:45-71 | the state becomes `Loaded`: posts and links normalised, a non-dict file read as empty, a non-list progress read as the empty set; it reports raising exactly when `set(...)` meets an unhashable progress element (the processed set is then not assigned) or the closing print's sum of `len` over the links values raises |
| AutohomeCrawler.TotalLenRaises | AutohomeCrawler/src/crawler.py:71 | `sum(len(v) for v in links.values())` raises exactly when some value has no length |
| AutohomeCrawler.AutohomeCrawler.SaveDataAndProgress | AutohomeCrawler/src/crawler.py:73-79 | the posts and progress files take the current posts and processed set; links are untouched |
| AutohomeCrawler.AutohomeCrawler.SaveLinks | AutohomeCrawler/src/crawler.py:81-85 | the links file takes the current links, one more write is counted, and the detail state is untouched |
| AutohomeCrawler.PageNumbersRange | AutohomeCrawler/src/crawler.py:121-122 | the page numbers are `page_offset+1 … page_offset+total_pages`, ascending, each once; none when `total_pages` is not positive |
| AutohomeCrawler.FormatFailsOnOtherField | AutohomeCrawler/src/crawler.py:124-128 | formatting the template fails exactly when it has a field other than `page_num`, whatever the page |
| AutohomeCrawler.OtherFieldSkipsPages | AutohomeCrawler/src/crawler.py:124-128 | such a template skips every page, and the page loop changes nothing |
| AutohomeCrawler.CommunityRequests | AutohomeCrawler/src/crawler.py:121-141 | every page is requested in order and the links file is written after each one |
| AutohomeCrawler.PageLinksEffect | AutohomeCrawler/src/crawler.py:132-138 | one page escapes exactly when the community holds a non-list; otherwise its links extend the community's list |
| AutohomeCrawler.PageLinksAppend | AutohomeCrawler/src/crawler.py:136-138 | a page's links are appended after the community's list |
| AutohomeCrawler.CommunityLinksEffect | AutohomeCrawler/src/crawler.py:121-141 | unless an exception escapes, the community's links are its old links followed by every page's links, with no dedup and nothing removed |
| AutohomeCrawler.CommunityLinksRaises | AutohomeCrawler/src/crawler.py:136-138 | the page loop raises exactly when a page is read into a value that is not a list |
| AutohomeCrawler.CommunityLinksOthers | AutohomeCrawler/src/crawler.py:114-141 | one community's pages touch no other community and keep keys unique |
| AutohomeCrawler.CommunityKeepsLists | AutohomeCrawler/src/crawler.py:121-141 | one community keeps every list a list; after a write the links file holds the links, and without one nothing changed |
| AutohomeCrawler.AllLinksKeepsLists | AutohomeCrawler/src/crawler.py:114-141 | the link pass keeps every list a list; after a write the links file holds the links, and without one nothing changed |
| AutohomeCrawler.LoadedLinksRaiseOnlyOnTemplate | AutohomeCrawler/src/crawler.py:115 | after loading, the link pass raises only for a community without `url_template` |
| AutohomeCrawler.AutohomeCrawler.ScrapePages | AutohomeCrawler/src/crawler.py:121-143 | the page loop leaves the state `CommunityLinks` specifies |
| AutohomeCrawler.AutohomeCrawler.ScrapeLinks | AutohomeCrawler/src/crawler.py:110-145 | the link pass leaves the state `AllLinks` specifies |
| AutohomeCrawler.AppendKeepsPosts | AutohomeCrawler/src/crawler.py:174-176 | appending keeps every stored post and adds one for the new URL |
| AutohomeCrawler.RecordKeeps | AutohomeCrawler/src/crawler.py:171-185 | a success appends the post and adds its URL together, and saves on every tenth success |
| AutohomeCrawler.FetchKeeps | AutohomeCrawler/src/crawler.py:165-169 | fetching a link that is neither empty nor processed keeps the session invariant |
| AutohomeCrawler.LinkStepKeeps | AutohomeCrawler/src/crawler.py:165-196 | a link that is skipped, fails, succeeds or raises keeps the session invariant: no empty or processed link fetched; a URL recorded exactly when its post, the one read from that URL's page, is appended; each community's list is its start list followed by the posts read for the URLs recorded under it, in order; no post lost; saves at 10, 20, … |
| AutohomeCrawler.ListDetailsKeeps | AutohomeCrawler/src/crawler.py:165-196 | the loop over one community's links keeps the session invariant |
| AutohomeCrawler.EntriesDetailsKeeps | AutohomeCrawler/src/crawler.py:159-196 | the loop over the communities keeps the session invariant |
| AutohomeCrawler.DetailsEffect | AutohomeCrawler/src/crawler.py:147-200 | `scrape_details` keeps that invariant to the end, so each community's list ends as its old list followed by the posts read for the URLs recorded under it, in order; it saves once more with the final state when no exception escapes, and changes nothing when there are no links |
| AutohomeCrawler.DetailsKeepAndRecord | AutohomeCrawler/src/crawler.py:147-200 | a detail pass started from a crawler's state never forgets a processed URL or loses a stored post, and stores a post for every URL it adds to the processed set |
| AutohomeCrawler.AutohomeCrawler.ScrapeLink | AutohomeCrawler/src/crawler.py:165-196 | one link leaves the session `LinkStep` specifies |
| AutohomeCrawler.AutohomeCrawler.AddPost | AutohomeCrawler/src/crawler.py:171-191 | one fetched detail leaves the session `AfterFetch` specifies: nothing on failure; otherwise post, URL, count and a save on a tenth success |
| AutohomeCrawler.AutohomeCrawler.ScrapeList | AutohomeCrawler/src/crawler.py:165-196 | the link loop leaves the session `ListDetails` specifies |
| AutohomeCrawler.AutohomeCrawler.ScrapeDetails | AutohomeCrawler/src/crawler.py:147-200 | the detail pass leaves the session `Details` specifies |
| AutohomeCrawler.ReloadChangesNothing | AutohomeCrawler/src/crawler.py:214-220 | the reload between the passes reads back exactly what is in memory |
| AutohomeCrawler.RunEffect | AutohomeCrawler/src/crawler.py:202-228 | an exception leaves `run` exactly when the first load raises, on an unhashable progress list or a links value with no `len`, and then only the load happened; a run never forgets a processed URL or loses a stored post, and every URL it adds has its post stored under a community |
| AutohomeCrawler.RunRaisesOnUnhashableProgress | AutohomeCrawler/src/crawler.py:65-67 | a progress file such as `[[1]]` makes the first load raise before the processed set is assigned, so no pass runs |
| AutohomeCrawler.RunRaisesOnNumberLink | AutohomeCrawler/src/crawler.py:202-211 | a links file `{"x": 5}` with `x` no community makes the first load raise, so no pass runs |
| AutohomeCrawler.AutohomeCrawler.Run | AutohomeCrawler/src/crawler.py:202-228 | the crawler ends in the state `Ran` specifies and reports whether an exception left `run`: a raising first load escapes before any pass; a reload only when links were scraped, and a raising reload skips the detail pass; an exception in a pass ends the run |
| DongchediTime.Clean | DongchediCrawler/src/utils.py:14 | the cleaned text has no surrounding whitespace and occurs inside the input |
| DongchediTime.CleanCuts | DongchediCrawler/src/utils.py:14 | the cleaned text is the input with only whitespace cut from the front, and from the back whitespace, then a run of 回/复, then whitespace; the 回/复 run and the outer trailing whitespace are each cut as far as they go |
| DongchediTime.CleanDropsReplyRun | DongchediCrawler/src/utils.py:14 | cleaning " 3分钟前 复回复 " gives "3分钟前": `rstrip("回复")` drops the whole trailing run "复回复", while a suffix removal would leave "复", and the spaces before the run go too |
| DongchediTime.JustNowIsAMinuteAgo | DongchediCrawler/src/utils.py:19-20 | exactly "刚刚", once cleaned, gives now minus 60 seconds |
| DongchediTime.AgoRuleNotAfterNow | DongchediCrawler/src/utils.py:23-52 | a minutes, hours or days reading that decides is the epoch now minus the number read at the leftmost match times the unit, so never after now |
| DongchediTime.AgoRuleValue | DongchediCrawler/src/utils.py:23-52 | "N分钟前", "N小时前", "N天前" read the digits of their leftmost occurrence: with no match before `i` and the unit after the digits `t[i..j]`, the rule gives `int(t[i..j])` units before now |
| DongchediTime.DayAtValue | DongchediCrawler/src/utils.py:34-46 | "昨天 HH:MM" / "前天 HH:MM" at their leftmost occurrence give that day at HH:MM:00, or raise when going back leaves `datetime`'s range or the hour exceeds 23 or the minute 59 |
| DongchediTime.RelativeOrder | DongchediCrawler/src/utils.py:22-86 | the relative rules are tried in the order 分钟前, 小时前, 昨天, 前天, 天前 and the first whose pattern occurs decides with its value; they all miss exactly when none occurs, and then the absolute rules decide |
| DongchediTime.ParseOrderAgo | DongchediCrawler/src/utils.py:12-52 | on the cleaned text, when it is not exactly "刚刚", `parse_time_string` gives the 分钟前 value when that phrase occurs, else the 小时前 value when it occurs, and the 天前 value only when 昨天 and 前天 do not occur either |
| DongchediTime.ParseOrderDays | DongchediCrawler/src/utils.py:12-86 | on the cleaned text, when it is not exactly "刚刚", `parse_time_string` gives the 昨天 rule's value when neither 分钟前 nor 小时前 occurs, the 前天 rule's value when 昨天 does not occur either, and the absolute rules' value when none of the five phrases occurs |
| DongchediTime.MonthDayNotInFuture | DongchediCrawler/src/utils.py:55-63 | a month-day reading is a valid midnight no later than now, in this year or, when this year's would be later, the last |
| DongchediTime.MonthDayFields | DongchediCrawler/src/utils.py:55-57 | a month-day reading keeps the month and day named by the first `dd-dd` |
| DongchediTime.MonthDayDecides | DongchediCrawler/src/utils.py:55-63 | a month-day reading decides when no earlier rule does |
| DongchediTime.FullDateReadAsMonthDay | DongchediCrawler/src/utils.py:55-72 | "2012-05-20" is read by the month-day rule as the 12th month, 5th day |
| DongchediTime.DateFoundFirst | DongchediCrawler/src/utils.py:68-77 | every text the full date-time rule matches also has a date match at or before it |
| DongchediTime.DateTimeOnlyAfterBadDate | DongchediCrawler/src/utils.py:68-83 | the date-time rule can decide only when the leftmost date is invalid and the date-time lies further right |
| DongchediTime.FallbackIsCleaned | DongchediCrawler/src/utils.py:85-86 | the result is the cleaned text, not the input, and it is so exactly when no rule reads a time from it |
| DongchediScraper.AnchorPost | DongchediCrawler/src/scraper.py:36-61 | a record only for an href containing `/ugc/article/` in a section with non-empty content; its URL is the base URL plus the href, replies empty, user `无用户名` by default |
| DongchediScraper.PostsFromAnchors | DongchediCrawler/src/scraper.py:35-61 | each post comes from an anchor, in anchor order, each anchor at most once |
| DongchediScraper.PostsStop | DongchediCrawler/src/scraper.py:50-69 | the listing loop stops exactly when some anchor's time raises, returning the posts so far |
| DongchediScraper.PostsComplete | DongchediCrawler/src/scraper.py:35-61 | a loop that does not stop makes a post of every anchor that yields one |
| DongchediScraper.PostsStayStopped | DongchediCrawler/src/scraper.py:65-69 | once the listing loop has stopped, later anchors do not matter |
| DongchediScraper.ReadAnchor | DongchediCrawler/src/scraper.py:36-61 | one pass of the anchor loop yields exactly the record, nothing or exception that `AnchorPost` specifies |
| DongchediScraper.GetPostsOnPage | DongchediCrawler/src/scraper.py:13-69 | always returns a list, the one `PostsOnPage` specifies |
| DongchediScraper.PairedZip | DongchediCrawler/src/scraper.py:98-103 | reply `i` pairs text `i` with time `i`; all `min` pairs when no time raises, else those before it |
| DongchediScraper.PairedStaysStopped | DongchediCrawler/src/scraper.py:107-111 | once the reply loop has stopped, later pairs do not matter |
| DongchediScraper.RepliesForPostZip | DongchediCrawler/src/scraper.py:88-111 | at most `min(len(texts), len(times))` replies; reply `i` has the stripped text `i` and the time read from the stripped time `i`; all `min` of them when the page loads and every time reads |
| DongchediScraper.PairReplies | DongchediCrawler/src/scraper.py:98-103 | the `zip` loop returns the paired replies `Paired` specifies |
| DongchediScraper.GetRepliesForPost | DongchediCrawler/src/scraper.py:72-111 | returns the replies `RepliesForPost` specifies |
| DongchediCrawler.DongchediCrawler.constructor | DongchediCrawler/src/crawler.py:21-26 | no posts and nothing processed; the files hold what they hold |
| DongchediCrawler.DongchediCrawler.LoadDataAndProgress | DongchediCrawler/src/crawler.py:41-58 | the posts and the processed list become what the posts and progress files hold |
| DongchediCrawler.DongchediCrawler.SaveData | DongchediCrawler/src/crawler.py:60-63 | the posts file takes the current posts and nothing else changes |
| DongchediCrawler.DongchediCrawler.SaveProgress | DongchediCrawler/src/crawler.py:65-67 | the progress file takes the processed list and nothing else changes |
| DongchediCrawler.CommunityResume | DongchediCrawler/src/crawler.py:96-106 | the pages read are `{url}/{i+1}` for `i` from `page_offset + len(stored posts)` up to `total_pages + page_offset - 1`, ascending; none past the end |
| DongchediCrawler.PageUrlsDistinct | DongchediCrawler/src/crawler.py:106 | different page indices give different URLs |
| DongchediCrawler.PageLoopLog | DongchediCrawler/src/crawler.py:104-116 | a loop that runs through requests exactly `range(lo, hi)` in order and writes the file once per page |
| DongchediCrawler.PageLoopEffect | DongchediCrawler/src/crawler.py:104-116 | unless an exception escapes, the community holds its old posts followed by every page's posts, and the file holds them |
| DongchediCrawler.PageLoopRaises | DongchediCrawler/src/crawler.py:114 | the loop raises exactly when it reads a page into a value that is not a list |
| DongchediCrawler.PageLoopOthers | DongchediCrawler/src/crawler.py:114 | the loop touches no other community and keeps keys unique |
| DongchediCrawler.PageLoopSaved | DongchediCrawler/src/crawler.py:116 | after a loop that reads a page and does not raise, the file holds the posts; an empty range changes nothing |
| DongchediCrawler.PageStepAppend | DongchediCrawler/src/crawler.py:107-116 | one page escapes exactly when the community holds a non-list; otherwise its posts extend that list and no other key |
| DongchediCrawler.PageLoopNext | DongchediCrawler/src/crawler.py:104-116 | a loop still going takes one more page by one more step |
| DongchediCrawler.PageLoopStays | DongchediCrawler/src/crawler.py:104-116 | once the loop has escaped, later pages change nothing |
| DongchediCrawler.CommunityStored | DongchediCrawler/src/crawler.py:88-116 | a community that held a list, or nothing, ends with its old posts followed by the posts of the pages requested |
| DongchediCrawler.CommunityEscapes | DongchediCrawler/src/crawler.py:96-114 | a community raises exactly when it would read a page into a non-list |
| DongchediCrawler.CommunityRaises | DongchediCrawler/src/crawler.py:82-96 | a missing `url`, or a stored value without a length, raises before any page is requested |
| DongchediCrawler.CommunityAsLoop | DongchediCrawler/src/crawler.py:88-116 | a community is the page loop from its resume index, run on the dict with its key inserted |
| DongchediCrawler.DongchediCrawler.ScrapePage | DongchediCrawler/src/crawler.py:106-116 | one page leaves the state `PageStep` specifies |
| DongchediCrawler.DongchediCrawler.ScrapePages | DongchediCrawler/src/crawler.py:104-118 | the page loop leaves the state `PageLoop` specifies |
| DongchediCrawler.DongchediCrawler.InsertCommunity | DongchediCrawler/src/crawler.py:89-90 | a missing community gets an empty list; a present one is unchanged |
| DongchediCrawler.DongchediCrawler.ScrapeCommunity | DongchediCrawler/src/crawler.py:82-118 | one community leaves the state `CommunityPosts` specifies |
| DongchediCrawler.DongchediCrawler.ScrapePosts | DongchediCrawler/src/crawler.py:77-118 | the post pass leaves the state `AllPosts` specifies |
| DongchediCrawler.ReplyStepProgress | DongchediCrawler/src/crawler.py:134-140 | one post keeps the progress invariant: the processed list is the loaded one followed by the URLs read, each non-empty, new and read once; after the first read both files hold the state, and before it nothing changed |
| DongchediCrawler.ReplyStepPosts | DongchediCrawler/src/crawler.py:131-140 | one post keeps the dict's keys in place and every list's length; each post is as it was or, when the pass read its URL, has exactly the replies read for that URL appended once; every URL read so far has its replies appended to a post that carries it at the same place |
| DongchediCrawler.ReplyStepAppended | DongchediCrawler/src/crawler.py:131-140 | the post a step reads is still the one loaded at that place, and ends as that post with the replies read for its URL; the posts of earlier reads keep their replies |
| DongchediCrawler.RepliesEffect | DongchediCrawler/src/crawler.py:120-145 | the reply pass keeps keys and lengths; each post is as it was or has the replies read for its URL appended once; for every URL read, a post loaded with that URL ends, at the same place, with the replies read for it appended; the progress is the old list followed by the URLs read; a duplicate-free progress stays free of duplicates even when a URL occurs twice among the posts |
| DongchediCrawler.ProgressDistinct | DongchediCrawler/src/crawler.py:134-138 | the progress gains only URLs it does not hold, each once |
| DongchediCrawler.AllRepliesCover | DongchediCrawler/src/crawler.py:125-145 | after the pass over the first `m` entries, every post in their lists has no URL or a processed one |
| DongchediCrawler.RepliesComplete | DongchediCrawler/src/crawler.py:120-145 | after the whole reply pass no post with a URL is left unprocessed |
| DongchediCrawler.DongchediCrawler.ScrapeReply | DongchediCrawler/src/crawler.py:131-141 | one post leaves the state `ReplyStep` specifies |
| DongchediCrawler.DongchediCrawler.ScrapeList | DongchediCrawler/src/crawler.py:131-145 | the post loop leaves the state `ListReplies` specifies |
| DongchediCrawler.DongchediCrawler.ScrapeReplies | DongchediCrawler/src/crawler.py:120-145 | the reply pass leaves the state `AllReplies` specifies |
| DongchediCrawler.RunEffect | DongchediCrawler/src/crawler.py:147-161 | over a run the loaded progress list stays a prefix; everything added is a non-empty URL not in it; a duplicate-free list stays so; the progress file is untouched or holds the final list |
| DongchediCrawler.DongchediCrawler.Run | DongchediCrawler/src/crawler.py:147-161 | the crawler ends in the state `Ran` specifies; an exception in the post pass ends the run |

## Left out

- Browser I/O is left out: driver setup, window size, waits, CSS and XPath
  lookups, `scroll_to_bottom`, clicks, delays, printing, `driver.quit`,
  `save_error_page` and `results_count`. Pages are oracle values, and a wait
  that times out is a field of the page value.
- Cookies and login are left out: `load_cookies`, `save_cookies`,
  `manual_login`, `_ensure_login` and `test_cookies`. Each is session I/O
  or interactive, and the passes assume a logged-in browser.
- `get_all_links`, the `main` functions and `run.py` are left out. They are
  entry points over hard-coded lists.
- JSON reading and writing is modelled as values, and a write assigns the
  field. Encoding, indentation and partial writes are not modelled. What a
  file field can hold differs by file: the Autohome files hold a dict or
  another JSON value (the progress file also a list with an unhashable
  element); the Flyert progress file holds a progress record and the Flyert
  results file a list of hotel entries, or either is unreadable and the
  source's fallback is used (a file that parses to another shape, on which
  the source fails at first use, is not represented); the Flyert links file
  and the Dongchedi files are narrower, as the lines below say.
- FlyertCrawl.GetArticleLinksByPage and FlyertCrawl.GetAllContents: the
  links file `data/links.json` always reads as a list of hotel entries, each
  with a `hotel` name and a list of `links`. In the source, a missing or
  corrupt file, or an entry without a `hotel` key, raises at
  flyertCrawler/flyert_crawl.py:104-108 inside the outer `try` (lines 45 and
  118-119), so `get_article_links_by_page` returns None. The model returns
  Some whenever the page walk does not raise. The same file read at lines
  291-292 of `get_all_contents` has no `try`, so there it escapes; the model
  cannot represent that case.
- AutohomeCrawler: a progress list element other than a string (a number,
  say) is not represented. It never equals a URL, so lookups are unaffected,
  but the source writes it back on each save and the model drops it.
- Dongchedi loading is simplified. A posts file that parses to something
  other than a dict is read as an empty dict. A corrupt progress file (an
  uncaught `json.load` error) is not modelled. The dummy files it creates
  are not modelled either.
- Stored Dongchedi posts are assumed to have the record shape the scraper
  builds. A stored post without `replies` (a KeyError) is not modelled. A
  post without `url` is treated like one with an empty URL.
- Autohome `list(set(...))` order is not modelled: the progress file holds
  the set itself.
- Autohome template formatting: only the KeyError of `str.format` is
  modelled, for a template with a field other than `page_num`. Other format
  errors (an unbalanced brace, an index field) are not.
- Time: `now` is one integer per call, and the conversion between epoch
  seconds and local civil time is the `Calendar` parameter. `strftime` of
  years below 1000 is rendered with four digits.
- Clock.Ago: subtracts the seconds from the epoch `now`. The source
  subtracts the `timedelta` from the naive local `datetime.now()` and then
  converts with `.timestamp()`. When a daylight-saving change lies between
  the two instants, the source's result differs from the model's by that
  change, usually an hour. A wall time that falls in a gap or a fold is not
  modelled.
- Clock.Back: the 昨天/前天 rules (Flyert, Dongchedi) read the date from
  `cal.toCivil` of the epoch `now` minus whole days of seconds. The source
  subtracts whole wall-clock days from local time. Across a daylight-saving
  change and within an hour of midnight, the model can therefore land on the
  neighbouring date.
- Clock.Back and Clock.Ago: the OverflowError bound is `MinStamp`/`MaxStamp`,
  the UTC ends of `datetime`'s range. Python's bound is on local civil years
  1 to 9999, so the two differ by the zone offset at the ends of the range.
- DongchediCrawler: the progress file is a `seq<string>`, so a progress file
  holding JSON other than a list cannot be represented. A number such as `5`
  makes `url not in self.processed_post_urls` (DongchediCrawler/src/crawler.py:134)
  raise a TypeError. A dict such as `{}` passes that test, and then `.append`
  fails after the post's replies have already been extended.
- Regex `\d` is ASCII digits only. Python also accepts other Unicode digits.
- The page loops are split into one-page methods (`ScrapePage`,
  `ScrapeReply`, `InsertCommunity`, `ScrapeLink`, `AddPost`). Each is
  specified by the same step function as the loop around it.
- Dongchedi requests are logged as `(url, i)` pairs. `PageUrlsDistinct`
  ties each pair to its URL `{url}/{i+1}`.
- Flyert listing and reply pages are finite sequences. Past its last page
  the site shows the "抱歉" notice, and the reply loop ends at the last page
  given.
- AutohomeScraper.GetPostDetailLinks: the second and third attempts that
  `max_retries = 3` allows are not reachable as written (see above). The
  model's bound is the single lookup the code makes, and the `tries` count
  is ghost.
