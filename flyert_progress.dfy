/**
 * The flyert crawler's `ProgressManager`: a cursor naming the hotel being
 * crawled and three link lists (processed, errored, empty) that decide which
 * links a later run skips.  `Progress` is the state as a value, with the
 * effect of each operation as a function; the class updates that state in
 * place and keeps a ghost copy of what it last wrote to the progress file.
 */
module FlyertProgress {
  import opened Wrappers

  datatype Progress = Progress(currentHotel: string, processedLinks: seq<string>, errorLinks: seq<string>, emptyLinks: seq<string>)

  /** The state used when the progress file cannot be read. */
  const Default: Progress := Progress("", [], [], [])

  predicate NoDup(s: seq<string>) {
    forall i, j | 0 <= i < j < |s| :: s[i] != s[j]
  }

  /** `link in processed_links or link in error_links or link in empty_links` */
  predicate IsProcessed(p: Progress, link: string) {
    link in p.processedLinks || link in p.errorLinks || link in p.emptyLinks
  }

  /** `if x not in s: s.append(x)` */
  function AppendAbsent(s: seq<string>, x: string): (r: seq<string>)
    ensures x in r && (x in s ==> r == s) && (x !in s ==> r == s + [x])
    ensures forall y :: y in r <==> y in s || y == x
    ensures NoDup(s) ==> NoDup(r)
  {
    if x in s then s else s + [x]
  }

  /** `if x in s: s.remove(x)`: drops the first occurrence only. */
  function RemoveFirst(s: seq<string>, x: string): (r: seq<string>)
    ensures |r| <= |s|
  {
    if |s| == 0 then s
    else if s[0] == x then s[1..]
    else [s[0]] + RemoveFirst(s[1..], x)
  }

  /** `list.index`: where the first occurrence is. */
  function FirstIndex(s: seq<string>, x: string): (i: nat)
    requires x in s
    ensures i < |s| && s[i] == x && x !in s[..i]
  {
    if s[0] == x then 0
    else
      assert x in s[1..] by { assert s == [s[0]] + s[1..]; }
      var j := FirstIndex(s[1..], x);
      assert s[..j + 1] == [s[0]] + s[1..][..j];
      j + 1
  }

  /** `list.remove` takes out exactly the first occurrence, and nothing when there is none. */
  lemma {:induction false} RemoveFirstDropsFirst(s: seq<string>, x: string)
    ensures x !in s ==> RemoveFirst(s, x) == s
    ensures x in s ==> RemoveFirst(s, x) == s[..FirstIndex(s, x)] + s[FirstIndex(s, x) + 1..]
  {
    if |s| > 0 && s[0] != x {
      var t := s[1..];
      assert s == [s[0]] + t;
      assert RemoveFirst(s, x) == [s[0]] + RemoveFirst(t, x);
      RemoveFirstDropsFirst(t, x);
      if x in s {
        assert x in t;
        var i := FirstIndex(t, x);
        assert FirstIndex(s, x) == i + 1;
        assert s[..i + 1] == [s[0]] + t[..i];
        assert s[i + 2..] == t[i + 1..];
      }
    } else if |s| > 0 {
      assert s[..0] + s[1..] == s[1..];
    }
  }

  /** Other links keep their membership, and in a duplicate-free list the link is gone afterwards. */
  lemma {:induction false} RemoveFirstMembers(s: seq<string>, x: string)
    ensures forall y | y != x :: y in RemoveFirst(s, x) <==> y in s
    ensures NoDup(s) ==> NoDup(RemoveFirst(s, x)) && x !in RemoveFirst(s, x)
  {
    if |s| == 0 {
    } else {
      assert s == [s[0]] + s[1..];
      assert NoDup(s) ==> NoDup(s[1..]) && s[0] !in s[1..] by {
        if NoDup(s) {
          forall i, j | 0 <= i < j < |s[1..]| ensures s[1..][i] != s[1..][j] {
            assert s[1..][i] == s[i + 1] && s[1..][j] == s[j + 1];
          }
        }
      }
      if s[0] != x {
        RemoveFirstMembers(s[1..], x);
        var t := RemoveFirst(s[1..], x);
        assert RemoveFirst(s, x) == [s[0]] + t;
        if NoDup(s) {
          forall i, j | 0 <= i < j < |[s[0]] + t| ensures ([s[0]] + t)[i] != ([s[0]] + t)[j] {
            if i == 0 {
              assert ([s[0]] + t)[j] == t[j - 1];
              assert t[j - 1] in t;
            } else {
              assert ([s[0]] + t)[i] == t[i - 1] && ([s[0]] + t)[j] == t[j - 1];
            }
          }
        }
      }
    }
  }

  function MarkProcessed(p: Progress, link: string): Progress {
    p.(processedLinks := AppendAbsent(p.processedLinks, link), errorLinks := RemoveFirst(p.errorLinks, link))
  }

  function MarkError(p: Progress, link: string): Progress {
    p.(errorLinks := AppendAbsent(p.errorLinks, link))
  }

  function MarkEmpty(p: Progress, link: string): Progress {
    p.(emptyLinks := AppendAbsent(p.emptyLinks, link), errorLinks := RemoveFirst(p.errorLinks, link))
  }

  /** The three lists are duplicate-free. */
  predicate Tidy(p: Progress) {
    NoDup(p.processedLinks) && NoDup(p.errorLinks) && NoDup(p.emptyLinks)
  }

  // ---------------------------------------------------------------------------
  // Properties of the operations

  /**
   * After `mark_link_processed(l)`, `l` is processed and, in a tidy state, no
   * longer errored; the empty list and the cursor are untouched, every other
   * link keeps its standing, and the state stays tidy.
   */
  lemma MarkProcessedEffect(p: Progress, link: string)
    ensures var q := MarkProcessed(p, link);
      && link in q.processedLinks && q.emptyLinks == p.emptyLinks && q.currentHotel == p.currentHotel
      && (forall l | l != link :: (l in q.processedLinks <==> l in p.processedLinks) && (l in q.errorLinks <==> l in p.errorLinks))
      && (Tidy(p) ==> Tidy(q) && link !in q.errorLinks)
  {
    RemoveFirstMembers(p.errorLinks, link);
  }

  /** After `mark_empty_link(l)`, `l` is empty and, in a tidy state, no longer errored; processed links and the cursor are untouched. */
  lemma MarkEmptyEffect(p: Progress, link: string)
    ensures var q := MarkEmpty(p, link);
      && link in q.emptyLinks && q.processedLinks == p.processedLinks && q.currentHotel == p.currentHotel
      && (forall l | l != link :: (l in q.emptyLinks <==> l in p.emptyLinks) && (l in q.errorLinks <==> l in p.errorLinks))
      && (Tidy(p) ==> Tidy(q) && link !in q.errorLinks)
  {
    RemoveFirstMembers(p.errorLinks, link);
  }

  /** `mark_error_link` adds the link once and touches nothing else: applying it twice is applying it once. */
  lemma MarkErrorIdempotent(p: Progress, link: string)
    ensures MarkError(MarkError(p, link), link) == MarkError(p, link)
    ensures var q := MarkError(p, link);
      && link in q.errorLinks && q.processedLinks == p.processedLinks && q.emptyLinks == p.emptyLinks
      && q.currentHotel == p.currentHotel && (Tidy(p) ==> Tidy(q))
  {
  }

  /** Every mark leaves its link processed, and no mark makes another link unprocessed. */
  lemma MarksOnlyGrowTheSkipSet(p: Progress, link: string, other: string)
    ensures IsProcessed(MarkProcessed(p, link), link) && IsProcessed(MarkError(p, link), link) && IsProcessed(MarkEmpty(p, link), link)
    ensures IsProcessed(p, other) ==>
      IsProcessed(MarkProcessed(p, link), other) && IsProcessed(MarkError(p, link), other) && IsProcessed(MarkEmpty(p, link), other)
  {
    if other == link {
    } else {
      MarkProcessedEffect(p, link);
      MarkEmptyEffect(p, link);
    }
  }

  // ---------------------------------------------------------------------------
  // The object

  class ProgressManager {
    var currentHotel: string
    var processedLinks: seq<string>
    var errorLinks: seq<string>
    var emptyLinks: seq<string>
    /** The contents of the progress file as last written. */
    ghost var saved: Progress

    function State(): Progress
      reads this
    {
      Progress(currentHotel, processedLinks, errorLinks, emptyLinks)
    }

    /** `_load_progress`: the stored state, or the default when the file cannot be read. */
    constructor(stored: Option<Progress>)
      ensures State() == stored.GetOr(Default)
      ensures stored.None? ==> currentHotel == "" && processedLinks == [] && errorLinks == [] && emptyLinks == []
    {
      var p := stored.GetOr(Default);
      currentHotel := p.currentHotel;
      processedLinks := p.processedLinks;
      errorLinks := p.errorLinks;
      emptyLinks := p.emptyLinks;
      saved := p;
    }

    /** `save_progress` */
    method Save()
      modifies this
      ensures State() == old(State()) && saved == State()
    {
      saved := State();
    }

    function IsLinkProcessed(link: string): (r: bool)
      reads this
      ensures r == IsProcessed(State(), link)
    {
      link in processedLinks || link in errorLinks || link in emptyLinks
    }

    method MarkLinkProcessed(link: string)
      modifies this
      ensures State() == MarkProcessed(old(State()), link) && saved == State()
    {
      if link !in processedLinks {
        processedLinks := processedLinks + [link];
      }
      if link in errorLinks {
        errorLinks := RemoveFirst(errorLinks, link);
      } else {
        RemoveFirstDropsFirst(errorLinks, link);
      }
      Save();
    }

    /** Saves only when the link was new to the error list. */
    method MarkErrorLink(link: string)
      modifies this
      ensures State() == MarkError(old(State()), link)
      ensures saved == if link in old(errorLinks) then old(saved) else State()
    {
      if link !in errorLinks {
        errorLinks := errorLinks + [link];
        Save();
      }
    }

    method MarkEmptyLink(link: string)
      modifies this
      ensures State() == MarkEmpty(old(State()), link) && saved == State()
    {
      if link !in emptyLinks {
        emptyLinks := emptyLinks + [link];
      }
      if link in errorLinks {
        errorLinks := RemoveFirst(errorLinks, link);
      } else {
        RemoveFirstDropsFirst(errorLinks, link);
      }
      Save();
    }

    method SetCurrentHotel(hotel: string)
      modifies this
      ensures State() == old(State()).(currentHotel := hotel) && saved == State()
    {
      currentHotel := hotel;
      Save();
    }

    function GetCurrentHotel(): (h: string)
      reads this
      ensures h == State().currentHotel
    {
      currentHotel
    }
  }
}
