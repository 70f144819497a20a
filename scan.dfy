/**
 * The regular expressions of the three time parsers, read as token sequences.
 *
 * Each pattern the crawlers use is a chain of literals, bounded or unbounded
 * digit runs (`\d{m,n}`, `\d+`), whitespace runs (`\s*`, `\s+`) and `$`.  In
 * every one of them a quantified run is followed by a token that cannot start
 * with a character the run consumes, so Python's backtracking matcher and the
 * greedy, non-backtracking reading below accept the same strings with the same
 * groups.  `Search` is `re.search` (leftmost match) and `FindAll` is
 * `re.finditer` (non-overlapping matches, left to right).
 */
module Scan {
  import opened Wrappers
  import opened Text

  datatype Token =
    | Lit(text: string)         // the characters of `text`
    | Digits(min: nat, max: nat) // \d{min,max}
    | Number                     // \d+
    | Blanks(min: nat)           // \s* (min 0) or \s+ (min 1)
    | AtEnd                      // $ : end of text, or just before a final newline

  predicate DigitsIn(s: string, a: nat, b: nat)
    requires a <= b <= |s|
  {
    forall k | a <= k < b :: IsDigit(s[k])
  }

  predicate BlanksIn(s: string, a: nat, b: nat)
    requires a <= b <= |s|
  {
    forall k | a <= k < b :: IsSpace(s[k])
  }

  /** The first index at or after `i` that does not hold a digit. */
  function DigitsEnd(s: string, i: nat): (e: nat)
    requires i <= |s|
    ensures i <= e <= |s| && DigitsIn(s, i, e)
    ensures e == |s| || !IsDigit(s[e])
    decreases |s| - i
  {
    if i < |s| && IsDigit(s[i]) then DigitsEnd(s, i + 1) else i
  }

  /** The first index at or after `i` that does not hold whitespace. */
  function BlanksEnd(s: string, i: nat): (e: nat)
    requires i <= |s|
    ensures i <= e <= |s| && BlanksIn(s, i, e)
    ensures e == |s| || !IsSpace(s[e])
    decreases |s| - i
  {
    if i < |s| && IsSpace(s[i]) then BlanksEnd(s, i + 1) else i
  }

  /** `s[p..q]` is what token `t` accepts. */
  predicate Fits1(s: string, p: nat, q: nat, t: Token)
    requires p <= q <= |s|
  {
    match t
    case Lit(w) => s[p..q] == w
    case Digits(lo, hi) => DigitsIn(s, p, q) && lo <= q - p <= hi
    case Number => DigitsIn(s, p, q) && p < q
    case Blanks(lo) => BlanksIn(s, p, q) && lo <= q - p
    case AtEnd => q == p && (p == |s| || (p + 1 == |s| && s[p] == '\n'))
  }

  /** A run token stopped because its bound was reached or the next character is of another kind. */
  predicate Greedy(s: string, q: nat, t: Token, p: nat)
    requires q <= |s|
  {
    match t
    case Digits(_, hi) => q == p + hi || q == |s| || !IsDigit(s[q])
    case Number => q == |s| || !IsDigit(s[q])
    case Blanks(_) => q == |s| || !IsSpace(s[q])
    case _ => true
  }

  /** Where token `t` ends when it is matched at `p`, or None when it does not match there. */
  function Take(s: string, p: nat, t: Token): (q: Option<nat>)
    requires p <= |s|
    ensures q.Some? ==> p <= q.value <= |s| && Fits1(s, p, q.value, t) && Greedy(s, q.value, t, p)
  {
    match t
    case Lit(w) => if p + |w| <= |s| && s[p..p + |w|] == w then Some(p + |w|) else None
    case Digits(lo, hi) =>
      var e := DigitsEnd(s, p);
      var q := if e - p <= hi then e else p + hi;
      if lo <= q - p then Some(q) else None
    case Number => var e := DigitsEnd(s, p); if p < e then Some(e) else None
    case Blanks(lo) => var e := BlanksEnd(s, p); if lo <= e - p then Some(e) else None
    case AtEnd => if p == |s| || (p + 1 == |s| && s[p] == '\n') then Some(p) else None
  }

  /** Token `i` spans `s[bs[i]..bs[i + 1]]` and accepts it. */
  predicate StepFits(s: string, ts: seq<Token>, bs: seq<nat>, i: nat)
    requires |bs| == |ts| + 1 && i < |ts|
  {
    bs[i] <= bs[i + 1] <= |s| && Fits1(s, bs[i], bs[i + 1], ts[i])
  }

  /** `bs` are the boundaries of a match of `ts`. */
  predicate Fits(s: string, ts: seq<Token>, bs: seq<nat>) {
    && |bs| == |ts| + 1
    && bs[|ts|] <= |s|
    && forall i | 0 <= i < |ts| :: StepFits(s, ts, bs, i)
  }

  /** The match of `ts` that starts at `p` (Python's `re.match` from position `p`). */
  function MatchAt(s: string, p: nat, ts: seq<Token>): (r: Option<seq<nat>>)
    requires p <= |s|
    ensures r.Some? ==> Fits(s, ts, r.value) && r.value[0] == p
    decreases |ts|
  {
    if ts == [] then Some([p])
    else
      match Take(s, p, ts[0])
      case None => None
      case Some(q) =>
        match MatchAt(s, q, ts[1..])
        case None => None
        case Some(bs) =>
          var r := [p] + bs;
          assert Fits(s, ts, r) by {
            forall i | 0 <= i < |ts|
              ensures StepFits(s, ts, r, i)
            {
              if i > 0 {
                assert StepFits(s, ts[1..], bs, i - 1);
                assert r[i] == bs[i - 1] && r[i + 1] == bs[i] && ts[i] == ts[1..][i - 1];
              }
            }
          }
          Some(r)
  }

  /** The leftmost match of `ts` starting at or after `p`. */
  function SearchFrom(s: string, p: nat, ts: seq<Token>): (r: Option<seq<nat>>)
    requires p <= |s|
    ensures r.Some? ==> |r.value| == |ts| + 1 && p <= r.value[0] <= |s| && MatchAt(s, r.value[0], ts) == r
    ensures r.Some? ==> forall q | p <= q < r.value[0] :: MatchAt(s, q, ts).None?
    ensures r.None? ==> forall q | p <= q <= |s| :: MatchAt(s, q, ts).None?
    decreases |s| - p
  {
    var here := MatchAt(s, p, ts);
    if here.Some? then here
    else if p == |s| then None
    else SearchFrom(s, p + 1, ts)
  }

  /** No match of `ts` starts at or after `p`. */
  predicate NoMatchFrom(s: string, p: nat, ts: seq<Token>) {
    forall q | p <= q <= |s| :: MatchAt(s, q, ts).None?
  }

  /** `re.search`. */
  function Search(s: string, ts: seq<Token>): Option<seq<nat>> {
    SearchFrom(s, 0, ts)
  }

  /** No match of `ts` starts before `p`. */
  predicate NoMatchBefore(s: string, p: nat, ts: seq<Token>)
    requires p <= |s|
  {
    forall q | 0 <= q < p :: MatchAt(s, q, ts).None?
  }

  /** A match with none before it is the one `re.search` finds. */
  lemma SearchIs(s: string, ts: seq<Token>, p: nat, bs: seq<nat>)
    requires p <= |s| && NoMatchBefore(s, p, ts) && MatchAt(s, p, ts) == Some(bs)
    ensures Search(s, ts) == Some(bs)
  {
    var r := SearchFrom(s, 0, ts);
    assert MatchAt(s, p, ts).Some?;
    assert r.Some?;
    var k := r.value[0];
    assert MatchAt(s, k, ts).Some?;
    assert k == p;
  }

  /** Where `re.finditer` searches again after the match `bs`: at its end, or one character on after an empty match. */
  function NextStart(ts: seq<Token>, bs: seq<nat>): nat
    requires |bs| == |ts| + 1
  {
    if bs[|ts|] > bs[0] then bs[|ts|] else bs[0] + 1
  }

  /** `re.finditer` from position `p`: successive leftmost matches, each searched after the end of the previous one. */
  function FindAllFrom(s: string, p: nat, ts: seq<Token>): (ms: seq<seq<nat>>)
    requires p <= |s|
    ensures |ms| == 0 <==> SearchFrom(s, p, ts).None?
    ensures forall j | 0 <= j < |ms| :: |ms[j]| == |ts| + 1 && p <= ms[j][0] <= |s| && MatchAt(s, ms[j][0], ts) == Some(ms[j])
    ensures |ms| > 0 && ms[|ms| - 1][|ts|] > ms[|ms| - 1][0] ==>
      forall q | ms[|ms| - 1][|ts|] <= q <= |s| :: MatchAt(s, q, ts).None?
    decreases |s| - p
  {
    match SearchFrom(s, p, ts)
    case None => []
    case Some(bs) =>
      // An empty match moves the search on by one character.
      var next := if bs[|ts|] > bs[0] then bs[|ts|] else bs[0] + 1;
      if next > |s| then
        assert Fits(s, ts, bs);
        [bs]
      else
        var rest := FindAllFrom(s, next, ts);
        assert rest == [] ==> SearchFrom(s, next, ts).None?;
        [bs] + rest
  }

  /**
   * The matches `re.finditer` yields are chained: the first is the leftmost
   * match from `p`, and each later one is the leftmost match from where the
   * previous one lets the search go on.
   */
  lemma {:induction false} FindAllChain(s: string, p: nat, ts: seq<Token>)
    requires p <= |s|
    ensures |FindAllFrom(s, p, ts)| > 0 ==> SearchFrom(s, p, ts) == Some(FindAllFrom(s, p, ts)[0])
    ensures forall j | 0 <= j < |FindAllFrom(s, p, ts)| - 1 ::
      && NextStart(ts, FindAllFrom(s, p, ts)[j]) <= |s|
      && SearchFrom(s, NextStart(ts, FindAllFrom(s, p, ts)[j]), ts) == Some(FindAllFrom(s, p, ts)[j + 1])
    decreases |s| - p
  {
    var ms := FindAllFrom(s, p, ts);
    if |ms| > 1 {
      var bs := SearchFrom(s, p, ts).value;
      var next := NextStart(ts, bs);
      var rest := FindAllFrom(s, next, ts);
      assert ms == [bs] + rest;
      FindAllChain(s, next, ts);
      forall j | 0 <= j < |ms| - 1
        ensures NextStart(ts, ms[j]) <= |s| && SearchFrom(s, NextStart(ts, ms[j]), ts) == Some(ms[j + 1])
      {
        assert ms[j + 1] == rest[j];
        if j > 0 { assert ms[j] == rest[j - 1]; }
      }
    }
  }

  /** `re.finditer`. */
  function FindAll(s: string, ts: seq<Token>): seq<seq<nat>> {
    FindAllFrom(s, 0, ts)
  }

  /** The text of token `i` of a match. */
  function Group(s: string, ts: seq<Token>, bs: seq<nat>, i: nat): string
    requires Fits(s, ts, bs) && i < |ts|
  {
    assert StepFits(s, ts, bs, i);
    s[bs[i]..bs[i + 1]]
  }

  /** `int()` of the digits that token `i` of a match covers. */
  function Value(s: string, ts: seq<Token>, bs: seq<nat>, i: nat): nat
    requires Fits(s, ts, bs) && i < |ts| && (ts[i].Digits? || ts[i].Number?)
  {
    assert StepFits(s, ts, bs, i);
    var g := s[bs[i]..bs[i + 1]];
    assert forall k | 0 <= k < |g| :: g[k] == s[bs[i] + k];
    DecimalValue(g)
  }

  // ---------------------------------------------------------------------------
  // Properties of matches

  /** The boundaries of a match never decrease. */
  lemma {:induction false} FitsMonotone(s: string, ts: seq<Token>, bs: seq<nat>, i: nat, j: nat)
    requires Fits(s, ts, bs) && i <= j <= |ts|
    ensures bs[i] <= bs[j]
    decreases j - i
  {
    if i < j {
      assert StepFits(s, ts, bs, i);
      FitsMonotone(s, ts, bs, i + 1, j);
    }
  }

  /** A match of `a + b` at `p` begins with the match of `a` at `p`. */
  lemma {:induction false} MatchPrefix(s: string, p: nat, a: seq<Token>, b: seq<Token>)
    requires p <= |s| && MatchAt(s, p, a + b).Some?
    ensures |MatchAt(s, p, a + b).value| == |a| + |b| + 1
    ensures MatchAt(s, p, a) == Some(MatchAt(s, p, a + b).value[..|a| + 1])
    decreases |a|
  {
    var r := MatchAt(s, p, a + b).value;
    if a == [] {
      assert a + b == b;
      assert r[..1] == [p];
    } else {
      assert (a + b)[0] == a[0] && (a + b)[1..] == a[1..] + b;
      var q := Take(s, p, a[0]).value;
      var bs := MatchAt(s, q, a[1..] + b).value;
      assert r == [p] + bs;
      MatchPrefix(s, q, a[1..], b);
      assert [p] + bs[..|a|] == r[..|a| + 1];
    }
  }

  /** A literal token of a match spells the literal. */
  lemma LiteralChar(s: string, ts: seq<Token>, bs: seq<nat>, i: nat, j: nat)
    requires Fits(s, ts, bs) && i < |ts| && ts[i].Lit? && j < |ts[i].text|
    ensures bs[i] + j < |s| && s[bs[i] + j] == ts[i].text[j]
  {
    assert StepFits(s, ts, bs, i);
    assert s[bs[i]..bs[i + 1]][j] == s[bs[i] + j];
  }

  /** A pattern holding a literal with a character that never occurs in the text does not match it. */
  lemma AbsentLiteralNoMatch(s: string, ts: seq<Token>, i: nat, j: nat)
    requires i < |ts| && ts[i].Lit? && j < |ts[i].text|
    requires forall k | 0 <= k < |s| :: s[k] != ts[i].text[j]
    ensures Search(s, ts).None?
  {
    if Search(s, ts).Some? {
      LiteralChar(s, ts, Search(s, ts).value, i, j);
      assert false;
    }
  }

  /** A run of digits from `p` to `q` is covered by the digit run that starts at `p`. */
  lemma {:induction false} DigitsEndCovers(s: string, p: nat, q: nat)
    requires p <= q <= |s| && DigitsIn(s, p, q)
    ensures DigitsEnd(s, p) >= q
    decreases q - p
  {
    if p < q {
      assert IsDigit(s[p]);
      DigitsEndCovers(s, p + 1, q);
    }
  }

  /** `\d{w}` takes exactly `w` digits where there are at least `w`. */
  lemma TakeFixedDigits(s: string, p: nat, w: nat)
    requires p + w <= |s| && DigitsIn(s, p, p + w)
    ensures Take(s, p, Digits(w, w)) == Some(p + w)
  {
    DigitsEndCovers(s, p, p + w);
  }

  /** Boundaries at which every token takes exactly its own span are the match. */
  lemma {:induction false} MatchAtSteps(s: string, ts: seq<Token>, bs: seq<nat>)
    requires |bs| == |ts| + 1 && bs[0] <= |s|
    requires forall i | 0 <= i < |ts| :: bs[i] <= |s| && Take(s, bs[i], ts[i]) == Some(bs[i + 1])
    ensures MatchAt(s, bs[0], ts) == Some(bs)
    decreases |ts|
  {
    if ts != [] {
      assert Take(s, bs[0], ts[0]) == Some(bs[1]);
      forall i | 0 <= i < |ts| - 1
        ensures bs[1..][i] <= |s| && Take(s, bs[1..][i], ts[1..][i]) == Some(bs[1..][i + 1])
      {
        assert bs[i + 1] <= |s| && Take(s, bs[i + 1], ts[i + 1]) == Some(bs[i + 2]);
      }
      MatchAtSteps(s, ts[1..], bs[1..]);
      assert bs == [bs[0]] + bs[1..];
    } else {
      assert bs == [bs[0]];
    }
  }

  /** A match of a pattern that opens with `\d+` also starts one digit earlier. */
  lemma NumberExtendsLeft(s: string, q: nat, ts: seq<Token>)
    requires 0 < q <= |s| && ts != [] && ts[0].Number? && IsDigit(s[q - 1]) && MatchAt(s, q, ts).Some?
    ensures MatchAt(s, q - 1, ts).Some?
  {
    assert DigitsEnd(s, q - 1) == DigitsEnd(s, q);
  }

  /**
   * The leftmost match of a pattern that opens with `\d+`, searched from a
   * position that does not follow a digit, starts a whole digit run.
   */
  lemma SearchStartsRun(s: string, p: nat, ts: seq<Token>)
    requires p <= |s| && ts != [] && ts[0].Number? && SearchFrom(s, p, ts).Some? && StartsRun(s, p)
    ensures StartsRun(s, SearchFrom(s, p, ts).value[0])
  {
    var b := SearchFrom(s, p, ts).value[0];
    if b > p && IsDigit(s[b - 1]) {
      NumberExtendsLeft(s, b, ts);
      assert false;
    }
  }

  /** A match of a pattern that closes with a non-empty literal ends with the literal's last character. */
  lemma MatchEndsWithLiteral(s: string, ts: seq<Token>, bs: seq<nat>)
    requires Fits(s, ts, bs) && ts != [] && ts[|ts| - 1].Lit? && ts[|ts| - 1].text != []
    ensures var w := ts[|ts| - 1].text; |w| <= bs[|ts|] && s[bs[|ts|] - 1] == w[|w| - 1]
  {
    var n := |ts| - 1;
    var w := ts[n].text;
    assert StepFits(s, ts, bs, n);
    LiteralChar(s, ts, bs, n, |w| - 1);
  }

  /** Position `b` starts a digit run: it is the start of the text or follows a non-digit. */
  predicate StartsRun(s: string, b: nat)
    requires b <= |s|
  {
    b == 0 || !IsDigit(s[b - 1])
  }

  /** A pattern that opens with `\d+` and closes with a literal not ending in a digit. */
  predicate RunPattern(ts: seq<Token>) {
    && ts != [] && ts[0].Number? && ts[|ts| - 1].Lit?
    && var w := ts[|ts| - 1].text; w != [] && !IsDigit(w[|w| - 1])
  }

  /** One search of `re.finditer` from a run start finds a run start, and goes on from one. */
  lemma SearchStepStartsRun(s: string, p: nat, ts: seq<Token>)
    requires p <= |s| && RunPattern(ts) && StartsRun(s, p) && SearchFrom(s, p, ts).Some?
    ensures StartsRun(s, SearchFrom(s, p, ts).value[0])
    ensures NextStart(ts, SearchFrom(s, p, ts).value) <= |s| && StartsRun(s, NextStart(ts, SearchFrom(s, p, ts).value))
  {
    var bs := SearchFrom(s, p, ts).value;
    SearchStartsRun(s, p, ts);
    assert StepFits(s, ts, bs, 0);
    FitsMonotone(s, ts, bs, 1, |ts|);
    MatchEndsWithLiteral(s, ts, bs);
  }

  /** Every match `re.finditer` yields for a `RunPattern` starts a whole digit run. */
  lemma {:induction false} FoundStartRuns(s: string, p: nat, ts: seq<Token>)
    requires p <= |s| && RunPattern(ts) && StartsRun(s, p)
    ensures forall j | 0 <= j < |FindAllFrom(s, p, ts)| :: StartsRun(s, FindAllFrom(s, p, ts)[j][0])
    decreases |s| - p
  {
    var ms := FindAllFrom(s, p, ts);
    if SearchFrom(s, p, ts).Some? {
      var bs := SearchFrom(s, p, ts).value;
      SearchStepStartsRun(s, p, ts);
      var next := NextStart(ts, bs);
      FoundStartRuns(s, next, ts);
      var rest := FindAllFrom(s, next, ts);
      assert ms == [bs] + rest;
      forall j | 0 <= j < |ms| ensures StartsRun(s, ms[j][0]) {
        if j > 0 {
          assert ms[j] == rest[j - 1];
        }
      }
    }
  }

  /** A digit slice is a digit run in place. */
  lemma DigitsInSlice(s: string, i: nat, j: nat)
    requires i <= j <= |s| && AllDigits(s[i..j])
    ensures DigitsIn(s, i, j)
  {
    forall k | i <= k < j ensures IsDigit(s[k]) {
      assert s[i..j][k - i] == s[k];
    }
  }

  /** Inside a digit run no position starts a run. */
  lemma RunInterior(s: string, a: nat, c: nat, b: nat)
    requires a <= c <= |s| && DigitsIn(s, a, c)
    ensures a < b <= c ==> IsDigit(s[b - 1])
  {
  }

  /** A literal without digits holds no digit where it occurs. */
  lemma LiteralInterior(s: string, a: nat, w: string, b: nat)
    requires IsAt(s, a, w) && forall k | 0 <= k < |w| :: !IsDigit(w[k])
    ensures a <= b < a + |w| ==> !IsDigit(s[b])
  {
    if a <= b < a + |w| {
      assert s[b] == s[a..a + |w|][b - a];
    }
  }

  /**
   * Two overlapping occurrences of a digit run followed by a literal without
   * digits, each starting a whole run, are the same occurrence.
   */
  lemma SameRunMatch(s: string, w: string, i: nat, j: nat, b: nat, c: nat)
    requires w != [] && forall k | 0 <= k < |w| :: !IsDigit(w[k])
    requires i < j && IsAt(s, j, w) && DigitsIn(s, i, j) && StartsRun(s, i)
    requires b < c && IsAt(s, c, w) && DigitsIn(s, b, c) && StartsRun(s, b)
    requires i < c + |w| && b < j + |w|
    ensures b == i && c == j
  {
    RunInterior(s, b, c, i);
    LiteralInterior(s, c, w, i);
    RunInterior(s, i, j, b);
    LiteralInterior(s, j, w, b);
    assert b == i;
    RunInterior(s, i, c, j + 1);
    LiteralInterior(s, j, w, j);
    RunInterior(s, i, j, c + 1);
    LiteralInterior(s, c, w, c);
  }

  /** A match of `(\d+)` + `w` is a digit run followed by `w`. */
  lemma RunMatchShape(s: string, w: string, q: nat, r: seq<nat>)
    requires q <= |s| && MatchAt(s, q, [Number, Lit(w)]) == Some(r)
    ensures |r| == 3 && r[0] == q < r[1] && r[1] <= |s| && DigitsIn(s, q, r[1])
    ensures IsAt(s, r[1], w) && r[2] == r[1] + |w|
  {
    var ts := [Number, Lit(w)];
    assert StepFits(s, ts, r, 0) && StepFits(s, ts, r, 1);
  }

  /** `(\d+)` + `w` matches a whole digit run `s[i..j]` followed by `w`. */
  lemma RunMatch(s: string, w: string, i: nat, j: nat)
    requires w != [] && !IsDigit(w[0])
    requires i < j && IsAt(s, j, w) && DigitsIn(s, i, j)
    ensures MatchAt(s, i, [Number, Lit(w)]) == Some([i, j, j + |w|])
  {
    assert s[j] == s[j..j + |w|][0] == w[0];
    DigitsEndCovers(s, i, j);
    assert Take(s, i, Number) == Some(j);
    assert Take(s, j, Lit(w)) == Some(j + |w|);
    MatchAtSteps(s, [Number, Lit(w)], [i, j, j + |w|]);
  }

  /** One step of `MatchAt`: the first token, then the rest. */
  lemma MatchStep(s: string, p: nat, t: Token, rest: seq<Token>, q: nat, m: seq<nat>)
    requires p <= |s| && Take(s, p, t) == Some(q) && MatchAt(s, q, rest) == Some(m)
    ensures MatchAt(s, p, [t] + rest) == Some([p] + m)
  {
    assert ([t] + rest)[0] == t && ([t] + rest)[1..] == rest;
  }
}
