/**
 * `to_timestamp` of the Autohome crawler: "N小时前" and "N天前" (the last
 * occurrence wins), then a `YYYY-MM-DD HH:MM:SS` that ends the text; any other
 * text is returned unchanged.
 */
module AutohomeTime {
  import opened Wrappers
  import opened Text
  import opened Scan
  import opened Clock

  /** `(\d+)小时前` */
  const HoursPattern: seq<Token> := [Number, Lit("小时前")]
  /** `(\d+)天前` */
  const DaysPattern: seq<Token> := [Number, Lit("天前")]
  /** `(\d{4}-\d{2}-\d{2} \d{2}:\d{2}:\d{2})$` */
  const StampPattern: seq<Token> :=
    [Digits(4, 4), Lit("-"), Digits(2, 2), Lit("-"), Digits(2, 2), Lit(" "),
     Digits(2, 2), Lit(":"), Digits(2, 2), Lit(":"), Digits(2, 2), AtEnd]

  /**
   * `list(re.finditer(...))[-1]` for a pattern `(\d+)` + literal: a match
   * that starts a whole digit run and after which the pattern occurs nowhere.
   */
  function LastMatch(s: string, ts: seq<Token>): (r: Option<seq<nat>>)
    requires RunPattern(ts)
    ensures r.None? <==> Search(s, ts).None?
    ensures r.Some? ==> |r.value| == |ts| + 1 && r.value[0] < r.value[|ts|] <= |s|
    ensures r.Some? ==> MatchAt(s, r.value[0], ts) == Some(r.value)
    ensures r.Some? ==> StartsRun(s, r.value[0]) && NoMatchFrom(s, r.value[|ts|], ts)
  {
    var ms := FindAll(s, ts);
    if ms == [] then None
    else
      var bs := ms[|ms| - 1];
      assert Fits(s, ts, bs);
      assert StepFits(s, ts, bs, 0);
      FitsMonotone(s, ts, bs, 1, |ts|);
      FoundStartRuns(s, 0, ts);
      Some(bs)
  }

  /**
   * The last match of `(\d+)` + `w`, for a `w` without digits, is pinned by
   * the text alone: the whole digit run `s[i..j]` before an occurrence of `w`
   * at `j` after which no match starts.
   */
  lemma LastMatchIs(s: string, ts: seq<Token>, w: string, i: nat, j: nat)
    requires ts == [Number, Lit(w)] && w != [] && forall k | 0 <= k < |w| :: !IsDigit(w[k])
    requires i < j && IsAt(s, j, w) && AllDigits(s[i..j]) && (i == 0 || !IsDigit(s[i - 1]))
    requires NoMatchFrom(s, j + |w|, ts)
    ensures LastMatch(s, ts) == Some([i, j, j + |w|])
  {
    DigitsInSlice(s, i, j);
    RunMatch(s, w, i, j);
    var r := LastMatch(s, ts).value;
    RunMatchShape(s, w, r[0], r);
    assert StartsRun(s, r[0]) && StartsRun(s, i);
    assert i < r[2] && r[0] < j + |w|;
    SameRunMatch(s, w, i, j, r[0], r[1]);
    assert r[0] == i;
  }

  /** The `%Y-%m-%d %H:%M:%S` rendering the forum shows. */
  function Render(c: Civil): (r: string)
    requires ValidCivil(c)
    ensures |r| == 19 && r[4] == '-' && r[7] == '-' && r[10] == ' ' && r[13] == ':' && r[16] == ':'
    ensures forall i | 0 <= i < 19 && i != 4 && i != 7 && i != 10 && i != 13 && i != 16 :: IsDigit(r[i])
  {
    Pad4(c.year) + "-" + Pad2(c.month) + "-" + Pad2(c.day) + " " + Pad2(c.hour) + ":" + Pad2(c.minute) + ":" + Pad2(c.second)
  }

  /** The date-time rule: the text ends in a date-time `strptime` accepts. */
  function StampRule(s: string): Option<Civil> {
    match Search(s, StampPattern)
    case None => None
    case Some(bs) =>
      var ts := StampPattern;
      var c := Civil(Value(s, ts, bs, 0), Value(s, ts, bs, 2), Value(s, ts, bs, 4),
                     Value(s, ts, bs, 6), Value(s, ts, bs, 8), Value(s, ts, bs, 10));
      if ValidCivil(c) then Some(c) else None
  }

  function ToTimestamp(s: string, now: int, cal: Calendar): Outcome<Stamp> {
    match LastMatch(s, HoursPattern)
    case Some(bs) => Ago(now, Value(s, HoursPattern, bs, 0) * HourSeconds)
    case None =>
      match LastMatch(s, DaysPattern)
      case Some(bs) => Ago(now, Value(s, DaysPattern, bs, 0) * DaySeconds)
      case None =>
        match StampRule(s)
        case Some(c) => Done(Epoch(cal.toEpoch(c)))
        case None => Done(Verbatim(s))
  }

  // ---------------------------------------------------------------------------
  // Properties

  /** A date-time match is 19 characters wide and ends the text, or stands just before a final newline. */
  lemma StampMatchEndsText(s: string, bs: seq<nat>)
    requires Fits(s, StampPattern, bs)
    ensures bs[0] + 19 == bs[11] == bs[12]
    ensures bs[12] == |s| || (bs[12] + 1 == |s| && s[|s| - 1] == '\n')
  {
    var ts := StampPattern;
    assert StepFits(s, ts, bs, 0) && StepFits(s, ts, bs, 1) && StepFits(s, ts, bs, 2) && StepFits(s, ts, bs, 3);
    assert StepFits(s, ts, bs, 4) && StepFits(s, ts, bs, 5) && StepFits(s, ts, bs, 6) && StepFits(s, ts, bs, 7);
    assert StepFits(s, ts, bs, 8) && StepFits(s, ts, bs, 9) && StepFits(s, ts, bs, 10) && StepFits(s, ts, bs, 11);
  }

  /** `s` holds the rendering of `c` at `n`. */
  predicate RenderedAt(s: string, n: nat, c: Civil)
    requires ValidCivil(c)
  {
    n + 19 <= |s| && s[n..n + 19] == Render(c)
  }

  /** The characters of a rendering in place. */
  lemma RenderedChars(s: string, n: nat, c: Civil)
    requires ValidCivil(c) && RenderedAt(s, n, c)
    ensures s[n + 4] == '-' && s[n + 7] == '-' && s[n + 10] == ' ' && s[n + 13] == ':' && s[n + 16] == ':'
    ensures DigitsIn(s, n, n + 4) && DigitsIn(s, n + 5, n + 7) && DigitsIn(s, n + 8, n + 10)
    ensures DigitsIn(s, n + 11, n + 13) && DigitsIn(s, n + 14, n + 16) && DigitsIn(s, n + 17, n + 19)
  {
    var r := Render(c);
    forall i | 0 <= i < 19 ensures s[n + i] == r[i] {
      assert s[n..n + 19][i] == s[n + i];
    }
  }

  /** Where each token of the date-time pattern ends over a rendering at `n`. */
  lemma RenderTokens(s: string, n: nat, c: Civil)
    requires ValidCivil(c) && RenderedAt(s, n, c)
    ensures Take(s, n, Digits(4, 4)) == Some(n + 4) && Take(s, n + 4, Lit("-")) == Some(n + 5)
    ensures Take(s, n + 5, Digits(2, 2)) == Some(n + 7) && Take(s, n + 7, Lit("-")) == Some(n + 8)
    ensures Take(s, n + 8, Digits(2, 2)) == Some(n + 10) && Take(s, n + 10, Lit(" ")) == Some(n + 11)
    ensures Take(s, n + 11, Digits(2, 2)) == Some(n + 13) && Take(s, n + 13, Lit(":")) == Some(n + 14)
    ensures Take(s, n + 14, Digits(2, 2)) == Some(n + 16) && Take(s, n + 16, Lit(":")) == Some(n + 17)
    ensures Take(s, n + 17, Digits(2, 2)) == Some(n + 19)
  {
    RenderedChars(s, n, c);
    TakeFixedDigits(s, n, 4);
    TakeFixedDigits(s, n + 5, 2);
    TakeFixedDigits(s, n + 8, 2);
    TakeFixedDigits(s, n + 11, 2);
    TakeFixedDigits(s, n + 14, 2);
    TakeFixedDigits(s, n + 17, 2);
    assert s[n + 4..n + 5] == "-" && s[n + 7..n + 8] == "-" && s[n + 10..n + 11] == " ";
    assert s[n + 13..n + 14] == ":" && s[n + 16..n + 17] == ":";
  }

  /** The date-time pattern matches a rendering that ends the text. */
  lemma RenderMatches(s: string, n: nat, c: Civil)
    requires ValidCivil(c) && RenderedAt(s, n, c) && n + 19 == |s|
    ensures MatchAt(s, n, StampPattern) ==
      Some([n, n + 4, n + 5, n + 7, n + 8, n + 10, n + 11, n + 13, n + 14, n + 16, n + 17, n + 19, n + 19])
  {
    RenderTokens(s, n, c);
    assert Take(s, n + 19, AtEnd) == Some(n + 19);
    var bs := [n, n + 4, n + 5, n + 7, n + 8, n + 10, n + 11, n + 13, n + 14, n + 16, n + 17, n + 19, n + 19];
    MatchAtSteps(s, StampPattern, bs);
  }

  /** A piece of a piece of `s` is a piece of `s`. */
  lemma SliceOfSlice(s: string, n: nat, len: nat, a: nat, b: nat)
    requires n + len <= |s| && a <= b <= len
    ensures s[n..n + len][a..b] == s[n + a..n + b]
  {
    var x := s[n..n + len][a..b];
    var y := s[n + a..n + b];
    forall k | 0 <= k < |x| ensures x[k] == y[k] {
      assert x[k] == s[n + a + k];
    }
  }

  /** The fields of a rendering in place. */
  lemma RenderedFields(s: string, n: nat, c: Civil)
    requires ValidCivil(c) && RenderedAt(s, n, c)
    ensures s[n..n + 4] == Pad4(c.year) && s[n + 5..n + 7] == Pad2(c.month) && s[n + 8..n + 10] == Pad2(c.day)
    ensures s[n + 11..n + 13] == Pad2(c.hour) && s[n + 14..n + 16] == Pad2(c.minute) && s[n + 17..n + 19] == Pad2(c.second)
  {
    var date := Pad4(c.year) + "-" + Pad2(c.month) + "-" + Pad2(c.day);
    var time := Pad2(c.hour) + ":" + Pad2(c.minute) + ":" + Pad2(c.second);
    var r := date + " " + time;
    assert Render(c) == r;
    SliceOfSlice(s, n, 19, 0, 4);
    SliceOfSlice(s, n, 19, 5, 7);
    SliceOfSlice(s, n, 19, 8, 10);
    SliceOfSlice(s, n, 19, 11, 13);
    SliceOfSlice(s, n, 19, 14, 16);
    SliceOfSlice(s, n, 19, 17, 19);
    assert r[0..4] == date[0..4] == Pad4(c.year);
    assert r[5..7] == date[5..7] == Pad2(c.month);
    assert r[8..10] == date[8..10] == Pad2(c.day);
    assert r[11..13] == time[0..2] == Pad2(c.hour);
    assert r[14..16] == time[3..5] == Pad2(c.minute);
    assert r[17..19] == time[6..8] == Pad2(c.second);
  }

  /** The date-time rule reads back a rendering that ends the text, whatever precedes it. */
  lemma StampRuleOfRender(s: string, n: nat, c: Civil)
    requires ValidCivil(c) && RenderedAt(s, n, c) && n + 19 == |s|
    ensures StampRule(s) == Some(c)
  {
    RenderMatches(s, n, c);
    RenderedChars(s, n, c);
    var bs := Search(s, StampPattern).value;
    StampMatchEndsText(s, bs);
    assert bs[0] == n;
    RenderedFields(s, n, c);
  }

  /**
   * A rendered date-time at the end of any text without "前" reads back as that
   * date-time: the text carries no relative phrase, and nothing but the
   * rendering can end the text.
   */
  lemma RenderRoundTrip(prefix: string, c: Civil, now: int, cal: Calendar)
    requires ValidCivil(c)
    requires forall k | 0 <= k < |prefix| :: prefix[k] != '前'
    ensures ToTimestamp(prefix + Render(c), now, cal) == Done(Epoch(cal.toEpoch(c)))
  {
    var s := prefix + Render(c);
    var r := Render(c);
    var n := |prefix|;
    forall k | 0 <= k < |s| ensures s[k] != '前' {
      if k >= n { assert s[k] == r[k - n]; }
    }
    AbsentLiteralNoMatch(s, HoursPattern, 1, 2);
    AbsentLiteralNoMatch(s, DaysPattern, 1, 1);
    assert s[n..n + 19] == r;
    StampRuleOfRender(s, n, c);
  }

  /** The hours rule comes first and uses the last match. */
  lemma HoursRule(s: string, now: int, cal: Calendar)
    requires LastMatch(s, HoursPattern).Some?
    ensures ToTimestamp(s, now, cal) == Ago(now, Value(s, HoursPattern, LastMatch(s, HoursPattern).value, 0) * HourSeconds)
  {
  }

  /** With no hours phrase, the days rule uses its last match. */
  lemma DaysRule(s: string, now: int, cal: Calendar)
    requires Search(s, HoursPattern).None? && LastMatch(s, DaysPattern).Some?
    ensures ToTimestamp(s, now, cal) == Ago(now, Value(s, DaysPattern, LastMatch(s, DaysPattern).value, 0) * DaySeconds)
  {
  }

  /** The number the last match of `(\d+)` + `w` reads is `int(s[i..j])`, for the `i` and `j` that `LastMatchIs` names. */
  lemma LastValueIs(s: string, ts: seq<Token>, w: string, i: nat, j: nat)
    requires ts == [Number, Lit(w)] && w != [] && forall k | 0 <= k < |w| :: !IsDigit(w[k])
    requires i < j && IsAt(s, j, w) && AllDigits(s[i..j]) && (i == 0 || !IsDigit(s[i - 1]))
    requires NoMatchFrom(s, j + |w|, ts)
    ensures LastMatch(s, ts).Some? && Value(s, ts, LastMatch(s, ts).value, 0) == DecimalValue(s[i..j])
  {
    LastMatchIs(s, ts, w, i, j);
    var bs := LastMatch(s, ts).value;
    assert bs[0] == i && bs[1] == j;
  }

  /**
   * When `s[i..j]` is a whole digit run followed by "小时前" and no hours
   * phrase starts after it, the result is now minus `int(s[i..j])` hours,
   * whatever else the text says.
   */
  lemma HoursDecide(s: string, i: nat, j: nat, now: int, cal: Calendar)
    requires i < j && IsAt(s, j, "小时前") && AllDigits(s[i..j]) && (i == 0 || !IsDigit(s[i - 1]))
    requires NoMatchFrom(s, j + 3, HoursPattern)
    ensures ToTimestamp(s, now, cal) == Ago(now, DecimalValue(s[i..j]) * HourSeconds)
  {
    LastValueIs(s, HoursPattern, "小时前", i, j);
    HoursRule(s, now, cal);
  }

  /**
   * With no hours phrase anywhere, the last "N天前" decides in the same way:
   * now minus `int(s[i..j])` days, never after now.
   */
  lemma DaysDecide(s: string, i: nat, j: nat, now: int, cal: Calendar)
    requires Search(s, HoursPattern).None?
    requires i < j && IsAt(s, j, "天前") && AllDigits(s[i..j]) && (i == 0 || !IsDigit(s[i - 1]))
    requires NoMatchFrom(s, j + 2, DaysPattern)
    ensures ToTimestamp(s, now, cal) == Ago(now, DecimalValue(s[i..j]) * DaySeconds)
    ensures ToTimestamp(s, now, cal).Done? ==> ToTimestamp(s, now, cal).value.seconds <= now
  {
    LastValueIs(s, DaysPattern, "天前", i, j);
    DaysRule(s, now, cal);
  }

  /**
   * The result is an epoch or the text itself: the text comes back unchanged
   * exactly when no relative phrase occurs and no valid date-time ends it.
   */
  lemma FallbackIsInput(s: string, now: int, cal: Calendar)
    ensures ToTimestamp(s, now, cal) == Done(Verbatim(s)) <==>
      Search(s, HoursPattern).None? && Search(s, DaysPattern).None? && StampRule(s).None?
    ensures var r := ToTimestamp(s, now, cal); r.Done? && r.value.Verbatim? ==> r.value.text == s
  {
  }
}
