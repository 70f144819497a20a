/**
 * `parse_time_string` of the Dongchedi crawler.  The text is cleaned of
 * surrounding whitespace and a trailing "回复", then the rules are tried in
 * order: "刚刚", "N分钟前", "N小时前", "昨天 HH:MM", "前天 HH:MM", "N天前",
 * "MM-DD", "YYYY-MM-DD", "YYYY-MM-DD HH:MM:SS"; the first that produces a
 * value wins and otherwise the cleaned text is returned.
 */
module DongchediTime {
  import opened Wrappers
  import opened Text
  import opened Scan
  import opened Clock

  const JustNow: string := "刚刚"
  /** `(\d+)分钟前` */
  const MinutesPattern: seq<Token> := [Number, Lit("分钟前")]
  /** `(\d+)小时前` */
  const HoursPattern: seq<Token> := [Number, Lit("小时前")]
  /** `昨天 (\d{2}:\d{2})` */
  const YesterdayPattern: seq<Token> := [Lit("昨天 "), Digits(2, 2), Lit(":"), Digits(2, 2)]
  /** `前天 (\d{2}:\d{2})` */
  const BeforeYesterdayPattern: seq<Token> := [Lit("前天 "), Digits(2, 2), Lit(":"), Digits(2, 2)]
  /** `(\d+)天前` */
  const DaysPattern: seq<Token> := [Number, Lit("天前")]
  /** `(\d{2})-(\d{2})` */
  const MonthDayPattern: seq<Token> := [Digits(2, 2), Lit("-"), Digits(2, 2)]
  /** `(\d{4}-\d{2}-\d{2})` */
  const DatePattern: seq<Token> := [Digits(4, 4), Lit("-"), Digits(2, 2), Lit("-"), Digits(2, 2)]
  /** The time that follows a date in `(\d{4}-\d{2}-\d{2} \d{2}:\d{2}:\d{2})`. */
  const TimeSuffix: seq<Token> := [Lit(" "), Digits(2, 2), Lit(":"), Digits(2, 2), Lit(":"), Digits(2, 2)]

  predicate IsReplyChar(c: char) {
    c == '回' || c == '复'
  }

  /**
   * `r` is `s[k..k + |r|]`, and what is cut around it reads, from the front:
   * whitespace up to `k`; after `r`, whitespace up to `m`, a run of 回/复 up
   * to `n`, and whitespace to the end.
   */
  predicate CutAround(s: string, k: int, m: int, n: int, r: string) {
    && IsAt(s, k, r) && k + |r| <= m <= n <= |s|
    && (forall i | 0 <= i < k :: IsSpace(s[i]))
    && (forall i | k + |r| <= i < m :: IsSpace(s[i]))
    && (forall i | m <= i < n :: IsReplyChar(s[i]))
    && (forall i | n <= i < |s| :: IsSpace(s[i]))
  }

  /**
   * Each cut goes as far as it can: the 回/复 run is not preceded by another
   * 回/复 (unless nothing is left before it), and the final whitespace is not
   * preceded by more whitespace.
   */
  predicate CutsMaximal(s: string, k: int, m: int, n: int) {
    && 0 <= k <= m <= n <= |s|
    && (m == k || !IsReplyChar(s[m - 1]))
    && (n == m || !IsSpace(s[n - 1]))
  }

  /** The cuts the three strips make. */
  predicate CleanedAt(s: string, k: int, m: int, n: int, r: string) {
    CutAround(s, k, m, n, r) && CutsMaximal(s, k, m, n)
  }

  /** `s.strip().rstrip("回复").strip()` */
  function Clean(s: string): (r: string)
    ensures Trimmed(r)
    ensures exists k | 0 <= k <= |s| :: IsAt(s, k, r)
  {
    var b := RStripBy(Strip(s), IsReplyChar);
    CleanWithin(s, Strip(s), b);
    Strip(b)
  }

  /** The text left by the three strips is a piece of the text they started from. */
  lemma CleanWithin(s: string, a: string, b: string)
    requires a == Strip(s) && b == RStripBy(a, IsReplyChar)
    ensures IsAt(s, StripStart(s) + StripStart(b), Strip(b))
  {
    RStripIsPrefix(a, IsReplyChar);
    IsAtChain(s, StripStart(s), a, b, StripStart(b), Strip(b));
  }

  /**
   * The cleaned text is the input with, cut from the front, only whitespace,
   * and cut from the back, whitespace, a run of 回/复 and whitespace, each cut
   * as far as it goes.
   */
  lemma CleanCuts(s: string)
    ensures exists k, m, n :: CleanedAt(s, k, m, n, Clean(s))
  {
    var a := Strip(s);
    var b := RStripBy(a, IsReplyChar);
    ReplyRunCut(a, b);
    var k0, k, r := StripStart(s), StripStart(b), Strip(b);
    StripCuts(s);
    StripCuts(b);
    CleanShapeStripped(a, b, k, r);
    CleanedShift(s, k0, a, k, |b|, r);
    assert Clean(s) == r;
  }

  /** `rstrip("回复")` keeps a prefix and cuts a maximal run of 回/复. */
  lemma ReplyRunCut(a: string, b: string)
    requires b == RStripBy(a, IsReplyChar)
    ensures IsAt(a, 0, b) && (forall i | |b| <= i < |a| :: IsReplyChar(a[i])) && (b == [] || !IsReplyChar(b[|b| - 1]))
  {
    RStripIsPrefix(a, IsReplyChar);
  }

  /** Where the last two strips cut a text that has no whitespace at its ends. */
  lemma CleanShapeStripped(a: string, b: string, k: int, r: string)
    requires Trimmed(a) && IsAt(a, 0, b)
    requires (forall i | |b| <= i < |a| :: IsReplyChar(a[i])) && (b == [] || !IsReplyChar(b[|b| - 1]))
    requires CutAt(b, k, r, IsSpace, IsSpace)
    ensures CleanedAt(a, k, |b|, |a|, r)
  {
    CutAroundStripped(a, b, k, r);
    if |b| > 0 {
      assert a[|b| - 1] == a[0..|b|][|b| - 1] == b[|b| - 1];
    }
  }

  lemma CutAroundStripped(a: string, b: string, k: int, r: string)
    requires IsAt(a, 0, b) && (forall i | |b| <= i < |a| :: IsReplyChar(a[i]))
    requires CutAt(b, k, r, IsSpace, IsSpace)
    ensures CutAround(a, k, |b|, |a|, r)
  {
    IsAtWithin(a, 0, b, k, r);
    forall i | 0 <= i < k ensures IsSpace(a[i]) {
      assert a[i] == a[0..|b|][i] == b[i];
    }
    forall i | k + |r| <= i < |b| ensures IsSpace(a[i]) {
      assert a[i] == a[0..|b|][i] == b[i];
    }
  }

  /** The shape inside the stripped text, moved to the text it was stripped from. */
  lemma CleanedShift(s: string, k0: int, a: string, k: int, m: int, r: string)
    requires CutAt(s, k0, a, IsSpace, IsSpace) && Trimmed(a)
    requires CleanedAt(a, k, m, |a|, r)
    ensures CleanedAt(s, k0 + k, k0 + m, k0 + |a|, r)
  {
    var n := k0 + |a|;
    assert forall i | k0 <= i < n :: s[i] == a[i - k0];
    IsAtWithin(s, k0, a, k, r);
    if m > 0 {
      assert s[k0 + m - 1] == a[m - 1];
    }
    if |a| > 0 {
      assert s[n - 1] == a[|a| - 1];
    }
  }

  /** "N分钟前", "N小时前", "N天前": N units before now; OverflowError escapes. */
  function AgoRule(t: string, ts: seq<Token>, unit: int, now: int): Option<Outcome<Stamp>>
    requires |ts| == 2 && ts[0].Number?
  {
    match Search(t, ts)
    case None => None
    case Some(bs) => Some(Ago(now, Value(t, ts, bs, 0) * unit))
  }

  /**
   * "昨天 HH:MM", "前天 HH:MM": that wall-clock time `days` days before now.
   * The subtraction may overflow and `replace(hour=.., minute=..)` raises
   * ValueError on an hour above 23 or a minute above 59; neither is caught.
   */
  function DayAtRule(t: string, ts: seq<Token>, days: int, now: int, cal: Calendar): Option<Outcome<Stamp>>
    requires |ts| == 4 && ts[1].Digits? && ts[3].Digits?
  {
    match Search(t, ts)
    case None => None
    case Some(bs) =>
      var h := Value(t, ts, bs, 1);
      var mi := Value(t, ts, bs, 3);
      match Back(now, days * DaySeconds)
      case None => Some(Raised)
      case Some(u) =>
        var d := cal.toCivil(u);
        if ValidTime(h, mi, 0) then Some(Done(Epoch(cal.toEpoch(Civil(d.year, d.month, d.day, h, mi, 0)))))
        else Some(Raised)
  }

  /**
   * "MM-DD": midnight of that day in the current year, or in the year before
   * when that would be later than now.  An impossible day (ValueError, caught)
   * lets the next rule try.
   */
  function MonthDay(t: string, nowc: Civil): Option<Civil> {
    match Search(t, MonthDayPattern)
    case None => None
    case Some(bs) =>
      var m := Value(t, MonthDayPattern, bs, 0);
      var d := Value(t, MonthDayPattern, bs, 2);
      if !ValidDate(nowc.year, m, d) then None
      else
        var dt := Civil(nowc.year, m, d, 0, 0, 0);
        if !Later(dt, nowc) then Some(dt)
        else if ValidDate(nowc.year - 1, m, d) then Some(dt.(year := nowc.year - 1))
        else None
  }

  /** "YYYY-MM-DD": the leftmost such date, at midnight, when `strptime` accepts it. */
  function DateRule(t: string): Option<Civil> {
    match Search(t, DatePattern)
    case None => None
    case Some(bs) =>
      var c := Civil(Value(t, DatePattern, bs, 0), Value(t, DatePattern, bs, 2), Value(t, DatePattern, bs, 4), 0, 0, 0);
      if ValidCivil(c) then Some(c) else None
  }

  /** "YYYY-MM-DD HH:MM:SS": the leftmost such date-time, when `strptime` accepts it. */
  function DateTimeRule(t: string): Option<Civil> {
    var ts := DatePattern + TimeSuffix;
    match Search(t, ts)
    case None => None
    case Some(bs) =>
      var c := Civil(Value(t, ts, bs, 0), Value(t, ts, bs, 2), Value(t, ts, bs, 4),
                     Value(t, ts, bs, 6), Value(t, ts, bs, 8), Value(t, ts, bs, 10));
      if ValidCivil(c) then Some(c) else None
  }

  function AtEpoch(c: Option<Civil>, cal: Calendar): Option<Outcome<Stamp>> {
    match c
    case None => None
    case Some(v) => Some(Done(Epoch(cal.toEpoch(v))))
  }

  /** A rule's value when it produces one, else what the later rules give. */
  function OrElse(rule: Option<Outcome<Stamp>>, later: Outcome<Stamp>): Outcome<Stamp> {
    if rule.Some? then rule.value else later
  }

  /** The absolute rules, "MM-DD", "YYYY-MM-DD", "YYYY-MM-DD HH:MM:SS", else the cleaned text. */
  function Absolute(t: string, now: int, cal: Calendar): Outcome<Stamp> {
    OrElse(AtEpoch(MonthDay(t, cal.toCivil(now)), cal),
    OrElse(AtEpoch(DateRule(t), cal),
    OrElse(AtEpoch(DateTimeRule(t), cal),
    Done(Verbatim(t)))))
  }

  /** The "昨天 HH:MM" rule. */
  function YesterdayRule(t: string, now: int, cal: Calendar): Option<Outcome<Stamp>> {
    DayAtRule(t, YesterdayPattern, 1, now, cal)
  }

  /** The "前天 HH:MM" rule. */
  function BeforeYesterdayRule(t: string, now: int, cal: Calendar): Option<Outcome<Stamp>> {
    DayAtRule(t, BeforeYesterdayPattern, 2, now, cal)
  }

  /** The relative rules in their order, then the absolute ones. */
  function Relative(t: string, now: int, cal: Calendar): Outcome<Stamp> {
    OrElse(AgoRule(t, MinutesPattern, MinuteSeconds, now),
    OrElse(AgoRule(t, HoursPattern, HourSeconds, now),
    OrElse(DayAtRule(t, YesterdayPattern, 1, now, cal),
    OrElse(DayAtRule(t, BeforeYesterdayPattern, 2, now, cal),
    OrElse(AgoRule(t, DaysPattern, DaySeconds, now),
    Absolute(t, now, cal))))))
  }

  /** None of the relative rules produces a value. */
  predicate RelativeRulesMiss(t: string, now: int, cal: Calendar) {
    && AgoRule(t, MinutesPattern, MinuteSeconds, now).None? && AgoRule(t, HoursPattern, HourSeconds, now).None?
    && DayAtRule(t, YesterdayPattern, 1, now, cal).None? && DayAtRule(t, BeforeYesterdayPattern, 2, now, cal).None?
    && AgoRule(t, DaysPattern, DaySeconds, now).None?
  }

  function ParseTimeString(s: string, now: int, cal: Calendar): Outcome<Stamp> {
    var t := Clean(s);
    if t == JustNow then Ago(now, MinuteSeconds) else Relative(t, now, cal)
  }

  // ---------------------------------------------------------------------------
  // Properties

  /**
   * The text comes back only as the fallback, and then cleaned: the result is
   * the cleaned text exactly when it is not "刚刚" and no rule reads a time from it.
   */
  lemma FallbackIsCleaned(s: string, now: int, cal: Calendar)
    ensures var t := Clean(s);
      ParseTimeString(s, now, cal) == Done(Verbatim(t)) <==>
        t != JustNow && RelativeRulesMiss(t, now, cal) && MonthDay(t, cal.toCivil(now)).None? && DateRule(t).None? && DateTimeRule(t).None?
    ensures var r := ParseTimeString(s, now, cal); r.Done? && r.value.Verbatim? ==> r.value.text == Clean(s)
  {
    var t := Clean(s);
    if t == JustNow {
      assert ParseTimeString(s, now, cal) == Ago(now, MinuteSeconds);
    } else {
      assert ParseTimeString(s, now, cal) == Relative(t, now, cal);
      RelativeFallback(t, now, cal);
      AbsoluteFallback(t, now, cal);
    }
  }

  /** The text is handed on only by a rule that does not match. */
  predicate ReadsNoText(rule: Option<Outcome<Stamp>>) {
    rule.None? || rule.value.Raised? || rule.value.value.Epoch?
  }

  lemma RelativeFallback(t: string, now: int, cal: Calendar)
    ensures Relative(t, now, cal).Done? && Relative(t, now, cal).value.Verbatim? ==> RelativeRulesMiss(t, now, cal)
    ensures RelativeRulesMiss(t, now, cal) ==> Relative(t, now, cal) == Absolute(t, now, cal)
  {
    assert ReadsNoText(AgoRule(t, MinutesPattern, MinuteSeconds, now));
    assert ReadsNoText(AgoRule(t, HoursPattern, HourSeconds, now));
    assert ReadsNoText(DayAtRule(t, YesterdayPattern, 1, now, cal));
    assert ReadsNoText(DayAtRule(t, BeforeYesterdayPattern, 2, now, cal));
    assert ReadsNoText(AgoRule(t, DaysPattern, DaySeconds, now));
  }

  lemma AbsoluteFallback(t: string, now: int, cal: Calendar)
    ensures Absolute(t, now, cal).Done? && Absolute(t, now, cal).value.Verbatim? <==>
      MonthDay(t, cal.toCivil(now)).None? && DateRule(t).None? && DateTimeRule(t).None?
    ensures Absolute(t, now, cal).Done? && Absolute(t, now, cal).value.Verbatim? ==> Absolute(t, now, cal) == Done(Verbatim(t))
  {
    assert ReadsNoText(AtEpoch(MonthDay(t, cal.toCivil(now)), cal));
    assert ReadsNoText(AtEpoch(DateRule(t), cal));
    assert ReadsNoText(AtEpoch(DateTimeRule(t), cal));
  }

  /** Exactly "刚刚", once cleaned, is one minute before now. */
  lemma JustNowIsAMinuteAgo(s: string, now: int, cal: Calendar)
    requires Clean(s) == JustNow
    ensures ParseTimeString(s, now, cal) == Ago(now, 60)
  {
  }

  /** Steps of the worked example `CleanDropsReplyRun`, one `strip` at a time. */
  lemma RStripTrailingSpace(s: string)
    requires s == " 3分钟前 复回复 "
    ensures RStripBy(s, IsSpace) == " 3分钟前 复回复"
  {
    assert |s| == 10 && IsSpace(s[9]) && !IsSpace(s[8]);
    RStripAt(s, IsSpace, 9);
  }

  lemma LStripLeadingSpace(t: string)
    requires t == " 3分钟前 复回复"
    ensures LStrip(t) == "3分钟前 复回复"
  {
    assert |t| == 9 && IsSpace(t[0]) && !IsSpace(t[1]);
    LStripAt(t, 1);
  }

  lemma StripReplyText(s: string)
    requires s == " 3分钟前 复回复 "
    ensures Strip(s) == "3分钟前 复回复"
  {
    RStripTrailingSpace(s);
    LStripLeadingSpace(" 3分钟前 复回复");
    assert Strip(s) == LStrip(RStripBy(s, IsSpace));
  }

  lemma RStripReplyRun(a: string)
    requires a == "3分钟前 复回复"
    ensures RStripBy(a, IsReplyChar) == "3分钟前 "
  {
    assert |a| == 8 && IsReplyChar(a[5]) && IsReplyChar(a[6]) && IsReplyChar(a[7]) && !IsReplyChar(a[4]);
    RStripAt(a, IsReplyChar, 5);
    assert a[..5] == "3分钟前 ";
  }

  lemma StripSpaceAfter(b: string)
    requires b == "3分钟前 "
    ensures Strip(b) == "3分钟前"
  {
    assert |b| == 5 && IsSpace(b[4]) && !IsSpace(b[3]);
    RStripAt(b, IsSpace, 4);
    var r := b[..4];
    assert !IsSpace(r[0]);
    LStripAt(r, 0);
    assert Strip(b) == LStrip(RStripBy(b, IsSpace)) == r;
    assert r == "3分钟前";
  }

  /**
   * A worked example, for one input only: `rstrip("回复")` drops a trailing run
   * of both characters in any order, and the spaces before it go too.
   */
  lemma CleanDropsReplyRun()
    ensures Clean(" 3分钟前 复回复 ") == "3分钟前"
  {
    StripReplyText(" 3分钟前 复回复 ");
    RStripReplyRun("3分钟前 复回复");
    StripSpaceAfter("3分钟前 ");
  }

  /** A month-day reading is never after now, and it is the latest such midnight that is not. */
  lemma MonthDayNotInFuture(t: string, nowc: Civil)
    requires ValidCivil(nowc) && MonthDay(t, nowc).Some?
    ensures var c := MonthDay(t, nowc).value;
      && ValidCivil(c) && c == AtMidnight(c) && !Later(c, nowc)
      && (c.year == nowc.year || (c.year == nowc.year - 1 && Later(c.(year := nowc.year), nowc)))
  {
  }

  /** A month-day reading keeps the month and the day the text names. */
  lemma MonthDayFields(t: string, nowc: Civil)
    requires MonthDay(t, nowc).Some?
    ensures var bs := Search(t, MonthDayPattern).value; var c := MonthDay(t, nowc).value;
      c.month == Value(t, MonthDayPattern, bs, 0) && c.day == Value(t, MonthDayPattern, bs, 2)
  {
  }

  /** Every "YYYY-MM-DD HH:MM:SS" begins with a "YYYY-MM-DD", so the date rule always finds a date at or before it. */
  lemma DateFoundFirst(t: string)
    requires Search(t, DatePattern + TimeSuffix).Some?
    ensures Search(t, DatePattern).Some?
    ensures Search(t, DatePattern).value[0] <= Search(t, DatePattern + TimeSuffix).value[0]
  {
    var p := Search(t, DatePattern + TimeSuffix).value[0];
    MatchPrefix(t, p, DatePattern, TimeSuffix);
  }

  /**
   * The date-time rule can only decide when the leftmost date is impossible and
   * the date-time it reads lies strictly to the right of that date.
   */
  lemma DateTimeOnlyAfterBadDate(t: string)
    requires DateRule(t).None? && DateTimeRule(t).Some?
    ensures Search(t, DatePattern).Some?
    ensures Search(t, DatePattern).value[0] < Search(t, DatePattern + TimeSuffix).value[0]
  {
    var full := DatePattern + TimeSuffix;
    var bs := Search(t, full).value;
    var p := bs[0];
    DateFoundFirst(t);
    MatchPrefix(t, p, DatePattern, TimeSuffix);
    if Search(t, DatePattern).value[0] == p {
      assert false;
    }
  }

  /** A relative reading is an offset back from now: the number read, in units, before now. */
  lemma AgoRuleNotAfterNow(t: string, ts: seq<Token>, unit: int, now: int)
    requires |ts| == 2 && ts[0].Number? && unit >= 0
    requires AgoRule(t, ts, unit, now).Some? && AgoRule(t, ts, unit, now).value.Done?
    ensures AgoRule(t, ts, unit, now).value.value.Epoch?
    ensures AgoRule(t, ts, unit, now).value.value.seconds == now - Value(t, ts, Search(t, ts).value, 0) * unit
    ensures AgoRule(t, ts, unit, now).value.value.seconds <= now
  {
  }

  /**
   * "N分钟前", "N小时前", "N天前" read the digits of their leftmost occurrence:
   * when no match starts before `i` and the digits `t[i..j]` are followed by
   * the unit, the rule gives `int(t[i..j])` units before now.
   */
  lemma AgoRuleValue(t: string, w: string, unit: int, now: int, i: nat, j: nat)
    requires w != [] && !IsDigit(w[0])
    requires i < j && IsAt(t, j, w) && AllDigits(t[i..j]) && NoMatchBefore(t, i, [Number, Lit(w)])
    ensures AgoRule(t, [Number, Lit(w)], unit, now) == Some(Ago(now, DecimalValue(t[i..j]) * unit))
  {
    DigitsInSlice(t, i, j);
    RunMatch(t, w, i, j);
    SearchIs(t, [Number, Lit(w)], i, [i, j, j + |w|]);
  }

  /**
   * "昨天 HH:MM" and "前天 HH:MM" at their leftmost occurrence `i`: that day at
   * HH:MM:00, or Raised when going back leaves `datetime`'s range or `replace`
   * rejects an hour above 23 or a minute above 59.
   */
  lemma DayAtValue(t: string, w: string, days: int, now: int, cal: Calendar, i: nat)
    requires IsAt(t, i, w) && i + |w| + 5 <= |t|
    requires AllDigits(t[i + |w|..i + |w| + 2]) && t[i + |w| + 2] == ':' && AllDigits(t[i + |w| + 3..i + |w| + 5])
    requires NoMatchBefore(t, i, [Lit(w), Digits(2, 2), Lit(":"), Digits(2, 2)])
    ensures var k := i + |w|;
      var h := DecimalValue(t[k..k + 2]);
      var mi := DecimalValue(t[k + 3..k + 5]);
      var d := cal.toCivil(now - days * 86400);
      DayAtRule(t, [Lit(w), Digits(2, 2), Lit(":"), Digits(2, 2)], days, now, cal) ==
        if now - days * 86400 < MinStamp || now - days * 86400 > MaxStamp || h > 23 || mi > 59 then Some(Raised)
        else Some(Done(Epoch(cal.toEpoch(Civil(d.year, d.month, d.day, h, mi, 0)))))
  {
    var k := i + |w|;
    DayAtSearch(t, w, i, [Lit(w), Digits(2, 2), Lit(":"), Digits(2, 2)], [i, k, k + 2, k + 3, k + 5]);
  }

  /** The first "W HH:MM" in `t` is the one at `i`, with boundaries `bs`, and its two numbers are HH and MM. */
  lemma DayAtSearch(t: string, w: string, i: nat, ts: seq<Token>, bs: seq<nat>)
    requires IsAt(t, i, w) && i + |w| + 5 <= |t|
    requires AllDigits(t[i + |w|..i + |w| + 2]) && t[i + |w| + 2] == ':' && AllDigits(t[i + |w| + 3..i + |w| + 5])
    requires ts == [Lit(w), Digits(2, 2), Lit(":"), Digits(2, 2)] && NoMatchBefore(t, i, ts)
    requires bs == [i, i + |w|, i + |w| + 2, i + |w| + 3, i + |w| + 5]
    ensures Search(t, ts) == Some(bs) && Fits(t, ts, bs)
    ensures Value(t, ts, bs, 1) == DecimalValue(t[bs[1]..bs[2]]) && Value(t, ts, bs, 3) == DecimalValue(t[bs[3]..bs[4]])
  {
    var k := i + |w|;
    DigitsInSlice(t, k, k + 2);
    DigitsInSlice(t, k + 3, k + 5);
    TakeFixedDigits(t, k, 2);
    TakeFixedDigits(t, k + 3, 2);
    assert t[k + 2..k + 3] == ":";
    MatchAtSteps(t, ts, bs);
    SearchIs(t, ts, i, bs);
  }

  /**
   * The relative rules are tried in the order "N分钟前", "N小时前",
   * "昨天 HH:MM", "前天 HH:MM", "N天前", and the first whose pattern occurs
   * decides; when none occurs the absolute rules do.
   */
  lemma RelativeOrder(t: string, now: int, cal: Calendar)
    ensures var m := Search(t, MinutesPattern);
      m.Some? ==> Relative(t, now, cal) == Ago(now, Value(t, MinutesPattern, m.value, 0) * 60)
    ensures var h := Search(t, HoursPattern);
      Search(t, MinutesPattern).None? && h.Some? ==>
        Relative(t, now, cal) == Ago(now, Value(t, HoursPattern, h.value, 0) * 3600)
    ensures Search(t, MinutesPattern).None? && Search(t, HoursPattern).None? && Search(t, YesterdayPattern).Some? ==>
      Relative(t, now, cal) == DayAtRule(t, YesterdayPattern, 1, now, cal).value
    ensures
      && Search(t, MinutesPattern).None? && Search(t, HoursPattern).None? && Search(t, YesterdayPattern).None?
      && Search(t, BeforeYesterdayPattern).Some? ==>
        Relative(t, now, cal) == DayAtRule(t, BeforeYesterdayPattern, 2, now, cal).value
    ensures var d := Search(t, DaysPattern);
      && Search(t, MinutesPattern).None? && Search(t, HoursPattern).None? && Search(t, YesterdayPattern).None?
      && Search(t, BeforeYesterdayPattern).None? && d.Some? ==>
        Relative(t, now, cal) == Ago(now, Value(t, DaysPattern, d.value, 0) * 86400)
    ensures
      RelativeRulesMiss(t, now, cal) <==>
        && Search(t, MinutesPattern).None? && Search(t, HoursPattern).None? && Search(t, YesterdayPattern).None?
        && Search(t, BeforeYesterdayPattern).None? && Search(t, DaysPattern).None?
    ensures RelativeRulesMiss(t, now, cal) ==> Relative(t, now, cal) == Absolute(t, now, cal)
  {
    RelativeFallback(t, now, cal);
  }

  /**
   * `parse_time_string` end to end, the "ago" rules: on the cleaned text,
   * unless it is exactly "刚刚", 分钟前 decides first, then 小时前, and 天前
   * only after 昨天 and 前天 miss, each with its value.
   */
  lemma ParseOrderAgo(s: string, now: int, cal: Calendar)
    ensures var t := Clean(s); var m := Search(t, MinutesPattern);
      t != JustNow && m.Some? ==> ParseTimeString(s, now, cal) == Ago(now, Value(t, MinutesPattern, m.value, 0) * 60)
    ensures var t := Clean(s); var h := Search(t, HoursPattern);
      t != JustNow && Search(t, MinutesPattern).None? && h.Some? ==>
        ParseTimeString(s, now, cal) == Ago(now, Value(t, HoursPattern, h.value, 0) * 3600)
    ensures var t := Clean(s); var d := Search(t, DaysPattern);
      && t != JustNow && Search(t, MinutesPattern).None? && Search(t, HoursPattern).None? && Search(t, YesterdayPattern).None?
      && Search(t, BeforeYesterdayPattern).None? && d.Some? ==>
        ParseTimeString(s, now, cal) == Ago(now, Value(t, DaysPattern, d.value, 0) * 86400)
  {
    var t := Clean(s);
    if t != JustNow {
      assert ParseTimeString(s, now, cal) == Relative(t, now, cal);
      RelativeOrder(t, now, cal);
    }
  }

  /**
   * `parse_time_string` end to end, the day rules: on the cleaned text, unless
   * it is exactly "刚刚", 昨天 decides after 分钟前 and 小时前 miss, 前天 after
   * 昨天 misses too, and the absolute rules only when none of the five occurs.
   */
  lemma ParseOrderDays(s: string, now: int, cal: Calendar)
    ensures var t := Clean(s);
      t != JustNow && Search(t, MinutesPattern).None? && Search(t, HoursPattern).None? && Search(t, YesterdayPattern).Some? ==>
        Some(ParseTimeString(s, now, cal)) == YesterdayRule(t, now, cal)
    ensures var t := Clean(s);
      && t != JustNow && Search(t, MinutesPattern).None? && Search(t, HoursPattern).None? && Search(t, YesterdayPattern).None?
      && Search(t, BeforeYesterdayPattern).Some? ==>
        Some(ParseTimeString(s, now, cal)) == BeforeYesterdayRule(t, now, cal)
    ensures var t := Clean(s);
      && t != JustNow && Search(t, MinutesPattern).None? && Search(t, HoursPattern).None? && Search(t, YesterdayPattern).None?
      && Search(t, BeforeYesterdayPattern).None? && Search(t, DaysPattern).None? ==>
        ParseTimeString(s, now, cal) == Absolute(t, now, cal)
  {
    var t := Clean(s);
    if t != JustNow {
      assert ParseTimeString(s, now, cal) == Relative(t, now, cal);
      RelativeOrder(t, now, cal);
      DayRulesFound(t, now, cal);
    }
  }

  /** Each day rule produces a value, a time or an exception, exactly when its pattern occurs. */
  lemma DayRulesFound(t: string, now: int, cal: Calendar)
    ensures YesterdayRule(t, now, cal).Some? <==> Search(t, YesterdayPattern).Some?
    ensures BeforeYesterdayRule(t, now, cal).Some? <==> Search(t, BeforeYesterdayPattern).Some?
  {
  }

  /** Part of the worked example below, for one input only: the month-day pattern meets "2012-05-20" not at 0 or 1, but at 2, over "12-05". */
  lemma MonthDayInFullDate(t: string)
    requires t == "2012-05-20"
    ensures Search(t, MonthDayPattern) == Some([2, 4, 5, 7])
  {
    assert DigitsEnd(t, 4) == 4 && DigitsEnd(t, 3) == 4 && DigitsEnd(t, 2) == 4 && DigitsEnd(t, 1) == 4 && DigitsEnd(t, 0) == 4;
    assert DigitsEnd(t, 7) == 7 && DigitsEnd(t, 6) == 7 && DigitsEnd(t, 5) == 7;
    assert t[2..3] != "-" && t[3..4] != "-" && t[4..5] == "-";
    assert MatchAt(t, 0, MonthDayPattern).None?;
    assert MatchAt(t, 1, MonthDayPattern).None?;
    MatchAtSteps(t, MonthDayPattern, [2, 4, 5, 7]);
    assert SearchFrom(t, 2, MonthDayPattern) == Some([2, 4, 5, 7]);
    assert SearchFrom(t, 1, MonthDayPattern) == Some([2, 4, 5, 7]);
  }

  /** Part of the worked example below, for one input only: cleaning leaves "2012-05-20" as it is. */
  lemma CleanFullDate(t: string)
    requires t == "2012-05-20"
    ensures Clean(t) == t
  {
    assert !IsSpace(t[0]) && !IsSpace(t[9]) && !IsReplyChar(t[9]);
    assert RStripBy(t, IsSpace) == t;
    assert LStrip(t) == t;
    assert RStripBy(t, IsReplyChar) == t;
  }

  /** Part of the worked example below, for one input only: no relative phrase occurs in "2012-05-20". */
  lemma EarlyRulesMissFullDate(t: string, now: int, cal: Calendar)
    requires t == "2012-05-20"
    ensures RelativeRulesMiss(t, now, cal)
  {
    forall k | 0 <= k < |t| ensures t[k] != '分' && t[k] != '小' && t[k] != '天' && t[k] != '昨' && t[k] != '前' { }
    AbsentLiteralNoMatch(t, MinutesPattern, 1, 0);
    AbsentLiteralNoMatch(t, HoursPattern, 1, 0);
    AbsentLiteralNoMatch(t, YesterdayPattern, 0, 0);
    AbsentLiteralNoMatch(t, BeforeYesterdayPattern, 0, 0);
    AbsentLiteralNoMatch(t, DaysPattern, 1, 0);
  }

  /** Part of the worked example below, for one input only: the month-day rule reads "2012-05-20" as 12-05. */
  lemma MonthDayOfFullDate(t: string, nowc: Civil)
    requires t == "2012-05-20"
    requires ValidCivil(nowc) && nowc.year >= 2
    ensures var c := MonthDay(t, nowc); c.Some? && c.value.month == 12 && c.value.day == 5
  {
    MonthDayInFullDate(t);
    assert t[2..4] == "12" && t[5..7] == "05";
    TwoDigitValue("12");
    TwoDigitValue("05");
  }

  /** A month-day reading decides when the text is no "刚刚" and has no relative phrase. */
  lemma MonthDayDecides(s: string, now: int, cal: Calendar)
    requires Clean(s) != JustNow && RelativeRulesMiss(Clean(s), now, cal) && MonthDay(Clean(s), cal.toCivil(now)).Some?
    ensures ParseTimeString(s, now, cal) == Done(Epoch(cal.toEpoch(MonthDay(Clean(s), cal.toCivil(now)).value)))
  {
  }

  /**
   * A worked example, for one input only: the month-day rule runs before the
   * full-date rule, so a full date whose year ends in a possible month is read
   * as that month: "2012-05-20" is the 12th month, 5th day, of this year or the
   * last one.
   */
  lemma FullDateReadAsMonthDay(t: string, now: int, cal: Calendar)
    requires t == "2012-05-20"
    requires Sane(cal) && cal.toCivil(now).year >= 2
    ensures var c := MonthDay(t, cal.toCivil(now));
      && c.Some? && c.value.month == 12 && c.value.day == 5
      && ParseTimeString(t, now, cal) == Done(Epoch(cal.toEpoch(c.value)))
  {
    var nowc := cal.toCivil(now);
    assert ValidCivil(nowc);
    MonthDayOfFullDate(t, nowc);
    CleanFullDate(t);
    EarlyRulesMissFullDate(t, now, cal);
    MonthDayDecides(t, now, cal);
  }
}
