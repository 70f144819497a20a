/**
 * `parse_timestamp` of the flyert crawler: time text of a forum post to a
 * minute-precision local time, rendered as `%Y-%m-%d %H:%M`, or None.
 * The rules are tried in order and the first that produces a value wins.
 */
module FlyertTime {
  import opened Wrappers
  import opened Text
  import opened Scan
  import opened Clock

  /** `\d{4}-\d{1,2}-\d{1,2}\s+\d{1,2}:\d{1,2}` */
  const DatePattern: seq<Token> :=
    [Digits(4, 4), Lit("-"), Digits(1, 2), Lit("-"), Digits(1, 2), Blanks(1), Digits(1, 2), Lit(":"), Digits(1, 2)]

  const BeforeYesterday: string := "前天"
  const Yesterday: string := "昨天"
  const HoursAgo: string := "小时前"
  const DaysAgo: string := "天前"
  const JustNow: string := "刚刚"

  /** `前天\s*(\d{1,2}:\d{1,2})`, `昨天\s*(\d{1,2}:\d{1,2})`; the group is tokens 2 to 4. */
  function DayTimePattern(word: string): seq<Token> {
    [Lit(word), Blanks(0), Digits(1, 2), Lit(":"), Digits(1, 2)]
  }

  /** `(\d+)\s*小时前`, `(\d+)\s*天前` */
  function AgoPattern(unit: string): seq<Token> {
    [Number, Blanks(0), Lit(unit)]
  }

  /** The `%Y-%m-%d %H:%M` rendering of a result. */
  function Format(c: Civil): (r: string)
    requires ValidCivil(c)
    ensures |r| == 16 && r[4] == '-' && r[7] == '-' && r[10] == ' ' && r[13] == ':'
    ensures forall i | 0 <= i < 16 && i != 4 && i != 7 && i != 10 && i != 13 :: IsDigit(r[i])
  {
    Pad4(c.year) + "-" + Pad2(c.month) + "-" + Pad2(c.day) + " " + Pad2(c.hour) + ":" + Pad2(c.minute)
  }

  /** The embedded date rule: the leftmost `Y-M-D H:MM`, kept only when `strptime` accepts it. */
  function DateRule(text: string): Option<Civil> {
    match Search(text, DatePattern)
    case None => None
    case Some(bs) =>
      var c := Civil(Value(text, DatePattern, bs, 0), Value(text, DatePattern, bs, 2), Value(text, DatePattern, bs, 4),
                     Value(text, DatePattern, bs, 6), Value(text, DatePattern, bs, 8), 0);
      if ValidCivil(c) then Some(c) else None
  }

  /** A rule either decides the result, or lets the next rule look at `rest`. */
  datatype Step = Hit(result: Outcome<Option<Civil>>) | Miss(rest: string)

  /**
   * "前天 HH:MM" / "昨天 HH:MM": that time `days` days before now.  The source
   * assigns the group to `time_str` before validating it, so when the time is
   * invalid the later rules see only the group.
   */
  function DayTimeRule(text: string, word: string, days: int, now: int, cal: Calendar): Step {
    var ts := DayTimePattern(word);
    match Search(text, ts)
    case None => Miss(text)
    case Some(bs) =>
      match Back(now, days * DaySeconds)
      case None => Hit(Raised)
      case Some(t) =>
        var d := cal.toCivil(t);
        var c := Civil(d.year, d.month, d.day, Value(text, ts, bs, 2), Value(text, ts, bs, 4), 0);
        assert StepFits(text, ts, bs, 2) && StepFits(text, ts, bs, 3) && StepFits(text, ts, bs, 4);
        if ValidCivil(c) then Hit(Done(Some(c))) else Miss(text[bs[2]..bs[5]])
  }

  /** `now - timedelta(seconds=d)` to the minute; OverflowError escapes. */
  function Shifted(now: int, d: int, cal: Calendar): Outcome<Option<Civil>> {
    match Back(now, d)
    case None => Raised
    case Some(t) => Done(Some(ToMinute(cal.toCivil(t))))
  }

  /** "N小时前", then "N天前", then "刚刚". */
  function AgoRules(text: string, now: int, cal: Calendar): Outcome<Option<Civil>> {
    match Search(text, AgoPattern(HoursAgo))
    case Some(bs) => Shifted(now, Value(text, AgoPattern(HoursAgo), bs, 0) * HourSeconds, cal)
    case None =>
      match Search(text, AgoPattern(DaysAgo))
      case Some(bs) => Shifted(now, Value(text, AgoPattern(DaysAgo), bs, 0) * DaySeconds, cal)
      case None => if Contains(text, JustNow) then Done(Some(ToMinute(cal.toCivil(now)))) else Done(None)
  }

  function ParseTimestamp(text: string, now: int, cal: Calendar): Outcome<Option<Civil>> {
    if text == "" then Done(None)
    else
      match DateRule(text)
      case Some(c) => Done(Some(c))
      case None =>
        match DayTimeRule(text, BeforeYesterday, 2, now, cal)
        case Hit(r) => r
        case Miss(t1) =>
          match DayTimeRule(t1, Yesterday, 1, now, cal)
          case Hit(r) => r
          case Miss(t2) => AgoRules(t2, now, cal)
  }

  // ---------------------------------------------------------------------------
  // Properties

  /** An occurrence of a non-empty word starts with its first character. */
  lemma OccurrenceFirstChar(s: string, i: int, w: string)
    requires IsAt(s, i, w) && |w| > 0
    ensures 0 <= i < |s| && s[i] == w[0]
  {
    assert s[i..i + |w|][0] == s[i];
  }

  /** A result that, when it is a value, is a valid time on a whole minute. */
  predicate ValidResult(r: Outcome<Option<Civil>>) {
    r.Done? && r.value.Some? ==> ValidCivil(r.value.value) && r.value.value.second == 0
  }

  /** The relative rules produce only valid minutes. */
  lemma AgoRulesValid(text: string, now: int, cal: Calendar)
    requires Sane(cal)
    ensures ValidResult(AgoRules(text, now, cal))
  {
    assert ValidCivil(cal.toCivil(now));
    match Search(text, AgoPattern(HoursAgo))
    case Some(bs) => assert ValidCivil(cal.toCivil(now - Value(text, AgoPattern(HoursAgo), bs, 0) * HourSeconds));
    case None =>
      match Search(text, AgoPattern(DaysAgo))
      case Some(bs) => assert ValidCivil(cal.toCivil(now - Value(text, AgoPattern(DaysAgo), bs, 0) * DaySeconds));
      case None =>
  }

  /** Every value the parser produces is a valid minute, so it has a `%Y-%m-%d %H:%M` rendering. */
  lemma ResultsAreValid(text: string, now: int, cal: Calendar)
    requires Sane(cal)
    ensures ParseTimestamp(text, now, cal).Done? && ParseTimestamp(text, now, cal).value.Some? ==>
      ValidCivil(ParseTimestamp(text, now, cal).value.value) && ParseTimestamp(text, now, cal).value.value.second == 0
  {
    if text != "" && DateRule(text).None? {
      match DayTimeRule(text, BeforeYesterday, 2, now, cal)
      case Hit(r) => assert ValidResult(r);
      case Miss(t1) =>
        match DayTimeRule(t1, Yesterday, 1, now, cal)
        case Hit(r) => assert ValidResult(r);
        case Miss(t2) => AgoRulesValid(t2, now, cal);
    }
    assert ValidResult(ParseTimestamp(text, now, cal));
  }

  /**
   * The rules in the order they are tried: an empty text gives None, a valid
   * embedded date wins over every relative phrase, "前天" decides before
   * "昨天", and with neither day-time phrase present the relative rules
   * decide, giving None exactly when none of their phrases occurs.
   */
  lemma RuleOrder(text: string, now: int, cal: Calendar)
    ensures ParseTimestamp("", now, cal) == Done(None)
    ensures text != "" && DateRule(text).Some? ==> ParseTimestamp(text, now, cal) == Done(DateRule(text))
    ensures text != "" && DateRule(text).None? && DayTimeRule(text, BeforeYesterday, 2, now, cal).Hit? ==>
      ParseTimestamp(text, now, cal) == DayTimeRule(text, BeforeYesterday, 2, now, cal).result
    ensures text != "" && DateRule(text).None? && Search(text, DayTimePattern(BeforeYesterday)).None? && DayTimeRule(text, Yesterday, 1, now, cal).Hit? ==>
      ParseTimestamp(text, now, cal) == DayTimeRule(text, Yesterday, 1, now, cal).result
    ensures text != "" && DateRule(text).None? && Search(text, DayTimePattern(BeforeYesterday)).None? && Search(text, DayTimePattern(Yesterday)).None? ==>
      ParseTimestamp(text, now, cal) == AgoRules(text, now, cal)
    ensures AgoRules(text, now, cal) == Done(None) <==>
      Search(text, AgoPattern(HoursAgo)).None? && Search(text, AgoPattern(DaysAgo)).None? && !Contains(text, JustNow)
  {
  }

  /** "N小时前" goes before "N天前", which goes before "刚刚"; each is an offset back from now, to the minute. */
  lemma AgoRulesOffsets(text: string, now: int, cal: Calendar)
    ensures var h := Search(text, AgoPattern(HoursAgo));
      h.Some? ==> AgoRules(text, now, cal) == Shifted(now, Value(text, AgoPattern(HoursAgo), h.value, 0) * HourSeconds, cal)
    ensures var d := Search(text, AgoPattern(DaysAgo));
      Search(text, AgoPattern(HoursAgo)).None? && d.Some? ==>
        AgoRules(text, now, cal) == Shifted(now, Value(text, AgoPattern(DaysAgo), d.value, 0) * DaySeconds, cal)
    ensures Search(text, AgoPattern(HoursAgo)).None? && Search(text, AgoPattern(DaysAgo)).None? && Contains(text, JustNow) ==>
      AgoRules(text, now, cal) == Done(Some(ToMinute(cal.toCivil(now))))
    ensures forall d: int :: Shifted(now, d, cal) == Done(Some(ToMinute(cal.toCivil(now - d)))) || (Shifted(now, d, cal).Raised? && Back(now, d).None?)
  {
  }

  /**
   * A day-time rule that decides on a time gives the hour and the minute its
   * group reads, on the day `days` days before now, at second 0.
   */
  lemma DayTimeGoesBack(text: string, word: string, days: int, now: int, cal: Calendar)
    requires DayTimeRule(text, word, days, now, cal).Hit? && DayTimeRule(text, word, days, now, cal).result.Done?
    ensures Search(text, DayTimePattern(word)).Some?
    ensures var r := DayTimeRule(text, word, days, now, cal).result.value;
      var d := cal.toCivil(now - days * DaySeconds);
      var bs := Search(text, DayTimePattern(word)).value;
      && Back(now, days * DaySeconds).Some? && r.Some? && ValidCivil(r.value)
      && r.value.year == d.year && r.value.month == d.month && r.value.day == d.day && r.value.second == 0
      && r.value.hour == Value(text, DayTimePattern(word), bs, 2) && r.value.minute == Value(text, DayTimePattern(word), bs, 4)
  {
  }

  /**
   * When the phrase occurs, its rule decides exactly when the time it reads is
   * a valid hour and minute, or going back leaves `datetime`'s range (Raised).
   */
  lemma DayTimeDecidesOnValidTime(text: string, word: string, days: int, now: int, cal: Calendar)
    requires Sane(cal) && Search(text, DayTimePattern(word)).Some?
    ensures Back(now, days * DaySeconds).None? ==> DayTimeRule(text, word, days, now, cal) == Hit(Raised)
    ensures var bs := Search(text, DayTimePattern(word)).value;
      Back(now, days * DaySeconds).Some? ==>
        (DayTimeRule(text, word, days, now, cal).Hit? <==>
          Value(text, DayTimePattern(word), bs, 2) <= 23 && Value(text, DayTimePattern(word), bs, 4) <= 59)
  {
    if Back(now, days * DaySeconds).Some? {
      assert ValidCivil(cal.toCivil(now - days * DaySeconds));
    }
  }

  /** Where each token of the date pattern ends over a rendered minute. */
  lemma FormatTokens(c: Civil)
    requires ValidCivil(c)
    ensures var s := Format(c);
      && Take(s, 0, Digits(4, 4)) == Some(4) && Take(s, 4, Lit("-")) == Some(5)
      && Take(s, 5, Digits(1, 2)) == Some(7) && Take(s, 7, Lit("-")) == Some(8)
      && Take(s, 8, Digits(1, 2)) == Some(10) && Take(s, 10, Blanks(1)) == Some(11)
      && Take(s, 11, Digits(1, 2)) == Some(13) && Take(s, 13, Lit(":")) == Some(14)
      && Take(s, 14, Digits(1, 2)) == Some(16)
  {
    var s := Format(c);
    assert s[4..5] == "-" && s[7..8] == "-" && s[13..14] == ":";
    assert BlanksEnd(s, 11) == 11;
  }

  /** The boundaries of the date pattern over a rendered minute. */
  lemma FormatMatches(c: Civil)
    requires ValidCivil(c)
    ensures MatchAt(Format(c), 0, DatePattern) == Some([0, 4, 5, 7, 8, 10, 11, 13, 14, 16])
  {
    var s := Format(c);
    FormatTokens(c);
    MatchAtSteps(s, DatePattern, [0, 4, 5, 7, 8, 10, 11, 13, 14, 16]);
  }

  /** The fields of a rendered minute in place. */
  lemma FormatFields(c: Civil)
    requires ValidCivil(c)
    ensures var s := Format(c);
      && s[0..4] == Pad4(c.year) && s[5..7] == Pad2(c.month) && s[8..10] == Pad2(c.day)
      && s[11..13] == Pad2(c.hour) && s[14..16] == Pad2(c.minute)
  {
  }

  /** The date rule reads a rendered minute back. */
  lemma FormatDateRule(c: Civil)
    requires ValidCivil(c) && c.second == 0
    ensures DateRule(Format(c)) == Some(c)
  {
    var s := Format(c);
    FormatMatches(c);
    var bs := [0, 4, 5, 7, 8, 10, 11, 13, 14, 16];
    assert Search(s, DatePattern) == Some(bs);
    FormatFields(c);
    assert Value(s, DatePattern, bs, 0) == c.year;
    assert Value(s, DatePattern, bs, 2) == c.month;
    assert Value(s, DatePattern, bs, 4) == c.day;
    assert Value(s, DatePattern, bs, 6) == c.hour;
    assert Value(s, DatePattern, bs, 8) == c.minute;
  }

  /** The date rule reads back every minute the parser renders: `parse_timestamp(strftime(c)) == c`. */
  lemma FormatRoundTrip(c: Civil, now: int, cal: Calendar)
    requires ValidCivil(c) && c.second == 0
    ensures ParseTimestamp(Format(c), now, cal) == Done(Some(c))
  {
    FormatDateRule(c);
    assert |Format(c)| == 16;
  }

  /** Text made of digits and colons holds none of the later rules' words. */
  lemma DigitsAndColonsMatchNoWord(g: string, now: int, cal: Calendar)
    requires forall k | 0 <= k < |g| :: IsDigit(g[k]) || g[k] == ':'
    ensures DayTimeRule(g, Yesterday, 1, now, cal) == Miss(g)
    ensures AgoRules(g, now, cal) == Done(None)
  {
    AbsentLiteralNoMatch(g, DayTimePattern(Yesterday), 0, 0);
    AbsentLiteralNoMatch(g, AgoPattern(HoursAgo), 2, 0);
    AbsentLiteralNoMatch(g, AgoPattern(DaysAgo), 2, 0);
    if Contains(g, JustNow) {
      var i :| 0 <= i <= |g| && IsAt(g, i, JustNow);
      OccurrenceFirstChar(g, i, JustNow);
      assert false;
    }
  }

  /** What a day-time rule hands on after rejecting the time it found is that time: digits and a colon. */
  lemma MissedTimeIsDigitsAndColons(text: string, word: string, days: int, now: int, cal: Calendar)
    requires Search(text, DayTimePattern(word)).Some? && DayTimeRule(text, word, days, now, cal).Miss?
    ensures var g := DayTimeRule(text, word, days, now, cal).rest;
      forall k | 0 <= k < |g| :: IsDigit(g[k]) || g[k] == ':'
  {
    var ts := DayTimePattern(word);
    var bs := Search(text, ts).value;
    assert StepFits(text, ts, bs, 2) && StepFits(text, ts, bs, 3) && StepFits(text, ts, bs, 4);
    var g := text[bs[2]..bs[5]];
    assert DayTimeRule(text, word, days, now, cal) == Miss(g);
    forall k | 0 <= k < |g| ensures IsDigit(g[k]) || g[k] == ':' {
      assert g[k] == text[bs[2] + k];
      if k < bs[3] - bs[2] {
        assert DigitsIn(text, bs[2], bs[3]);
      } else if k == bs[3] - bs[2] {
        assert text[bs[3]..bs[4]] == ":";
        assert text[bs[3]..bs[4]][0] == text[bs[3]];
      } else {
        assert DigitsIn(text, bs[4], bs[5]);
      }
    }
  }

  /**
   * When "前天" is followed by an invalid time, the later rules search only that
   * group, so the result is None whatever else the text says.
   */
  lemma InvalidBeforeYesterdaySilencesLaterRules(text: string, now: int, cal: Calendar)
    requires text != "" && DateRule(text).None?
    requires DayTimeRule(text, BeforeYesterday, 2, now, cal).Miss?
    requires Search(text, DayTimePattern(BeforeYesterday)).Some?
    ensures ParseTimestamp(text, now, cal) == Done(None)
  {
    var g := DayTimeRule(text, BeforeYesterday, 2, now, cal).rest;
    MissedTimeIsDigitsAndColons(text, BeforeYesterday, 2, now, cal);
    DigitsAndColonsMatchNoWord(g, now, cal);
  }
}
