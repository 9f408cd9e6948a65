/** How the order of the resolver's rules decides what a full date means:
    the day-of-month rule and the month/day rule both run before the
    full-date rule, and both find something inside a full date. */
module DateExamples {
  import opened Base
  import opened Text
  import opened Calendar
  import opened Patterns
  import opened DateParser

  /** Digits and the separators of a full date, nothing else. */
  predicate DateChars(t: string) {
    forall k :: 0 <= k < |t| ==> IsDigit(t[k]) || t[k] in {'年', '月', '日', '/', '-'}
  }

  /** A text made of date characters only is left alone by the first four rules. */
  lemma DateCharsNoMarker(t: string)
    requires DateChars(t)
    ensures NoMarker(t)
  {
    forall k | 0 <= k < |t|
      ensures t[k] != '今' && t[k] != '昨' && t[k] != '明' && t[k] != '前' && t[k] != '週' && t[k] != '上'
    {
    }
  }

  /** A text that starts and ends with a digit is unchanged by strip(). */
  lemma DigitEndsStripped(t: string)
    requires |t| > 0 && IsDigit(t[0]) && IsDigit(t[|t| - 1])
    ensures Strip(t) == t
  {
    StripUnchanged(t);
  }

  // ---------------------------------------------------------------------
  // YYYY年MM月DD日

  /** A text of the shape YYYY年MM月DD日 with ASCII digits. */
  predicate ChineseFullDate(t: string) {
    && |t| == 11 && t[4] == '年' && t[7] == '月' && t[10] == '日'
    && (forall k :: 0 <= k < 4 ==> IsDigit(t[k]))
    && IsDigit(t[5]) && IsDigit(t[6]) && IsDigit(t[8]) && IsDigit(t[9])
  }

  /** No `N[號日]` starts before the day digits: the year ends at 年, the month at 月. */
  lemma ChineseFullDateNoEarlyDay(t: string, k: nat)
    requires ChineseFullDate(t) && k < 8
    ensures MatchAt(MonthDay, t, k).None?
  {
    if k + 3 <= |t| {
      assert t[k..k + 3][0] == t[k];
    }
    if k < 4 {
      DigitRunEndIs(t, k, 4);
    } else if k == 5 || k == 6 {
      DigitRunEndIs(t, k, 7);
    }
  }

  /** The day-of-month rule reads the DD of YYYY年MM月DD日. */
  lemma ChineseFullDateDayRule(t: string, today: Date)
    requires ChineseFullDate(t) && Valid(today)
    ensures ThisMonthRule(t, today) == Some(ThisMonthDayOf(today, DigitsValue(t[8..10])))
  {
    forall k | 0 <= k < 8
      ensures MatchAt(MonthDay, t, k).None?
    {
      ChineseFullDateNoEarlyDay(t, k);
    }
    DigitRunEndIs(t, 8, 10);
    assert MatchAt(MonthDay, t, 8) == Some(Match(11, [t[8..10]]));
    SearchFindsFirst(MonthDay, t, 0, 8);
  }

  lemma ChineseFullDatePlain(t: string)
    requires ChineseFullDate(t)
    ensures NoMarker(t) && Strip(t) == t
  {
    forall k | 0 <= k < |t|
      ensures IsDigit(t[k]) || t[k] in {'年', '月', '日', '/', '-'}
    {
    }
    DateCharsNoMarker(t);
    StripUnchanged(t);
  }

  /** Every YYYY年MM月DD日 resolves to day DD of today's month (today itself
      when that day does not exist): the year and month are ignored. */
  lemma ChineseFullDateReadsAsDayOfMonth(t: string, today: Date)
    requires ChineseFullDate(t) && Valid(today)
    ensures Parse(t, today) == ThisMonthDayOf(today, DigitsValue(t[8..10]))
  {
    ChineseFullDatePlain(t);
    LateRulesDecide(t, today);
    ChineseFullDateDayRule(t, today);
  }

  lemma ChineseDateShape()
    ensures ChineseFullDate("2024年12月20日") && DigitsValue("2024年12月20日"[8..10]) == 20
  {
    assert "2024年12月20日"[8..10] == ['2', '0'];
    DigitsValuePair('2', '0');
  }

  /** 2024年12月20日 is the 20th of today's month. */
  lemma ChineseDateExample(today: Date)
    requires Valid(today)
    ensures Parse("2024年12月20日", today) == Resolved(Date(today.year, today.month, 20))
  {
    ChineseDateShape();
    ChineseFullDateReadsAsDayOfMonth("2024年12月20日", today);
    ThisMonthDayProperties(today, 20);
  }

  // ---------------------------------------------------------------------
  // YYYY-MM-DD and YYYY/MM/DD

  /** A text of the shape YYYY?MM?DD with ASCII digits and / or - for each ?. */
  predicate SlashFullDate(t: string) {
    && |t| == 10 && IsDateSep(t[4]) && IsDateSep(t[7])
    && IsDigit(t[0]) && IsDigit(t[1]) && IsDigit(t[2]) && IsDigit(t[3])
    && IsDigit(t[5]) && IsDigit(t[6]) && IsDigit(t[8]) && IsDigit(t[9])
  }

  /** The value of an ASCII digit. */
  function Digit(c: char): int {
    c as int - '0' as int
  }

  /** The number written by the two digits at i and i + 1. */
  lemma PairValue(t: string, i: nat)
    requires i + 2 <= |t| && IsDigit(t[i]) && IsDigit(t[i + 1])
    ensures AllDigits(t[i..i + 2]) && DigitsValue(t[i..i + 2]) == Digit(t[i]) * 10 + Digit(t[i + 1])
  {
    assert t[i..i + 2] == [t[i], t[i + 1]];
    DigitsValuePair(t[i], t[i + 1]);
  }

  /** The number written by the first four digits. */
  lemma YearValue(t: string)
    requires |t| >= 4 && IsDigit(t[0]) && IsDigit(t[1]) && IsDigit(t[2]) && IsDigit(t[3])
    ensures AllDigits(t[..4])
    ensures DigitsValue(t[..4]) == Digit(t[0]) * 1000 + Digit(t[1]) * 100 + Digit(t[2]) * 10 + Digit(t[3])
  {
    var y := t[..4];
    assert y[..3] == t[..3] && y[..3][..2] == [t[0], t[1]];
    DigitsValuePair(t[0], t[1]);
  }

  /** The leftmost `M/D` or `M-D` match starts at the year's last two digits. */
  lemma SlashMatchInFullDate(t: string)
    requires SlashFullDate(t)
    ensures Search(MonthSlashDay, t, 0) == Some(Hit(2, Match(7, [t[2..4], t[5..7]])))
  {
    assert MatchAt(MonthSlashDay, t, 0).None?;
    assert MatchAt(MonthSlashDay, t, 1).None?;
    assert MatchAt(MonthSlashDay, t, 2) == Some(Match(7, [t[2..4], t[5..7]]));
    SearchFindsFirst(MonthSlashDay, t, 0, 2);
  }

  /** The month/day rule reads the year's last two digits as the month. */
  lemma SlashFullDateSlashRule(t: string, today: Date)
    requires SlashFullDate(t) && Valid(today)
    ensures SlashRule(t, today) == DateOrPass(today.year, Digit(t[2]) * 10 + Digit(t[3]), Digit(t[5]) * 10 + Digit(t[6]))
  {
    SlashMatchInFullDate(t);
    PairValue(t, 2);
    PairValue(t, 5);
  }

  /** The full-date rule reads the whole text. */
  lemma SlashFullDateFullRule(t: string)
    requires SlashFullDate(t)
    ensures FullDateRule(t) == DateOrPass(Digit(t[0]) * 1000 + Digit(t[1]) * 100 + Digit(t[2]) * 10 + Digit(t[3]),
                                          Digit(t[5]) * 10 + Digit(t[6]), Digit(t[8]) * 10 + Digit(t[9]))
  {
    YearValue(t);
    PairValue(t, 5);
    PairValue(t, 8);
    assert MatchAt(FullDate, t, 0) == Some(Match(10, [t[..4], t[5..7], t[8..10]]));
    SearchFindsFirst(FullDate, t, 0, 0);
  }

  lemma SlashFullDatePlain(t: string)
    requires SlashFullDate(t)
    ensures NoMarker(t) && Strip(t) == t
  {
    forall k | 0 <= k < |t|
      ensures IsDigit(t[k]) || IsDateSep(t[k])
    {
    }
    DateCharsNoMarker(t);
    DigitEndsStripped(t);
  }

  /** Without 號 or 日 the day-of-month rule finds nothing. */
  lemma SlashFullDateNoDay(t: string, today: Date)
    requires SlashFullDate(t) && Valid(today)
    ensures ThisMonthRule(t, today).None?
  {
    forall k | 0 <= k < |t|
      ensures t[k] != '號' && t[k] != '日'
    {
    }
    NoMonthDayWithoutMarker(t);
  }

  /** Every YYYY-MM-DD or YYYY/MM/DD is first read as the month/day YY-MM of
      today's year. */
  lemma SlashFullDateReadsYearDigits(t: string, today: Date)
    requires SlashFullDate(t) && Valid(today)
    ensures var early := DateOrPass(today.year, Digit(t[2]) * 10 + Digit(t[3]), Digit(t[5]) * 10 + Digit(t[6]));
            early.Some? ==> Parse(t, today) == early.value
  {
    SlashFullDatePlain(t);
    SlashFullDateNoDay(t, today);
    SlashFullDateSlashRule(t, today);
    LateRulesDecide(t, today);
  }

  /** Only when YY-MM is no date does the full-date rule, which reads the
      whole text, get a turn. */
  lemma SlashFullDateFallsThrough(t: string, today: Date)
    requires SlashFullDate(t) && Valid(today)
    ensures var early := DateOrPass(today.year, Digit(t[2]) * 10 + Digit(t[3]), Digit(t[5]) * 10 + Digit(t[6]));
            early.None? ==> Parse(t, today) == if FullDateRule(t).Some? then FullDateRule(t).value else NoDate
  {
    SlashFullDatePlain(t);
    SlashFullDateNoDay(t, today);
    SlashFullDateSlashRule(t, today);
    LateRulesDecide(t, today);
  }

  /** When YY and MM make a date early in the month, the whole text means that
      date of today's year. */
  lemma SlashFullDateAsMonthDay(t: string, today: Date, m: int, dd: int)
    requires SlashFullDate(t) && Valid(today)
    requires Digit(t[2]) * 10 + Digit(t[3]) == m && 1 <= m <= 12
    requires Digit(t[5]) * 10 + Digit(t[6]) == dd && 1 <= dd <= 28
    ensures Parse(t, today) == Resolved(Date(today.year, m, dd))
  {
    EarlyDayExists(today.year, m, dd);
    SlashFullDateReadsYearDigits(t, today);
  }

  /** Every month of a year in range has its first 28 days. */
  lemma EarlyDayExists(y: int, m: int, dd: int)
    requires MinYear <= y <= MaxYear && 1 <= m <= 12 && 1 <= dd <= 28
    ensures DateOrPass(y, m, dd) == Some(Resolved(Date(y, m, dd)))
  {
    assert Valid(Date(y, m, dd));
  }

  /** When YY is no month and the full-date rule finds no date, nothing is found. */
  lemma SlashFullDateNoDate(t: string, today: Date)
    requires SlashFullDate(t) && Valid(today)
    requires Digit(t[2]) * 10 + Digit(t[3]) > 12 && FullDateRule(t) == None
    ensures Parse(t, today) == NoDate
  {
    var m := Digit(t[2]) * 10 + Digit(t[3]);
    assert MakeDate(today.year, m, Digit(t[5]) * 10 + Digit(t[6])) == ValueFault;
    SlashFullDateFallsThrough(t, today);
  }

  lemma DashedDateShape()
    ensures SlashFullDate("2012-01-05")
    ensures Digit("2012-01-05"[2]) * 10 + Digit("2012-01-05"[3]) == 12
    ensures Digit("2012-01-05"[5]) * 10 + Digit("2012-01-05"[6]) == 1
  {
  }

  /** 2012-01-05 is read from its "12-01" as December 1st of today's year. */
  lemma DashedDateExample(today: Date)
    requires Valid(today)
    ensures Parse("2012-01-05", today) == Resolved(Date(today.year, 12, 1))
  {
    DashedDateShape();
    SlashFullDateAsMonthDay("2012-01-05", today, 12, 1);
  }

  lemma ImpossibleDateShape()
    ensures SlashFullDate("2024/02/30")
    ensures Digit("2024/02/30"[2]) * 10 + Digit("2024/02/30"[3]) == 24
    ensures FullDateRule("2024/02/30") == None
  {
    SlashFullDateFullRule("2024/02/30");
    assert DateOrPass(2024, 2, 30).None?;
  }

  /** 2024/02/30 resolves to nothing: the month/day rule reads month 24 and
      the full-date rule February 30th, both invalid, and both fall through. */
  lemma ImpossibleDateExample(today: Date)
    requires Valid(today)
    ensures Parse("2024/02/30", today) == NoDate
  {
    ImpossibleDateShape();
    SlashFullDateNoDate("2024/02/30", today);
  }
}
