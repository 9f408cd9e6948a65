/** `DateParser.parse`: a Chinese date phrase resolved against a reference
    day by a fixed chain of rules, the first rule that applies deciding.
    `today` is a parameter (the source reads the system clock). */
module DateParser {
  import opened Base
  import opened Text
  import opened Calendar
  import opened Numerals
  import opened Patterns

  /** What `parse` gives back: a date, None, or the OverflowError that
      escapes from date arithmetic outside 0001-01-01 .. 9999-12-31. */
  datatype DateResult = Resolved(date: Date) | NoDate | Overflow

  /** `today + timedelta(days=n)`. */
  function Shift(today: Date, n: int): (r: DateResult)
    requires Valid(today)
    ensures r != NoDate
    ensures r.Resolved? ==> Valid(r.date) && Ordinal(r.date) == Ordinal(today) + n
    ensures r.Overflow? <==> !(1 <= Ordinal(today) + n <= Ordinal(Last))
  {
    AddDaysOrdinal(today, n);
    var d := AddDays(today, n);
    if d.None? then Overflow else Resolved(d.value)
  }

  /** `WEEKDAY_MAP`: 一..六 are Monday..Saturday, 日 and 天 are Sunday. */
  function WeekdayIndex(c: char): (w: int)
    ensures 0 <= w < 7
  {
    match c
    case '一' => 0 case '二' => 1 case '三' => 2 case '四' => 3
    case '五' => 4 case '六' => 5 case _ => 6
  }

  /** The week offset of 上 (last), 這 (this) and 下 (next). */
  function WeekOffset(c: char): int {
    if c == '上' then -1 else if c == '這' then 0 else 1
  }

  // ---------------------------------------------------------------------
  // The rules, in order. Each gives None when it does not apply.

  /** Rule 1: the literal markers 今天/今日, 昨天/昨日, 前天, 大前天, 明天/明日. */
  function LiteralRule(t: string, today: Date): Option<DateResult>
    requires Valid(today)
  {
    if Contains(t, "今天") || Contains(t, "今日") then Some(Resolved(today))
    else if Contains(t, "昨天") || Contains(t, "昨日") then Some(Shift(today, -1))
    else if Contains(t, "前天") then Some(Shift(today, -2))
    else if Contains(t, "大前天") then Some(Shift(today, -3))
    else if Contains(t, "明天") || Contains(t, "明日") then Some(Shift(today, 1))
    else None
  }

  /** Rule 2: `N天前`, N read by `_parse_chinese_number`. */
  function DaysAgoRule(t: string, today: Date): Option<DateResult>
    requires Valid(today)
  {
    var g := SearchGroup(DaysAgo, t, 0);
    if g.None? then None else Some(Shift(today, -(DayCount(g.value) as int)))
  }

  /** The day named by 上/這/下 週 X. */
  function WeekTarget(today: Date, o: char, w: char): DateResult
    requires Valid(today)
  {
    Shift(today, WeekdayIndex(w) - Weekday(today) + WeekOffset(o) * 7)
  }

  /** Rule 3: `(上|這|下)週X`. */
  function WeekRule(t: string, today: Date): Option<DateResult>
    requires Valid(today)
  {
    var h := Search(WeekDay, t, 0);
    if h.None? then None else Some(WeekTarget(today, h.value.m.groups[0][0], h.value.m.groups[1][0]))
  }

  /** Day n of the month before today's month; that month's last day when
      day n does not exist there. */
  function LastMonthDayOf(today: Date, n: nat): DateResult
    requires Valid(today)
  {
    match PrevDay(FirstOfMonth(today))
    case None => Overflow
    case Some(lastMonth) =>
      match ReplaceDay(lastMonth, n)
      case Made(d) => Resolved(d)
      case ValueFault => Resolved(lastMonth)
      case OverflowFault => Overflow
  }

  /** Rule 4: `上個月N[號日]?`. */
  function LastMonthRule(t: string, today: Date): Option<DateResult>
    requires Valid(today)
  {
    var h := Search(LastMonthDay, t, 0);
    if h.None? then None else Some(LastMonthDayOf(today, DigitsValue(h.value.m.groups[0])))
  }

  /** Day n of today's month; today itself (not a clamped day) when day n does not exist. */
  function ThisMonthDayOf(today: Date, n: nat): DateResult
    requires Valid(today)
  {
    match ReplaceDay(today, n)
    case Made(d) => Resolved(d)
    case ValueFault => Resolved(today)
    case OverflowFault => Overflow
  }

  /** Rule 5: `(這個月)?N[號日]`. */
  function ThisMonthRule(t: string, today: Date): Option<DateResult>
    requires Valid(today)
  {
    var h := Search(MonthDay, t, 0);
    if h.None? then None else Some(ThisMonthDayOf(today, DigitsValue(h.value.m.groups[0])))
  }

  /** `date(y, m, d)` inside `try ... except ValueError: pass`. */
  function DateOrPass(y: int, m: int, d: int): Option<DateResult> {
    match MakeDate(y, m, d)
    case Made(x) => Some(Resolved(x))
    case ValueFault => None
    case OverflowFault => Some(Overflow)
  }

  /** Rule 6: `M/D` or `M-D` in today's year; an invalid date falls through. */
  function SlashRule(t: string, today: Date): Option<DateResult>
    requires Valid(today)
  {
    var h := Search(MonthSlashDay, t, 0);
    if h.None? then None else DateOrPass(today.year, DigitsValue(h.value.m.groups[0]), DigitsValue(h.value.m.groups[1]))
  }

  /** Rule 7: `Y年M月D日` (or with / and -); an invalid date falls through. */
  function FullDateRule(t: string): Option<DateResult> {
    var h := Search(FullDate, t, 0);
    if h.None? then None else DateOrPass(DigitsValue(h.value.m.groups[0]), DigitsValue(h.value.m.groups[1]), DigitsValue(h.value.m.groups[2]))
  }

  /** The rule chain on already stripped text. */
  function ResolveStripped(t: string, today: Date): DateResult
    requires Valid(today)
  {
    if LiteralRule(t, today).Some? then LiteralRule(t, today).value
    else if DaysAgoRule(t, today).Some? then DaysAgoRule(t, today).value
    else if WeekRule(t, today).Some? then WeekRule(t, today).value
    else if LastMonthRule(t, today).Some? then LastMonthRule(t, today).value
    else if ThisMonthRule(t, today).Some? then ThisMonthRule(t, today).value
    else if SlashRule(t, today).Some? then SlashRule(t, today).value
    else if FullDateRule(t).Some? then FullDateRule(t).value
    else NoDate
  }

  /** `DateParser.parse(text)` with `date.today()` replaced by `today`. */
  function Parse(text: string, today: Date): DateResult
    requires Valid(today)
  {
    ResolveStripped(Strip(text), today)
  }

  // ---------------------------------------------------------------------
  // Properties

  lemma StripKeepsMarker(text: string, w: string)
    requires w in {"今天", "今日", "昨天", "昨日", "前天", "大前天", "明天", "明日"}
    ensures Contains(Strip(text), w) <==> Contains(text, w)
  {
    StripKeepsWord(text, w);
  }

  /** Any text containing 今天 or 今日 resolves to today, whatever else it holds. */
  lemma TodayMarker(text: string, today: Date)
    requires Valid(today)
    requires Contains(text, "今天") || Contains(text, "今日")
    ensures Parse(text, today) == Resolved(today)
  {
    StripKeepsMarker(text, "今天");
    StripKeepsMarker(text, "今日");
  }

  /** Without 今天/今日, 昨天 or 昨日 resolves to the day before today. */
  lemma YesterdayMarker(text: string, today: Date)
    requires Valid(today) && today != Date(1, 1, 1)
    requires !Contains(text, "今天") && !Contains(text, "今日")
    requires Contains(text, "昨天") || Contains(text, "昨日")
    ensures Parse(text, today) == Shift(today, -1)
    ensures var r := Parse(text, today); r.Resolved? && Ordinal(r.date) == Ordinal(today) - 1
  {
    StripKeepsMarker(text, "今天");
    StripKeepsMarker(text, "今日");
    StripKeepsMarker(text, "昨天");
    StripKeepsMarker(text, "昨日");
    OrdinalRange(PrevDay(today).value);
  }

  /** 大前天 contains 前天, so the today−3 rule can never fire. */
  lemma GreatDayBeforeUnreachable(t: string)
    ensures Contains(t, "大前天") ==> Contains(t, "前天")
  {
    if Contains(t, "大前天") {
      assert "大前天" == "大" + "前天" + "";
      ContainsInner(t, "大", "前天", "");
    }
  }

  /** Without 今天/今日/昨天/昨日, both 前天 and 大前天 resolve to two days before today. */
  lemma DayBeforeYesterdayMarker(text: string, today: Date)
    requires Valid(today)
    requires !Contains(text, "今天") && !Contains(text, "今日") && !Contains(text, "昨天") && !Contains(text, "昨日")
    requires Contains(text, "前天") || Contains(text, "大前天")
    ensures Parse(text, today) == Shift(today, -2)
  {
    StripKeepsMarker(text, "今天");
    StripKeepsMarker(text, "今日");
    StripKeepsMarker(text, "昨天");
    StripKeepsMarker(text, "昨日");
    StripKeepsMarker(text, "前天");
    StripKeepsMarker(text, "大前天");
    GreatDayBeforeUnreachable(Strip(text));
    GreatDayBeforeUnreachable(text);
  }

  /** Without 今天/今日/昨天/昨日/前天, 明天 or 明日 resolves to the day after today. */
  lemma TomorrowMarker(text: string, today: Date)
    requires Valid(today)
    requires !Contains(text, "今天") && !Contains(text, "今日") && !Contains(text, "昨天") && !Contains(text, "昨日")
    requires !Contains(text, "前天")
    requires Contains(text, "明天") || Contains(text, "明日")
    ensures Parse(text, today) == Shift(today, 1)
  {
    StripKeepsMarker(text, "今天");
    StripKeepsMarker(text, "今日");
    StripKeepsMarker(text, "昨天");
    StripKeepsMarker(text, "昨日");
    StripKeepsMarker(text, "前天");
    StripKeepsMarker(text, "大前天");
    StripKeepsMarker(text, "明天");
    StripKeepsMarker(text, "明日");
    GreatDayBeforeUnreachable(Strip(text));
  }

  /** Rule 1 does not fire on text without 今, 昨, 明 and without 前天. */
  lemma NoLiteral(t: string, today: Date)
    requires Valid(today)
    requires '今' !in t && '昨' !in t && '明' !in t && !Contains(t, "前天")
    ensures LiteralRule(t, today).None?
  {
    NotContainsWithout(t, "今天", 0);
    NotContainsWithout(t, "今日", 0);
    NotContainsWithout(t, "昨天", 0);
    NotContainsWithout(t, "昨日", 0);
    NotContainsWithout(t, "明天", 0);
    NotContainsWithout(t, "明日", 0);
    GreatDayBeforeUnreachable(t);
  }

  /** A count followed by 天前 holds 前 only at its end, so never 前天. */
  lemma NoDayBeforeInCount(c: string)
    requires forall k :: 0 <= k < |c| ==> IsDigit(c[k]) || IsCountChar(c[k])
    ensures !Contains(c + "天前", "前天")
  {
    var t := c + "天前";
    forall i | 0 <= i <= |t| - 2
      ensures !OccursAt(t, "前天", i)
    {
      if i < |c| {
        assert t[i] == c[i];
      } else {
        assert t[i] == '天';
      }
      assert t[i..i + 2][0] == t[i];
    }
  }

  /** Rule 1 does not fire on a count followed by 天前. */
  lemma CountNoLiteral(c: string, today: Date)
    requires Valid(today)
    requires forall k :: 0 <= k < |c| ==> IsDigit(c[k]) || IsCountChar(c[k])
    ensures LiteralRule(c + "天前", today).None?
  {
    var t := c + "天前";
    forall k | 0 <= k < |t|
      ensures t[k] != '今' && t[k] != '昨' && t[k] != '明'
    {
      if k < |c| {
        assert t[k] == c[k];
      }
    }
    NoDayBeforeInCount(c);
    NoLiteral(t, today);
  }

  /** The pattern of rule 2 matches all of c天前 at its start. */
  lemma DaysAgoMatchAtStart(c: string)
    requires |c| > 0
    requires IsDigitString(c) || (!IsDigit(c[0]) && forall k :: 0 <= k < |c| ==> IsCountChar(c[k]))
    ensures MatchAt(DaysAgo, c + "天前", 0) == Some(Match(|c| + 2, [c]))
  {
    var t := c + "天前";
    assert t[..|c|] == c;
    if IsDigit(c[0]) {
      DigitRunEndIs(t, 0, |c|);
    } else {
      CountRunEndIs(t, 0, |c|);
    }
    assert CountTokenEnd(t, 0) == |c|;
    assert SpaceRunEnd(t, |c|) == |c|;
    assert t[|c|..|c| + 2] == "天前";
  }

  /** Rule 2 matches all of c天前 when c is a digit run or a Chinese count run. */
  lemma DaysAgoAtStart(c: string, today: Date)
    requires Valid(today) && |c| > 0
    requires IsDigitString(c) || (!IsDigit(c[0]) && forall k :: 0 <= k < |c| ==> IsCountChar(c[k]))
    ensures DaysAgoRule(c + "天前", today) == Some(Shift(today, -(DayCount(c) as int)))
  {
    DaysAgoMatchAtStart(c);
    SearchFindsFirst(DaysAgo, c + "天前", 0, 0);
  }

  lemma {:induction false} CountRunEndIs(s: string, i: nat, j: nat)
    requires i <= j <= |s|
    requires forall k :: i <= k < j ==> IsCountChar(s[k])
    requires j == |s| || !IsCountChar(s[j])
    ensures CountRunEnd(s, i) == j
    decreases j - i
  {
    if i < j {
      CountRunEndIs(s, i + 1, j);
    }
  }

  /** When rule 1 does not fire and rule 2 does, rule 2 decides. */
  lemma DaysAgoDecides(t: string, today: Date)
    requires Valid(today) && Strip(t) == t
    requires LiteralRule(t, today).None? && DaysAgoRule(t, today).Some?
    ensures Parse(t, today) == DaysAgoRule(t, today).value
  {
  }

  /** `N天前` on its own resolves to N days before today, N read by
      `_parse_chinese_number`, for a digit run or a Chinese count run N. */
  lemma {:induction false} DaysAgoPhrase(c: string, today: Date)
    requires Valid(today) && |c| > 0
    requires IsDigitString(c) || (!IsDigit(c[0]) && forall k :: 0 <= k < |c| ==> IsCountChar(c[k]))
    ensures Parse(c + "天前", today) == Shift(today, -(DayCount(c) as int))
  {
    var t := c + "天前";
    assert t[0] == c[0] && t[|t| - 1] == '前';
    StripUnchanged(t);
    CountNoLiteral(c, today);
    DaysAgoAtStart(c, today);
    DaysAgoDecides(t, today);
  }

  /** `N天前` with N in Arabic digits resolves to N days before today, across
      month and year boundaries; 0天前 is today. */
  lemma {:induction false} DaysAgoDigits(ds: string, today: Date)
    requires Valid(today) && IsDigitString(ds)
    ensures Parse(ds + "天前", today) == Shift(today, -(DigitsValue(ds) as int))
  {
    DaysAgoPhrase(ds, today);
    DigitCountShift(ds, today);
  }

  lemma {:induction false} DigitCountShift(ds: string, today: Date)
    requires Valid(today) && IsDigitString(ds)
    ensures Shift(today, -(DayCount(ds) as int)) == Shift(today, -(DigitsValue(ds) as int))
  {
  }

  /** `N天前` with N spelled in Chinese (一 .. 九十九) resolves to N days before today. */
  lemma {:induction false} DaysAgoChinese(n: nat, today: Date)
    requires Valid(today) && 1 <= n <= 99
    ensures Parse(CountNumeral(n) + "天前", today) == Shift(today, -(n as int))
  {
    DaysAgoPhrase(CountNumeral(n), today);
    DayCountReadsStandard(n);
  }

  /** Three days before 2024-01-02 is 2023-12-30. */
  lemma ThreeDaysBeforeNewYear()
    ensures Shift(Date(2024, 1, 2), -3) == Resolved(Date(2023, 12, 30))
  {
    assert AddDays(Date(2023, 12, 31), -1) == Some(Date(2023, 12, 30));
    assert AddDays(Date(2024, 1, 1), -2) == Some(Date(2023, 12, 30));
    assert AddDays(Date(2024, 1, 2), -3) == Some(Date(2023, 12, 30));
  }

  /** 3天前 on 2024-01-02 is 2023-12-30. */
  lemma DaysAgoCrossesYear()
    ensures Parse("3天前", Date(2024, 1, 2)) == Resolved(Date(2023, 12, 30))
  {
    var ds := "3";
    assert ds + "天前" == "3天前";
    assert DigitsValue(ds) == 3;
    DaysAgoDigits(ds, Date(2024, 1, 2));
    ThreeDaysBeforeNewYear();
  }

  /** Moving from weekday wd to weekday wi of the week k weeks away. */
  lemma WeekArithmetic(wd: int, wi: int, k: int)
    requires 0 <= wi < 7
    ensures (wd + (wi - wd + k * 7)) % 7 == wi
  {
    assert wd + (wi - wd + k * 7) == wi + k * 7;
  }

  lemma WeekTargetWeekday(today: Date, o: char, w: char)
    requires Valid(today) && WeekTarget(today, o, w).Resolved?
    ensures Weekday(WeekTarget(today, o, w).date) == WeekdayIndex(w)
  {
    var wd := Weekday(today);
    var n := WeekdayIndex(w) - wd + WeekOffset(o) * 7;
    var e := WeekTarget(today, o, w).date;
    WeekdayShift(today, e, n);
    WeekArithmetic(wd, WeekdayIndex(w), WeekOffset(o));
  }

  /** 上/這/下 週 X lands on weekday X, in the week before, of or after
      today's Monday-to-Sunday week. */
  lemma WeekTargetProperties(today: Date, o: char, w: char)
    requires Valid(today) && WeekTarget(today, o, w).Resolved?
    ensures Weekday(WeekTarget(today, o, w).date) == WeekdayIndex(w)
    ensures var monday := Ordinal(today) - Weekday(today);
            Ordinal(WeekTarget(today, o, w).date) == monday + WeekOffset(o) * 7 + WeekdayIndex(w)
    ensures o == '這' ==>
              var monday := Ordinal(today) - Weekday(today);
              monday <= Ordinal(WeekTarget(today, o, w).date) <= monday + 6
  {
    WeekTargetWeekday(today, o, w);
  }

  /** Rule 2 needs the characters 天前 in that order. */
  lemma NoDaysAgoWithoutMarker(t: string)
    requires !Contains(t, "天前")
    ensures Search(DaysAgo, t, 0).None?
  {
    forall i | 0 <= i < |t|
      ensures MatchAt(DaysAgo, t, i).None?
    {
      var j := CountTokenEnd(t, i);
      var k := SpaceRunEnd(t, j);
      if k + 2 <= |t| {
        assert !OccursAt(t, "天前", k);
      }
    }
  }

  /** Rules 1 and 2 pass over a three-character week phrase. */
  lemma WeekPhraseNoEarlyRule(o: char, w: char, today: Date)
    requires Valid(today)
    requires o in {'上', '這', '下'} && IsWeekdayChar(w)
    ensures LiteralRule([o, '週', w], today).None? && DaysAgoRule([o, '週', w], today).None?
  {
    var t := [o, '週', w];
    NotContainsWithout(t, "前天", 0);
    NoLiteral(t, today);
    NotContainsWithout(t, "天前", 1);
    NoDaysAgoWithoutMarker(t);
  }

  /** Rule 3 reads the two characters around 週. */
  lemma WeekPhraseMatch(o: char, w: char, today: Date)
    requires Valid(today)
    requires o in {'上', '這', '下'} && IsWeekdayChar(w)
    ensures WeekRule([o, '週', w], today) == Some(WeekTarget(today, o, w))
  {
    var t := [o, '週', w];
    assert MatchAt(WeekDay, t, 0) == Some(Match(3, [[o], [w]]));
    SearchFindsFirst(WeekDay, t, 0, 0);
  }

  /** The phrase 上週X / 這週X / 下週X on its own resolves to WeekTarget. */
  lemma WeekPhrase(o: char, w: char, today: Date)
    requires Valid(today)
    requires o in {'上', '這', '下'} && IsWeekdayChar(w)
    ensures Parse([o, '週', w], today) == WeekTarget(today, o, w)
  {
    WeekPhraseEnds(o, w);
    WeekPhraseNoEarlyRule(o, w, today);
    WeekPhraseMatch(o, w, today);
    WeekRuleDecides([o, '週', w], today, WeekTarget(today, o, w));
  }

  lemma WeekPhraseEnds(o: char, w: char)
    requires o in {'上', '這', '下'} && IsWeekdayChar(w)
    ensures !IsSpace(o) && !IsSpace(w)
  {
  }

  /** On text with no whitespace at either end that rules 1 and 2 pass
      over, a week phrase decides. */
  lemma WeekRuleDecides(t: string, today: Date, r: DateResult)
    requires Valid(today) && |t| > 0 && !IsSpace(t[0]) && !IsSpace(t[|t| - 1])
    requires LiteralRule(t, today).None? && DaysAgoRule(t, today).None? && WeekRule(t, today) == Some(r)
    ensures Parse(t, today) == r
  {
    StripUnchanged(t);
  }

  /** 上個月N always lands in the month before today's month: on day N when
      it exists there, otherwise (N = 0 or past the month's end) on its last day. */
  lemma LastMonthDayProperties(today: Date, n: nat)
    requires Valid(today) && !(today.year == 1 && today.month == 1) && n <= CIntMax
    ensures LastMonthDayOf(today, n).Resolved?
    ensures var d := LastMonthDayOf(today, n).date;
            && Valid(d)
            && MonthIndex(d) == MonthIndex(today) - 1
            && (1 <= n <= DaysInMonth(d.year, d.month) ==> d.day == n)
            && (!(1 <= n <= DaysInMonth(d.year, d.month)) ==> d.day == DaysInMonth(d.year, d.month))
  {
    PrevDayOfFirst(FirstOfMonth(today));
  }

  /** `上個月31號` on 2024-03-15 is clamped to 2024-02-29 (a leap year). */
  lemma LastMonthClampsLeapFebruary()
    ensures LastMonthDayOf(Date(2024, 3, 15), 31) == Resolved(Date(2024, 2, 29))
  {
  }

  /** The characters of `上個月N號` / `上個月N日`: the marker, digits and the suffix. */
  lemma LastMonthPhraseChars(ds: string, u: char)
    requires IsDigitString(ds) && (u == '號' || u == '日')
    ensures var t := "上個月" + ds + [u];
            forall k :: 0 <= k < |t| ==> t[k] in {'上', '個', '月', u} || IsDigit(t[k])
  {
    var t := "上個月" + ds + [u];
    forall k | 0 <= k < |t|
      ensures t[k] in {'上', '個', '月', u} || IsDigit(t[k])
    {
      if 3 <= k < 3 + |ds| {
        assert t[k] == ds[k - 3];
      }
    }
  }

  /** Rules 1 to 3 pass over `上個月N號`: no 今 昨 明 前 天 週 in it. */
  lemma LastMonthPhraseNoEarlyRule(ds: string, u: char, today: Date)
    requires Valid(today) && IsDigitString(ds) && (u == '號' || u == '日')
    ensures var t := "上個月" + ds + [u];
            LiteralRule(t, today).None? && DaysAgoRule(t, today).None? && WeekRule(t, today).None?
  {
    var t := "上個月" + ds + [u];
    LastMonthPhraseChars(ds, u);
    assert '前' !in t && '天' !in t && '週' !in t;
    NotContainsWithout(t, "前天", 0);
    NoLiteral(t, today);
    NotContainsWithout(t, "天前", 0);
    NoDaysAgoWithoutMarker(t);
    NoWeekWithoutMarker(t);
  }

  /** Rule 4 reads the whole digit run of `上個月N號`. */
  lemma LastMonthPhraseMatch(ds: string, u: char, today: Date)
    requires Valid(today) && IsDigitString(ds) && (u == '號' || u == '日')
    ensures LastMonthRule("上個月" + ds + [u], today) == Some(LastMonthDayOf(today, DigitsValue(ds)))
  {
    var t := "上個月" + ds + [u];
    assert t[..3] == "上個月" && t[3..3 + |ds|] == ds && t[3 + |ds|] == u;
    DigitRunEndIs(t, 3, 3 + |ds|);
    assert MatchAt(LastMonthDay, t, 0) == Some(Match(|t|, [ds]));
    SearchFindsFirst(LastMonthDay, t, 0, 0);
  }

  /** On stripped text that rules 1 to 3 pass over, rule 4 decides when it matches. */
  lemma LastMonthRuleDecides(t: string, today: Date, r: DateResult)
    requires Valid(today) && Strip(t) == t
    requires LiteralRule(t, today).None? && DaysAgoRule(t, today).None? && WeekRule(t, today).None?
    requires LastMonthRule(t, today) == Some(r)
    ensures Parse(t, today) == r
  {
  }

  /** `上個月N號` (or `上個月N日`) on its own resolves through rule 4 to day N
      of last month, clamped to that month's last day. */
  lemma LastMonthPhrase(ds: string, u: char, today: Date)
    requires Valid(today) && IsDigitString(ds) && (u == '號' || u == '日')
    ensures Parse("上個月" + ds + [u], today) == LastMonthDayOf(today, DigitsValue(ds))
  {
    var t := "上個月" + ds + [u];
    assert t[0] == '上' && t[|t| - 1] == u;
    StripUnchanged(t);
    LastMonthPhraseNoEarlyRule(ds, u, today);
    LastMonthPhraseMatch(ds, u, today);
    LastMonthRuleDecides(t, today, LastMonthDayOf(today, DigitsValue(ds)));
  }

  /** `上個月31號` on 2024-03-15 resolves to 2024-02-29. */
  lemma LastMonthLeapFebruaryExample()
    ensures Parse("上個月31號", Date(2024, 3, 15)) == Resolved(Date(2024, 2, 29))
  {
    var ds := "31";
    assert "上個月" + ds + ['號'] == "上個月31號";
    assert DigitsValue(ds) == 31;
    LastMonthPhrase(ds, '號', Date(2024, 3, 15));
    LastMonthClampsLeapFebruary();
  }

  /** (這個月)N號 gives day N of today's month when it exists, and otherwise today
      itself, not a clamped day. */
  lemma ThisMonthDayProperties(today: Date, n: nat)
    requires Valid(today) && n <= CIntMax
    ensures ThisMonthDayOf(today, n).Resolved?
    ensures 1 <= n <= DaysInMonth(today.year, today.month) ==>
              ThisMonthDayOf(today, n).date == Date(today.year, today.month, n)
    ensures !(1 <= n <= DaysInMonth(today.year, today.month)) ==>
              ThisMonthDayOf(today, n).date == today
  {
  }

  /** Rule 3 needs the character 週. */
  lemma NoWeekWithoutMarker(t: string)
    requires '週' !in t
    ensures Search(WeekDay, t, 0).None?
  {
    forall i | 0 <= i < |t|
      ensures MatchAt(WeekDay, t, i).None?
    {
      if i + 1 < |t| {
        assert t[i + 1] in t;
      }
    }
  }

  /** Rule 4 needs the character 上. */
  lemma NoLastMonthWithoutMarker(t: string)
    requires '上' !in t
    ensures Search(LastMonthDay, t, 0).None?
  {
    forall i | 0 <= i < |t|
      ensures MatchAt(LastMonthDay, t, i).None?
    {
      assert t[i] in t;
      if i + 3 <= |t| {
        assert t[i..i + 3][0] == t[i];
      }
    }
  }

  /** Rule 5 needs 號 or 日. */
  lemma NoMonthDayWithoutMarker(t: string)
    requires '號' !in t && '日' !in t
    ensures Search(MonthDay, t, 0).None?
  {
    forall i | 0 <= i < |t|
      ensures MatchAt(MonthDay, t, i).None?
    {
      var j := DigitRunEnd(t, i);
      if j < |t| {
        assert t[j] in t;
      }
      if i + 3 <= |t| {
        var j' := DigitRunEnd(t, i + 3);
        if j' < |t| {
          assert t[j'] in t;
        }
      }
    }
  }

  /** The text holds none of the characters the first four rules look for. */
  predicate NoMarker(t: string) {
    '今' !in t && '昨' !in t && '明' !in t && '前' !in t && '週' !in t && '上' !in t
  }

  /** Rules 1 to 4 do not fire on text without 今 昨 明 前 週 上. */
  lemma NoEarlyRule(t: string, today: Date)
    requires Valid(today) && NoMarker(t)
    ensures LiteralRule(t, today).None? && DaysAgoRule(t, today).None?
    ensures WeekRule(t, today).None? && LastMonthRule(t, today).None?
  {
    NotContainsWithout(t, "前天", 0);
    NoLiteral(t, today);
    NotContainsWithout(t, "天前", 1);
    NoDaysAgoWithoutMarker(t);
    NoWeekWithoutMarker(t);
    NoLastMonthWithoutMarker(t);
  }

  /** On text that rules 1 to 4 ignore, the later rules decide in order. */
  lemma LateRulesDecide(t: string, today: Date)
    requires Valid(today) && Strip(t) == t && NoMarker(t)
    ensures ThisMonthRule(t, today).Some? ==> Parse(t, today) == ThisMonthRule(t, today).value
    ensures ThisMonthRule(t, today).None? && SlashRule(t, today).Some? ==> Parse(t, today) == SlashRule(t, today).value
    ensures ThisMonthRule(t, today).None? && SlashRule(t, today).None? ==>
              Parse(t, today) == if FullDateRule(t).Some? then FullDateRule(t).value else NoDate
  {
    NoEarlyRule(t, today);
  }
}
