/** `NLPParser.parse` (a bookkeeping command to a record descriptor),
    `NLPParser.parse_query` (a question to a query descriptor) and
    `NLPParser._clean_description`. `today` and the jieba word list are
    parameters. */
module NlpParser {
  import opened Base
  import opened Text
  import opened Calendar
  import opened Numerals
  import opened Patterns
  import opened Amounts
  import opened Categories
  import DateParser

  // ---------------------------------------------------------------------
  // _clean_description

  /** The date words removed from a description, in removal order. */
  const DateKeywords: seq<string> := ["今天", "昨天", "前天", "今日", "昨日", "上週", "這週", "下週", "上個月", "這個月"]

  /** Text with no ASCII digit and none of the date words: cleaning touches
      only its whitespace. */
  predicate Plain(text: string) {
    && (forall k :: 0 <= k < |text| ==> !IsDigit(text[k]))
    && (forall i :: 0 <= i < |DateKeywords| ==> !Contains(text, DateKeywords[i]))
  }

  /** `re.sub` of a pattern that never matches leaves the text unchanged. */
  lemma {:induction false} SubNoMatch(p: Pattern, s: string, i: nat)
    requires i <= |s| && forall k :: i <= k < |s| ==> MatchAt(p, s, k).None?
    ensures Sub(p, s, i) == s[i..]
    decreases |s| - i
  {
    if i < |s| {
      SubNoMatch(p, s, i + 1);
      assert s[i..] == [s[i]] + s[i + 1..];
    }
  }

  /** `s.replace(kw, '')` of an absent kw leaves s unchanged. */
  lemma {:induction false} RemoveAbsent(s: string, kw: string)
    requires |kw| > 0 && !Contains(s, kw)
    ensures RemoveAll(s, kw) == s
    decreases |s|
  {
    if |s| > 0 {
      assert !HasAt(s, 0, kw) by {
        if |kw| <= |s| {
          assert !OccursAt(s, kw, 0);
        }
      }
      assert !Contains(s[1..], kw) by {
        if Contains(s[1..], kw) {
          var j :| 0 <= j <= |s[1..]| - |kw| && OccursAt(s[1..], kw, j);
          assert s[1..][j..j + |kw|] == s[j + 1..j + 1 + |kw|];
          assert OccursAt(s, kw, j + 1);
        }
      }
      RemoveAbsent(s[1..], kw);
      assert s == [s[0]] + s[1..];
    }
  }

  /** The amount patterns of the description cleaner find nothing in text without digits. */
  lemma PlainHasNoAmount(text: string, p: Pattern)
    requires p in {AmountUnit, AmountDollar, AmountNT}
    requires forall k :: 0 <= k < |text| ==> !IsDigit(text[k])
    ensures Sub(p, text, 0) == text
  {
    forall k | 0 <= k < |text|
      ensures MatchAt(p, text, k).None?
    {
      NoDigitNoNumber(p, text, k);
    }
    SubNoMatch(p, text, 0);
  }

  /** Joining the words of a split gives text that is already stripped and normalized. */
  lemma JoinedWords(s: string)
    ensures Normalized(JoinSpace(Split(s)))
    ensures Strip(JoinSpace(Split(s))) == JoinSpace(Split(s))
    ensures |JoinSpace(Split(s))| <= |s|
  {
    SplitWords(s);
    JoinNormalized(Split(s));
    StripUnchanged(JoinSpace(Split(s)));
    JoinSplitLength(s);
  }

  /** `_clean_description`: drops the amounts and the date words, then
      collapses the whitespace. */
  method CleanDescription(text: string) returns (r: string)
    ensures Normalized(r)
    ensures |r| <= |text|
    ensures Plain(text) ==> r == JoinSpace(Split(text))
  {
    var t := Sub(AmountUnit, text, 0);
    t := Sub(AmountDollar, t, 0);
    t := Sub(AmountNT, t, 0);
    if Plain(text) {
      PlainHasNoAmount(text, AmountUnit);
      PlainHasNoAmount(text, AmountDollar);
      PlainHasNoAmount(text, AmountNT);
    }
    var i := 0;
    while i < |DateKeywords|
      invariant 0 <= i <= |DateKeywords|
      invariant |t| <= |text|
      invariant Plain(text) ==> t == text
    {
      if Plain(text) {
        RemoveAbsent(t, DateKeywords[i]);
      }
      t := RemoveAll(t, DateKeywords[i]);
      i := i + 1;
    }
    JoinedWords(t);
    t := JoinSpace(Split(t));
    r := Strip(t);
  }

  // ---------------------------------------------------------------------
  // parse

  datatype EntryType = Expense | Income

  /** The record descriptor; the confidence is counted in tenths. */
  datatype Record = Record(
    amount: Option<real>,
    entryType: EntryType,
    category: string,
    date: Date,
    description: string,
    confidence: nat,
    rawText: string)

  /** Some category has a positive score. */
  predicate Found(words: seq<string>) {
    exists t :: 0 <= t < |Table| && CategoryScore(words, t) > 0
  }

  /** The amount `parse` keeps: `if amount:` drops both None and 0.0. */
  function KeptAmount(text: string): (a: Option<real>)
    ensures a.Some? ==> a.value != 0.0
    ensures ExtractAmount(text).Some? && ExtractAmount(text).value != 0.0 ==> a == ExtractAmount(text)
  {
    if ExtractAmount(text).Some? && ExtractAmount(text).value != 0.0 then ExtractAmount(text) else None
  }

  /** `NLPParser.parse`, with `date.today()` as `today` and the jieba
      segmentation of `text` as `words`. An OverflowError from the date
      resolver propagates. */
  method Parse(text: string, words: seq<string>, today: Date) returns (r: Outcome<Record>)
    requires Valid(today)
    ensures r.Raised? <==> DateParser.Parse(text, today).Overflow?
    ensures r.Raised? ==> r.error == OverflowError
    ensures r.Ok? ==> r.value.rawText == text && r.value.amount == KeptAmount(text)
    ensures r.Ok? ==> r.value.date == (if DateParser.Parse(text, today).Resolved? then DateParser.Parse(text, today).date else today)
    ensures r.Ok? ==> (r.value.confidence ==
              (if KeptAmount(text).Some? then 4 else 0)
              + (if DateParser.Parse(text, today).Resolved? then 1 else 0)
              + (if Found(words) then 4 else 1))
    ensures r.Ok? ==> 1 <= r.value.confidence <= 9
    ensures r.Ok? ==> r.value.category != []
    ensures r.Ok? && Found(words) ==>
              exists t :: 0 <= t < |Table| && Table[t].name == r.value.category && IsBest(words, t)
    ensures r.Ok? ==> (r.value.entryType == Income <==> Found(words) && r.value.category in IncomeCategories)
    ensures r.Ok? && !Found(words) ==>
              r.value.category == (if Contains(text, "收入") then "其他收入" else "其他")
              && r.value.entryType == Expense
    ensures r.Ok? ==> Normalized(r.value.description) && |r.value.description| <= |text|
  {
    var amount: Option<real> := None;
    var entryType := Expense;
    var category := "";
    var date := today;
    var description := Strip(text);
    var confidence: nat := 0;

    // 1. amount
    var a := ExtractAmount(text);
    if a.Some? && a.value != 0.0 {
      amount := a;
      confidence := confidence + 4;
    }

    // 2. date
    var parsed := DateParser.Parse(text, today);
    if parsed.Overflow? {
      return Raised(OverflowError);
    }
    if parsed.Resolved? {
      date := parsed.date;
      confidence := confidence + 1;
    }

    // 3. category
    var found := ExtractCategory(words);
    if found.Some? {
      category := found.value;
      entryType := if category in IncomeCategories then Income else Expense;
      confidence := confidence + 4;
      var t :| 0 <= t < |Table| && Table[t].name == category && IsBest(words, t);
      assert Found(words);
      assert Table[t].name != [] by { TableNamesNonEmpty(t); }
    } else {
      category := if Contains(text, "收入") then "其他收入" else "其他";
      confidence := confidence + 1;
      assert !Found(words);
    }

    // 4. description
    description := CleanDescription(text);

    r := Ok(Record(amount, entryType, category, date, description, confidence, text));
  }

  lemma TableNamesNonEmpty(t: nat)
    requires t < |Table|
    ensures Table[t].name != []
  {
  }

  // ---------------------------------------------------------------------
  // parse_query

  datatype Period = Day | Week | Month | Year
  datatype QueryType = Summary | CategoryQuery | Trend | Compare
  datatype Chart = Pie | Line | Bar

  datatype Query = Query(
    queryType: QueryType,
    category: Option<string>,
    period: Period,
    startDate: Date,
    endDate: Date,
    chart: Option<Chart>)

  /** The `N` of the first `近N個月` phrase, read by `_parse_chinese_number`. */
  function SpanMonths(text: string): Option<nat> {
    var g := SearchGroup(MonthsSpan, text, 0);
    if g.None? then None else Some(MonthCount(g.value))
  }

  /** Whether the period branches that use the function-local `timedelta`
      before its import are taken; they raise UnboundLocalError. */
  predicate RaisesUnbound(text: string) {
    && !(Contains(text, "今天") || Contains(text, "今日"))
    && (Contains(text, "這週") || Contains(text, "本週") || Contains(text, "上個月") || Contains(text, "上月"))
  }

  /** The loop `for _ in range(months - 1)` stepping back one month at a time
      from the first of today's month; None when it would pass 0001-01-01. */
  method WalkBackMonths(today: Date, months: nat) returns (r: Option<Date>)
    requires Valid(today)
    ensures r.Some? <==> months <= 1 || months - 1 <= MonthIndex(today) - 12
    ensures r.Some? ==> Valid(r.value) && r.value.day == 1
    ensures r.Some? ==> MonthIndex(r.value) == MonthIndex(today) - (if months >= 1 then months - 1 else 0)
  {
    var start := FirstOfMonth(today);
    var n := 0;
    while n + 1 < months
      invariant 0 <= n && (months >= 1 ==> n <= months - 1) && (months == 0 ==> n == 0)
      invariant Valid(start) && start.day == 1
      invariant MonthIndex(start) == MonthIndex(today) - n
      invariant MonthIndex(start) >= 12
      decreases months - n
    {
      PrevDayOfFirst(start);
      match PrevDay(start) {
        case None =>
          assert MonthIndex(today) - n == 12;
          return None;
        case Some(last) =>
          start := FirstOfMonth(last);
      }
      n := n + 1;
    }
    return Some(start);
  }

  /** The first table category whose name occurs verbatim in the text. */
  method FirstNamedCategory(text: string) returns (r: Option<string>)
    ensures r.None? <==> forall t :: 0 <= t < |Table| ==> !Contains(text, Table[t].name)
    ensures r.Some? ==> exists t :: 0 <= t < |Table| && Table[t].name == r.value && Contains(text, r.value)
                          && forall u :: 0 <= u < t ==> !Contains(text, Table[u].name)
  {
    var t := 0;
    while t < |Table|
      invariant 0 <= t <= |Table|
      invariant forall u :: 0 <= u < t ==> !Contains(text, Table[u].name)
    {
      var name := Table[t].name;
      if Contains(text, name) {
        return Some(name);
      }
      t := t + 1;
    }
    return None;
  }

  /** The chart keywords of `parse_query`, tried in the order pie, line, bar. */
  function ChartOf(text: string): (c: Option<Chart>)
    ensures c == Some(Pie) <==> Contains(text, "圓餅圖") || Contains(text, "比例")
    ensures c == Some(Line) <==>
              !(Contains(text, "圓餅圖") || Contains(text, "比例")) && (Contains(text, "折線圖") || Contains(text, "趨勢"))
    ensures c == Some(Bar) <==>
              !(Contains(text, "圓餅圖") || Contains(text, "比例")) && !(Contains(text, "折線圖") || Contains(text, "趨勢"))
              && (Contains(text, "長條圖") || Contains(text, "柱狀圖"))
  {
    if Contains(text, "圓餅圖") || Contains(text, "比例") then Some(Pie)
    else if Contains(text, "折線圖") || Contains(text, "趨勢") then Some(Line)
    else if Contains(text, "長條圖") || Contains(text, "柱狀圖") then Some(Bar)
    else None
  }

  /** The query type of `parse_query`: a named category makes it a category
      query, and the trend and comparison keywords, checked after, override that. */
  function QueryTypeOf(text: string, category: Option<string>): (q: QueryType)
    ensures q == Trend <==> Contains(text, "趨勢") || Contains(text, "變化")
    ensures q == Compare <==>
              !(Contains(text, "趨勢") || Contains(text, "變化")) && (Contains(text, "比較") || Contains(text, "對比"))
    ensures q == CategoryQuery <==>
              !(Contains(text, "趨勢") || Contains(text, "變化")) && !(Contains(text, "比較") || Contains(text, "對比"))
              && category.Some?
  {
    if Contains(text, "趨勢") || Contains(text, "變化") then Trend
    else if Contains(text, "比較") || Contains(text, "對比") then Compare
    else if category.Some? then CategoryQuery
    else Summary
  }

  /** A query starts today or on the first of this month or an earlier one,
      so it never starts after it ends. */
  lemma StartNotAfter(start: Date, today: Date)
    requires Valid(today)
    requires start == today || (Valid(start) && start.day == 1 && MonthIndex(start) <= MonthIndex(today))
    ensures Valid(start) && Ordinal(start) <= Ordinal(today)
  {
    if start != today {
      FirstNotAfter(start, today);
    }
  }

  /** `NLPParser.parse_query`, with `date.today()` as `today`. */
  method ParseQuery(text: string, today: Date) returns (r: Outcome<Query>)
    requires Valid(today)
    ensures RaisesUnbound(text) ==> r == Raised(UnboundLocalError)
    ensures r.Raised? ==> RaisesUnbound(text) || r.error == OverflowError
    ensures !RaisesUnbound(text) ==>
              (r.Raised? <==> SpanMonths(text).Some? && SpanMonths(text).value > 1
                              && SpanMonths(text).value - 1 > MonthIndex(today) - 12)
    ensures r.Ok? ==> r.value.endDate == today
    ensures r.Ok? ==> Valid(r.value.startDate) && Ordinal(r.value.startDate) <= Ordinal(r.value.endDate)
    ensures r.Ok? ==> r.value.period != Week
    ensures (r.Ok? && !(Contains(text, "今天") || Contains(text, "今日"))
              && (Contains(text, "這個月") || Contains(text, "本月") || !Contains(text, "今年"))) ==> r.value.period == Month
    ensures r.Ok? && (Contains(text, "今天") || Contains(text, "今日")) ==> r.value.period == Day
    ensures r.Ok? && SpanMonths(text).None? && (Contains(text, "今天") || Contains(text, "今日")) ==> r.value.startDate == today
    ensures (r.Ok? && !(Contains(text, "今天") || Contains(text, "今日")) && Contains(text, "今年")
              && !(Contains(text, "這個月") || Contains(text, "本月"))) ==> r.value.period == Year
    ensures r.Ok? && SpanMonths(text).None? && r.value.period == Year ==> r.value.startDate == Date(today.year, 1, 1)
    ensures r.Ok? && r.value.period == Month && SpanMonths(text).None? ==> r.value.startDate == FirstOfMonth(today)
    ensures r.Ok? && SpanMonths(text).Some? ==>
              var n := SpanMonths(text).value;
              r.value.startDate.day == 1
              && MonthIndex(r.value.startDate) == MonthIndex(today) - (if n >= 1 then n - 1 else 0)
    ensures r.Ok? ==> (r.value.chart == Some(Pie) <==> Contains(text, "圓餅圖") || Contains(text, "比例"))
    ensures r.Ok? ==> (r.value.chart == Some(Line) <==>
              !(Contains(text, "圓餅圖") || Contains(text, "比例")) && (Contains(text, "折線圖") || Contains(text, "趨勢")))
    ensures r.Ok? ==> (r.value.chart == Some(Bar) <==>
              !(Contains(text, "圓餅圖") || Contains(text, "比例")) && !(Contains(text, "折線圖") || Contains(text, "趨勢"))
              && (Contains(text, "長條圖") || Contains(text, "柱狀圖")))
    ensures r.Ok? ==> (r.value.category.None? <==> forall t :: 0 <= t < |Table| ==> !Contains(text, Table[t].name))
    ensures r.Ok? && r.value.category.Some? ==>
              exists t :: 0 <= t < |Table| && Table[t].name == r.value.category.value
                          && forall u :: 0 <= u < t ==> !Contains(text, Table[u].name)
    ensures r.Ok? ==> (r.value.queryType == Trend <==> Contains(text, "趨勢") || Contains(text, "變化"))
    ensures r.Ok? ==> (r.value.queryType == Compare <==>
              !(Contains(text, "趨勢") || Contains(text, "變化")) && (Contains(text, "比較") || Contains(text, "對比")))
    ensures r.Ok? ==> (r.value.queryType == CategoryQuery <==>
              !(Contains(text, "趨勢") || Contains(text, "變化")) && !(Contains(text, "比較") || Contains(text, "對比"))
              && r.value.category.Some?)
  {
    var queryType := Summary;
    var category: Option<string> := None;
    var period := Month;
    var startDate := FirstOfMonth(today);
    var endDate := today;
    var chart: Option<Chart> := None;

    // time range
    if Contains(text, "今天") || Contains(text, "今日") {
      period := Day;
      startDate := today;
    } else if Contains(text, "這週") || Contains(text, "本週") {
      return Raised(UnboundLocalError);
    } else if Contains(text, "上個月") || Contains(text, "上月") {
      return Raised(UnboundLocalError);
    } else if Contains(text, "這個月") || Contains(text, "本月") {
      period := Month;
      startDate := FirstOfMonth(today);
    } else if Contains(text, "今年") {
      period := Year;
      startDate := Date(today.year, 1, 1);
    }

    // N months
    var span := SearchGroup(MonthsSpan, text, 0);
    if span.Some? {
      var months := MonthCount(span.value);
      var walked := WalkBackMonths(today, months);
      if walked.None? {
        return Raised(OverflowError);
      }
      startDate := walked.value;
    }

    StartNotAfter(startDate, today);

    // category
    category := FirstNamedCategory(text);
    queryType := QueryTypeOf(text, category);
    chart := ChartOf(text);

    r := Ok(Query(queryType, category, period, startDate, endDate, chart));
  }
}
