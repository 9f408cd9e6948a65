/** The regular expressions of the parser, each as a hand-written scanner:
    `MatchAt(p, s, i)` says whether `re.match` of pattern p succeeds at index
    i of s, where the match ends and what its capturing groups hold;
    `Search` is `re.search` (the leftmost match) and `Sub` is
    `re.sub(p, '', s)`. Every pattern here either has no choice point or
    only choice points where backtracking cannot turn a failure into a
    success, so one greedy pass per start index decides the match. */
module Patterns {
  import opened Base
  import opened Text
  import opened Numerals

  datatype Pattern =
    | DaysAgo          // (\d+|[一二三四五六七八九十]+)\s*天前
    | WeekDay          // (上|這|下)週([一二三四五六日天])
    | LastMonthDay     // 上個月(\d+)[號日]?
    | MonthDay         // (這個月)?(\d+)[號日]        (only group 2 is kept)
    | MonthSlashDay    // (\d{1,2})[/\-](\d{1,2})
    | FullDate         // (\d{4})[年/\-](\d{1,2})[月/\-](\d{1,2})[日]?
    | AmountUnit       // (\d+(?:\.\d+)?)\s*[元塊錢]
    | AmountDollar     // \$\s*(\d+(?:\.\d+)?)
    | AmountNT         // NT\$?\s*(\d+(?:\.\d+)?)   with re.IGNORECASE
    | AmountUnitOrEnd  // (\d+(?:\.\d+)?)\s*(?:元|塊|錢|$)
    | ChineseAmount    // ([零一二三四五六七八九十百千萬兩两]+)\s*[元塊錢]
    | AnyNumber        // (\d+(?:\.\d+)?)
    | MonthsSpan       // 近?(\d+|[一二三四五六七八九十]+)\s*個?月

  /** A successful match: where it ends and the text of its capturing groups. */
  datatype Match = Match(end: nat, groups: seq<string>)

  predicate IsUnit(c: char) {
    c == '元' || c == '塊' || c == '錢'
  }

  predicate IsWeekdayChar(c: char) {
    c in {'一', '二', '三', '四', '五', '六', '日', '天'}
  }

  /** The end of `\d+(?:\.\d+)?` from a digit at i: the fraction is taken
      only when a digit follows the dot. */
  function NumberEnd(s: string, i: nat): (j: nat)
    requires i < |s| && IsDigit(s[i])
    ensures i < j <= |s|
  {
    var d := DigitRunEnd(s, i);
    if d + 1 < |s| && s[d] == '.' && IsDigit(s[d + 1]) then DigitRunEnd(s, d + 1) else d
  }

  /** The end of a run of characters of the class `[一二三四五六七八九十]`. */
  function CountRunEnd(s: string, i: nat): (j: nat)
    requires i <= |s|
    ensures i <= j <= |s|
    ensures forall k :: i <= k < j ==> IsCountChar(s[k])
    ensures j < |s| ==> !IsCountChar(s[j])
    decreases |s| - i
  {
    if i < |s| && IsCountChar(s[i]) then CountRunEnd(s, i + 1) else i
  }

  /** The end of a run of characters of the class `[零一二三四五六七八九十百千萬兩两]`. */
  function AmountRunEnd(s: string, i: nat): (j: nat)
    requires i <= |s|
    ensures i <= j <= |s|
    ensures forall k :: i <= k < j ==> IsAmountChar(s[k])
    ensures j < |s| ==> !IsAmountChar(s[j])
    decreases |s| - i
  {
    if i < |s| && IsAmountChar(s[i]) then AmountRunEnd(s, i + 1) else i
  }

  /** `(\d+|[一二三四五六七八九十]+)`: a digit run, else a Chinese count run. */
  function CountTokenEnd(s: string, i: nat): (j: nat)
    requires i <= |s|
    ensures i <= j <= |s|
  {
    if i < |s| && IsDigit(s[i]) then DigitRunEnd(s, i) else CountRunEnd(s, i)
  }

  function MatchDaysAgo(s: string, i: nat): (r: Option<Match>)
    requires i <= |s|
    ensures r.Some? ==> i < r.value.end <= |s| && |r.value.groups| == 1
  {
    var j := CountTokenEnd(s, i);
    var k := SpaceRunEnd(s, j);
    if j > i && HasAt(s, k, "天前") then Some(Match(k + 2, [s[i..j]])) else None
  }

  function MatchWeekDay(s: string, i: nat): (r: Option<Match>)
    requires i <= |s|
    ensures r.Some? ==> i < r.value.end <= |s| && |r.value.groups| == 2
    ensures r.Some? ==> r.value.groups[0] in {"上", "這", "下"} && |r.value.groups[1]| == 1 && IsWeekdayChar(r.value.groups[1][0])
  {
    if i + 3 <= |s| && s[i] in {'上', '這', '下'} && s[i + 1] == '週' && IsWeekdayChar(s[i + 2]) then
      Some(Match(i + 3, [[s[i]], [s[i + 2]]]))
    else None
  }

  function MatchLastMonthDay(s: string, i: nat): (r: Option<Match>)
    requires i <= |s|
    ensures r.Some? ==> i < r.value.end <= |s| && |r.value.groups| == 1 && IsDigitString(r.value.groups[0])
  {
    if HasAt(s, i, "上個月") then
      var j := DigitRunEnd(s, i + 3);
      if j == i + 3 then None
      else
        var e := if j < |s| && (s[j] == '號' || s[j] == '日') then j + 1 else j;
        Some(Match(e, [s[i + 3..j]]))
    else None
  }

  /** `(\d+)[號日]` at g. */
  function DayNumberAt(s: string, g: nat): (r: Option<Match>)
    requires g <= |s|
    ensures r.Some? ==> g < r.value.end <= |s| && |r.value.groups| == 1 && IsDigitString(r.value.groups[0])
  {
    var j := DigitRunEnd(s, g);
    if j > g && j < |s| && (s[j] == '號' || s[j] == '日') then Some(Match(j + 1, [s[g..j]])) else None
  }

  function MatchMonthDay(s: string, i: nat): (r: Option<Match>)
    requires i <= |s|
    ensures r.Some? ==> i < r.value.end <= |s| && |r.value.groups| == 1 && IsDigitString(r.value.groups[0])
  {
    if HasAt(s, i, "這個月") && DayNumberAt(s, i + 3).Some? then DayNumberAt(s, i + 3)
    else DayNumberAt(s, i)
  }

  /** The end of `\d{1,2}` at i, greedy: two digits when there are two. */
  function UpToTwoDigits(s: string, i: nat): (j: nat)
    requires i < |s| && IsDigit(s[i])
    ensures i < j <= i + 2 && j <= |s|
    ensures forall k :: i <= k < j ==> IsDigit(s[k])
  {
    if i + 1 < |s| && IsDigit(s[i + 1]) then i + 2 else i + 1
  }

  predicate IsDateSep(c: char) {
    c == '/' || c == '-'
  }

  /** `\d{1,2}` followed by a character satisfying sep, with the backtracking
      from two digits to one. Returns the end of the digits. */
  function ShortNumberBefore(s: string, i: nat, seps: set<char>): (r: Option<nat>)
    requires i <= |s|
    ensures r.Some? ==> i < r.value <= i + 2 && r.value < |s| && s[r.value] in seps
    ensures r.Some? ==> forall k :: i <= k < r.value ==> IsDigit(s[k])
  {
    if i + 2 < |s| && IsDigit(s[i]) && IsDigit(s[i + 1]) && s[i + 2] in seps then Some(i + 2)
    else if i + 1 < |s| && IsDigit(s[i]) && s[i + 1] in seps then Some(i + 1)
    else None
  }

  function MatchMonthSlashDay(s: string, i: nat): (r: Option<Match>)
    requires i <= |s|
    ensures r.Some? ==> i < r.value.end <= |s| && |r.value.groups| == 2
    ensures r.Some? ==> IsDigitString(r.value.groups[0]) && IsDigitString(r.value.groups[1])
    ensures r.Some? ==> |r.value.groups[0]| <= 2 && |r.value.groups[1]| <= 2
  {
    var n := ShortNumberBefore(s, i, {'/', '-'});
    if n.Some? && n.value + 1 < |s| && IsDigit(s[n.value + 1]) then
      var m := n.value;
      var e := UpToTwoDigits(s, m + 1);
      Some(Match(e, [s[i..m], s[m + 1..e]]))
    else None
  }

  function MatchFullDate(s: string, i: nat): (r: Option<Match>)
    requires i <= |s|
    ensures r.Some? ==> i < r.value.end <= |s| && |r.value.groups| == 3
    ensures r.Some? ==> IsDigitString(r.value.groups[0]) && IsDigitString(r.value.groups[1]) && IsDigitString(r.value.groups[2])
    ensures r.Some? ==> |r.value.groups[0]| == 4 && |r.value.groups[1]| <= 2 && |r.value.groups[2]| <= 2
  {
    if i + 5 <= |s| && IsDigit(s[i]) && IsDigit(s[i + 1]) && IsDigit(s[i + 2]) && IsDigit(s[i + 3])
       && s[i + 4] in {'年', '/', '-'} then
      var n := ShortNumberBefore(s, i + 5, {'月', '/', '-'});
      if n.Some? && n.value + 1 < |s| && IsDigit(s[n.value + 1]) then
        var m := n.value;
        var e := UpToTwoDigits(s, m + 1);
        var e' := if e < |s| && s[e] == '日' then e + 1 else e;
        Some(Match(e', [s[i..i + 4], s[i + 5..m], s[m + 1..e]]))
      else None
    else None
  }

  function MatchAmountUnit(s: string, i: nat): (r: Option<Match>)
    requires i <= |s|
    ensures r.Some? ==> i < r.value.end <= |s| && |r.value.groups| == 1
  {
    if i < |s| && IsDigit(s[i]) then
      var j := NumberEnd(s, i);
      var k := SpaceRunEnd(s, j);
      if k < |s| && IsUnit(s[k]) then Some(Match(k + 1, [s[i..j]])) else None
    else None
  }

  /** `\s*(\d+(?:\.\d+)?)` at g: optional whitespace, then a number. */
  function SpacedNumberAt(s: string, g: nat): (r: Option<Match>)
    requires g <= |s|
    ensures r.Some? ==> g < r.value.end <= |s| && |r.value.groups| == 1
  {
    var k := SpaceRunEnd(s, g);
    if k < |s| && IsDigit(s[k]) then
      var j := NumberEnd(s, k);
      Some(Match(j, [s[k..j]]))
    else None
  }

  function MatchAmountDollar(s: string, i: nat): (r: Option<Match>)
    requires i <= |s|
    ensures r.Some? ==> i < r.value.end <= |s| && |r.value.groups| == 1
  {
    if i < |s| && s[i] == '$' then SpacedNumberAt(s, i + 1) else None
  }

  function MatchAmountNT(s: string, i: nat): (r: Option<Match>)
    requires i <= |s|
    ensures r.Some? ==> i < r.value.end <= |s| && |r.value.groups| == 1
  {
    if i + 2 <= |s| && (s[i] == 'N' || s[i] == 'n') && (s[i + 1] == 'T' || s[i + 1] == 't') then
      var g := if i + 2 < |s| && s[i + 2] == '$' then i + 3 else i + 2;
      SpacedNumberAt(s, g)
    else None
  }

  function MatchAmountUnitOrEnd(s: string, i: nat): (r: Option<Match>)
    requires i <= |s|
    ensures r.Some? ==> i < r.value.end <= |s| && |r.value.groups| == 1
  {
    if i < |s| && IsDigit(s[i]) then
      var j := NumberEnd(s, i);
      var k := SpaceRunEnd(s, j);
      if k == |s| then Some(Match(k, [s[i..j]]))
      else if IsUnit(s[k]) then Some(Match(k + 1, [s[i..j]]))
      else None
    else None
  }

  function MatchChineseAmount(s: string, i: nat): (r: Option<Match>)
    requires i <= |s|
    ensures r.Some? ==> i < r.value.end <= |s| && |r.value.groups| == 1
  {
    var j := AmountRunEnd(s, i);
    var k := SpaceRunEnd(s, j);
    if j > i && k < |s| && IsUnit(s[k]) then Some(Match(k + 1, [s[i..j]])) else None
  }

  function MatchAnyNumber(s: string, i: nat): (r: Option<Match>)
    requires i <= |s|
    ensures r.Some? ==> i < r.value.end <= |s| && |r.value.groups| == 1
    ensures i < |s| && IsDigit(s[i]) ==> r.Some?
  {
    if i < |s| && IsDigit(s[i]) then
      var j := NumberEnd(s, i);
      Some(Match(j, [s[i..j]]))
    else None
  }

  function MatchMonthsSpan(s: string, i: nat): (r: Option<Match>)
    requires i <= |s|
    ensures r.Some? ==> i < r.value.end <= |s| && |r.value.groups| == 1
  {
    var g := if i < |s| && s[i] == '近' then i + 1 else i;
    var j := CountTokenEnd(s, g);
    var k := SpaceRunEnd(s, j);
    if j == g || k >= |s| then None
    else if s[k] == '個' then
      (if k + 1 < |s| && s[k + 1] == '月' then Some(Match(k + 2, [s[g..j]])) else None)
    else if s[k] == '月' then Some(Match(k + 1, [s[g..j]]))
    else None
  }

  function MatchAt(p: Pattern, s: string, i: nat): (r: Option<Match>)
    requires i <= |s|
    ensures r.Some? ==> i < r.value.end <= |s|
  {
    match p
    case DaysAgo => MatchDaysAgo(s, i)
    case WeekDay => MatchWeekDay(s, i)
    case LastMonthDay => MatchLastMonthDay(s, i)
    case MonthDay => MatchMonthDay(s, i)
    case MonthSlashDay => MatchMonthSlashDay(s, i)
    case FullDate => MatchFullDate(s, i)
    case AmountUnit => MatchAmountUnit(s, i)
    case AmountDollar => MatchAmountDollar(s, i)
    case AmountNT => MatchAmountNT(s, i)
    case AmountUnitOrEnd => MatchAmountUnitOrEnd(s, i)
    case ChineseAmount => MatchChineseAmount(s, i)
    case AnyNumber => MatchAnyNumber(s, i)
    case MonthsSpan => MatchMonthsSpan(s, i)
  }

  /** `re.search(p, s[from..])` as a match position and its match. */
  datatype Hit = Hit(start: nat, m: Match)

  function Search(p: Pattern, s: string, from: nat): (r: Option<Hit>)
    requires from <= |s|
    ensures r.Some? ==> from <= r.value.start < |s| && MatchAt(p, s, r.value.start) == Some(r.value.m)
    ensures r.Some? ==> forall k :: from <= k < r.value.start ==> MatchAt(p, s, k).None?
    ensures r.None? ==> forall k :: from <= k < |s| ==> MatchAt(p, s, k).None?
    decreases |s| - from
  {
    if from == |s| then None
    else
      var m := MatchAt(p, s, from);
      if m.Some? then Some(Hit(from, m.value))
      else
        Search(p, s, from + 1)
  }

  /** `re.search` finds the leftmost start at which the pattern matches. */
  lemma SearchFindsFirst(p: Pattern, s: string, from: nat, i: nat)
    requires from <= i < |s| && MatchAt(p, s, i).Some?
    requires forall k :: from <= k < i ==> MatchAt(p, s, k).None?
    ensures Search(p, s, from) == Some(Hit(i, MatchAt(p, s, i).value))
  {
  }

  /** The first group of the leftmost match of p in s, if any. */
  function SearchGroup(p: Pattern, s: string, n: nat): Option<string> {
    var h := Search(p, s, 0);
    if h.Some? && n < |h.value.m.groups| then Some(h.value.m.groups[n]) else None
  }

  /** `re.sub(p, '', s[i..])`: the text with every leftmost, non-overlapping match removed. */
  function Sub(p: Pattern, s: string, i: nat): (r: string)
    requires i <= |s|
    ensures |r| <= |s| - i
    decreases |s| - i
  {
    if i == |s| then []
    else
      match MatchAt(p, s, i)
      case Some(m) => Sub(p, s, m.end)
      case None => [s[i]] + Sub(p, s, i + 1)
  }

  /** `float(t)` for a token of the form `\d+(?:\.\d+)?`: the integer part plus the fraction. */
  function FloatOf(t: string): real {
    var d := DigitRunEnd(t, 0);
    var whole := DigitsValue(t[..d]);
    if d + 1 < |t| && t[d] == '.' then
      var f := DigitRunEnd(t, d + 1);
      whole as real + DigitsValue(t[d + 1..f]) as real / Pow10(f - d - 1) as real
    else whole as real
  }

  function Pow10(n: nat): (r: nat)
    ensures r >= 1
  {
    if n == 0 then 1 else 10 * Pow10(n - 1)
  }
}
