/** Chinese numeral conversion as the parser does it: the amount converter
    (`NLPParser._chinese_to_number`), the day counter of the date resolver
    (`DateParser._parse_chinese_number`) and the month counter of the query
    parser (`NLPParser._parse_chinese_number`). */
module Numerals {
  import opened Base
  import opened Text

  /** The character class `[一二三四五六七八九十]` of the "N天前" and "近N個月" patterns. */
  predicate IsCountChar(c: char) {
    c in {'一', '二', '三', '四', '五', '六', '七', '八', '九', '十'}
  }

  /** The character class `[零一二三四五六七八九十百千萬兩两]` of the Chinese amount pattern. */
  predicate IsAmountChar(c: char) {
    c in {'零', '一', '二', '三', '四', '五', '六', '七', '八', '九', '十', '百', '千', '萬', '兩', '两'}
  }

  /** Value of a plain digit character 零..九 (兩 and 两 are not in this set). */
  function DigitValue(c: char): Option<nat> {
    match c
    case '零' => Some(0) case '一' => Some(1) case '二' => Some(2) case '三' => Some(3)
    case '四' => Some(4) case '五' => Some(5) case '六' => Some(6) case '七' => Some(7)
    case '八' => Some(8) case '九' => Some(9)
    case _ => None
  }

  /** `NLPParser.CHINESE_NUMS`: digits, 兩/两 as 2, and the magnitudes 十 百 千 萬. */
  function AmountNumeral(c: char): (r: Option<nat>)
    ensures r.Some? <==> IsAmountChar(c)
  {
    match c
    case '十' => Some(10) case '百' => Some(100) case '千' => Some(1000) case '萬' => Some(10000)
    case '兩' => Some(2) case '两' => Some(2)
    case _ => DigitValue(c)
  }

  /** `DateParser.CHINESE_NUMS`: digits, 兩/两 as 2, and 十 as 10. */
  function DayNumeral(c: char): Option<nat> {
    match c
    case '十' => Some(10) case '兩' => Some(2) case '两' => Some(2)
    case _ => DigitValue(c)
  }

  /** The `mapping` table of `NLPParser._parse_chinese_number`: 一..九 and 十. */
  function MonthNumeral(c: char): Option<nat> {
    if c == '十' then Some(10)
    else if c == '零' then None
    else DigitValue(c)
  }

  // ---------------------------------------------------------------------
  // NLPParser._chinese_to_number

  /** The two accumulators of the converter: the flushed total and the open segment. */
  datatype Acc = Acc(result: nat, temp: nat)

  /** One iteration of the converter's loop body. */
  function Step(a: Acc, c: char): Acc {
    match AmountNumeral(c)
    case None => a
    case Some(num) =>
      if num >= 10 then
        var t := (if a.temp == 0 then 1 else a.temp) * num;
        if num >= 10000 then Acc(a.result + t, 0) else Acc(a.result, t)
      else
        Acc(a.result, if a.temp >= 10 then a.temp * 10 + num else num)
  }

  /** The accumulators after the loop has consumed all of s. */
  function Fold(s: string): Acc {
    if s == [] then Acc(0, 0) else Step(Fold(s[..|s| - 1]), s[|s| - 1])
  }

  /** The converter's result: the flushed total plus the open segment. */
  function ChineseValue(s: string): nat {
    Fold(s).result + Fold(s).temp
  }

  /** `_chinese_to_number(text)`, with its loop over the characters. */
  method ChineseToNumber(text: string) returns (n: nat)
    ensures n == ChineseValue(text)
  {
    var result: nat, temp: nat := 0, 0;
    var i := 0;
    while i < |text|
      invariant 0 <= i <= |text|
      invariant Acc(result, temp) == Fold(text[..i])
    {
      var c := text[i];
      ghost var before := Acc(result, temp);
      match AmountNumeral(c) {
        case None =>
        case Some(num) =>
          if num >= 10 {
            if temp == 0 {
              temp := 1;
            }
            temp := temp * num;
            if num >= 10000 {
              result := result + temp;
              temp := 0;
            }
          } else {
            temp := if temp >= 10 then temp * 10 + num else num;
          }
      }
      assert Acc(result, temp) == Step(before, c);
      assert text[..i + 1][..i] == text[..i];
      i := i + 1;
    }
    assert text[..i] == text;
    n := result + temp;
  }

  /** The characters the converter's table knows, in order. */
  function KnownOnly(s: string): (r: string)
    ensures forall k :: 0 <= k < |r| ==> IsAmountChar(r[k])
  {
    if s == [] then []
    else if IsAmountChar(s[|s| - 1]) then KnownOnly(s[..|s| - 1]) + [s[|s| - 1]]
    else KnownOnly(s[..|s| - 1])
  }

  /** Characters outside the table leave the accumulators untouched. */
  lemma {:induction false} FoldIgnoresUnknown(s: string)
    ensures Fold(s) == Fold(KnownOnly(s))
  {
    if s != [] {
      var init, c := s[..|s| - 1], s[|s| - 1];
      FoldIgnoresUnknown(init);
      if IsAmountChar(c) {
        var k := KnownOnly(init) + [c];
        assert k[..|k| - 1] == KnownOnly(init);
      }
    }
  }

  /** So the converter reads only the numeral characters of its input. */
  lemma ChineseValueIgnoresUnknown(s: string)
    ensures ChineseValue(s) == ChineseValue(KnownOnly(s))
  {
    FoldIgnoresUnknown(s);
  }

  lemma FoldSnoc(s: string, c: char)
    ensures Fold(s + [c]) == Step(Fold(s), c)
  {
    assert (s + [c])[..|s|] == s;
  }

  /** 萬 flushes the open segment (1 when empty) times 10000 into the total and empties the segment. */
  lemma WanFlushes(s: string)
    ensures Fold(s + ['萬']) == Acc(Fold(s).result + (if Fold(s).temp == 0 then 1 else Fold(s).temp) * 10000, 0)
  {
    FoldSnoc(s, '萬');
  }

  /** A magnitude below 萬 multiplies the open segment (1 when empty). */
  lemma MagnitudeScales(s: string, m: char)
    requires m == '十' || m == '百' || m == '千'
    ensures Fold(s + [m]) == Acc(Fold(s).result, (if Fold(s).temp == 0 then 1 else Fold(s).temp) * AmountNumeral(m).value)
  {
    FoldSnoc(s, m);
  }

  /** A digit after a segment of 10 or more is appended positionally; otherwise it replaces the segment. */
  lemma DigitAppends(s: string, d: char)
    requires DigitValue(d).Some? || d == '兩' || d == '两'
    ensures Fold(s + [d]).result == Fold(s).result
    ensures Fold(s).temp >= 10 ==> Fold(s + [d]).temp == Fold(s).temp * 10 + AmountNumeral(d).value
    ensures Fold(s).temp < 10 ==> Fold(s + [d]).temp == AmountNumeral(d).value
  {
    FoldSnoc(s, d);
    SmallNumeral(d);
    StepDigit(Fold(s), d);
  }

  /** The digits and 兩/两 are the table's entries below 10. */
  lemma SmallNumeral(d: char)
    requires DigitValue(d).Some? || d == '兩' || d == '两'
    ensures AmountNumeral(d).Some? && AmountNumeral(d).value < 10
  {
  }

  lemma StepDigit(a: Acc, d: char)
    requires AmountNumeral(d).Some? && AmountNumeral(d).value < 10
    ensures Step(a, d) == Acc(a.result, if a.temp >= 10 then a.temp * 10 + AmountNumeral(d).value else AmountNumeral(d).value)
  {
  }

  /** A lone magnitude counts once and a digit times a magnitude multiplies. */
  lemma ChineseValueSmall()
    ensures ChineseValue("十") == 10 && ChineseValue("百") == 100 && ChineseValue("萬") == 10000
    ensures ChineseValue("五百") == 500 && ChineseValue("一萬") == 10000
  {
    FoldSnoc("", '十'); FoldSnoc("", '百'); FoldSnoc("", '萬');
    FoldSnoc("", '五'); FoldSnoc("", '一');
    FoldSnoc("五", '百'); FoldSnoc("一", '萬');
    assert "五百" == "五" + ['百'] && "一萬" == "一" + ['萬'];
  }

  /** 兩 and 两 are 2, alone and before a magnitude. */
  lemma ChineseValueLiang()
    ensures ChineseValue("兩") == 2 && ChineseValue("两") == 2 && ChineseValue("兩百") == 200
  {
    FoldSnoc("", '兩'); FoldSnoc("", '两');
    assert "兩" == "" + ['兩'] && "两" == "" + ['两'];
    FoldSnoc("兩", '百');
    assert "兩百" == "兩" + ['百'];
  }

  /** As written, a digit after a tens segment is appended as a new decimal
      place: 十五 reads as 105 and 三十五 as 305. */
  lemma ChineseValueTensQuirk()
    ensures ChineseValue("十五") == 105
    ensures ChineseValue("三十五") == 305
  {
    FoldSnoc("", '十');
    assert "十五" == "十" + ['五'];
    FoldSnoc("十", '五');
    FoldSnoc("", '三');
    assert "三十" == "三" + ['十'];
    FoldSnoc("三", '十');
    assert "三十五" == "三十" + ['五'];
    FoldSnoc("三十", '五');
  }

  /** The same quirk makes 兩千三百 read as 2000300. */
  lemma ChineseValueThousandsQuirk()
    ensures ChineseValue("兩千三百") == 2000300
  {
    FoldSnoc("", '兩');
    assert "兩千" == "兩" + ['千'];
    FoldSnoc("兩", '千');
    assert "兩千三" == "兩千" + ['三'];
    FoldSnoc("兩千", '三');
    assert "兩千三百" == "兩千三" + ['百'];
    FoldSnoc("兩千三", '百');
  }

  // ---------------------------------------------------------------------
  // DateParser._parse_chinese_number

  /** `CHINESE_NUMS.get(key, default)` with a string key: only one-character keys can be present. */
  function DayLookup(key: string, default: nat): nat {
    if |key| == 1 && DayNumeral(key[0]).Some? then DayNumeral(key[0]).value else default
  }

  function IndexOf(s: string, c: char): (i: nat)
    requires c in s
    ensures i < |s| && s[i] == c && c !in s[..i]
  {
    if s[0] == c then 0 else 1 + IndexOf(s[1..], c)
  }

  /** `parts[0]` and `parts[1]` of `text.split('十')`: the text before the
      first 十, and the text between it and the next 十 (or the end). */
  function TenParts(text: string): (p: (string, string))
    requires '十' in text
  {
    var i := IndexOf(text, '十');
    var after := text[i + 1..];
    (text[..i], if '十' in after then after[..IndexOf(after, '十')] else after)
  }

  /** The 十-split reading: tens from the first part (10 when it is empty), units from the second. */
  function TenSplitValue(text: string): nat
    requires '十' in text
  {
    var (p0, p1) := TenParts(text);
    (if p0 != [] then DayLookup(p0, 1) * 10 else 10) + (if p1 != [] then DayLookup(p1, 0) else 0)
  }

  /** The digit-by-digit reading `result = result * 10 + value` over the known characters. */
  function PositionalValue(s: string): nat {
    if s == [] then 0
    else
      var r := PositionalValue(s[..|s| - 1]);
      match DayNumeral(s[|s| - 1])
      case None => r
      case Some(v) => r * 10 + v
  }

  /** What `DateParser._parse_chinese_number(text)` returns. */
  function DayCount(text: string): nat {
    if IsDigitString(text) then DigitsValue(text)
    else if |text| == 1 then DayLookup(text, 1)
    else
      var r := if '十' in text then TenSplitValue(text) else PositionalValue(text);
      if r > 0 then r else 1
  }

  /** `DateParser._parse_chinese_number(text)`, with its loop over the characters. */
  method ParseDayCount(text: string) returns (n: nat)
    ensures n == DayCount(text)
    ensures !IsDigitString(text) && |text| != 1 ==> n >= 1
  {
    if IsDigitString(text) {
      return DigitsValue(text);
    }
    if |text| == 1 {
      return DayLookup(text, 1);
    }
    var result := 0;
    if '十' in text {
      result := TenSplitValue(text);
    } else {
      var i := 0;
      while i < |text|
        invariant 0 <= i <= |text|
        invariant result == PositionalValue(text[..i])
      {
        assert text[..i + 1][..i] == text[..i];
        match DayNumeral(text[i]) {
          case None =>
          case Some(v) => result := result * 10 + v;
        }
        i := i + 1;
      }
      assert text[..i] == text;
    }
    n := if result > 0 then result else 1;
  }

  /** The character 一..九 for 1..9. */
  function DigitChar(k: nat): (c: char)
    requires 1 <= k <= 9
    ensures DayNumeral(c) == Some(k) && c != '十' && !IsDigit(c) && IsCountChar(c)
  {
    "一二三四五六七八九"[k - 1]
  }

  /** The standard spelling of 1..99 in the characters 一..九 and 十. */
  function CountNumeral(n: nat): (s: string)
    requires 1 <= n <= 99
    ensures 1 <= |s| <= 3 && !IsDigit(s[0])
    ensures forall k :: 0 <= k < |s| ==> IsCountChar(s[k])
  {
    if n < 10 then [DigitChar(n)]
    else if n == 10 then "十"
    else if n < 20 then ['十', DigitChar(n - 10)]
    else if n % 10 == 0 then [DigitChar(n / 10), '十']
    else [DigitChar(n / 10), '十', DigitChar(n % 10)]
  }

  /** 十X reads as 10 + X. */
  lemma TenUnits(y: char)
    requires y != '十'
    ensures TenSplitValue(['十', y]) == 10 + DayLookup([y], 0)
  {
    var s := ['十', y];
    assert IndexOf(s, '十') == 0;
    assert s[1..] == [y];
  }

  /** X十 reads as 10 · X (10 when X is unknown). */
  lemma TensOnly(x: char)
    requires x != '十'
    ensures TenSplitValue([x, '十']) == DayLookup([x], 1) * 10
  {
    var s := [x, '十'];
    assert IndexOf(s, '十') == 1 by { assert IndexOf(s[1..], '十') == 0; }
    assert s[..1] == [x];
    assert s[2..] == [];
  }

  /** X十Y reads as 10 · X + Y. */
  lemma TensUnits(x: char, y: char)
    requires x != '十' && y != '十'
    ensures TenSplitValue([x, '十', y]) == DayLookup([x], 1) * 10 + DayLookup([y], 0)
  {
    var s := [x, '十', y];
    assert IndexOf(s, '十') == 1 by { assert IndexOf(s[1..], '十') == 0; }
    assert s[..1] == [x];
    assert s[2..] == [y];
  }

  /** Every standard spelling of 1..99 reads back as its number: single
      characters through the table, 十X as 10+X, X十 as 10·X, X十Y as 10·X+Y. */
  lemma DayCountReadsStandard(n: nat)
    requires 1 <= n <= 99
    ensures DayCount(CountNumeral(n)) == n
  {
    var s := CountNumeral(n);
    assert !IsDigitString(s) by { assert !IsDigit(s[0]); }
    if n == 10 {
    } else if 10 < n < 20 {
      TenUnits(DigitChar(n - 10));
    } else if n >= 20 && n % 10 == 0 {
      TensOnly(DigitChar(n / 10));
    } else if n >= 20 {
      TensUnits(DigitChar(n / 10), DigitChar(n % 10));
    }
  }

  /** A single character outside the table reads as 1, and a reading of 0 becomes 1. */
  lemma DayCountDefaults()
    ensures DayCount("天") == 1 && DayCount("零") == 0
    ensures DayCount("零零") == 1 && DayCount("十零") == 10
  {
    assert !IsDigit('零') && !IsDigit('十') && !IsDigit('天');
    assert "零零"[..1] == "零" && '十' !in "零零";
    assert IndexOf("十零", '十') == 0 && "十零"[1..] == "零";
  }

  // ---------------------------------------------------------------------
  // NLPParser._parse_chinese_number

  /** What `NLPParser._parse_chinese_number(text)` returns: the integer for
      digits, the table value of one character (1 when unknown), else 3. */
  function MonthCount(text: string): (n: nat)
    ensures IsDigitString(text) ==> n == DigitsValue(text)
    ensures !IsDigitString(text) && |text| == 1 ==> 1 <= n <= 10
    ensures !IsDigitString(text) && |text| != 1 ==> n == 3
  {
    if IsDigitString(text) then DigitsValue(text)
    else if |text| == 1 then (match MonthNumeral(text[0]) case Some(v) => v case None => 1)
    else 3
  }
}
