/** `NLPParser._extract_amount` and `_extract_chinese_amount`: the amount of
    a bookkeeping command, tried pattern by pattern in a fixed order, the
    first pattern that matches anywhere in the text deciding. */
module Amounts {
  import opened Base
  import opened Text
  import opened Numerals
  import opened Patterns

  /** `_extract_chinese_amount`: the value of the first Chinese numeral run
      followed by 元, 塊 or 錢, converted as `_chinese_to_number` does. */
  function ChineseAmountOf(text: string): Option<nat> {
    var g := SearchGroup(ChineseAmount, text, 0);
    if g.None? then None else Some(ChineseValue(g.value))
  }

  /** `_extract_amount`. A falsy Chinese amount (0) falls through to the last
      pattern, as `if chinese_amount:` does. */
  function ExtractAmount(text: string): Option<real> {
    if SearchGroup(AmountUnit, text, 0).Some? then Some(FloatOf(SearchGroup(AmountUnit, text, 0).value))
    else if SearchGroup(AmountDollar, text, 0).Some? then Some(FloatOf(SearchGroup(AmountDollar, text, 0).value))
    else if SearchGroup(AmountNT, text, 0).Some? then Some(FloatOf(SearchGroup(AmountNT, text, 0).value))
    else if SearchGroup(AmountUnitOrEnd, text, 0).Some? then Some(FloatOf(SearchGroup(AmountUnitOrEnd, text, 0).value))
    else if ChineseAmountOf(text).Some? && ChineseAmountOf(text).value != 0 then Some(ChineseAmountOf(text).value as real)
    else if SearchGroup(AnyNumber, text, 0).Some? then Some(FloatOf(SearchGroup(AnyNumber, text, 0).value))
    else None
  }

  /** `float(ds)` of a digit string is its integer value. */
  lemma FloatOfDigits(ds: string)
    requires IsDigitString(ds)
    ensures FloatOf(ds) == DigitsValue(ds) as real
  {
    DigitRunEndIs(ds, 0, |ds|);
    assert ds[..|ds|] == ds;
  }

  /** Text with an ASCII digit always yields an amount: the last pattern
      matches any digit. */
  lemma DigitGivesAmount(text: string, i: nat)
    requires i < |text| && IsDigit(text[i])
    ensures ExtractAmount(text).Some?
  {
    assert MatchAt(AnyNumber, text, i).Some?;
  }

  /** Without ASCII digits only the Chinese pattern can give an amount, and a
      Chinese amount of 0 gives none. */
  lemma NoDigitsChineseOnly(text: string)
    requires forall k :: 0 <= k < |text| ==> !IsDigit(text[k])
    ensures ExtractAmount(text) ==
              if ChineseAmountOf(text).Some? && ChineseAmountOf(text).value != 0
              then Some(ChineseAmountOf(text).value as real) else None
  {
    forall p, k | p in {AmountUnit, AmountDollar, AmountNT, AmountUnitOrEnd, AnyNumber} && 0 <= k < |text|
      ensures MatchAt(p, text, k).None?
    {
      NoDigitNoNumber(p, text, k);
    }
  }

  /** The numeric patterns all need an ASCII digit somewhere from k on. */
  lemma NoDigitNoNumber(p: Pattern, text: string, k: nat)
    requires p in {AmountUnit, AmountDollar, AmountNT, AmountUnitOrEnd, AnyNumber}
    requires k < |text| && forall j :: 0 <= j < |text| ==> !IsDigit(text[j])
    ensures MatchAt(p, text, k).None?
  {
    if p == AmountDollar {
      if k + 1 <= |text| {
        var s := SpaceRunEnd(text, k + 1);
        if s < |text| {
          assert !IsDigit(text[s]);
        }
      }
    } else if p == AmountNT {
      var g := if k + 2 < |text| && text[k + 2] == '$' then k + 3 else k + 2;
      if g <= |text| {
        var s := SpaceRunEnd(text, g);
        if s < |text| {
          assert !IsDigit(text[s]);
        }
      }
    }
  }

  /** A digit string directly followed by a unit (元, 塊, 錢) is its own amount. */
  lemma UnitAmount(ds: string, u: char)
    requires IsDigitString(ds) && IsUnit(u)
    ensures ExtractAmount(ds + [u]) == Some(DigitsValue(ds) as real)
  {
    var t := ds + [u];
    DigitRunEndIs(t, 0, |ds|);
    assert NumberEnd(t, 0) == |ds|;
    assert t[0..|ds|] == ds;
    assert MatchAt(AmountUnit, t, 0) == Some(Match(|t|, [ds]));
    SearchFindsFirst(AmountUnit, t, 0, 0);
    FloatOfDigits(ds);
  }

  /** `$` followed by a digit string is that amount. */
  lemma DollarAmount(ds: string)
    requires IsDigitString(ds)
    ensures ExtractAmount("$" + ds) == Some(DigitsValue(ds) as real)
  {
    var t := "$" + ds;
    forall k | 0 <= k < |t|
      ensures MatchAt(AmountUnit, t, k).None?
    {
      if IsDigit(t[k]) {
        DigitRunEndIs(t, k, |t|);
      }
    }
    assert t[1..|t|] == ds;
    DigitRunEndIs(t, 1, |t|);
    assert SpaceRunEnd(t, 1) == 1;
    assert NumberEnd(t, 1) == |t|;
    assert MatchAt(AmountDollar, t, 0) == Some(Match(|t|, [ds]));
    SearchFindsFirst(AmountDollar, t, 0, 0);
    FloatOfDigits(ds);
  }

  lemma {:induction false} AmountRunEndIs(s: string, i: nat, j: nat)
    requires i <= j <= |s|
    requires forall k :: i <= k < j ==> IsAmountChar(s[k])
    requires j == |s| || !IsAmountChar(s[j])
    ensures AmountRunEnd(s, i) == j
    decreases j - i
  {
    if i < j {
      AmountRunEndIs(s, i + 1, j);
    }
  }

  /** A Chinese numeral directly followed by a unit gives its converted value,
      unless that value is 0, in which case the text gives no amount at all. */
  lemma ChineseUnitAmount(c: string, u: char)
    requires |c| > 0 && IsUnit(u) && forall k :: 0 <= k < |c| ==> IsAmountChar(c[k])
    ensures ExtractAmount(c + [u]) == if ChineseValue(c) != 0 then Some(ChineseValue(c) as real) else None
  {
    var t := c + [u];
    ChineseUnitDigitFree(c, u);
    NoDigitsChineseOnly(t);
    ChineseUnitMatch(c, u);
  }

  lemma ChineseUnitDigitFree(c: string, u: char)
    requires IsUnit(u) && forall k :: 0 <= k < |c| ==> IsAmountChar(c[k])
    ensures forall k :: 0 <= k < |c + [u]| ==> !IsDigit((c + [u])[k])
  {
    var t := c + [u];
    forall k | 0 <= k < |t|
      ensures !IsDigit(t[k])
    {
      if k < |c| {
        assert t[k] == c[k];
      }
    }
  }

  /** The Chinese pattern matches the whole of such a text. */
  lemma ChineseUnitMatch(c: string, u: char)
    requires |c| > 0 && IsUnit(u) && forall k :: 0 <= k < |c| ==> IsAmountChar(c[k])
    ensures ChineseAmountOf(c + [u]) == Some(ChineseValue(c))
  {
    var t := c + [u];
    AmountRunEndIs(t, 0, |c|);
    assert t[0..|c|] == c;
    assert MatchAt(ChineseAmount, t, 0) == Some(Match(|t|, [c]));
    SearchFindsFirst(ChineseAmount, t, 0, 0);
  }

  /** 五百塊 gives 500. */
  lemma ChineseAmountExample()
    ensures ExtractAmount("五百塊") == Some(500.0)
  {
    ChineseValueSmall();
    var c := "五百";
    assert c + ['塊'] == "五百塊";
    ChineseUnitAmount(c, '塊');
  }

  /** 零元 gives no amount: the converted value 0 is discarded. */
  lemma ZeroAmountExample()
    ensures ExtractAmount("零元") == None
  {
    var z := "零";
    assert z + ['元'] == "零元";
    assert ChineseValue(z) == 0 by {
      assert z == [] + ['零'];
      FoldSnoc([], '零');
    }
    ChineseUnitAmount(z, '元');
  }

  lemma OneTwenty()
    ensures DigitsValue("120") == 120
  {
    assert "120"[..2] == "12" && "12"[..1] == "1" && "1"[..0] == "";
  }

  /** `120元` and `$120` both give 120. */
  lemma AmountExamples()
    ensures ExtractAmount("120元") == Some(120.0)
    ensures ExtractAmount("$120") == Some(120.0)
  {
    OneTwenty();
    var ds := "120";
    assert ds + ['元'] == "120元";
    assert "$" + ds == "$120";
    UnitAmount(ds, '元');
    DollarAmount(ds);
  }
}
