/** `ReportGenerator._detect_anomalies`: expenses above three times the
    average expense, then (date, amount) pairs spent more than once, at most
    five notes in all. */
module ReportAnomalies {
  import opened Base
  import opened ReportLedger

  /** One note: a high expense with its ratio to the average, or a repeated
      (date, amount) pair with the number of its expenses. */
  datatype Anomaly =
    | HighAmount(description: string, amount: real, ratio: real)
    | Repeated(date: string, count: nat, amount: real)

  /** `[t['amount'] for t in transactions if t.get('type') == 'expense']`. */
  function ExpenseAmounts(ts: seq<Transaction>): (xs: seq<real>)
    ensures |xs| == Count(ts, Expense)
  {
    if ts == [] then []
    else
      var t := ts[|ts| - 1];
      ExpenseAmounts(ts[..|ts| - 1]) + (if t.kind == Expense then [t.amount] else [])
  }

  /** Python's `sum` of a list of numbers. */
  function SumOf(xs: seq<real>): real {
    if xs == [] then 0.0 else SumOf(xs[..|xs| - 1]) + xs[|xs| - 1]
  }

  /** `sum(amounts) / len(amounts)`, for a ledger with an expense. */
  function Average(ts: seq<Transaction>): real
    requires Count(ts, Expense) > 0
  {
    SumOf(ExpenseAmounts(ts)) / (|ExpenseAmounts(ts)| as real)
  }

  /** The average is the summary's total expense over the number of expenses. */
  lemma {:induction false} AmountsMatchSummary(ts: seq<Transaction>)
    ensures SumOf(ExpenseAmounts(ts)) == CalculateSummary(ts).totalExpense
  {
    if ts != [] {
      var p := ts[..|ts| - 1];
      AmountsMatchSummary(p);
      var t := ts[|ts| - 1];
      if t.kind == Expense {
        assert (ExpenseAmounts(p) + [t.amount])[..|ExpenseAmounts(p)|] == ExpenseAmounts(p);
      } else {
        assert ExpenseAmounts(ts) == ExpenseAmounts(p);
      }
    }
  }

  /** `t.get('description', '未命名')`. */
  function DescriptionOr(t: Transaction, default: string): string {
    if t.description.Some? then t.description.value else default
  }

  /** An expense that `_detect_anomalies` reports as high. */
  predicate IsHigh(t: Transaction, avg: real) {
    t.kind == Expense && t.amount > avg * 3.0
  }

  /** The high-amount notes, in ledger order. */
  function HighOnes(ts: seq<Transaction>, avg: real): (notes: seq<Anomaly>)
    requires avg != 0.0
  {
    if ts == [] then []
    else
      var t := ts[|ts| - 1];
      HighOnes(ts[..|ts| - 1], avg)
        + (if IsHigh(t, avg) then [HighAmount(DescriptionOr(t, "未命名"), t.amount, t.amount / avg)] else [])
  }

  /** The ratio `t['amount'] / avg` of a high expense divides by zero: the
      average is 0, yet some expense is positive (and so above 3 × 0). */
  predicate DividesByZero(ts: seq<Transaction>)
    requires Count(ts, Expense) > 0
  {
    Average(ts) == 0.0 && exists i :: 0 <= i < |ts| && IsHigh(ts[i], 0.0)
  }

  /** The key of the repeat check: `(t.get('date', ''), t['amount'])`. */
  function KeyOf(t: Transaction): (string, real) {
    (t.date, t.amount)
  }

  /** The keys of the expenses, each once, in order of first appearance
      (the key order of `daily_amounts`). */
  function Keys(ts: seq<Transaction>): seq<(string, real)> {
    if ts == [] then []
    else
      var t := ts[|ts| - 1];
      var ks := Keys(ts[..|ts| - 1]);
      if t.kind == Expense && KeyOf(t) !in ks then ks + [KeyOf(t)] else ks
  }

  /** The number of expenses with a key: `len(daily_amounts[key])`. */
  function KeyCount(ts: seq<Transaction>, key: (string, real)): nat {
    if ts == [] then 0
    else
      var t := ts[|ts| - 1];
      KeyCount(ts[..|ts| - 1], key) + (if t.kind == Expense && KeyOf(t) == key then 1 else 0)
  }

  /** The repeat notes for some keys, in their order. */
  function RepeatsOver(keys: seq<(string, real)>, ts: seq<Transaction>): seq<Anomaly> {
    if keys == [] then []
    else
      var key := keys[|keys| - 1];
      RepeatsOver(keys[..|keys| - 1], ts)
        + (if KeyCount(ts, key) >= 2 then [Repeated(key.0, KeyCount(ts, key), key.1)] else [])
  }

  /** `daily_amounts` holds, for each key, the expenses with that key. */
  predicate DailyOf(daily: seq<((string, real), nat)>, ts: seq<Transaction>) {
    && |daily| == |Keys(ts)|
    && forall i :: 0 <= i < |daily| ==> daily[i] == (Keys(ts)[i], KeyCount(ts, Keys(ts)[i]))
  }

  /** `anomalies[:5]`. */
  function Take(notes: seq<Anomaly>, n: nat): (r: seq<Anomaly>)
    ensures |r| <= n && |r| <= |notes|
    ensures r == notes[..|r|]
    ensures |notes| <= n ==> r == notes
  {
    if |notes| <= n then notes else notes[..n]
  }

  /** The high notes of a scanned prefix: with a zero average nothing so far
      was high, otherwise the notes are those of the prefix. */
  predicate HighScanned(notes: seq<Anomaly>, p: seq<Transaction>, avg: real) {
    if avg == 0.0 then notes == [] && forall k :: 0 <= k < |p| ==> !IsHigh(p[k], 0.0)
    else notes == HighOnes(p, avg)
  }

  /** `_detect_anomalies`. It fails with ZeroDivisionError when the expenses
      average exactly 0 while one of them is positive. */
  method DetectAnomalies(ts: seq<Transaction>) returns (r: Outcome<seq<Anomaly>>)
    ensures Count(ts, Expense) == 0 ==> r == Ok([])
    ensures Count(ts, Expense) > 0 ==> (r.Raised? <==> DividesByZero(ts))
    ensures r.Raised? ==> r.error == ZeroDivisionError
    ensures r.Ok? && Count(ts, Expense) > 0 && Average(ts) != 0.0 ==>
              r.value == Take(HighOnes(ts, Average(ts)) + RepeatsOver(Keys(ts), ts), 5)
    ensures r.Ok? && Count(ts, Expense) > 0 && Average(ts) == 0.0 ==>
              r.value == Take(RepeatsOver(Keys(ts), ts), 5)
    ensures r.Ok? ==> |r.value| <= 5
  {
    if |ts| == 0 {
      return Ok([]);
    }
    var amounts := ExpenseAmounts(ts);
    if |amounts| == 0 {
      return Ok([]);
    }
    var avg := SumOf(amounts) / (|amounts| as real);
    assert avg == Average(ts);

    // high amounts
    var anomalies: seq<Anomaly> := [];
    var i := 0;
    while i < |ts|
      invariant 0 <= i <= |ts|
      invariant HighScanned(anomalies, ts[..i], avg)
    {
      var t := ts[i];
      assert ts[..i + 1][..i] == ts[..i] && ts[..i + 1][i] == t;
      if t.kind == Expense && t.amount > avg * 3.0 {
        if avg == 0.0 {
          return Raised(ZeroDivisionError);
        }
        anomalies := anomalies + [HighAmount(DescriptionOr(t, "未命名"), t.amount, t.amount / avg)];
      }
      i := i + 1;
    }
    assert ts[..i] == ts;
    if avg == 0.0 {
      // Nothing was above 3 × 0 and nothing was divided; the notes are the repeats alone.
      assert !DividesByZero(ts);
    }
    var high := anomalies;

    // repeated (date, amount) pairs
    var daily := CountKeys(ts);
    var k := 0;
    while k < |daily|
      invariant 0 <= k <= |daily|
      invariant anomalies == high + RepeatsOver(Keys(ts)[..k], ts)
    {
      var entry := daily[k];
      assert Keys(ts)[..k + 1][..k] == Keys(ts)[..k];
      if entry.1 >= 2 {
        anomalies := anomalies + [Repeated(entry.0.0, entry.1, entry.0.1)];
      }
      k := k + 1;
    }
    assert Keys(ts)[..k] == Keys(ts);
    r := Ok(Take(anomalies, 5));
  }

  /** The `daily_amounts` loop: expenses counted per key. */
  method CountKeys(ts: seq<Transaction>) returns (daily: seq<((string, real), nat)>)
    ensures DailyOf(daily, ts)
  {
    daily := [];
    var i := 0;
    while i < |ts|
      invariant 0 <= i <= |ts|
      invariant DailyOf(daily, ts[..i])
    {
      var t := ts[i];
      assert ts[..i + 1] == ts[..i] + [t];
      if t.kind != Expense {
        DailySkip(daily, ts[..i], t);
      } else {
        var key := KeyOf(t);
        var j := 0;
        while j < |daily| && daily[j].0 != key
          invariant 0 <= j <= |daily|
          invariant forall m :: 0 <= m < j ==> daily[m].0 != key
        {
          j := j + 1;
        }
        DailyExtend(daily, ts[..i], t, j);
        if j == |daily| {
          daily := daily + [(key, 0)];
        }
        daily := daily[j := (key, daily[j].1 + 1)];
      }
      i := i + 1;
    }
    assert ts[..i] == ts;
  }

  lemma DailySkip(daily: seq<((string, real), nat)>, p: seq<Transaction>, t: Transaction)
    requires DailyOf(daily, p) && t.kind != Expense
    ensures DailyOf(daily, p + [t])
  {
    var p' := p + [t];
    assert p'[..|p'| - 1] == p;
  }

  lemma DailyExtend(daily: seq<((string, real), nat)>, p: seq<Transaction>, t: Transaction, j: nat)
    requires DailyOf(daily, p) && t.kind == Expense
    requires j <= |daily| && (j < |daily| ==> daily[j].0 == KeyOf(t))
    requires forall m :: 0 <= m < j ==> daily[m].0 != KeyOf(t)
    ensures j < |daily| ==> DailyOf(daily[j := (KeyOf(t), daily[j].1 + 1)], p + [t])
    ensures j == |daily| ==> DailyOf(daily + [(KeyOf(t), 0 + 1)], p + [t])
  {
    var key := KeyOf(t);
    var p' := p + [t];
    assert p'[..|p'| - 1] == p && p'[|p'| - 1] == t;
    KeysExact(p, key);
    if j < |daily| {
      assert Keys(p') == Keys(p);
      var d' := daily[j := (key, daily[j].1 + 1)];
      forall i | 0 <= i < |d'|
        ensures d'[i] == (Keys(p')[i], KeyCount(p', Keys(p')[i]))
      {
        if i != j {
          assert Keys(p)[i] != Keys(p)[j];
        }
      }
    } else {
      assert key !in Keys(p);
      assert Keys(p') == Keys(p) + [key];
      var d' := daily + [(key, 0 + 1)];
      forall i | 0 <= i < |d'|
        ensures d'[i] == (Keys(p')[i], KeyCount(p', Keys(p')[i]))
      {
        if i < |daily| {
          assert Keys(p')[i] == Keys(p)[i] != key;
        }
      }
    }
  }

  /** The keys are distinct, and they are exactly the keys of some expense. */
  lemma {:induction false} KeysExact(ts: seq<Transaction>, key: (string, real))
    ensures forall i, j :: 0 <= i < j < |Keys(ts)| ==> Keys(ts)[i] != Keys(ts)[j]
    ensures key in Keys(ts) <==> KeyCount(ts, key) > 0
  {
    if ts != [] {
      KeysExact(ts[..|ts| - 1], key);
      var t := ts[|ts| - 1];
      if t.kind == Expense && KeyOf(t) !in Keys(ts[..|ts| - 1]) {
        forall i, j | 0 <= i < j < |Keys(ts)|
          ensures Keys(ts)[i] != Keys(ts)[j]
        {
          KeysExact(ts[..|ts| - 1], Keys(ts)[i]);
        }
      }
    }
  }

  /** The high notes are, one for one and in ledger order, the expenses above
      three times the average: each names its expense's description (or
      "未命名"), its amount and its ratio to the average. */
  lemma {:induction false} HighOnesExact(ts: seq<Transaction>, avg: real)
    requires avg != 0.0
    ensures |HighOnes(ts, avg)| == |Filter(ts, avg)|
    ensures forall k :: 0 <= k < |Filter(ts, avg)| ==>
              HighOnes(ts, avg)[k] == HighAmount(DescriptionOr(Filter(ts, avg)[k], "未命名"),
                                                 Filter(ts, avg)[k].amount, Filter(ts, avg)[k].amount / avg)
  {
    if ts != [] {
      HighOnesExact(ts[..|ts| - 1], avg);
    }
  }

  /** Each high note is of an amount above three times the average, with its
      ratio to the average. */
  lemma HighOnesAbove(ts: seq<Transaction>, avg: real)
    requires avg != 0.0
    ensures forall n :: n in HighOnes(ts, avg) ==>
              n.HighAmount? && n.amount > avg * 3.0 && n.ratio == n.amount / avg
  {
    HighOnesExact(ts, avg);
    FilterExact(ts, avg);
    forall n | n in HighOnes(ts, avg)
      ensures n.HighAmount? && n.amount > avg * 3.0 && n.ratio == n.amount / avg
    {
      var k :| 0 <= k < |HighOnes(ts, avg)| && HighOnes(ts, avg)[k] == n;
      assert Filter(ts, avg)[k] in Filter(ts, avg);
    }
  }

  /** The expenses above three times the average, in ledger order. */
  function Filter(ts: seq<Transaction>, avg: real): seq<Transaction> {
    if ts == [] then []
    else Filter(ts[..|ts| - 1], avg) + (if IsHigh(ts[|ts| - 1], avg) then [ts[|ts| - 1]] else [])
  }

  /** Filter keeps exactly the high expenses of the ledger. */
  lemma {:induction false} FilterExact(ts: seq<Transaction>, avg: real)
    ensures forall t :: t in Filter(ts, avg) ==> IsHigh(t, avg) && t in ts
    ensures forall i :: 0 <= i < |ts| && IsHigh(ts[i], avg) ==> ts[i] in Filter(ts, avg)
  {
    if ts != [] {
      var p := ts[..|ts| - 1];
      FilterExact(p, avg);
      assert forall i :: 0 <= i < |p| ==> p[i] == ts[i];
      assert forall t :: t in p ==> t in ts;
    }
  }

  /** The repeat notes name, one each, exactly the given (date, amount) pairs
      spent at least twice, with the number of expenses each has. */
  lemma {:induction false} RepeatsExact(keys: seq<(string, real)>, ts: seq<Transaction>)
    ensures forall n :: n in RepeatsOver(keys, ts) ==>
              n.Repeated? && n.count >= 2 && (n.date, n.amount) in keys && n.count == KeyCount(ts, (n.date, n.amount))
    ensures forall key :: key in keys && KeyCount(ts, key) >= 2 ==>
              Repeated(key.0, KeyCount(ts, key), key.1) in RepeatsOver(keys, ts)
  {
    if keys != [] {
      var ks := keys[..|keys| - 1];
      RepeatsExact(ks, ts);
      assert forall key :: key in keys ==> key in ks || key == keys[|keys| - 1];
      assert forall key :: key in ks ==> key in keys;
    }
  }

  /** Distinct keys give distinct repeat notes: no pair is reported twice. */
  lemma {:induction false} RepeatsDistinct(keys: seq<(string, real)>, ts: seq<Transaction>)
    requires forall i, j :: 0 <= i < j < |keys| ==> keys[i] != keys[j]
    ensures forall i, j :: 0 <= i < j < |RepeatsOver(keys, ts)| ==> RepeatsOver(keys, ts)[i] != RepeatsOver(keys, ts)[j]
  {
    if keys != [] {
      var ks := keys[..|keys| - 1];
      var key := keys[|keys| - 1];
      RepeatsDistinct(ks, ts);
      RepeatsExact(ks, ts);
      assert key !in ks by {
        forall i | 0 <= i < |ks| ensures ks[i] != key {
          assert keys[i] != keys[|keys| - 1];
        }
      }
      var prev := RepeatsOver(ks, ts);
      forall i | 0 <= i < |prev|
        ensures prev[i] != Repeated(key.0, KeyCount(ts, key), key.1)
      {
        assert prev[i] in prev;
      }
    }
  }

  /** `daily_amounts` has one entry per key, so no (date, amount) pair of a
      ledger is reported twice. */
  lemma RepeatNotesOnce(ts: seq<Transaction>)
    ensures var notes := RepeatsOver(Keys(ts), ts);
            forall i, j :: 0 <= i < j < |notes| ==> notes[i] != notes[j]
  {
    KeysExact(ts, ("", 0.0));
    RepeatsDistinct(Keys(ts), ts);
  }

  /** When every expense has the same positive amount x, the average is x and
      nothing is high. */
  lemma NoHighWhenUniform(ts: seq<Transaction>, x: real)
    requires x > 0.0 && Count(ts, Expense) > 0
    requires forall i :: 0 <= i < |ts| && ts[i].kind == Expense ==> ts[i].amount == x
    ensures Average(ts) == x
    ensures HighOnes(ts, x) == []
  {
    UniformAverage(ts, x);
    NoneHigh(ts, x);
  }

  lemma UniformAverage(ts: seq<Transaction>, x: real)
    requires Count(ts, Expense) > 0
    requires forall i :: 0 <= i < |ts| && ts[i].kind == Expense ==> ts[i].amount == x
    ensures Average(ts) == x
  {
    UniformAmounts(ts, x);
    UniformMean(ExpenseAmounts(ts), x);
  }

  lemma UniformMean(xs: seq<real>, x: real)
    requires |xs| > 0
    requires forall k :: 0 <= k < |xs| ==> xs[k] == x
    ensures SumOf(xs) / (|xs| as real) == x
  {
    UniformSum(xs, x);
    DivideBack(|xs| as real, x);
  }

  lemma DivideBack(n: real, x: real)
    requires n > 0.0
    ensures (n * x) / n == x
  {
  }

  lemma {:induction false} UniformAmounts(ts: seq<Transaction>, x: real)
    requires forall i :: 0 <= i < |ts| && ts[i].kind == Expense ==> ts[i].amount == x
    ensures forall k :: 0 <= k < |ExpenseAmounts(ts)| ==> ExpenseAmounts(ts)[k] == x
  {
    if ts != [] {
      var p := ts[..|ts| - 1];
      assert forall i :: 0 <= i < |p| ==> p[i] == ts[i];
      UniformAmounts(p, x);
    }
  }

  lemma {:induction false} UniformSum(xs: seq<real>, x: real)
    requires forall k :: 0 <= k < |xs| ==> xs[k] == x
    ensures SumOf(xs) == (|xs| as real) * x
  {
    if xs != [] {
      var ps := xs[..|xs| - 1];
      UniformSum(ps, x);
      var m := |ps| as real;
      assert SumOf(xs) == m * x + x;
      assert m * x + x == (m + 1.0) * x;
    }
  }

  lemma {:induction false} NoneHigh(ts: seq<Transaction>, x: real)
    requires x > 0.0
    requires forall i :: 0 <= i < |ts| && ts[i].kind == Expense ==> ts[i].amount == x
    ensures HighOnes(ts, x) == []
  {
    if ts != [] {
      NoneHigh(ts[..|ts| - 1], x);
    }
  }

  /** Expenses of 5 and -5 average 0 while one of them is positive: the
      report fails with ZeroDivisionError instead of listing anomalies. */
  lemma ZeroAverageDivides()
    ensures var ts := [Transaction(5.0, Expense, None, "", None), Transaction(-5.0, Expense, None, "", None)];
            Count(ts, Expense) > 0 && DividesByZero(ts)
  {
    var t1 := Transaction(5.0, Expense, None, "", None);
    var t2 := Transaction(-5.0, Expense, None, "", None);
    var ts := [t1, t2];
    assert ts[..1] == [t1] && [t1][..0] == [];
    assert ExpenseAmounts([t1]) == [5.0];
    assert ExpenseAmounts(ts) == [5.0, -5.0];
    assert SumOf([5.0]) == 5.0 by {
      assert [5.0][..0] == [];
    }
    assert SumOf([5.0, -5.0]) == 0.0 by {
      assert [5.0, -5.0][..1] == [5.0];
    }
    assert Average(ts) == 0.0;
    assert IsHigh(ts[0], 0.0);
  }
}
