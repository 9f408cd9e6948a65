/** The aggregates of `ReportGenerator`: `_calculate_summary`,
    `_group_by_category` and the budget status rule of the budget table.
    A transaction is the dict the report receives; a key it may lack is an
    Option (or, for the date, the empty string, which every use treats like
    a missing date). A key present with the value `None` is not modelled. */
module ReportLedger {
  import opened Base

  datatype Kind = Expense | Income | Untyped

  datatype Transaction = Transaction(
    amount: real,
    kind: Kind,
    category: Option<string>,
    date: string,
    description: Option<string>)

  // ---------------------------------------------------------------------
  // _calculate_summary

  /** The sum of the amounts of the transactions of one kind. */
  function Total(ts: seq<Transaction>, k: Kind): real {
    if ts == [] then 0.0
    else Total(ts[..|ts| - 1], k) + (if ts[|ts| - 1].kind == k then ts[|ts| - 1].amount else 0.0)
  }

  /** The number of transactions of one kind. */
  function Count(ts: seq<Transaction>, k: Kind): nat {
    if ts == [] then 0
    else Count(ts[..|ts| - 1], k) + (if ts[|ts| - 1].kind == k then 1 else 0)
  }

  /** The sum of all amounts, whatever their kind. */
  function AmountSum(ts: seq<Transaction>): real {
    if ts == [] then 0.0 else AmountSum(ts[..|ts| - 1]) + ts[|ts| - 1].amount
  }

  datatype Summary = Summary(totalExpense: real, totalIncome: real, net: real, count: nat)

  /** `_calculate_summary`. */
  function CalculateSummary(ts: seq<Transaction>): (s: Summary)
    ensures s.net == s.totalIncome - s.totalExpense
    ensures s.count == |ts|
  {
    var expense := Total(ts, Expense);
    var income := Total(ts, Income);
    Summary(expense, income, income - expense, |ts|)
  }

  /** The totals are additive: the summary of two batches combines theirs. */
  lemma {:induction false} TotalAppend(a: seq<Transaction>, b: seq<Transaction>, k: Kind)
    ensures Total(a + b, k) == Total(a, k) + Total(b, k)
    decreases |b|
  {
    if b != [] {
      var b' := b[..|b| - 1];
      assert (a + b)[..|a + b| - 1] == a + b';
      var last := b[|b| - 1];
      assert (a + b)[|a + b| - 1] == last;
      TotalAppend(a, b', k);
      assert Total(a + b, k) == Total(a + b', k) + (if last.kind == k then last.amount else 0.0);
      assert Total(b, k) == Total(b', k) + (if last.kind == k then last.amount else 0.0);
    } else {
      assert a + b == a;
    }
  }

  lemma SummaryAppend(a: seq<Transaction>, b: seq<Transaction>)
    ensures CalculateSummary(a + b).totalExpense == CalculateSummary(a).totalExpense + CalculateSummary(b).totalExpense
    ensures CalculateSummary(a + b).totalIncome == CalculateSummary(a).totalIncome + CalculateSummary(b).totalIncome
    ensures CalculateSummary(a + b).net == CalculateSummary(a).net + CalculateSummary(b).net
    ensures CalculateSummary(a + b).count == CalculateSummary(a).count + CalculateSummary(b).count
  {
    TotalAppend(a, b, Expense);
    TotalAppend(a, b, Income);
  }

  /** Every amount is counted in exactly one kind's total; a transaction
      whose type is neither expense nor income only adds to the count. */
  lemma {:induction false} KindsPartition(ts: seq<Transaction>)
    ensures Total(ts, Expense) + Total(ts, Income) + Total(ts, Untyped) == AmountSum(ts)
    ensures Count(ts, Expense) + Count(ts, Income) + Count(ts, Untyped) == |ts|
  {
    if ts != [] {
      KindsPartition(ts[..|ts| - 1]);
    }
  }

  // ---------------------------------------------------------------------
  // _group_by_category

  /** `t.get('category_name', '其他')`. */
  function CategoryOf(t: Transaction): string {
    if t.category.Some? then t.category.value else "其他"
  }

  /** The sum of the expenses filed under category c. */
  function CategoryTotal(ts: seq<Transaction>, c: string): real {
    if ts == [] then 0.0
    else
      var t := ts[|ts| - 1];
      CategoryTotal(ts[..|ts| - 1], c) + (if t.kind == Expense && CategoryOf(t) == c then t.amount else 0.0)
  }

  /** The number of expenses filed under category c. */
  function CategoryCount(ts: seq<Transaction>, c: string): nat {
    if ts == [] then 0
    else
      var t := ts[|ts| - 1];
      CategoryCount(ts[..|ts| - 1], c) + (if t.kind == Expense && CategoryOf(t) == c then 1 else 0)
  }

  /** The categories of the expenses, each once, in order of first appearance
      (the key order of the dict `_group_by_category` builds). */
  function Names(ts: seq<Transaction>): seq<string> {
    if ts == [] then []
    else
      var t := ts[|ts| - 1];
      var ns := Names(ts[..|ts| - 1]);
      if t.kind == Expense && CategoryOf(t) !in ns then ns + [CategoryOf(t)] else ns
  }

  datatype Group = Group(name: string, total: real, count: nat)

  /** `groups` is the dict `_group_by_category` returns for `ts`. */
  predicate GroupsOf(groups: seq<Group>, ts: seq<Transaction>) {
    && |groups| == |Names(ts)|
    && forall i :: 0 <= i < |groups| ==>
         groups[i] == Group(Names(ts)[i], CategoryTotal(ts, Names(ts)[i]), CategoryCount(ts, Names(ts)[i]))
  }

  /** `_group_by_category`: one entry per expense category, in order of first
      appearance, with the sum and the number of its expenses. */
  method GroupByCategory(ts: seq<Transaction>) returns (groups: seq<Group>)
    ensures GroupsOf(groups, ts)
  {
    groups := [];
    var i := 0;
    while i < |ts|
      invariant 0 <= i <= |ts|
      invariant GroupsOf(groups, ts[..i])
    {
      var t := ts[i];
      assert ts[..i + 1] == ts[..i] + [t];
      if t.kind != Expense {
        GroupsSkip(groups, ts[..i], t);
      } else {
        var cat := CategoryOf(t);
        var j := 0;
        while j < |groups| && groups[j].name != cat
          invariant 0 <= j <= |groups|
          invariant forall k :: 0 <= k < j ==> groups[k].name != cat
        {
          j := j + 1;
        }
        GroupsExtend(groups, ts[..i], t, j);
        if j == |groups| {
          groups := groups + [Group(cat, 0.0, 0)];
        }
        groups := groups[j := Group(cat, groups[j].total + t.amount, groups[j].count + 1)];
      }
      i := i + 1;
    }
    assert ts[..i] == ts;
  }

  /** A transaction that is not an expense leaves the groups as they are. */
  lemma GroupsSkip(groups: seq<Group>, p: seq<Transaction>, t: Transaction)
    requires GroupsOf(groups, p) && t.kind != Expense
    ensures GroupsOf(groups, p + [t])
  {
    var p' := p + [t];
    assert p'[..|p'| - 1] == p;
  }

  /** An expense adds its amount and one to the group of its category, found
      at index j, or opens a new group at the end when j is past the last. */
  lemma GroupsExtend(groups: seq<Group>, p: seq<Transaction>, t: Transaction, j: nat)
    requires GroupsOf(groups, p) && t.kind == Expense
    requires j <= |groups| && (j < |groups| ==> groups[j].name == CategoryOf(t))
    requires forall k :: 0 <= k < j ==> groups[k].name != CategoryOf(t)
    ensures j < |groups| ==>
              GroupsOf(groups[j := Group(CategoryOf(t), groups[j].total + t.amount, groups[j].count + 1)], p + [t])
    ensures j == |groups| ==>
              GroupsOf(groups + [Group(CategoryOf(t), 0.0 + t.amount, 0 + 1)], p + [t])
  {
    var cat := CategoryOf(t);
    var p' := p + [t];
    assert p'[..|p'| - 1] == p && p'[|p'| - 1] == t;
    NamesExact(p, cat);
    if j < |groups| {
      assert Names(p') == Names(p);
      var g' := groups[j := Group(cat, groups[j].total + t.amount, groups[j].count + 1)];
      forall i | 0 <= i < |g'|
        ensures g'[i] == Group(Names(p')[i], CategoryTotal(p', Names(p')[i]), CategoryCount(p', Names(p')[i]))
      {
        if i != j {
          assert Names(p)[i] != Names(p)[j];
        }
      }
    } else {
      assert cat !in Names(p);
      NamesCountZero(p, cat);
      assert Names(p') == Names(p) + [cat];
      var g' := groups + [Group(cat, 0.0 + t.amount, 0 + 1)];
      forall i | 0 <= i < |g'|
        ensures g'[i] == Group(Names(p')[i], CategoryTotal(p', Names(p')[i]), CategoryCount(p', Names(p')[i]))
      {
        if i < |groups| {
          assert Names(p')[i] == Names(p)[i] != cat;
        }
      }
    }
  }

  /** A category that never appeared has no expenses. */
  lemma {:induction false} NamesCountZero(ts: seq<Transaction>, c: string)
    requires c !in Names(ts)
    ensures CategoryTotal(ts, c) == 0.0 && CategoryCount(ts, c) == 0
  {
    if ts != [] {
      NamesCountZero(ts[..|ts| - 1], c);
    }
  }

  /** The group names are distinct, and they are exactly the categories with an expense. */
  lemma {:induction false} NamesExact(ts: seq<Transaction>, c: string)
    ensures forall i, j :: 0 <= i < j < |Names(ts)| ==> Names(ts)[i] != Names(ts)[j]
    ensures c in Names(ts) <==> CategoryCount(ts, c) > 0
  {
    if ts != [] {
      NamesExact(ts[..|ts| - 1], c);
      var t := ts[|ts| - 1];
      if t.kind == Expense && CategoryOf(t) !in Names(ts[..|ts| - 1]) {
        forall i, j | 0 <= i < j < |Names(ts)|
          ensures Names(ts)[i] != Names(ts)[j]
        {
          NamesExact(ts[..|ts| - 1], Names(ts)[i]);
        }
      }
    }
  }

  /** The sum of the group totals over some names. */
  function SumTotals(names: seq<string>, ts: seq<Transaction>): real {
    if names == [] then 0.0
    else SumTotals(names[..|names| - 1], ts) + CategoryTotal(ts, names[|names| - 1])
  }

  /** The sum of the group counts over some names. */
  function SumCounts(names: seq<string>, ts: seq<Transaction>): nat {
    if names == [] then 0
    else SumCounts(names[..|names| - 1], ts) + CategoryCount(ts, names[|names| - 1])
  }

  predicate Distinct(names: seq<string>) {
    forall i, j :: 0 <= i < j < |names| ==> names[i] != names[j]
  }

  /** Whether the last transaction is an expense whose category is among the names. */
  predicate LastCounted(names: seq<string>, ts: seq<Transaction>)
    requires ts != []
  {
    ts[|ts| - 1].kind == Expense && CategoryOf(ts[|ts| - 1]) in names
  }

  /** The last transaction adds its amount once to the total over distinct
      names that include its category, and nothing when the category is missing. */
  lemma {:induction false} TotalsStep(names: seq<string>, ts: seq<Transaction>)
    requires Distinct(names) && ts != []
    ensures SumTotals(names, ts)
            == SumTotals(names, ts[..|ts| - 1]) + (if LastCounted(names, ts) then ts[|ts| - 1].amount else 0.0)
  {
    if names != [] {
      var ns := names[..|names| - 1];
      assert Distinct(ns);
      TotalsStep(ns, ts);
      var t := ts[|ts| - 1];
      if t.kind == Expense && CategoryOf(t) == names[|names| - 1] {
        assert CategoryOf(t) !in ns;
      }
    }
  }

  /** The count version of TotalsStep. */
  lemma {:induction false} CountsStep(names: seq<string>, ts: seq<Transaction>)
    requires Distinct(names) && ts != []
    ensures SumCounts(names, ts) == SumCounts(names, ts[..|ts| - 1]) + (if LastCounted(names, ts) then 1 else 0)
  {
    if names != [] {
      var ns := names[..|names| - 1];
      assert Distinct(ns);
      CountsStep(ns, ts);
      var t := ts[|ts| - 1];
      if t.kind == Expense && CategoryOf(t) == names[|names| - 1] {
        assert CategoryOf(t) !in ns;
      }
    }
  }

  /** The group totals add up to the total expense and the group counts to
      the number of expenses: every expense lands in exactly one group. */
  lemma GroupsCoverExpenses(ts: seq<Transaction>)
    ensures SumTotals(Names(ts), ts) == Total(ts, Expense)
    ensures SumCounts(Names(ts), ts) == Count(ts, Expense)
  {
    GroupTotalsCover(ts);
    GroupCountsCover(ts);
  }

  lemma {:induction false} GroupTotalsCover(ts: seq<Transaction>)
    ensures SumTotals(Names(ts), ts) == Total(ts, Expense)
  {
    if ts != [] {
      var p := ts[..|ts| - 1];
      var t := ts[|ts| - 1];
      var c := CategoryOf(t);
      GroupTotalsCover(p);
      NamesExact(p, c);
      if t.kind == Expense && c !in Names(p) {
        var ns := Names(p) + [c];
        assert Names(ts) == ns && ns[..|ns| - 1] == Names(p);
        NamesCountZero(p, c);
        TotalsStep(Names(p), ts);
        assert SumTotals(ns, ts) == SumTotals(Names(p), ts) + CategoryTotal(ts, c);
        assert CategoryTotal(ts, c) == t.amount;
      } else {
        assert Names(ts) == Names(p);
        TotalsStep(Names(p), ts);
        assert LastCounted(Names(p), ts) <==> t.kind == Expense;
      }
    }
  }

  lemma {:induction false} GroupCountsCover(ts: seq<Transaction>)
    ensures SumCounts(Names(ts), ts) == Count(ts, Expense)
  {
    if ts != [] {
      var p := ts[..|ts| - 1];
      var t := ts[|ts| - 1];
      var c := CategoryOf(t);
      GroupCountsCover(p);
      NamesExact(p, c);
      if t.kind == Expense && c !in Names(p) {
        var ns := Names(p) + [c];
        assert Names(ts) == ns && ns[..|ns| - 1] == Names(p);
        NamesCountZero(p, c);
        CountsStep(Names(p), ts);
        assert SumCounts(ns, ts) == SumCounts(Names(p), ts) + CategoryCount(ts, c);
        assert CategoryCount(ts, c) == 1;
      } else {
        assert Names(ts) == Names(p);
        CountsStep(Names(p), ts);
        assert LastCounted(Names(p), ts) <==> t.kind == Expense;
      }
    }
  }

  // ---------------------------------------------------------------------
  // The budget table

  /** A budget dict: `category_name` and `limit_amount`, either may be missing. */
  datatype Budget = Budget(category: Option<string>, limit: Option<real>)

  /** ✅, ⚠️ and ❌. */
  datatype Status = OnTrack | NearLimit | OverBudget

  /** `by_category.get(cat, {}).get('total', 0)`. */
  function LookupTotal(groups: seq<Group>, name: string): real {
    if groups == [] then 0.0
    else if groups[0].name == name then groups[0].total
    else LookupTotal(groups[1..], name)
  }

  /** `budget.get('category_name', '總預算')`. */
  function BudgetCategory(b: Budget): string {
    if b.category.Some? then b.category.value else "總預算"
  }

  /** `budget.get('limit_amount', 0)`. */
  function BudgetLimit(b: Budget): real {
    if b.limit.Some? then b.limit.value else 0.0
  }

  /** What a budget has used: the total expense for 總預算, else its
      category's group total, 0 for a category without expenses. */
  function BudgetUsed(b: Budget, groups: seq<Group>, s: Summary): real {
    if BudgetCategory(b) != "總預算" then LookupTotal(groups, BudgetCategory(b)) else s.totalExpense
  }

  /** The percentage of the limit used, 0 when the limit is not positive. */
  function Rate(used: real, limit: real): real {
    if limit > 0.0 then used / limit * 100.0 else 0.0
  }

  /** The status column: ✅ up to 80 %, ⚠️ up to 100 %, ❌ beyond. */
  function StatusOf(used: real, limit: real): (st: Status)
    ensures limit <= 0.0 ==> st == OnTrack
    ensures limit > 0.0 ==> (st == OverBudget <==> used > limit)
    ensures limit > 0.0 ==> (st == NearLimit <==> limit * 0.8 < used <= limit)
    ensures limit > 0.0 ==> (st == OnTrack <==> used <= limit * 0.8)
  {
    var rate := Rate(used, limit);
    RateScales(used, limit);
    if rate <= 80.0 then OnTrack else if rate <= 100.0 then NearLimit else OverBudget
  }

  /** With a positive limit the thresholds 80 and 100 on the rate are the
      thresholds 0.8 and 1 times the limit on what was used. */
  lemma RateScales(used: real, limit: real)
    ensures limit > 0.0 ==> (Rate(used, limit) <= 80.0 <==> used <= limit * 0.8)
    ensures limit > 0.0 ==> (Rate(used, limit) <= 100.0 <==> used <= limit)
  {
    if limit > 0.0 {
      RateThreshold(used, limit, 0.8);
      RateThreshold(used, limit, 1.0);
    }
  }

  lemma RateThreshold(used: real, limit: real, p: real)
    requires limit > 0.0
    ensures Rate(used, limit) <= p * 100.0 <==> used <= limit * p
  {
    var q := used / limit;
    assert q * limit == used;
    assert Rate(used, limit) == q * 100.0;
    ScaleMonotone(q, p, limit);
  }

  lemma ScaleMonotone(x: real, y: real, c: real)
    requires c > 0.0
    ensures x <= y <==> x * c <= y * c
  {
    if x <= y {
      assert (y - x) * c >= 0.0;
    } else {
      assert (x - y) * c > 0.0;
    }
  }

  /** One row of the budget table: category, limit, used, rate and status. */
  datatype BudgetRow = BudgetRow(category: string, limit: real, used: real, rate: real, status: Status)

  /** The loop over the budgets that fills the budget table. */
  method BudgetRows(budgets: seq<Budget>, groups: seq<Group>, s: Summary) returns (rows: seq<BudgetRow>)
    ensures |rows| == |budgets|
    ensures forall i :: 0 <= i < |rows| ==>
              var b := budgets[i];
              var used := BudgetUsed(b, groups, s);
              rows[i] == BudgetRow(BudgetCategory(b), BudgetLimit(b), used, Rate(used, BudgetLimit(b)), StatusOf(used, BudgetLimit(b)))
  {
    rows := [];
    var i := 0;
    while i < |budgets|
      invariant 0 <= i <= |budgets| && |rows| == i
      invariant forall k :: 0 <= k < i ==>
                  var b := budgets[k];
                  var used := BudgetUsed(b, groups, s);
                  rows[k] == BudgetRow(BudgetCategory(b), BudgetLimit(b), used, Rate(used, BudgetLimit(b)), StatusOf(used, BudgetLimit(b)))
    {
      var b := budgets[i];
      var cat := BudgetCategory(b);
      var limit := BudgetLimit(b);
      var used := if cat != "總預算" then LookupTotal(groups, cat) else s.totalExpense;
      var rate := if limit > 0.0 then used / limit * 100.0 else 0.0;
      var status := if rate <= 80.0 then OnTrack else if rate <= 100.0 then NearLimit else OverBudget;
      rows := rows + [BudgetRow(cat, limit, used, rate, status)];
      i := i + 1;
    }
  }

  /** Looking a name up in the groups of a ledger gives that category's
      expense total, 0 for a category without expenses. */
  lemma {:induction false} LookupIsCategoryTotal(groups: seq<Group>, ts: seq<Transaction>, c: string)
    requires GroupsOf(groups, ts)
    ensures LookupTotal(groups, c) == CategoryTotal(ts, c)
  {
    NamesExact(ts, c);
    if c !in Names(ts) {
      NamesCountZero(ts, c);
      LookupMissing(groups, c);
    } else {
      var i :| 0 <= i < |Names(ts)| && Names(ts)[i] == c;
      LookupFirst(groups, c, i);
    }
  }

  lemma {:induction false} LookupMissing(groups: seq<Group>, c: string)
    requires forall i :: 0 <= i < |groups| ==> groups[i].name != c
    ensures LookupTotal(groups, c) == 0.0
  {
    if groups != [] {
      assert groups[0].name != c;
      LookupMissing(groups[1..], c);
    }
  }

  lemma {:induction false} LookupFirst(groups: seq<Group>, c: string, i: nat)
    requires i < |groups| && groups[i].name == c
    requires forall k :: 0 <= k < i ==> groups[k].name != c
    ensures LookupTotal(groups, c) == groups[i].total
  {
    if i > 0 {
      assert groups[0].name != c;
      LookupFirst(groups[1..], c, i - 1);
    }
  }

  /** The budget of a category uses exactly the expenses filed under it, and
      the overall budget (總預算, also the default) uses the total expense. */
  lemma BudgetUsesItsExpenses(b: Budget, groups: seq<Group>, ts: seq<Transaction>)
    requires GroupsOf(groups, ts)
    ensures BudgetCategory(b) != "總預算" ==> BudgetUsed(b, groups, CalculateSummary(ts)) == CategoryTotal(ts, BudgetCategory(b))
    ensures BudgetCategory(b) == "總預算" ==> BudgetUsed(b, groups, CalculateSummary(ts)) == Total(ts, Expense)
  {
    LookupIsCategoryTotal(groups, ts, BudgetCategory(b));
  }
}
