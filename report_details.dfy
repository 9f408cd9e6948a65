/** The transaction table of `ReportGenerator.generate_monthly_report`: the
    transactions sorted newest first by their date string (a stable sort with
    `reverse=True`), the first 20 of them, each turned into a row. */
module ReportDetails {
  import opened Base
  import opened ReportLedger

  // ---------------------------------------------------------------------
  // Python's ordering of str

  /** `a < b` on Python strings: lexicographic by code point, a proper prefix first. */
  predicate StrLess(a: string, b: string)
    decreases |a|
  {
    if a == [] then b != []
    else if b == [] then false
    else if a[0] != b[0] then a[0] < b[0]
    else StrLess(a[1..], b[1..])
  }

  lemma {:induction false} StrLessIrreflexive(a: string)
    ensures !StrLess(a, a)
    decreases |a|
  {
    if a != [] {
      StrLessIrreflexive(a[1..]);
    }
  }

  lemma {:induction false} StrLessTransitive(a: string, b: string, c: string)
    requires StrLess(a, b) && StrLess(b, c)
    ensures StrLess(a, c)
    decreases |a|
  {
    if a != [] && b != [] && c != [] && a[0] == b[0] && b[0] == c[0] {
      StrLessTransitive(a[1..], b[1..], c[1..]);
    }
  }

  lemma {:induction false} StrLessAsymmetric(a: string, b: string)
    requires StrLess(a, b)
    ensures !StrLess(b, a)
    decreases |a|
  {
    if a != [] && b != [] && a[0] == b[0] {
      StrLessAsymmetric(a[1..], b[1..]);
    }
  }

  /** Two different strings are ordered one way. */
  lemma {:induction false} StrLessTotal(a: string, b: string)
    requires a != b
    ensures StrLess(a, b) || StrLess(b, a)
    decreases |a|
  {
    if a != [] && b != [] && a[0] == b[0] {
      assert a == [a[0]] + a[1..] && b == [b[0]] + b[1..];
      StrLessTotal(a[1..], b[1..]);
    }
  }

  /** "Not before" is transitive: the order the sorted table keeps. */
  lemma NotBeforeTransitive(a: string, b: string, c: string)
    requires !StrLess(a, b) && !StrLess(b, c)
    ensures !StrLess(a, c)
  {
    if a != b && b != c {
      StrLessTotal(a, b);
      StrLessTotal(b, c);
      StrLessTransitive(c, b, a);
      StrLessAsymmetric(c, a);
    }
  }

  // ---------------------------------------------------------------------
  // sorted(transactions, key=lambda x: x.get('date', ''), reverse=True)

  /** Places t before the first entry whose date is not later than its own,
      so it lands after every entry with a later date and before every entry
      with the same date. */
  function Insert(t: Transaction, s: seq<Transaction>): (r: seq<Transaction>)
    ensures |r| == |s| + 1
  {
    if s == [] then [t]
    else if !StrLess(t.date, s[0].date) then [t] + s
    else [s[0]] + Insert(t, s[1..])
  }

  /** The sort, by insertion from the back, of the ledger. */
  function SortNewestFirst(ts: seq<Transaction>): (r: seq<Transaction>)
    ensures |r| == |ts|
  {
    if ts == [] then [] else Insert(ts[0], SortNewestFirst(ts[1..]))
  }

  /** Newest first: no entry has an earlier date than one after it. */
  predicate NewestFirst(s: seq<Transaction>) {
    forall i, j :: 0 <= i < j < |s| ==> !StrLess(s[i].date, s[j].date)
  }

  /** The entries with date d, in their order. */
  function WithDate(s: seq<Transaction>, d: string): seq<Transaction> {
    if s == [] then []
    else (if s[0].date == d then [s[0]] else []) + WithDate(s[1..], d)
  }

  lemma {:induction false} InsertPermutes(t: Transaction, s: seq<Transaction>)
    ensures multiset(Insert(t, s)) == multiset(s) + multiset{t}
  {
    if s != [] {
      assert s == [s[0]] + s[1..];
      if StrLess(t.date, s[0].date) {
        InsertPermutes(t, s[1..]);
      }
    }
  }

  lemma {:induction false} InsertNewestFirst(t: Transaction, s: seq<Transaction>)
    requires NewestFirst(s)
    ensures NewestFirst(Insert(t, s))
  {
    if s == [] {
    } else if !StrLess(t.date, s[0].date) {
      var r := [t] + s;
      forall i, j | 0 <= i < j < |r|
        ensures !StrLess(r[i].date, r[j].date)
      {
        if i == 0 && j > 1 {
          NotBeforeTransitive(t.date, s[0].date, s[j - 1].date);
        }
      }
    } else {
      InsertNewestFirst(t, s[1..]);
      var rest := Insert(t, s[1..]);
      var r := [s[0]] + rest;
      forall j | 0 <= j < |rest|
        ensures !StrLess(s[0].date, rest[j].date)
      {
        assert rest[j] in multiset(rest);
        InsertPermutes(t, s[1..]);
        if rest[j] == t {
          StrLessAsymmetric(t.date, s[0].date);
        } else {
          assert rest[j] in multiset(s[1..]);
          var k :| 0 <= k < |s[1..]| && s[1..][k] == rest[j];
          assert s[k + 1] == rest[j];
        }
      }
      assert forall i, j :: 0 <= i < j < |r| ==> !StrLess(r[i].date, r[j].date);
    }
  }

  lemma {:induction false} InsertKeepsDateOrder(t: Transaction, s: seq<Transaction>, d: string)
    ensures WithDate(Insert(t, s), d) == (if t.date == d then [t] else []) + WithDate(s, d)
  {
    if s == [] {
      assert WithDate([t], d) == (if t.date == d then [t] else []) + WithDate([], d);
    } else if !StrLess(t.date, s[0].date) {
      var r := [t] + s;
      assert r[1..] == s;
    } else {
      var rest := Insert(t, s[1..]);
      var r := [s[0]] + rest;
      assert r[1..] == rest;
      InsertKeepsDateOrder(t, s[1..], d);
      if t.date == d {
        StrLessIrreflexive(d);
        assert s[0].date != d;
        assert WithDate(r, d) == WithDate(rest, d) == [t] + WithDate(s[1..], d);
        assert WithDate(s, d) == WithDate(s[1..], d);
      } else {
        assert WithDate(rest, d) == WithDate(s[1..], d);
      }
    }
  }

  /** The sorted table is newest first, holds exactly the ledger's entries,
      and keeps the ledger's order among entries with the same date (the sort
      is stable). Together these determine the sorted list completely. */
  lemma {:induction false} SortIsStableNewestFirst(ts: seq<Transaction>, d: string)
    ensures NewestFirst(SortNewestFirst(ts))
    ensures multiset(SortNewestFirst(ts)) == multiset(ts)
    ensures WithDate(SortNewestFirst(ts), d) == WithDate(ts, d)
  {
    if ts != [] {
      SortIsStableNewestFirst(ts[1..], d);
      InsertNewestFirst(ts[0], SortNewestFirst(ts[1..]));
      InsertPermutes(ts[0], SortNewestFirst(ts[1..]));
      InsertKeepsDateOrder(ts[0], SortNewestFirst(ts[1..]), d);
      assert ts == [ts[0]] + ts[1..];
    }
  }

  lemma SortedIsNewestFirst(ts: seq<Transaction>)
    ensures NewestFirst(SortNewestFirst(ts))
  {
    SortIsStableNewestFirst(ts, "");
  }

  // ---------------------------------------------------------------------
  // One row of the table

  datatype Sign = Plus | Minus

  /** Date, category, description, and the signed amount (formatting aside). */
  datatype DetailRow = DetailRow(date: string, category: string, description: string, sign: Sign, amount: real)

  /** The date cell: the first ten characters of a non-empty date, else empty. */
  function DateCell(t: Transaction): string {
    if t.date != [] then t.date[..if |t.date| < 10 then |t.date| else 10] else []
  }

  /** The first n characters, as `s[:n]`. */
  function Prefix(s: string, n: nat): (r: string)
    ensures |r| <= n && |r| <= |s| && r == s[..|r|]
  {
    if |s| < n then s else s[..n]
  }

  /** A description longer than 15 characters is cut to 15 and marked with `...`. */
  function Truncate(d: string): (r: string)
    ensures |d| <= 15 ==> r == d
    ensures |d| > 15 ==> |r| == 18 && r[..15] == d[..15] && r[15..] == "..."
  {
    if |d| > 15 then d[..15] + "..." else d
  }

  function RowOf(t: Transaction): DetailRow {
    DetailRow(
      DateCell(t),
      if t.category.Some? then t.category.value else "",
      Truncate(if t.description.Some? then t.description.value else ""),
      if t.kind == Income then Plus else Minus,
      t.amount)
  }

  /** The date cell is the 10-character prefix of the date in every case;
      the emptiness test before slicing changes nothing. */
  lemma DateCellIsPrefix(t: Transaction)
    ensures DateCell(t) == Prefix(t.date, 10)
  {
  }

  /** Cutting two strings to the same length keeps their order. */
  lemma {:induction false} PrefixKeepsOrder(a: string, b: string, n: nat)
    requires !StrLess(a, b)
    ensures !StrLess(Prefix(a, n), Prefix(b, n))
    decreases n
  {
    var pa := Prefix(a, n);
    var pb := Prefix(b, n);
    if pa == [] || pb == [] {
      if pa == [] {
        assert a == [] || n == 0;
      }
    } else if a[0] == b[0] {
      PrefixKeepsOrder(a[1..], b[1..], n - 1);
      assert pa[1..] == Prefix(a[1..], n - 1);
      assert pb[1..] == Prefix(b[1..], n - 1);
    } else {
      assert pa[0] == a[0] && pb[0] == b[0];
    }
  }

  /** The detail loop: the first 20 sorted transactions, one row each. */
  method DetailRows(ts: seq<Transaction>) returns (rows: seq<DetailRow>)
    ensures |rows| == if |ts| < 20 then |ts| else 20
    ensures forall i :: 0 <= i < |rows| ==> rows[i] == RowOf(SortNewestFirst(ts)[i])
    ensures forall i, j :: 0 <= i < j < |rows| ==> !StrLess(rows[i].date, rows[j].date)
  {
    var sorted := SortNewestFirst(ts);
    SortedIsNewestFirst(ts);
    var top := if |sorted| > 20 then sorted[..20] else sorted;
    rows := [];
    var i := 0;
    while i < |top|
      invariant 0 <= i <= |top| && |rows| == i
      invariant forall k :: 0 <= k < i ==> rows[k] == RowOf(sorted[k])
    {
      rows := rows + [RowOf(top[i])];
      i := i + 1;
    }
    RowsNewestFirst(sorted, rows);
  }

  /** Rows made from a newest-first list are newest first by their date cells. */
  lemma RowsNewestFirst(sorted: seq<Transaction>, rows: seq<DetailRow>)
    requires NewestFirst(sorted) && |rows| <= |sorted|
    requires forall i :: 0 <= i < |rows| ==> rows[i] == RowOf(sorted[i])
    ensures forall i, j :: 0 <= i < j < |rows| ==> !StrLess(rows[i].date, rows[j].date)
  {
    forall i, j | 0 <= i < j < |rows|
      ensures !StrLess(rows[i].date, rows[j].date)
    {
      DateCellIsPrefix(sorted[i]);
      DateCellIsPrefix(sorted[j]);
      PrefixKeepsOrder(sorted[i].date, sorted[j].date, 10);
    }
  }
}
