/** Month arithmetic of the dashboard's collection trend. */
module Months {
  import opened Options
  import opened Money
  import Decimal

  datatype Month = Month(year: int, month: int)

  predicate IsMonth(m: Month) { 1 <= m.month <= 12 && 1 <= m.year <= 9999 }

  /** Months since the start of year 0. */
  function Index(m: Month): int { 12 * m.year + m.month - 1 }

  function AtIndex(n: int): Month { Month(n / 12, n % 12 + 1) }

  /** date.replace, which raises ValueError on a month or year that is out of range. */
  function Replace(m: Month): Option<Month> { if IsMonth(m) then Some(m) else None }

  /** The month that lies `months` before d; None stands for the ValueError. */
  function Back(d: Month, months: int): Option<Month> {
    if Index(d) - months >= 12 && d.month - months <= 12 then Some(AtIndex(Index(d) - months)) else None
  }

  /** _subtract_months */
  method SubtractMonths(d: Month, months: int) returns (r: Option<Month>)
    requires IsMonth(d)
    ensures r == Back(d, months)
    ensures r.Some? ==> IsMonth(r.value) && Index(r.value) == Index(d) - months
  {
    var month := d.month - months;
    var year := d.year;
    while month <= 0
      invariant 12 * year + month == 12 * d.year + d.month - months
      invariant year <= d.year && (month > 12 ==> month == d.month - months)
      invariant month <= 12 || year == d.year
      decreases -month
    {
      month := month + 12;
      year := year - 1;
    }
    r := Replace(Month(year, month));
  }

  lemma IndexInjective(a: Month, b: Month)
    requires 1 <= a.month <= 12 && 1 <= b.month <= 12
    ensures Index(a) == Index(b) <==> a == b
    ensures Index(a) < Index(b) <==> a.year < b.year || (a.year == b.year && a.month < b.month)
    ensures AtIndex(Index(a)) == a
  {}

  /** Subtracting x months and then y is subtracting x + y: same month or same error. */
  lemma SubtractTwice(d: Month, x: nat, y: nat)
    requires IsMonth(d)
    ensures Back(d, x + y) == if Back(d, x).Some? then Back(Back(d, x).value, y) else None
    ensures Back(d, 0) == Some(d)
  {
    IndexInjective(d, d);
  }

  // ---------- "YYYY-MM" keys ----------

  /** strftime("%Y-%m"): the year in its own digits, the month in two. */
  function KeyOf(m: Month): string
    requires IsMonth(m)
  {
    Decimal.Text(m.year) + ("-" + Decimal.Padded(Decimal.Text(m.month), 2))
  }

  /** The years have the same number of digits. */
  predicate SameDigits(a: Month, b: Month) {
    IsMonth(a) && IsMonth(b) && |Decimal.Text(a.year)| == |Decimal.Text(b.year)|
  }

  /** Python's order of strings. */
  predicate Less(s: string, t: string) {
    if t == [] then false
    else if s == [] then true
    else s[0] < t[0] || (s[0] == t[0] && Less(s[1..], t[1..]))
  }

  lemma {:induction false} LessConcat(a: string, b: string, s: string, t: string)
    requires |a| == |b|
    ensures Less(a + s, b + t) <==> Less(a, b) || (a == b && Less(s, t))
    decreases |a|
  {
    if a == [] {
      assert a + s == s && b + t == t;
    } else {
      assert (a + s)[1..] == a[1..] + s && (b + t)[1..] == b[1..] + t;
      LessConcat(a[1..], b[1..], s, t);
      assert a == [a[0]] + a[1..] && b == [b[0]] + b[1..];
    }
  }

  /** Numerals of the same length are ordered as strings as their values are as numbers. */
  lemma {:induction false} LessIsValue(a: string, b: string)
    requires |a| == |b| && Decimal.AllDigits(a) && Decimal.AllDigits(b)
    ensures Less(a, b) <==> Decimal.Value(a) < Decimal.Value(b)
    ensures a == b <==> Decimal.Value(a) == Decimal.Value(b)
    decreases |a|
  {
    if a != [] {
      var n := |a| - 1;
      LessIsValue(a[..n], b[..n]);
      assert a == a[..n] + [a[n]] && b == b[..n] + [b[n]];
      LessConcat(a[..n], b[..n], [a[n]], [b[n]]);
      assert [a[n]][1..] == [] && [b[n]][1..] == [];
    }
  }

  lemma MonthDigits(n: nat)
    requires 1 <= n <= 12
    ensures var s := Decimal.Padded(Decimal.Text(n), 2);
      |s| == 2 && Decimal.AllDigits(s) && Decimal.Value(s) == n
  {
    Decimal.ValueOfText(n);
    Decimal.ValueOfPadded(Decimal.Text(n), 2);
    assert n / 10 < 10;
  }

  /** Among years of the same number of digits the keys sort as strings in date order. */
  lemma KeysSortByDate(a: Month, b: Month)
    requires SameDigits(a, b)
    ensures Less(KeyOf(a), KeyOf(b)) <==> Index(a) < Index(b)
    ensures KeyOf(a) == KeyOf(b) <==> a == b
  {
    var ya, yb := Decimal.Text(a.year), Decimal.Text(b.year);
    var ma, mb := Decimal.Padded(Decimal.Text(a.month), 2), Decimal.Padded(Decimal.Text(b.month), 2);
    Decimal.ValueOfText(a.year);
    Decimal.ValueOfText(b.year);
    MonthDigits(a.month);
    MonthDigits(b.month);
    LessIsValue(ya, yb);
    LessIsValue(ma, mb);
    LessConcat(ya, yb, "-" + ma, "-" + mb);
    LessConcat("-", "-", ma, mb);
    IndexInjective(a, b);
    assert KeyOf(a)[..|ya|] == ya && KeyOf(b)[..|ya|] == yb;
    assert KeyOf(a)[|ya| + 1..] == ma && KeyOf(b)[|ya| + 1..] == mb;
  }

  // ---------- The trend ----------

  datatype Row = Row(invoiced: int, collected: int)

  /** rate: in tenths of a percent. */
  datatype TrendEntry = TrendEntry(month: string, row: Row, rate: Option<int>)

  /** round(collected / invoiced * 100, 1), or None if nothing was invoiced. */
  function RateOf(row: Row): Option<int> {
    if row.invoiced == 0 then None
    else if row.invoiced > 0 then Some(RoundHalfEven(1000 * row.collected, row.invoiced))
    else Some(RoundHalfEven(-1000 * row.collected, -row.invoiced))
  }

  /** The rate is off by at most half a tenth of a percent. */
  lemma RateError(row: Row)
    requires row.invoiced != 0
    ensures var error: int := 2 * (RateOf(row).value * row.invoiced - 1000 * row.collected);
      if row.invoiced > 0 then -row.invoiced <= error <= row.invoiced else row.invoiced <= error <= -row.invoiced
  {
    if row.invoiced > 0 {
      RoundingError(1000 * row.collected, row.invoiced);
    } else {
      RoundingError(-1000 * row.collected, -row.invoiced);
      Negated(RateOf(row).value, row.invoiced);
    }
  }

  lemma Negated(a: int, b: int)
    ensures a * -b == -(a * b)
  {}

  /** The n-th month of the window of six that ends with today's. */
  function WindowMonth(today: Month, n: int): Month { AtIndex(Index(today) - 5 + n) }

  function RowOf(rows: map<string, Row>, key: string): Row { if key in rows then rows[key] else Row(0, 0) }

  lemma DigitsOfYear(n: nat)
    requires 1 <= n <= 9999
    ensures |Decimal.Text(n)| == if n < 10 then 1 else if n < 100 then 2 else if n < 1000 then 3 else 4
  {
    if n >= 1000 {
      assert 10 <= n / 10 / 10 < 100;
      assert |Decimal.Text(n / 10 / 10)| == 2 && |Decimal.Text(n / 10)| == 3;
    } else if n >= 100 {
      assert 10 <= n / 10 < 100;
      assert |Decimal.Text(n / 10)| == 2;
    }
  }

  /** The last year of so many digits starts with '9', the next one with '1'. */
  lemma TurnOfDigits(y: nat)
    requires 1 <= y <= 9998 && |Decimal.Text(y)| != |Decimal.Text(y + 1)|
    ensures Decimal.Text(y) != "" && Decimal.Text(y)[0] == '9'
    ensures Decimal.Text(y + 1) != "" && Decimal.Text(y + 1)[0] == '1'
  {
    DigitsOfYear(y);
    DigitsOfYear(y + 1);
    assert y == 9 || y == 99 || y == 999;
    assert Decimal.Text(9) == "9" && Decimal.Text(1) == "1";
    assert Decimal.Text(99) == Decimal.Text(9) + "9" && Decimal.Text(10) == Decimal.Text(1) + "0";
    assert Decimal.Text(999) == Decimal.Text(99) + "9" && Decimal.Text(100) == Decimal.Text(10) + "0";
    assert Decimal.Text(1000) == Decimal.Text(100) + "0";
  }

  lemma WindowYears(today: Month, n: nat)
    requires IsMonth(today) && IsMonth(WindowMonth(today, 0)) && n < 6
    ensures WindowMonth(today, 5) == today && IsMonth(WindowMonth(today, n))
    ensures WindowMonth(today, n).year in {WindowMonth(today, 0).year, today.year}
    ensures today.year <= WindowMonth(today, 0).year + 1
  {
    IndexInjective(today, today);
  }

  predicate WindowSorted(today: Month)
    requires IsMonth(today)
  {
    forall m, n :: 0 <= m < n < 6 && IsMonth(WindowMonth(today, m)) && IsMonth(WindowMonth(today, n)) ==>
      Less(KeyOf(WindowMonth(today, m)), KeyOf(WindowMonth(today, n)))
  }

  /** The six keys sort as strings in date order exactly if all years have as many digits. */
  lemma WindowSortedIff(today: Month)
    requires IsMonth(today) && IsMonth(WindowMonth(today, 0))
    ensures WindowSorted(today) <==> SameDigits(WindowMonth(today, 0), today)
  {
    var first := WindowMonth(today, 0);
    WindowYears(today, 5);
    if SameDigits(first, today) {
      forall m, n | 0 <= m < n < 6
        ensures IsMonth(WindowMonth(today, m)) && IsMonth(WindowMonth(today, n))
        ensures Less(KeyOf(WindowMonth(today, m)), KeyOf(WindowMonth(today, n)))
      {
        WindowYears(today, m);
        WindowYears(today, n);
        KeysSortByDate(WindowMonth(today, m), WindowMonth(today, n));
      }
    } else {
      TurnOfDigits(first.year);
      assert KeyOf(first)[0] == '9' && KeyOf(today)[0] == '1';
      assert !Less(KeyOf(WindowMonth(today, 0)), KeyOf(WindowMonth(today, 5)));
    }
  }

  /** The key of the n-th month of the window. */
  predicate IsKey(today: Month, n: int, key: string) {
    IsMonth(WindowMonth(today, n)) && key == KeyOf(WindowMonth(today, n))
  }

  lemma WindowKey(today: Month, i: int)
    requires IsMonth(today) && 0 <= i <= 5
    ensures Back(today, i).Some? <==> Index(today) - i >= 12
    ensures Back(today, i).Some? && IsMonth(Back(today, i).value) ==> IsKey(today, 5 - i, KeyOf(Back(today, i).value))
  {}

  /** The first loop: the keys of the window, oldest first. */
  method LastSixMonths(today: Month) returns (r: Option<seq<string>>)
    requires IsMonth(today)
    ensures r.Some? <==> Index(today) - 5 >= 12
    ensures r.Some? ==> |r.value| == 6
    ensures r.Some? ==> forall n :: 0 <= n < 6 ==> IsKey(today, n, r.value[n])
  {
    var months: seq<string> := [];
    var i := 5;
    while i >= 0
      invariant -1 <= i <= 5 && |months| == 5 - i
      invariant i < 5 ==> Index(today) - 5 >= 12
      invariant forall n :: 0 <= n < |months| ==> IsKey(today, n, months[n])
    {
      var d := SubtractMonths(today, i);
      WindowKey(today, i);
      if d.None? {
        return None;
      }
      months := months + [KeyOf(d.value)];
      i := i - 1;
    }
    r := Some(months);
  }

  datatype Invoice = Invoice(
    orgId: string, billingMonth: string, status: string, sandbox: bool, deleted: bool, total: int, paid: int)

  predicate Matches(inv: Invoice, orgId: string) {
    inv.orgId == orgId && !inv.deleted && !inv.sandbox && inv.status != "void"
  }

  /** What was invoiced and collected for one month. */
  function MonthSums(invoices: seq<Invoice>, orgId: string, key: string): Row {
    if invoices == [] then Row(0, 0)
    else
      var rest, inv := MonthSums(invoices[..|invoices| - 1], orgId, key), invoices[|invoices| - 1];
      if Matches(inv, orgId) && inv.billingMonth == key then Row(rest.invoiced + inv.total, rest.collected + inv.paid)
      else rest
  }

  /** The aggregation: one row for each of these months that has an invoice. */
  method SumByMonth(invoices: seq<Invoice>, orgId: string, months: seq<string>) returns (rows: map<string, Row>)
    ensures forall key :: key in months ==> RowOf(rows, key) == MonthSums(invoices, orgId, key)
    ensures forall key :: key in rows ==> key in months
  {
    rows := map[];
    for n := 0 to |invoices|
      invariant forall key :: key in months ==> RowOf(rows, key) == MonthSums(invoices[..n], orgId, key)
      invariant forall key :: key in rows ==> key in months
    {
      assert invoices[..n + 1][..n] == invoices[..n];
      var inv := invoices[n];
      if Matches(inv, orgId) && inv.billingMonth in months {
        var row := RowOf(rows, inv.billingMonth);
        rows := rows[inv.billingMonth := Row(row.invoiced + inv.total, row.collected + inv.paid)];
      }
    }
    assert invoices[..|invoices|] == invoices;
  }

  predicate IsEntry(e: TrendEntry, rows: map<string, Row>) {
    e.row == RowOf(rows, e.month) && e.rate == RateOf(e.row)
  }

  /** One entry per month: its row or zeros, and the rate. */
  method ListEntries(months: seq<string>, rows: map<string, Row>) returns (result: seq<TrendEntry>)
    ensures |result| == |months|
    ensures forall n :: 0 <= n < |months| ==> result[n].month == months[n] && IsEntry(result[n], rows)
  {
    result := [];
    for n := 0 to |months|
      invariant |result| == n
      invariant forall k :: 0 <= k < n ==> result[k].month == months[k] && IsEntry(result[k], rows)
    {
      var row := RowOf(rows, months[n]);
      var rate: Option<int> := None;
      if row.invoiced > 0 {
        rate := Some(RoundHalfEven(1000 * row.collected, row.invoiced));
      } else if row.invoiced < 0 {
        rate := Some(RoundHalfEven(-1000 * row.collected, -row.invoiced));
      }
      result := result + [TrendEntry(months[n], row, rate)];
    }
  }

  /** The entry of the n-th month of the window, summed over all invoices. */
  predicate IsTrend(e: TrendEntry, today: Month, n: int, invoices: seq<Invoice>, orgId: string) {
    IsKey(today, n, e.month) && e.row == MonthSums(invoices, orgId, e.month) && e.rate == RateOf(e.row)
  }

  /**
   * Six consecutive months up to today's, each with what its invoices add up to. The list is None
   * if a month before year 1 is needed.
   */
  method BuildCollectionTrend(today: Month, invoices: seq<Invoice>, orgId: string)
    returns (r: Option<seq<TrendEntry>>)
    requires IsMonth(today)
    ensures r.Some? <==> Index(today) - 5 >= 12
    ensures r.Some? ==> |r.value| == 6
    ensures r.Some? ==> forall n :: 0 <= n < 6 ==> IsTrend(r.value[n], today, n, invoices, orgId)
  {
    var months := LastSixMonths(today);
    if months.None? {
      return None;
    }
    var rows := SumByMonth(invoices, orgId, months.value);
    var result := ListEntries(months.value, rows);
    r := Some(result);
  }

  /** No invoices, nothing invoiced. */
  lemma NoInvoices(orgId: string, key: string)
    ensures MonthSums([], orgId, key) == Row(0, 0)
  {}

  /**
   * One more invoice of the org raises its own month by its total and paid amount, unless it is
   * void, a sandbox invoice or deleted; it raises no other month.
   */
  lemma OneMoreInvoice(invoices: seq<Invoice>, inv: Invoice, orgId: string, key: string)
    ensures var before, after := MonthSums(invoices, orgId, key), MonthSums(invoices + [inv], orgId, key);
      if inv.orgId == orgId && inv.billingMonth == key && inv.status != "void" && !inv.sandbox && !inv.deleted
      then after.invoiced == before.invoiced + inv.total && after.collected == before.collected + inv.paid
      else after == before
  {
    assert (invoices + [inv])[..|invoices|] == invoices;
  }

  /** A key is the year, a hyphen and the month in two digits. */
  lemma KeyIs(m: Month) returns (year: string, month: string)
    requires IsMonth(m)
    ensures KeyOf(m) == year + "-" + month
    ensures Decimal.AllDigits(year) && Decimal.Value(year) == m.year
    ensures |month| == 2 && Decimal.AllDigits(month) && Decimal.Value(month) == m.month
  {
    year, month := Decimal.Text(m.year), Decimal.Padded(Decimal.Text(m.month), 2);
    Decimal.ValueOfText(m.year);
    MonthDigits(m.month);
    assert year + ("-" + month) == year + "-" + month;
  }
}
