/** get_accounting_summary: flat totals and their breakdown by status and by property, in cents. */
module AccountingSummary {

  datatype Invoice = Invoice(status: string, propertyId: string, total: int, paid: int, balance: int)

  /** What an invoice is grouped by. */
  datatype Field = ByStatus | ByProperty

  /** What is summed. */
  datatype Amount = Invoiced | Collected | Outstanding

  function KeyOf(f: Field, inv: Invoice): string { if f.ByStatus? then inv.status else inv.propertyId }

  function AmountOf(a: Amount, inv: Invoice): int {
    match a case Invoiced => inv.total case Collected => inv.paid case Outstanding => inv.balance
  }

  predicate Counts(inv: Invoice) { inv.status != "void" }

  /** Sum over all invoices that are not void. */
  function Total(items: seq<Invoice>, a: Amount): int {
    if items == [] then 0
    else
      var inv := items[|items| - 1];
      Total(items[..|items| - 1], a) + (if Counts(inv) then AmountOf(a, inv) else 0)
  }

  /** Sum over the invoices that are not void and have this key. */
  function GroupTotal(items: seq<Invoice>, f: Field, key: string, a: Amount): int {
    if items == [] then 0
    else
      var inv := items[|items| - 1];
      GroupTotal(items[..|items| - 1], f, key, a)
      + (if Counts(inv) && KeyOf(f, inv) == key then AmountOf(a, inv) else 0)
  }

  /** balance_due of the invoices that are neither void nor paid. */
  function OpenBalance(items: seq<Invoice>): int {
    if items == [] then 0
    else
      var inv := items[|items| - 1];
      OpenBalance(items[..|items| - 1]) + (if inv.status != "void" && inv.status != "paid" then inv.balance else 0)
  }

  /** balance_due that is left on paid invoices. */
  function PaidBalance(items: seq<Invoice>): int {
    if items == [] then 0
    else
      var inv := items[|items| - 1];
      PaidBalance(items[..|items| - 1]) + (if inv.status == "paid" then inv.balance else 0)
  }

  /** The keys of the invoices that are not void, in order of first occurrence. */
  function Keys(items: seq<Invoice>, f: Field): seq<string> {
    if items == [] then []
    else
      var rest, inv := Keys(items[..|items| - 1], f), items[|items| - 1];
      if Counts(inv) && KeyOf(f, inv) !in rest then rest + [KeyOf(f, inv)] else rest
  }

  datatype Sums = Sums(invoiced: int, collected: int, outstanding: int)

  datatype PropertyRevenue = PropertyRevenue(propertyId: string, name: string, sums: Sums)

  datatype Summary = Summary(
    totalInvoiced: int, totalCollected: int, totalOutstanding: int, collectionRate: real,
    byProperty: seq<PropertyRevenue>, byStatus: map<string, int>)

  function SumsOf(items: seq<Invoice>, pid: string): Sums {
    Sums(GroupTotal(items, ByProperty, pid, Invoiced),
         GroupTotal(items, ByProperty, pid, Collected),
         GroupTotal(items, ByProperty, pid, Outstanding))
  }

  /** What the response says: one status entry per status, one row per property in dict order. */
  ghost predicate Summarizes(items: seq<Invoice>, names: map<string, string>, s: Summary) {
    && s.totalInvoiced == Total(items, Invoiced)
    && s.totalCollected == Total(items, Collected)
    && s.totalOutstanding == OpenBalance(items)
    && s.collectionRate
         == (if s.totalInvoiced > 0 then s.totalCollected as real / s.totalInvoiced as real else 0.0)
    && (forall st :: st in s.byStatus <==> st in Keys(items, ByStatus))
    && (forall st :: st in s.byStatus ==> s.byStatus[st] == GroupTotal(items, ByStatus, st, Invoiced))
    && |s.byProperty| == |Keys(items, ByProperty)|
    && (forall n :: 0 <= n < |s.byProperty| ==>
          var pid := Keys(items, ByProperty)[n];
          s.byProperty[n] == PropertyRevenue(pid, NameOf(pid, names), SumsOf(items, pid)))
  }

  method GroupByStatus(items: seq<Invoice>) returns (byStatus: map<string, int>)
    ensures forall st :: st in byStatus <==> st in Keys(items, ByStatus)
    ensures forall st :: st in byStatus ==> byStatus[st] == GroupTotal(items, ByStatus, st, Invoiced)
  {
    byStatus := map[];
    for n := 0 to |items|
      invariant forall st :: st in byStatus <==> st in Keys(items[..n], ByStatus)
      invariant forall st ::
        (if st in byStatus then byStatus[st] else 0) == GroupTotal(items[..n], ByStatus, st, Invoiced)
    {
      assert items[..n + 1][..n] == items[..n];
      var inv := items[n];
      if inv.status != "void" {
        byStatus := byStatus[inv.status :=
                             (if inv.status in byStatus then byStatus[inv.status] else 0) + inv.total];
      }
    }
    assert items[..|items|] == items;
  }

  method GroupByProperty(items: seq<Invoice>) returns (order: seq<string>, sums: map<string, Sums>)
    ensures order == Keys(items, ByProperty)
    ensures forall pid :: pid in sums <==> pid in order
    ensures forall pid :: pid in sums ==> sums[pid] == SumsOf(items, pid)
  {
    order, sums := [], map[];
    for n := 0 to |items|
      invariant order == Keys(items[..n], ByProperty)
      invariant forall pid :: pid in sums <==> pid in order
      invariant forall pid :: (if pid in sums then sums[pid] else Sums(0, 0, 0)) == SumsOf(items[..n], pid)
    {
      assert items[..n + 1][..n] == items[..n];
      var inv := items[n];
      if inv.status == "void" {
        continue;
      }
      var pid := inv.propertyId;
      if pid !in sums {
        order := order + [pid];
        sums := sums[pid := Sums(0, 0, 0)];
      }
      var s := sums[pid];
      sums := sums[pid := Sums(s.invoiced + inv.total, s.collected + inv.paid, s.outstanding + inv.balance)];
    }
    assert items[..|items|] == items;
  }

  function NameOf(pid: string, names: map<string, string>): string { if pid in names then names[pid] else pid }

  /** One row per property, with its name if it can be looked up. */
  method ListProperties(order: seq<string>, sums: map<string, Sums>, names: map<string, string>)
    returns (rows: seq<PropertyRevenue>)
    requires forall pid :: pid in order ==> pid in sums
    ensures |rows| == |order|
    ensures forall n :: 0 <= n < |rows| ==>
      rows[n] == PropertyRevenue(order[n], NameOf(order[n], names), sums[order[n]])
  {
    rows := [];
    for n := 0 to |order|
      invariant |rows| == n
      invariant forall m :: 0 <= m < n ==>
        rows[m] == PropertyRevenue(order[m], NameOf(order[m], names), sums[order[m]])
    {
      var pid := order[n];
      rows := rows + [PropertyRevenue(pid, if pid in names then names[pid] else pid, sums[pid])];
    }
  }

  method GetAccountingSummary(items: seq<Invoice>, names: map<string, string>) returns (s: Summary)
    ensures Summarizes(items, names, s)
  {
    var totalInvoiced, totalCollected := Total(items, Invoiced), Total(items, Collected);
    var totalOutstanding := OpenBalance(items);
    var rate := if totalInvoiced > 0 then totalCollected as real / totalInvoiced as real else 0.0;
    var byStatus := GroupByStatus(items);
    var order, sums := GroupByProperty(items);
    var byProperty := ListProperties(order, sums, names);
    s := Summary(totalInvoiced, totalCollected, totalOutstanding, rate, byProperty, byStatus);
  }

  // ---------- The breakdowns agree with the totals ----------

  /** Group totals summed over a list of keys. */
  function SumOver(items: seq<Invoice>, f: Field, keys: seq<string>, a: Amount): int {
    if keys == [] then 0
    else SumOver(items, f, keys[..|keys| - 1], a) + GroupTotal(items, f, keys[|keys| - 1], a)
  }

  predicate Distinct(keys: seq<string>) {
    forall m, n :: 0 <= m < n < |keys| ==> keys[m] != keys[n]
  }

  lemma {:induction false} KeysFacts(items: seq<Invoice>, f: Field)
    ensures Distinct(Keys(items, f))
    ensures forall inv :: inv in items && Counts(inv) ==> KeyOf(f, inv) in Keys(items, f)
  {
    if items != [] {
      var rest := items[..|items| - 1];
      KeysFacts(rest, f);
      assert items == rest + [items[|items| - 1]];
    }
  }

  /** One more invoice adds its amount once to the sum over distinct keys that include its own. */
  lemma {:induction false} SumOverSnoc(items: seq<Invoice>, inv: Invoice, f: Field, keys: seq<string>, a: Amount)
    requires Distinct(keys)
    ensures SumOver(items + [inv], f, keys, a)
         == SumOver(items, f, keys, a)
            + (if Counts(inv) && KeyOf(f, inv) in keys then AmountOf(a, inv) else 0)
    decreases |keys|
  {
    if keys != [] {
      var rest, key := keys[..|keys| - 1], keys[|keys| - 1];
      SumOverSnoc(items, inv, f, rest, a);
      assert (items + [inv])[..|items|] == items;
      assert keys == rest + [key];
    }
  }

  lemma {:induction false} SumOverNothing(f: Field, keys: seq<string>, a: Amount)
    ensures SumOver([], f, keys, a) == 0
    decreases |keys|
  {
    if keys != [] {
      SumOverNothing(f, keys[..|keys| - 1], a);
    }
  }

  /** Over distinct keys that cover every counted invoice, the groups add up to the flat sum. */
  lemma {:induction false} GroupsPartition(items: seq<Invoice>, f: Field, keys: seq<string>, a: Amount)
    requires Distinct(keys)
    requires forall inv :: inv in items && Counts(inv) ==> KeyOf(f, inv) in keys
    ensures SumOver(items, f, keys, a) == Total(items, a)
    decreases |items|
  {
    if items == [] {
      SumOverNothing(f, keys, a);
    } else {
      var rest, inv := items[..|items| - 1], items[|items| - 1];
      assert items == rest + [inv];
      GroupsPartition(rest, f, keys, a);
      SumOverSnoc(rest, inv, f, keys, a);
    }
  }

  lemma {:induction false} OpenAndPaid(items: seq<Invoice>)
    ensures Total(items, Outstanding) == OpenBalance(items) + PaidBalance(items)
  {
    if items != [] {
      OpenAndPaid(items[..|items| - 1]);
    }
  }

  function RowSum(rows: seq<PropertyRevenue>, a: Amount): int {
    if rows == [] then 0
    else
      var s := rows[|rows| - 1].sums;
      RowSum(rows[..|rows| - 1], a)
      + (match a case Invoiced => s.invoiced case Collected => s.collected case Outstanding => s.outstanding)
  }

  lemma {:induction false} RowsAreGroups(items: seq<Invoice>, rows: seq<PropertyRevenue>, keys: seq<string>, a: Amount)
    requires |rows| == |keys| && forall n :: 0 <= n < |rows| ==> rows[n].sums == SumsOf(items, keys[n])
    ensures RowSum(rows, a) == SumOver(items, ByProperty, keys, a)
    decreases |rows|
  {
    if rows != [] {
      RowsAreGroups(items, rows[..|rows| - 1], keys[..|keys| - 1], a);
    }
  }

  /** The values of a dict, summed in the order of the given keys. */
  function ValueSum(m: map<string, int>, keys: seq<string>): int
    requires forall k :: k in keys ==> k in m
  {
    if keys == [] then 0 else ValueSum(m, keys[..|keys| - 1]) + m[keys[|keys| - 1]]
  }

  lemma {:induction false} ValuesAreGroups(items: seq<Invoice>, m: map<string, int>, keys: seq<string>)
    requires forall k :: k in keys ==> k in m && m[k] == GroupTotal(items, ByStatus, k, Invoiced)
    ensures ValueSum(m, keys) == SumOver(items, ByStatus, keys, Invoiced)
    decreases |keys|
  {
    if keys != [] {
      assert keys == keys[..|keys| - 1] + [keys[|keys| - 1]];
      ValuesAreGroups(items, m, keys[..|keys| - 1]);
    }
  }

  /**
   * Every response: the property rows and the status entries add up to total_invoiced, the rows
   * to total_collected, and the rows' outstanding exceeds total_outstanding by what is left on
   * paid invoices. The status sum runs over all keys of the dict, each once.
   */
  lemma AggregationAgrees(items: seq<Invoice>, names: map<string, string>, s: Summary, statuses: seq<string>)
    requires Summarizes(items, names, s)
    requires Distinct(statuses) && forall st :: st in statuses <==> st in s.byStatus
    ensures RowSum(s.byProperty, Invoiced) == s.totalInvoiced == ValueSum(s.byStatus, statuses)
    ensures RowSum(s.byProperty, Collected) == s.totalCollected
    ensures RowSum(s.byProperty, Outstanding) - s.totalOutstanding == PaidBalance(items)
  {
    var pids := Keys(items, ByProperty);
    KeysFacts(items, ByProperty);
    KeysFacts(items, ByStatus);
    forall a ensures RowSum(s.byProperty, a) == Total(items, a) {
      RowsAreGroups(items, s.byProperty, pids, a);
      GroupsPartition(items, ByProperty, pids, a);
    }
    ValuesAreGroups(items, s.byStatus, statuses);
    GroupsPartition(items, ByStatus, statuses, Invoiced);
    OpenAndPaid(items);
  }

  // ---------- What one more invoice does to a response ----------

  /** The row of a property, or zeros. */
  function RowOf(rows: seq<PropertyRevenue>, pid: string): Sums {
    if rows == [] then Sums(0, 0, 0)
    else if rows[|rows| - 1].propertyId == pid then rows[|rows| - 1].sums
    else RowOf(rows[..|rows| - 1], pid)
  }

  function StatusOf(byStatus: map<string, int>, st: string): int { if st in byStatus then byStatus[st] else 0 }

  lemma {:induction false} NoneOfKey(items: seq<Invoice>, f: Field, key: string, a: Amount)
    ensures key !in Keys(items, f) ==> GroupTotal(items, f, key, a) == 0
  {
    if items != [] {
      NoneOfKey(items[..|items| - 1], f, key, a);
    }
  }

  lemma {:induction false} RowsHold(items: seq<Invoice>, rows: seq<PropertyRevenue>, keys: seq<string>, pid: string)
    requires |rows| == |keys|
    requires forall n :: 0 <= n < |rows| ==> rows[n].propertyId == keys[n] && rows[n].sums == SumsOf(items, keys[n])
    ensures RowOf(rows, pid) == if pid in keys then SumsOf(items, pid) else Sums(0, 0, 0)
    decreases |rows|
  {
    if rows != [] {
      var rest := keys[..|keys| - 1];
      RowsHold(items, rows[..|rows| - 1], rest, pid);
      assert keys == rest + [keys[|keys| - 1]];
    }
  }

  lemma ResponseRow(items: seq<Invoice>, names: map<string, string>, s: Summary, pid: string)
    requires Summarizes(items, names, s)
    ensures RowOf(s.byProperty, pid) == SumsOf(items, pid)
  {
    RowsHold(items, s.byProperty, Keys(items, ByProperty), pid);
    NoneOfKey(items, ByProperty, pid, Invoiced);
    NoneOfKey(items, ByProperty, pid, Collected);
    NoneOfKey(items, ByProperty, pid, Outstanding);
  }

  lemma ResponseStatus(items: seq<Invoice>, names: map<string, string>, s: Summary, st: string)
    requires Summarizes(items, names, s)
    ensures StatusOf(s.byStatus, st) == GroupTotal(items, ByStatus, st, Invoiced)
  {
    NoneOfKey(items, ByStatus, st, Invoiced);
  }

  lemma TotalsSnoc(items: seq<Invoice>, inv: Invoice, f: Field, key: string, a: Amount)
    ensures Total(items + [inv], a) == Total(items, a) + (if Counts(inv) then AmountOf(a, inv) else 0)
    ensures OpenBalance(items + [inv])
         == OpenBalance(items) + (if inv.status != "void" && inv.status != "paid" then inv.balance else 0)
    ensures GroupTotal(items + [inv], f, key, a)
         == GroupTotal(items, f, key, a) + (if Counts(inv) && KeyOf(f, inv) == key then AmountOf(a, inv) else 0)
  {
    assert (items + [inv])[..|items|] == items;
  }

  /** No invoices, no amounts. */
  lemma EmptyResponse(names: map<string, string>, s: Summary, key: string)
    requires Summarizes([], names, s)
    ensures s.totalInvoiced == s.totalCollected == s.totalOutstanding == 0 && s.collectionRate == 0.0
    ensures RowOf(s.byProperty, key) == Sums(0, 0, 0) && StatusOf(s.byStatus, key) == 0
  {
    ResponseRow([], names, s, key);
    ResponseStatus([], names, s, key);
  }

  /**
   * One more invoice raises the totals by its own total and paid amount, and its balance unless it
   * is paid; its property's row by all three; and its status by its total. A void one raises
   * nothing, and no other row or status changes.
   */
  lemma OneMoreInvoice(items: seq<Invoice>, inv: Invoice, names: map<string, string>, s: Summary, s': Summary,
                       key: string)
    requires Summarizes(items, names, s) && Summarizes(items + [inv], names, s')
    ensures inv.status == "void" ==>
      && s'.totalInvoiced == s.totalInvoiced && s'.totalCollected == s.totalCollected
      && s'.totalOutstanding == s.totalOutstanding
      && RowOf(s'.byProperty, key) == RowOf(s.byProperty, key)
      && StatusOf(s'.byStatus, key) == StatusOf(s.byStatus, key)
    ensures inv.status != "void" ==>
      && s'.totalInvoiced == s.totalInvoiced + inv.total && s'.totalCollected == s.totalCollected + inv.paid
      && s'.totalOutstanding == s.totalOutstanding + (if inv.status == "paid" then 0 else inv.balance)
      && (var old_, now := RowOf(s.byProperty, key), RowOf(s'.byProperty, key);
          if key == inv.propertyId
          then now == Sums(old_.invoiced + inv.total, old_.collected + inv.paid, old_.outstanding + inv.balance)
          else now == old_)
      && StatusOf(s'.byStatus, key) == StatusOf(s.byStatus, key) + (if key == inv.status then inv.total else 0)
  {
    ResponseRow(items, names, s, key);
    ResponseRow(items + [inv], names, s', key);
    ResponseStatus(items, names, s, key);
    ResponseStatus(items + [inv], names, s', key);
    TotalsSnoc(items, inv, ByProperty, key, Invoiced);
    TotalsSnoc(items, inv, ByProperty, key, Collected);
    TotalsSnoc(items, inv, ByProperty, key, Outstanding);
    TotalsSnoc(items, inv, ByStatus, key, Invoiced);
  }

  /** The collection rate is the collected share, or zero if nothing was invoiced. */
  lemma RateIsShare(items: seq<Invoice>, names: map<string, string>, s: Summary)
    requires Summarizes(items, names, s)
    ensures s.totalInvoiced > 0 ==> s.collectionRate * s.totalInvoiced as real == s.totalCollected as real
    ensures s.totalInvoiced <= 0 ==> s.collectionRate == 0.0
  {}

  lemma {:induction false} BalancedSums(items: seq<Invoice>)
    requires forall inv :: inv in items && inv.status != "void" ==> inv.total == inv.paid + inv.balance
    ensures Total(items, Invoiced) == Total(items, Collected) + Total(items, Outstanding)
    decreases |items|
  {
    if items != [] {
      var rest, inv := items[..|items| - 1], items[|items| - 1];
      assert items == rest + [inv] && inv in items;
      assert forall x :: x in rest ==> x in items;
      BalancedSums(rest);
    }
  }

  /** If every counted invoice balances, so does every response, up to what is left on paid invoices. */
  lemma BooksBalance(items: seq<Invoice>, names: map<string, string>, s: Summary)
    requires Summarizes(items, names, s)
    requires forall inv :: inv in items && inv.status != "void" ==> inv.total == inv.paid + inv.balance
    ensures s.totalInvoiced == s.totalCollected + s.totalOutstanding + PaidBalance(items)
  {
    BalancedSums(items);
    OpenAndPaid(items);
  }

  /** Every row is named by its property, or by the id if the property is not found. */
  lemma RowNames(items: seq<Invoice>, names: map<string, string>, s: Summary, n: nat)
    requires Summarizes(items, names, s) && n < |s.byProperty|
    ensures var row := s.byProperty[n];
      if row.propertyId in names then row.name == names[row.propertyId] else row.name == row.propertyId
  {}

  /** There is a row for exactly the properties of invoices that are not void, and one each. */
  lemma RowsAre(items: seq<Invoice>, names: map<string, string>, s: Summary, pid: string)
    requires Summarizes(items, names, s)
    ensures (exists n :: 0 <= n < |s.byProperty| && s.byProperty[n].propertyId == pid)
       <==> exists inv :: inv in items && inv.status != "void" && inv.propertyId == pid
    ensures forall m, n :: 0 <= m < n < |s.byProperty| ==> s.byProperty[m].propertyId != s.byProperty[n].propertyId
  {
    KeysFacts(items, ByProperty);
    KeysComeFrom(items, ByProperty, pid);
    var keys := Keys(items, ByProperty);
    assert forall n :: 0 <= n < |s.byProperty| ==> s.byProperty[n].propertyId == keys[n];
    if inv :| inv in items && inv.status != "void" && inv.propertyId == pid {
      assert KeyOf(ByProperty, inv) in keys;
      var n :| 0 <= n < |keys| && keys[n] == pid;
      assert s.byProperty[n].propertyId == pid;
    }
    if n :| 0 <= n < |s.byProperty| && s.byProperty[n].propertyId == pid {
      assert keys[n] in keys;
    }
  }

  lemma {:induction false} KeysComeFrom(items: seq<Invoice>, f: Field, key: string)
    ensures key in Keys(items, f) ==> exists inv :: inv in items && Counts(inv) && KeyOf(f, inv) == key
  {
    if items != [] {
      var rest, last := items[..|items| - 1], items[|items| - 1];
      KeysComeFrom(rest, f, key);
      assert items == rest + [last] && last in items;
      if inv :| inv in rest && Counts(inv) && KeyOf(f, inv) == key {
        assert inv in items;
      }
    }
  }
}
