/** Reference numbers from an org's counter, and work-order numbers from a count. */
module References {
  import Decimal

  function Reference(prefix: string, counter: nat): string {
    prefix + "-" + Decimal.Padded(Decimal.Text(counter), 6)
  }

  lemma ReferenceInjective(prefix: string, m: nat, n: nat)
    ensures Reference(prefix, m) == Reference(prefix, n) <==> m == n
  {
    Decimal.PaddedInjective(m, n, 6);
    var a, b := Decimal.Padded(Decimal.Text(m), 6), Decimal.Padded(Decimal.Text(n), 6);
    assert Reference(prefix, m)[|prefix + "-"|..] == a;
    assert Reference(prefix, n)[|prefix + "-"|..] == b;
  }

  /** find_one_and_update with $inc; without the org document nothing is stored. */
  function Bumped(counters: map<string, nat>, orgId: string): map<string, nat> {
    if orgId in counters then counters[orgId := counters[orgId] + 1] else counters
  }

  function Answer(counters: map<string, nat>, orgId: string, prefix: string): string {
    Reference(prefix, if orgId in counters then counters[orgId] + 1 else 1)
  }

  class OrgCounters {
    var counters: map<string, nat>

    constructor (counters: map<string, nat>)
      ensures this.counters == counters
    {
      this.counters := counters;
    }

    method NextReferenceNumber(orgId: string, prefix: string) returns (reference: string)
      modifies this
      ensures counters == Bumped(old(counters), orgId)
      ensures reference == Answer(old(counters), orgId, prefix)
    {
      var counter := 1;
      if orgId in counters {
        counters := counters[orgId := counters[orgId] + 1];
        counter := counters[orgId];
      }
      reference := prefix + "-" + Decimal.Padded(Decimal.Text(counter), 6);
    }
  }

  datatype Call = Call(orgId: string, prefix: string)

  function CountersAfter(counters: map<string, nat>, calls: seq<Call>): map<string, nat>
    decreases |calls|
  {
    if calls == [] then counters
    else Bumped(CountersAfter(counters, calls[..|calls| - 1]), calls[|calls| - 1].orgId)
  }

  /** The answer to the n-th of a sequence of atomic calls, whoever makes them. */
  function Issued(counters: map<string, nat>, calls: seq<Call>, n: nat): string
    requires n < |calls|
  {
    Answer(CountersAfter(counters, calls[..n]), calls[n].orgId, calls[n].prefix)
  }

  lemma {:induction false} CountersGrow(counters: map<string, nat>, calls: seq<Call>, m: nat, orgId: string)
    requires m <= |calls|
    ensures var a, b := CountersAfter(counters, calls[..m]), CountersAfter(counters, calls);
      && (orgId in a <==> orgId in counters) && (orgId in b <==> orgId in counters)
      && (orgId in counters ==> a[orgId] <= b[orgId])
    decreases |calls|
  {
    if m == |calls| {
      assert calls[..m] == calls;
      if calls != [] {
        CountersGrow(counters, calls[..m - 1], 0, orgId);
      }
    } else {
      assert calls[..|calls| - 1][..m] == calls[..m];
      CountersGrow(counters, calls[..|calls| - 1], m, orgId);
    }
  }

  /** Two answers under one prefix of one org differ exactly if the org document exists. */
  lemma ReferencesDistinctIffOrgExists(counters: map<string, nat>, calls: seq<Call>, i: nat, j: nat)
    requires i < j < |calls| && calls[i] == calls[j]
    ensures Issued(counters, calls, i) != Issued(counters, calls, j) <==> calls[i].orgId in counters
  {
    var org, prefix := calls[i].orgId, calls[i].prefix;
    assert calls[..i + 1][..i] == calls[..i];
    assert calls[..j][..i + 1] == calls[..i + 1];
    CountersGrow(counters, calls[..i], 0, org);
    CountersGrow(counters, calls[..j], i + 1, org);
    var a, b := CountersAfter(counters, calls[..i]), CountersAfter(counters, calls[..j]);
    if org in counters {
      ReferenceInjective(prefix, a[org] + 1, b[org] + 1);
    }
  }

  // ---------- Work orders: the number is a count ----------

  datatype WorkOrder = WorkOrder(orgId: string, number: string)

  function CountFor(orders: seq<WorkOrder>, orgId: string): nat {
    if orders == [] then 0
    else CountFor(orders[..|orders| - 1], orgId) + (if orders[|orders| - 1].orgId == orgId then 1 else 0)
  }

  function NumberFor(count: nat): string { "WO-" + Decimal.Padded(Decimal.Text(count + 1), 5) }

  lemma NumberInjective(m: nat, n: nat)
    ensures NumberFor(m) == NumberFor(n) <==> m == n
  {
    Decimal.PaddedInjective(m + 1, n + 1, 5);
    assert NumberFor(m)[3..] == Decimal.Padded(Decimal.Text(m + 1), 5);
    assert NumberFor(n)[3..] == Decimal.Padded(Decimal.Text(n + 1), 5);
  }

  class WorkOrders {
    var frameworks: set<(string, string)>    // org and framework id
    var orders: seq<WorkOrder>

    constructor (frameworks: set<(string, string)>)
      ensures orders == [] && this.frameworks == frameworks
    {
      orders := [];
      this.frameworks := frameworks;
    }

    method NextWorkOrderNumber(orgId: string) returns (number: string)
      ensures number == NumberFor(CountFor(orders, orgId))
    {
      var count := 0;
      for n := 0 to |orders|
        invariant count == CountFor(orders[..n], orgId)
      {
        assert orders[..n + 1][..n] == orders[..n];
        if orders[n].orgId == orgId {
          count := count + 1;
        }
      }
      assert orders[..|orders|] == orders;
      number := "WO-" + Decimal.Padded(Decimal.Text(count + 1), 5);
    }

    method Create(doc: WorkOrder)
      modifies this`orders
      ensures orders == old(orders) + [doc]
    {
      orders := orders + [doc];
    }

    /** A request that runs alone: look up the framework, take a number, then create. */
    method CreateWorkOrder(orgId: string, frameworkId: string) returns (found: bool)
      modifies this`orders
      ensures found <==> (orgId, frameworkId) in frameworks
      ensures orders == if found then old(orders) + [WorkOrder(orgId, NumberFor(CountFor(old(orders), orgId)))]
                        else old(orders)
    {
      if (orgId, frameworkId) !in frameworks {
        return false;
      }
      var number := NextWorkOrderNumber(orgId);
      Create(WorkOrder(orgId, number));
      found := true;
    }
  }

  /** n requests one after the other. */
  function Sequentially(orders: seq<WorkOrder>, orgIds: seq<string>): seq<WorkOrder>
    decreases |orgIds|
  {
    if orgIds == [] then orders
    else
      var before, org := Sequentially(orders, orgIds[..|orgIds| - 1]), orgIds[|orgIds| - 1];
      before + [WorkOrder(org, NumberFor(CountFor(before, org)))]
  }

  /** The orders of one org, in order. */
  function OrdersOf(orders: seq<WorkOrder>, orgId: string): seq<WorkOrder> {
    if orders == [] then []
    else
      var o := orders[|orders| - 1];
      OrdersOf(orders[..|orders| - 1], orgId) + (if o.orgId == orgId then [o] else [])
  }

  /** Run one after the other, each org's requests get the numbers 1, 2, ... without a gap. */
  lemma {:induction false} SequentialNumbers(orgIds: seq<string>, orgId: string)
    ensures var own := OrdersOf(Sequentially([], orgIds), orgId);
      && |own| == CountFor(Sequentially([], orgIds), orgId)
      && forall n :: 0 <= n < |own| ==> own[n].number == NumberFor(n)
    decreases |orgIds|
  {
    if orgIds != [] {
      var rest, org := orgIds[..|orgIds| - 1], orgIds[|orgIds| - 1];
      SequentialNumbers(rest, orgId);
      var before := Sequentially([], rest);
      var order := WorkOrder(org, NumberFor(CountFor(before, org)));
      assert (before + [order])[..|before|] == before;
    }
  }

  datatype Event = Ask(orgId: string) | Insert(order: WorkOrder)

  function OrdersAfter(orders: seq<WorkOrder>, events: seq<Event>): seq<WorkOrder>
    decreases |events|
  {
    if events == [] then orders
    else
      var before, e := OrdersAfter(orders, events[..|events| - 1]), events[|events| - 1];
      if e.Insert? then before + [e.order] else before
  }

  predicate InsertsFor(e: Event, orgId: string) { e.Insert? && e.order.orgId == orgId }

  function CountAfter(orders: seq<WorkOrder>, events: seq<Event>, orgId: string): nat {
    CountFor(OrdersAfter(orders, events), orgId)
  }

  lemma CountOneMore(orders: seq<WorkOrder>, events: seq<Event>, orgId: string)
    requires events != []
    ensures CountAfter(orders, events, orgId)
         == CountAfter(orders, events[..|events| - 1], orgId)
            + (if InsertsFor(events[|events| - 1], orgId) then 1 else 0)
  {
    var before, e := OrdersAfter(orders, events[..|events| - 1]), events[|events| - 1];
    if e.Insert? {
      assert (before + [e.order])[..|before|] == before;
    }
  }

  /** From m on the count never falls, and stands still while nothing is created. */
  lemma {:induction false} CountFrom(orders: seq<WorkOrder>, events: seq<Event>, m: nat, orgId: string)
    requires m <= |events|
    ensures CountAfter(orders, events[..m], orgId) <= CountAfter(orders, events, orgId)
    ensures (forall k :: m <= k < |events| ==> !InsertsFor(events[k], orgId)) ==>
      CountAfter(orders, events[..m], orgId) == CountAfter(orders, events, orgId)
    decreases |events|
  {
    if m == |events| {
      assert events[..m] == events;
    } else {
      assert events[..|events| - 1][..m] == events[..m];
      CountFrom(orders, events[..|events| - 1], m, orgId);
      CountOneMore(orders, events, orgId);
    }
  }

  lemma CountRises(orders: seq<WorkOrder>, events: seq<Event>, m: nat, k: nat, orgId: string)
    requires m <= k < |events| && InsertsFor(events[k], orgId)
    ensures CountAfter(orders, events[..m], orgId) < CountAfter(orders, events, orgId)
  {
    assert events[..k][..m] == events[..m];
    CountFrom(orders, events[..k], m, orgId);
    assert events[..k + 1][..k] == events[..k];
    CountOneMore(orders, events[..k + 1], orgId);
    CountFrom(orders, events, k + 1, orgId);
  }

  /** In any interleaving, two asked numbers differ exactly if an order was created in between. */
  lemma WorkOrderNumbersDistinctIffCreatedBetween(orders: seq<WorkOrder>, events: seq<Event>,
                                                  i: nat, j: nat, orgId: string)
    requires i < j < |events| && events[i] == events[j] == Ask(orgId)
    ensures NumberFor(CountAfter(orders, events[..i], orgId)) != NumberFor(CountAfter(orders, events[..j], orgId))
       <==> exists k :: i < k < j && InsertsFor(events[k], orgId)
  {
    assert events[..j][..i] == events[..i];
    CountFrom(orders, events[..j], i, orgId);
    NumberInjective(CountAfter(orders, events[..i], orgId), CountAfter(orders, events[..j], orgId));
    if k :| i < k < j && InsertsFor(events[k], orgId) {
      CountRises(orders, events[..j], i, k, orgId);
    }
  }

  // ---------- What the numbers are ----------

  /** A decimal numeral of at least so many digits, and of no more than it needs beyond. */
  lemma PaddedNumeral(n: nat, width: nat) returns (digits: string)
    ensures digits == Decimal.Padded(Decimal.Text(n), width)
    ensures Decimal.AllDigits(digits) && Decimal.Value(digits) == n
    ensures |digits| == if |Decimal.Text(n)| >= width then |Decimal.Text(n)| else width
  {
    digits := Decimal.Padded(Decimal.Text(n), width);
    Decimal.ValueOfText(n);
    Decimal.ValueOfPadded(Decimal.Text(n), width);
  }

  function CallsFor(calls: seq<Call>, orgId: string): nat {
    if calls == [] then 0
    else CallsFor(calls[..|calls| - 1], orgId) + (if calls[|calls| - 1].orgId == orgId then 1 else 0)
  }

  lemma {:induction false} CounterCounts(counters: map<string, nat>, calls: seq<Call>, orgId: string)
    requires orgId in counters
    ensures orgId in CountersAfter(counters, calls)
    ensures CountersAfter(counters, calls)[orgId] == counters[orgId] + CallsFor(calls, orgId)
    decreases |calls|
  {
    if calls != [] {
      CounterCounts(counters, calls[..|calls| - 1], orgId);
    }
  }

  /**
   * In any interleaving, the k-th call of an existing org gets its counter plus k, after the prefix
   * and a hyphen, in at least six digits.
   */
  lemma IssuedNumber(counters: map<string, nat>, calls: seq<Call>, n: nat) returns (digits: string)
    requires n < |calls| && calls[n].orgId in counters
    ensures Issued(counters, calls, n) == calls[n].prefix + "-" + digits
    ensures Decimal.AllDigits(digits) && |digits| >= 6
    ensures Decimal.Value(digits) == counters[calls[n].orgId] + CallsFor(calls[..n], calls[n].orgId) + 1
  {
    CounterCounts(counters, calls[..n], calls[n].orgId);
    digits := PaddedNumeral(counters[calls[n].orgId] + CallsFor(calls[..n], calls[n].orgId) + 1, 6);
  }

  /** The n-th work order of an org, counted from one, is WO- and n in at least five digits. */
  lemma SequentialValues(orgIds: seq<string>, orgId: string, n: nat) returns (digits: string)
    requires n < |OrdersOf(Sequentially([], orgIds), orgId)|
    ensures OrdersOf(Sequentially([], orgIds), orgId)[n].number == "WO-" + digits
    ensures Decimal.AllDigits(digits) && |digits| >= 5 && Decimal.Value(digits) == n + 1
  {
    SequentialNumbers(orgIds, orgId);
    digits := PaddedNumeral(n + 1, 5);
  }

  /** Without the org document every call gets number one. */
  lemma MissingOrgNumber(counters: map<string, nat>, calls: seq<Call>, n: nat) returns (digits: string)
    requires n < |calls| && calls[n].orgId !in counters
    ensures Issued(counters, calls, n) == calls[n].prefix + "-" + digits
    ensures Decimal.AllDigits(digits) && |digits| >= 6 && Decimal.Value(digits) == 1
  {
    CountersGrow(counters, calls[..n], 0, calls[n].orgId);
    digits := PaddedNumeral(1, 6);
  }
}
