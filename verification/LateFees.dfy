/** apply_late_fees_for_org: the late-fee sweep over an org's overdue invoices. */
module LateFees {
  import opened Options
  import opened Money

  /** fee_value: a percentage of the balance as a fraction, or a fixed amount in cents. */
  datatype Fee = Percent(num: int, den: Positive) | Fixed(cents: int)

  datatype Setting = Setting(enabled: bool, graceDays: int, fee: Fee, maxApplications: int)

  /** What looking up an invoice's property yields. */
  datatype Lookup = NoProperty | NoSetting | Found(setting: Setting) | LookupRaises

  datatype Line = Line(kind: string, amount: int)

  datatype Header = Header(orgId: string, propertyId: string, status: string, deleted: bool, dueDay: Option<int>)

  /** fees: late_fees_applied. feeAmount: late_fee_amount. */
  datatype Account = Account(total: int, balance: int, fees: nat, feeAmount: int)

  datatype Invoice = Invoice(header: Header, account: Account, lines: seq<Line>)

  /** One run of the sweep: its arguments, the properties, and the positions whose save raises. */
  datatype Sweep = Sweep(orgId: string, today: int, properties: map<string, Lookup>, saveFails: set<nat>)

  predicate Overdue(inv: Invoice, orgId: string) {
    inv.header.orgId == orgId && inv.header.status == "overdue" && !inv.header.deleted
  }

  function Property(sw: Sweep, inv: Invoice): Lookup {
    if inv.header.propertyId in sw.properties then sw.properties[inv.header.propertyId] else NoProperty
  }

  function DaysOverdue(inv: Invoice, today: int): int {
    match inv.header.dueDay case None => 0 case Some(day) => today - day
  }

  function FeeAmount(fee: Fee, balance: int): int {
    match fee
    case Percent(num, den) => RoundHalfEven(balance * num, 100 * den)
    case Fixed(cents) => cents
  }

  /** The fee due on an overdue invoice; None if a guard skips it or the lookup raises. */
  function Due(sw: Sweep, inv: Invoice): Option<int> {
    match Property(sw, inv)
    case Found(setting) =>
      var amount := FeeAmount(setting.fee, inv.account.balance);
      if !setting.enabled || DaysOverdue(inv, sw.today) < setting.graceDays
         || (setting.maxApplications > 0 && inv.account.fees >= setting.maxApplications)
         || amount <= 0
      then None else Some(amount)
    case _ => None
  }

  function Charged(inv: Invoice, amount: int): Invoice {
    var a := inv.account;
    Invoice(inv.header,
            Account(a.total + amount, a.balance + amount, a.fees + 1, a.feeAmount + amount),
            inv.lines + [Line("late_fee", amount)])
  }

  /** What the invoice at position i is in the store after the sweep. */
  function Swept(sw: Sweep, inv: Invoice, i: nat): Invoice {
    if Overdue(inv, sw.orgId) && Due(sw, inv).Some? && i !in sw.saveFails
    then Charged(inv, Due(sw, inv).value) else inv
  }

  function SweptAll(sw: Sweep, invoices: seq<Invoice>): seq<Invoice> {
    seq(|invoices|, i requires 0 <= i < |invoices| => Swept(sw, invoices[i], i))
  }

  function Totals(invoices: seq<Invoice>): int {
    if invoices == [] then 0
    else Totals(invoices[..|invoices| - 1]) + invoices[|invoices| - 1].account.total
  }

  function FeeCount(invoices: seq<Invoice>): nat {
    if invoices == [] then 0
    else FeeCount(invoices[..|invoices| - 1]) + invoices[|invoices| - 1].account.fees
  }

  function OverdueCount(invoices: seq<Invoice>, orgId: string): nat {
    if invoices == [] then 0
    else
      var last := |invoices| - 1;
      OverdueCount(invoices[..last], orgId) + (if Overdue(invoices[last], orgId) then 1 else 0)
  }

  lemma {:induction false} Replaced(invoices: seq<Invoice>, i: nat, inv: Invoice)
    requires i < |invoices|
    ensures Totals(invoices[i := inv]) == Totals(invoices) - invoices[i].account.total + inv.account.total
    ensures FeeCount(invoices[i := inv]) == FeeCount(invoices) - invoices[i].account.fees + inv.account.fees
    decreases |invoices|
  {
    var last := |invoices| - 1;
    if i == last {
      assert invoices[i := inv][..last] == invoices[..last];
    } else {
      assert invoices[i := inv][..last] == invoices[..last][i := inv];
      Replaced(invoices[..last], i, inv);
    }
  }

  /** The store once the first k overdue invoices are through. */
  ghost predicate SweptUpTo(sw: Sweep, before: seq<Invoice>, now: seq<Invoice>, found: seq<nat>, k: nat) {
    && k <= |found| && |now| == |before|
    && forall i :: 0 <= i < |before| ==>
         now[i] == if i in found[..k] then Swept(sw, before[i], i) else before[i]
  }

  lemma SweepOne(sw: Sweep, before: seq<Invoice>, now: seq<Invoice>, found: seq<nat>, k: nat)
    requires SweptUpTo(sw, before, now, found, k) && k < |found| && found[k] < |before|
    requires forall j :: 0 <= j < k ==> found[j] < found[k]
    ensures now[found[k]] == before[found[k]]
    ensures SweptUpTo(sw, before, now[found[k] := Swept(sw, before[found[k]], found[k])], found, k + 1)
  {
    assert found[..k + 1] == found[..k] + [found[k]];
    assert found[k] !in found[..k];
  }

  /** The counters agree with the store. */
  ghost predicate Booked(before: seq<Invoice>, now: seq<Invoice>, applied: int, totalAmount: int) {
    applied == FeeCount(now) - FeeCount(before) && totalAmount == Totals(now) - Totals(before)
  }

  lemma BookOne(before: seq<Invoice>, now: seq<Invoice>, applied: int, totalAmount: int, i: nat, amount: int)
    requires i < |now| && Booked(before, now, applied, totalAmount)
    ensures Booked(before, now[i := Charged(now[i], amount)], applied + 1, totalAmount + amount)
  {
    Replaced(now, i, Charged(now[i], amount));
  }

  lemma SweptThrough(sw: Sweep, before: seq<Invoice>, now: seq<Invoice>, found: seq<nat>)
    requires SweptUpTo(sw, before, now, found, |found|)
    requires forall i :: 0 <= i < |before| && Overdue(before[i], sw.orgId) ==> i in found
    ensures now == SweptAll(sw, before)
  {
    assert found[..|found|] == found;
  }

  /**
   * A sweep changes an invoice exactly if it is this org's, overdue and not deleted, its property
   * has an enabled setting, the due day plus the grace days has come (without a due day, there are
   * no grace days), there is room under the cap, the fee is positive, and the save succeeds.
   */
  lemma ChargedWhen(sw: Sweep, invoices: seq<Invoice>, i: nat)
    requires i < |invoices|
    ensures var inv := invoices[i];
      SweptAll(sw, invoices)[i] != inv
      <==>
      && inv.header.orgId == sw.orgId && inv.header.status == "overdue" && !inv.header.deleted
      && inv.header.propertyId in sw.properties && sw.properties[inv.header.propertyId].Found?
      && i !in sw.saveFails
      && var setting := sw.properties[inv.header.propertyId].setting;
         && setting.enabled
         && (match inv.header.dueDay
             case Some(d) => d + setting.graceDays <= sw.today
             case None => setting.graceDays <= 0)
         && (setting.maxApplications <= 0 || inv.account.fees < setting.maxApplications)
         && (match setting.fee
             case Fixed(cents) => cents > 0
             case Percent(num, den) => 2 * (inv.account.balance * num) > 100 * den)
  {
    var inv := invoices[i];
    ChargeChanges(inv);
    if Property(sw, inv).Found? && Property(sw, inv).setting.fee.Percent? {
      var fee := Property(sw, inv).setting.fee;
      assert 100 * fee.den > 0;
      AtLeastOne(inv.account.balance * fee.num, 100 * fee.den);
    }
  }

  lemma ChargeChanges(inv: Invoice)
    ensures forall amount :: Charged(inv, amount) != inv
  {
    forall amount ensures Charged(inv, amount) != inv {
      assert |Charged(inv, amount).lines| == |inv.lines| + 1;
    }
  }

  /** The fee is added to everything once: exactly the fixed one, or the percentage up to half a cent. */
  lemma ChargedHowMuch(sw: Sweep, invoices: seq<Invoice>, i: nat) returns (fee: int)
    requires i < |invoices| && SweptAll(sw, invoices)[i] != invoices[i]
    ensures fee > 0
    ensures var a, b := invoices[i], SweptAll(sw, invoices)[i];
      && b.header == a.header && b.lines == a.lines + [Line("late_fee", fee)]
      && b.account.total == a.account.total + fee && b.account.balance == a.account.balance + fee
      && b.account.fees == a.account.fees + 1 && b.account.feeAmount == a.account.feeAmount + fee
    ensures invoices[i].header.propertyId in sw.properties && sw.properties[invoices[i].header.propertyId].Found?
    ensures match sw.properties[invoices[i].header.propertyId].setting.fee
      case Fixed(cents) => fee == cents
      case Percent(num, den) =>
        var error: int := 2 * (fee * (100 * den) - invoices[i].account.balance * num); -100 * den <= error <= 100 * den
  {
    fee := Due(sw, invoices[i]).value;
    var setting := Property(sw, invoices[i]).setting;
    if setting.fee.Percent? {
      RoundingError(invoices[i].account.balance * setting.fee.num, 100 * setting.fee.den);
    }
  }

  class InvoiceStore {
    var invoices: seq<Invoice>

    constructor (invoices: seq<Invoice>)
      ensures this.invoices == invoices
    {
      this.invoices := invoices;
    }

    /** The positions that the query finds, in order. */
    method FindOverdue(orgId: string) returns (found: seq<nat>)
      ensures forall k :: 0 <= k < |found| ==> found[k] < |invoices| && Overdue(invoices[found[k]], orgId)
      ensures forall j, k :: 0 <= j < k < |found| ==> found[j] < found[k]
      ensures forall i :: 0 <= i < |invoices| && Overdue(invoices[i], orgId) ==> i in found
      ensures |found| == OverdueCount(invoices, orgId)
    {
      found := [];
      for n := 0 to |invoices|
        invariant forall k :: 0 <= k < |found| ==> found[k] < n && Overdue(invoices[found[k]], orgId)
        invariant forall j, k :: 0 <= j < k < |found| ==> found[j] < found[k]
        invariant forall i :: 0 <= i < n && Overdue(invoices[i], orgId) ==> i in found
        invariant |found| == OverdueCount(invoices[..n], orgId)
      {
        assert invoices[..n + 1][..n] == invoices[..n];
        if Overdue(invoices[n], orgId) {
          found := found + [n];
        }
      }
      assert invoices[..|invoices|] == invoices;
    }

    method ApplyLateFees(sw: Sweep) returns (applied: nat, skipped: nat, totalAmount: int)
      modifies this
      ensures invoices == SweptAll(sw, old(invoices))
      ensures applied + skipped == OverdueCount(old(invoices), sw.orgId)
      ensures applied == FeeCount(invoices) - FeeCount(old(invoices))
      ensures totalAmount == Totals(invoices) - Totals(old(invoices))
    {
      ghost var before := invoices;
      var found := FindOverdue(sw.orgId);
      applied, skipped, totalAmount := 0, 0, 0;
      var k := 0;
      while k < |found|
        invariant SweptUpTo(sw, before, invoices, found, k)
        invariant applied + skipped == k
        invariant Booked(before, invoices, applied, totalAmount)
      {
        var n := found[k];
        SweepOne(sw, before, invoices, found, k);
        assert invoices[n := invoices[n]] == invoices;
        k := k + 1;
        var inv := invoices[n];
        var lookup := Property(sw, inv);
        if lookup.LookupRaises? {
          skipped := skipped + 1;
          continue;
        }
        if !lookup.Found? || !lookup.setting.enabled {
          skipped := skipped + 1;
          continue;
        }
        var lfs := lookup.setting;
        var daysOverdue := DaysOverdue(inv, sw.today);
        if daysOverdue < lfs.graceDays {
          skipped := skipped + 1;
          continue;
        }
        if lfs.maxApplications > 0 && inv.account.fees >= lfs.maxApplications {
          skipped := skipped + 1;
          continue;
        }
        var feeAmount := FeeAmount(lfs.fee, inv.account.balance);
        if feeAmount <= 0 {
          skipped := skipped + 1;
          continue;
        }
        inv := inv.(lines := inv.lines + [Line("late_fee", feeAmount)]);
        inv := inv.(account := inv.account.(total := inv.account.total + feeAmount));
        inv := inv.(account := inv.account.(balance := inv.account.balance + feeAmount));
        inv := inv.(account := inv.account.(fees := inv.account.fees + 1));
        inv := inv.(account := inv.account.(feeAmount := inv.account.feeAmount + feeAmount));
        if n in sw.saveFails {
          skipped := skipped + 1;
          continue;
        }
        assert inv == Charged(invoices[n], feeAmount);
        BookOne(before, invoices, applied, totalAmount, n, feeAmount);
        invoices := invoices[n := inv];
        applied := applied + 1;
        totalAmount := totalAmount + feeAmount;
      }
      SweptThrough(sw, before, invoices, found);
    }
  }

  // ---------- Any sequence of sweeps ----------

  function Sweeps(sws: seq<Sweep>, invoices: seq<Invoice>): seq<Invoice>
    decreases |sws|
  {
    if sws == [] then invoices else SweptAll(sws[|sws| - 1], Sweeps(sws[..|sws| - 1], invoices))
  }

  function LateFeeLines(lines: seq<Line>): nat {
    if lines == [] then 0
    else LateFeeLines(lines[..|lines| - 1]) + (if lines[|lines| - 1].kind == "late_fee" then 1 else 0)
  }

  function LateFeeSum(lines: seq<Line>): int {
    if lines == [] then 0
    else
      var last := |lines| - 1;
      LateFeeSum(lines[..last]) + (if lines[last].kind == "late_fee" then lines[last].amount else 0)
  }

  lemma LinesAppended(lines: seq<Line>, amount: int)
    ensures LateFeeLines(lines + [Line("late_fee", amount)]) == LateFeeLines(lines) + 1
    ensures LateFeeSum(lines + [Line("late_fee", amount)]) == LateFeeSum(lines) + amount
  {
    assert (lines + [Line("late_fee", amount)])[..|lines|] == lines;
  }

  /** What no sweep changes about an invoice. */
  ghost predicate SameBooks(a: Invoice, b: Invoice) {
    && a.header == b.header
    && a.account.total - a.account.balance == b.account.total - b.account.balance
    && a.account.fees - LateFeeLines(a.lines) == b.account.fees - LateFeeLines(b.lines)
    && a.account.feeAmount - LateFeeSum(a.lines) == b.account.feeAmount - LateFeeSum(b.lines)
    && a.account.total - a.account.feeAmount == b.account.total - b.account.feeAmount
    && a.lines <= b.lines
  }

  /**
   * Over any sweeps an invoice keeps total - balance, and late_fees_applied and late_fee_amount
   * grow by exactly the number and the sum of the late_fee lines added.
   */
  lemma {:induction false} SweepsKeepBooks(sws: seq<Sweep>, invoices: seq<Invoice>, i: nat)
    requires i < |invoices|
    ensures |Sweeps(sws, invoices)| == |invoices|
    ensures SameBooks(invoices[i], Sweeps(sws, invoices)[i])
    decreases |sws|
  {
    if sws != [] {
      var rest := sws[..|sws| - 1];
      SweepsKeepBooks(rest, invoices, i);
      var inv := Sweeps(rest, invoices)[i];
      match Due(sws[|sws| - 1], inv)
      case Some(amount) => LinesAppended(inv.lines, amount);
      case None =>
    }
  }

  function Max(a: int, b: int): int { if a > b then a else b }

  /** With the same positive cap in every sweep, no invoice exceeds it unless it already did. */
  lemma {:induction false} CapRespected(sws: seq<Sweep>, invoices: seq<Invoice>, i: nat, cap: nat)
    requires i < |invoices| && cap > 0
    requires forall sw :: sw in sws && Property(sw, invoices[i]).Found? ==>
      Property(sw, invoices[i]).setting.maxApplications == cap
    ensures |Sweeps(sws, invoices)| == |invoices|
    ensures Sweeps(sws, invoices)[i].account.fees <= Max(invoices[i].account.fees, cap)
    decreases |sws|
  {
    if sws != [] {
      var rest, last := sws[..|sws| - 1], sws[|sws| - 1];
      CapRespected(rest, invoices, i, cap);
      SweepsKeepBooks(rest, invoices, i);
      assert last in sws;
      assert Property(last, Sweeps(rest, invoices)[i]) == Property(last, invoices[i]);
    }
  }
}
