/** Deposit deductions and the append-only ledger journal behind them. Amounts are whole cents. */
module DeductionLedger {
  import opened Options

  datatype Key = Key(orgId: string, leaseId: string)

  /** A deduction's id is its position. */
  datatype Deduction = Deduction(key: Key, amount: int, deleted: bool)

  datatype Kind = Debit | Credit

  datatype Entry = Entry(key: Key, kind: Kind, amount: int, runningBalance: int, createdAt: int)

  datatype Books = Books(leases: set<Key>, deductions: seq<Deduction>, entries: seq<Entry>)

  // ---------- Queries ----------

  /** Sorted by created_at, newest first, the first one: of equal times, the one inserted first. */
  function Latest(entries: seq<Entry>, key: Key): (r: Option<Entry>)
    ensures r.Some? ==> r.value in entries && r.value.key == key
  {
    if entries == [] then None
    else
      var rest, e := Latest(entries[..|entries| - 1], key), entries[|entries| - 1];
      if e.key == key && (rest.None? || e.createdAt > rest.value.createdAt) then Some(e) else rest
  }

  function LastBalance(entries: seq<Entry>, key: Key): int {
    match Latest(entries, key) case None => 0 case Some(e) => e.runningBalance
  }

  predicate Active(d: Deduction, key: Key) { d.key == key && !d.deleted }

  function ActiveTotal(ds: seq<Deduction>, key: Key): int {
    if ds == [] then 0
    else
      var d := ds[|ds| - 1];
      ActiveTotal(ds[..|ds| - 1], key) + (if Active(d, key) then d.amount else 0)
  }

  predicate Deletable(b: Books, id: nat, orgId: string) {
    id < |b.deductions| && b.deductions[id].key.orgId == orgId && !b.deductions[id].deleted
  }

  // ---------- The operations on values ----------

  function Add(b: Books, key: Key, amount: int, now: int): Books {
    if key !in b.leases then b
    else b.(deductions := b.deductions + [Deduction(key, amount, false)],
            entries := b.entries + [Entry(key, Debit, amount, LastBalance(b.entries, key) - amount, now)])
  }

  function Delete(b: Books, id: nat, orgId: string, now: int): Books {
    if !Deletable(b, id, orgId) then b
    else
      var d := b.deductions[id];
      b.(entries := if d.key !in b.leases then b.entries
                    else b.entries + [Entry(d.key, Credit, d.amount, LastBalance(b.entries, d.key) + d.amount, now)],
         deductions := b.deductions[id := d.(deleted := true)])
  }

  datatype Outcome = Ok | NotFound

  /** The service over its repositories; each method is one request. */
  class LeaseLedger {
    var leases: set<Key>
    var deductions: seq<Deduction>
    var entries: seq<Entry>

    function View(): Books
      reads this
    {
      Books(leases, deductions, entries)
    }

    constructor (b: Books)
      ensures View() == b
    {
      leases, deductions, entries := b.leases, b.deductions, b.entries;
    }

    /** ledger_repository.last_balance */
    method ReadLastBalance(key: Key) returns (balance: int)
      ensures balance == LastBalance(entries, key)
    {
      var best: Option<Entry> := None;
      for n := 0 to |entries|
        invariant best == Latest(entries[..n], key)
      {
        assert entries[..n + 1][..n] == entries[..n];
        if entries[n].key == key && (best.None? || entries[n].createdAt > best.value.createdAt) {
          best := Some(entries[n]);
        }
      }
      assert entries[..|entries|] == entries;
      balance := if best.Some? then best.value.runningBalance else 0;
    }

    /** The schema admits positive amounts only. */
    method AddDeduction(key: Key, amount: int, now: int) returns (r: Outcome)
      requires amount > 0
      modifies this
      ensures View() == Add(old(View()), key, amount, now)
      ensures r == Ok <==> key in old(leases)
    {
      if key !in leases {
        return NotFound;
      }
      deductions := deductions + [Deduction(key, amount, false)];
      var lastBalance := ReadLastBalance(key);
      entries := entries + [Entry(key, Debit, amount, lastBalance - amount, now)];
      r := Ok;
    }

    /** Newest first, with their sum. */
    method ListDeductions(key: Key) returns (r: Outcome, items: seq<nat>, total: int)
      ensures r == Ok <==> key in leases
      ensures r == Ok ==> total == ActiveTotal(deductions, key)
      ensures r == Ok ==> forall id: nat :: id in items <==> id < |deductions| && Active(deductions[id], key)
      ensures forall m, n :: 0 <= m < n < |items| ==> items[m] > items[n]
    {
      items, total := [], 0;
      if key !in leases {
        return NotFound, items, total;
      }
      for n := 0 to |deductions|
        invariant total == ActiveTotal(deductions[..n], key)
        invariant forall id: nat :: id in items <==> id < n && Active(deductions[id], key)
        invariant forall j, k :: 0 <= j < k < |items| ==> items[j] > items[k]
      {
        assert deductions[..n + 1][..n] == deductions[..n];
        if Active(deductions[n], key) {
          total := total + deductions[n].amount;
          assert forall k :: 0 <= k < |items| ==> items[k] in items;
          assert forall id: nat :: id in [n] + items <==> id == n || id in items;
          items := [n] + items;
        }
      }
      assert deductions[..|deductions|] == deductions;
      r := Ok;
    }

    method DeleteDeduction(id: nat, orgId: string, now: int) returns (r: Outcome)
      modifies this
      ensures View() == Delete(old(View()), id, orgId, now)
      ensures r == Ok <==> Deletable(old(View()), id, orgId)
    {
      if id >= |deductions| || deductions[id].key.orgId != orgId || deductions[id].deleted {
        return NotFound;
      }
      var deduction := deductions[id];
      var lastBalance := ReadLastBalance(deduction.key);
      if deduction.key in leases {
        entries := entries + [Entry(deduction.key, Credit, deduction.amount, lastBalance + deduction.amount, now)];
      }
      deduction := deduction.(deleted := true);
      deductions := deductions[id := deduction];
      r := Ok;
    }
  }

  // ---------- One request ----------

  /** Strictly later than every entry of the journal. */
  ghost predicate Later(entries: seq<Entry>, now: int) {
    forall e :: e in entries ==> e.createdAt < now
  }

  lemma LatestAppended(entries: seq<Entry>, e: Entry, key: Key)
    ensures Latest(entries + [e], key)
         == if e.key == key && (Latest(entries, key).None? || e.createdAt > Latest(entries, key).value.createdAt)
            then Some(e) else Latest(entries, key)
  {
    assert (entries + [e])[..|entries|] == entries;
  }

  lemma TotalAppended(ds: seq<Deduction>, d: Deduction, key: Key)
    ensures ActiveTotal(ds + [d], key) == ActiveTotal(ds, key) + (if Active(d, key) then d.amount else 0)
  {
    assert (ds + [d])[..|ds|] == ds;
  }

  lemma {:induction false} TotalReplaced(ds: seq<Deduction>, id: nat, d: Deduction, key: Key)
    requires id < |ds|
    ensures ActiveTotal(ds[id := d], key)
         == ActiveTotal(ds, key) - (if Active(ds[id], key) then ds[id].amount else 0)
            + (if Active(d, key) then d.amount else 0)
    decreases |ds|
  {
    var last := |ds| - 1;
    if id == last {
      assert ds[id := d][..last] == ds[..last];
    } else {
      assert ds[id := d][..last] == ds[..last][id := d];
      TotalReplaced(ds[..last], id, d, key);
    }
  }

  /** The last balance follows an added deduction exactly if the clock has moved on. */
  lemma AddNeedsTheClock(b: Books, key: Key, amount: int, now: int)
    requires key in b.leases && amount > 0
    requires Latest(b.entries, key).Some? ==> Latest(b.entries, key).value.createdAt != now
    ensures LastBalance(Add(b, key, amount, now).entries, key) == LastBalance(b.entries, key) - amount
       <==> (Latest(b.entries, key).Some? ==> Latest(b.entries, key).value.createdAt < now)
  {
    LatestAppended(b.entries, Entry(key, Debit, amount, LastBalance(b.entries, key) - amount, now), key);
  }

  /** A later entry's running balance is the last balance. */
  lemma BalanceAppended(entries: seq<Entry>, e: Entry)
    requires Later(entries, e.createdAt)
    ensures LastBalance(entries + [e], e.key) == e.runningBalance
  {
    LatestAppended(entries, e, e.key);
    assert Latest(entries, e.key).Some? ==> Latest(entries, e.key).value in entries;
  }

  /** Deleting keeps last balance + active deductions exactly if the lease is still there. */
  lemma DeleteConservesIffLeasePresent(b: Books, id: nat, orgId: string, now: int)
    requires Deletable(b, id, orgId) && b.deductions[id].amount > 0 && Later(b.entries, now)
    ensures var key, b' := b.deductions[id].key, Delete(b, id, orgId, now);
      LastBalance(b'.entries, key) + ActiveTotal(b'.deductions, key)
        == LastBalance(b.entries, key) + ActiveTotal(b.deductions, key)
      <==> key in b.leases
  {
    var d := b.deductions[id];
    TotalReplaced(b.deductions, id, d.(deleted := true), d.key);
    LatestAppended(b.entries, Entry(d.key, Credit, d.amount, LastBalance(b.entries, d.key) + d.amount, now), d.key);
  }

  /** A second delete of the same deduction changes nothing. */
  lemma DeleteTwice(b: Books, id: nat, orgId: string, now: int, later: int)
    ensures !Deletable(Delete(b, id, orgId, now), id, orgId)
    ensures Delete(Delete(b, id, orgId, now), id, orgId, later) == Delete(b, id, orgId, now)
  {}

  // ---------- Any run ----------

  datatype Op =
    | DoAdd(key: Key, amount: int)
    | DoDelete(id: nat, orgId: string)
    | LeaseGone(key: Key)

  datatype Timed = Timed(op: Op, now: int)

  function Step(b: Books, t: Timed): Books {
    match t.op
    case DoAdd(key, amount) => Add(b, key, amount, t.now)
    case DoDelete(id, orgId) => Delete(b, id, orgId, t.now)
    case LeaseGone(key) => b.(leases := b.leases - {key})
  }

  function Run(b: Books, ops: seq<Timed>): Books
    decreases |ops|
  {
    if ops == [] then b else Step(Run(b, ops[..|ops| - 1]), ops[|ops| - 1])
  }

  /** Request times increase strictly, starting after the journal. */
  ghost predicate Clocked(b: Books, ops: seq<Timed>) {
    && (forall n :: 0 <= n < |ops| ==> Later(b.entries, ops[n].now))
    && (forall m, n :: 0 <= m < n < |ops| ==> ops[m].now < ops[n].now)
  }

  function Signed(e: Entry): int { if e.kind.Credit? then e.amount else -e.amount }

  function SignedSum(entries: seq<Entry>, key: Key): int {
    if entries == [] then 0
    else
      var e := entries[|entries| - 1];
      SignedSum(entries[..|entries| - 1], key) + (if e.key == key then Signed(e) else 0)
  }

  /** Each new entry's running balance is the signed sum of the lease's journal up to it. */
  ghost predicate PrefixSums(added: seq<Entry>, key: Key, base: int) {
    forall n :: 0 <= n < |added| && added[n].key == key ==>
      added[n].runningBalance == base + SignedSum(added[..n + 1], key)
  }

  lemma PrefixSumsAppended(added: seq<Entry>, e: Entry, key: Key, base: int)
    requires PrefixSums(added, key, base)
    requires e.key == key ==> e.runningBalance == base + SignedSum(added, key) + Signed(e)
    ensures PrefixSums(added + [e], key, base)
    ensures SignedSum(added + [e], key) == SignedSum(added, key) + (if e.key == key then Signed(e) else 0)
  {
    assert (added + [e])[..|added|] == added;
    forall n | 0 <= n < |added + [e]| && (added + [e])[n].key == key
      ensures (added + [e])[n].runningBalance == base + SignedSum((added + [e])[..n + 1], key)
    {
      if n < |added| {
        assert (added + [e])[..n + 1] == added[..n + 1];
      } else {
        assert (added + [e])[..n + 1] == added + [e];
      }
    }
  }

  /** Appending an entry whose running balance continues the last one. */
  lemma JournalAppended(before: seq<Entry>, added: seq<Entry>, e: Entry, key: Key)
    requires Later(before + added, e.createdAt)
    requires PrefixSums(added, key, LastBalance(before, key))
    requires LastBalance(before + added, key) == LastBalance(before, key) + SignedSum(added, key)
    requires e.runningBalance == LastBalance(before + added, e.key) + Signed(e)
    ensures PrefixSums(added + [e], key, LastBalance(before, key))
    ensures before + added + [e] == before + (added + [e])
    ensures LastBalance(before + (added + [e]), key)
         == LastBalance(before, key) + SignedSum(added + [e], key)
  {
    PrefixSumsAppended(added, e, key, LastBalance(before, key));
    assert before + added + [e] == before + (added + [e]);
    LatestAppended(before + added, e, key);
  }

  lemma SignedSumOne(e: Entry, key: Key)
    ensures SignedSum([], key) == 0 && SignedSum([e], key) == if e.key == key then Signed(e) else 0
  {
    assert [e][..0] == [];
  }

  lemma StepAppends(b: Books, t: Timed, key: Key) returns (added: seq<Entry>)
    ensures Step(b, t).entries == b.entries + added && Continues(b.entries, added, t.now)
    ensures key in b.leases ==>
      ActiveTotal(Step(b, t).deductions, key) - ActiveTotal(b.deductions, key) == -SignedSum(added, key)
  {
    added := [];
    match t.op
    case DoAdd(k, amount) =>
      if k in b.leases {
        var e := Entry(k, Debit, amount, LastBalance(b.entries, k) - amount, t.now);
        added := [e];
        TotalAppended(b.deductions, Deduction(k, amount, false), key);
        SignedSumOne(e, key);
      }
    case DoDelete(id, orgId) =>
      if Deletable(b, id, orgId) {
        var d := b.deductions[id];
        var e := Entry(d.key, Credit, d.amount, LastBalance(b.entries, d.key) + d.amount, t.now);
        added := if d.key in b.leases then [e] else [];
        TotalReplaced(b.deductions, id, d.(deleted := true), key);
        SignedSumOne(e, key);
      }
    case LeaseGone(_) =>
  }

  lemma {:induction false} SignedSumConcat(a: seq<Entry>, c: seq<Entry>, key: Key)
    ensures SignedSum(a + c, key) == SignedSum(a, key) + SignedSum(c, key)
    decreases |c|
  {
    if c == [] {
      assert a + c == a;
    } else {
      assert (a + c)[..|a + c| - 1] == a + c[..|c| - 1];
      SignedSumConcat(a, c[..|c| - 1], key);
    }
  }

  /** The journal after a run that has added these entries. */
  ghost predicate JournalFollows(b: Books, b': Books, added: seq<Entry>, key: Key) {
    && b'.entries == b.entries + added
    && PrefixSums(added, key, LastBalance(b.entries, key))
    && LastBalance(b'.entries, key) == LastBalance(b.entries, key) + SignedSum(added, key)
  }

  /** The deductions of a present lease after such a run. */
  ghost predicate TotalFollows(b: Books, b': Books, added: seq<Entry>, key: Key) {
    key in b'.leases && ActiveTotal(b'.deductions, key) == ActiveTotal(b.deductions, key) - SignedSum(added, key)
  }

  /** At most one entry, stamped now, whose running balance continues its lease's. */
  ghost predicate Continues(entries: seq<Entry>, more: seq<Entry>, now: int) {
    && |more| <= 1
    && forall e :: e in more ==> e.createdAt == now && e.runningBalance == LastBalance(entries, e.key) + Signed(e)
  }

  lemma JournalStep(b: Books, b': Books, added: seq<Entry>, b'': Books, more: seq<Entry>, now: int, key: Key)
    requires JournalFollows(b, b', added, key) && Later(b.entries + added, now)
    requires b''.entries == b'.entries + more && Continues(b'.entries, more, now)
    ensures JournalFollows(b, b'', added + more, key)
  {
    if more == [] {
      assert added + more == added && b'.entries + more == b'.entries;
    } else {
      assert more == [more[0]] && more[0] in more;
      JournalAppended(b.entries, added, more[0], key);
    }
  }

  lemma TotalStep(b: Books, b': Books, added: seq<Entry>, t: Timed, more: seq<Entry>, key: Key)
    requires TotalFollows(b, b', added, key) && t.op != LeaseGone(key)
    requires ActiveTotal(Step(b', t).deductions, key) - ActiveTotal(b'.deductions, key) == -SignedSum(more, key)
    ensures TotalFollows(b, Step(b', t), added + more, key)
  {
    SignedSumConcat(added, more, key);
  }

  lemma FollowsStep(b: Books, b': Books, added: seq<Entry>, t: Timed, key: Key) returns (more: seq<Entry>)
    requires JournalFollows(b, b', added, key) && Later(b.entries + added, t.now)
    ensures JournalFollows(b, Step(b', t), added + more, key)
    ensures TotalFollows(b, b', added, key) && t.op != LeaseGone(key) ==>
      TotalFollows(b, Step(b', t), added + more, key)
    ensures forall e :: e in more ==> e.createdAt == t.now
  {
    more := StepAppends(b', t, key);
    JournalStep(b, b', added, Step(b', t), more, t.now, key);
    if TotalFollows(b, b', added, key) && t.op != LeaseGone(key) {
      TotalStep(b, b', added, t, more, key);
    }
  }

  /**
   * Existing entries never change, and every new running balance is a signed prefix sum; on a
   * lease that stays present, the active deductions change by the opposite of that sum.
   */
  lemma {:induction false} JournalOfRun(b: Books, ops: seq<Timed>, key: Key) returns (added: seq<Entry>)
    requires Clocked(b, ops)
    ensures JournalFollows(b, Run(b, ops), added, key)
    ensures key in b.leases && (forall n :: 0 <= n < |ops| ==> ops[n].op != LeaseGone(key)) ==>
      TotalFollows(b, Run(b, ops), added, key)
    ensures forall e :: e in added ==> ops != [] && e.createdAt <= ops[|ops| - 1].now
    decreases |ops|
  {
    if ops == [] {
      added := [];
      assert b.entries + [] == b.entries;
    } else {
      var rest, t := ops[..|ops| - 1], ops[|ops| - 1];
      added := JournalOfRun(b, rest, key);
      var more := FollowsStep(b, Run(b, rest), added, t, key);
      added := added + more;
    }
  }

  /**
   * On a lease that stays present, after any run of clocked requests, the last balance is the
   * initial one minus the change of the listed total, and the old journal is still its prefix.
   */
  lemma LedgerConservation(b: Books, ops: seq<Timed>, key: Key)
    requires Clocked(b, ops) && key in b.leases
    requires forall n :: 0 <= n < |ops| ==> ops[n].op != LeaseGone(key)
    ensures LastBalance(Run(b, ops).entries, key) + ActiveTotal(Run(b, ops).deductions, key)
         == LastBalance(b.entries, key) + ActiveTotal(b.deductions, key)
    ensures b.entries <= Run(b, ops).entries
  {
    var added := JournalOfRun(b, ops, key);
  }

  // ---------- What a request changes ----------

  /** A delete changes the books exactly for a known deduction of its own org that is still active. */
  lemma DeleteChangesWhen(b: Books, id: nat, orgId: string, now: int)
    ensures Delete(b, id, orgId, now) != b
       <==> id < |b.deductions| && b.deductions[id].key.orgId == orgId && !b.deductions[id].deleted
  {
    if Deletable(b, id, orgId) {
      assert Delete(b, id, orgId, now).deductions[id].deleted;
    }
  }

  /** It flags that deduction only, and credits its amount to its lease if the lease is there. */
  lemma DeleteChangesWhat(b: Books, id: nat, orgId: string, now: int)
    requires Delete(b, id, orgId, now) != b
    ensures id < |b.deductions|
    ensures var d, b' := b.deductions[id], Delete(b, id, orgId, now);
      && b'.leases == b.leases
      && b'.deductions == b.deductions[id := Deduction(d.key, d.amount, true)]
      && (d.key !in b.leases ==> b'.entries == b.entries)
      && (d.key in b.leases ==>
            b'.entries == b.entries
              + [Entry(d.key, Credit, d.amount, LastBalance(b.entries, d.key) + d.amount, now)])
  {}

  /** An add changes the books exactly for a known lease, by one active deduction and its debit. */
  lemma AddChanges(b: Books, key: Key, amount: int, now: int)
    ensures key !in b.leases ==> Add(b, key, amount, now) == b
    ensures key in b.leases ==>
      var b' := Add(b, key, amount, now);
      && b'.leases == b.leases && b'.deductions == b.deductions + [Deduction(key, amount, false)]
      && b'.entries == b.entries + [Entry(key, Debit, amount, LastBalance(b.entries, key) - amount, now)]
  {}

  /** e is the newest entry of its lease. */
  ghost predicate IsNewestOf(entries: seq<Entry>, e: Entry) {
    e in entries && forall x :: x in entries && x.key == e.key && x != e ==> x.createdAt < e.createdAt
  }

  /** The last balance is zero for a lease without entries, and else that of its newest entry. */
  lemma BalanceIsNewest(entries: seq<Entry>, key: Key, e: Entry)
    ensures (forall x :: x in entries ==> x.key != key) ==> LastBalance(entries, key) == 0
    ensures IsNewestOf(entries, e) && e.key == key ==> LastBalance(entries, key) == e.runningBalance
  {
    LatestIsNewest(entries, key);
  }

  lemma {:induction false} LatestIsNewest(entries: seq<Entry>, key: Key)
    ensures Latest(entries, key).None? <==> forall e :: e in entries ==> e.key != key
    ensures forall e :: e in entries && e.key == key ==>
      Latest(entries, key).Some? && e.createdAt <= Latest(entries, key).value.createdAt
    decreases |entries|
  {
    if entries != [] {
      var rest, last := entries[..|entries| - 1], entries[|entries| - 1];
      LatestIsNewest(rest, key);
      assert entries == rest + [last];
      assert forall e :: e in entries <==> e in rest || e == last;
    }
  }
}
