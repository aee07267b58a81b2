/**
 * Any number of deductions added to one lease at the same time. The entries that the last balance
 * rests on form a chain, each having read the balance of the one before; what is not in the chain
 * is lost, and that happens exactly if some entry is inserted while another request has read the
 * balance and not yet inserted its own.
 */
module LedgerAdds {
  import opened Options
  import opened DeductionLedger
  import opened ConcurrentLedger

  /** A set of requests, by position. */
  type Mask = seq<bool>

  function MaskSum(amounts: seq<int>, m: Mask): int
    requires |m| == |amounts|
  {
    if m == [] then 0
    else
      var last := |m| - 1;
      MaskSum(amounts[..last], m[..last]) + (if m[last] then amounts[last] else 0)
  }

  function All(n: nat): Mask { seq(n, _ => true) }

  lemma {:induction false} SumWith(amounts: seq<int>, m: Mask, n: nat)
    requires |m| == |amounts| && n < |m| && !m[n]
    ensures MaskSum(amounts, m[n := true]) == MaskSum(amounts, m) + amounts[n]
    decreases |m|
  {
    var last := |m| - 1;
    if n == last {
      assert m[n := true][..last] == m[..last];
    } else {
      assert m[n := true][..last] == m[..last][n := true];
      SumWith(amounts[..last], m[..last], n);
    }
  }

  /** A part of positive amounts falls short of the whole exactly if something is missing. */
  lemma {:induction false} SumOfPart(amounts: seq<int>, m: Mask)
    requires |m| == |amounts| && forall i :: 0 <= i < |amounts| ==> amounts[i] > 0
    ensures MaskSum(amounts, m) <= MaskSum(amounts, All(|m|))
    ensures MaskSum(amounts, m) == MaskSum(amounts, All(|m|)) <==> forall i :: 0 <= i < |m| ==> m[i]
    decreases |m|
  {
    if m != [] {
      var last := |m| - 1;
      SumOfPart(amounts[..last], m[..last]);
      assert All(|m|)[..last] == All(last);
      assert forall i :: 0 <= i < last ==> m[i] == m[..last][i];
    }
  }

  // ---------- The requests ----------

  /** Adds of these amounts to this lease. */
  predicate AreAdds(s: System, key: Key, amounts: seq<int>) {
    && |s.tasks| == |amounts| && Sound(s) && key in s.books.leases
    && forall n :: 0 <= n < |amounts| ==> IsAdd(s.tasks[n], key, amounts[n])
  }

  predicate IsAdd(t: Task, key: Key, amount: int) {
    t.request.AddRequest? && t.d.key == key && t.d.amount == amount && amount > 0 && !t.at.Refused?
  }

  predicate IsRecorded(t: Task) { t.at.Recorded? || t.at.Ready? || t.at.Finished? }

  function RecordedMask(tasks: seq<Task>): Mask {
    seq(|tasks|, n requires 0 <= n < |tasks| => IsRecorded(tasks[n]))
  }

  predicate Recorded(s: System, key: Key, amounts: seq<int>, active: int)
    requires |s.tasks| == |amounts|
  {
    ActiveTotal(s.books.deductions, key) == active + MaskSum(amounts, RecordedMask(s.tasks))
  }

  /** main: the chain of the last balance. of: for each request, the chain of the balance it has read. */
  datatype Chains = Chains(main: Mask, of: seq<Mask>)

  predicate OnlyFinished(tasks: seq<Task>, m: Mask) {
    |m| == |tasks| && forall i :: 0 <= i < |m| && m[i] ==> tasks[i].at.Finished?
  }

  /** The balance that a request has read is the first one less the amounts of its chain. */
  predicate ReadChain(tasks: seq<Task>, n: nat, m: Mask, amounts: seq<int>, balance: int)
    requires n < |tasks| == |amounts|
  {
    OnlyFinished(tasks, m) && (tasks[n].at.Ready? ==> tasks[n].seen == balance - MaskSum(amounts, m))
  }

  predicate Chained(s: System, key: Key, amounts: seq<int>, balance: int, w: Chains)
    requires |s.tasks| == |amounts|
  {
    && |w.of| == |s.tasks| && OnlyFinished(s.tasks, w.main)
    && LastBalance(s.books.entries, key) == balance - MaskSum(amounts, w.main)
    && forall n :: 0 <= n < |s.tasks| ==> ReadChain(s.tasks, n, w.of[n], amounts, balance)
  }

  predicate NotBoth(m: Mask, x: nat, y: nat) { x < |m| && y < |m| ==> !m[x] || !m[y] }

  /** x has been inserted in the window of y: no chain will ever hold both. */
  predicate Parted(s: System, w: Chains, x: nat, y: nat) {
    && x < |s.tasks| == |w.of| && y < |s.tasks| && x != y
    && s.tasks[x].at.Finished?
    && (s.tasks[y].at.Finished? || (s.tasks[y].at.Ready? && x < |w.of[y]| && !w.of[y][x]))
    && NotBoth(w.main, x, y)
    && forall n :: 0 <= n < |w.of| ==> NotBoth(w.of[n], x, y)
  }

  // ---------- One step ----------

  lemma AddsStep(s: System, n: nat, now: int, key: Key, amounts: seq<int>)
    requires AreAdds(s, key, amounts) && Advance(s, Proceed(n, now)).Some?
    ensures AreAdds(Advance(s, Proceed(n, now)).value, key, amounts)
  {
    StepKeepsSound(s, Proceed(n, now));
    assert IsAdd(s.tasks[n], key, amounts[n]) && Holds(s.books, s.tasks[n]);
  }

  lemma RecordedStep(s: System, n: nat, now: int, key: Key, amounts: seq<int>, active: int)
    requires AreAdds(s, key, amounts) && Recorded(s, key, amounts, active) && Advance(s, Proceed(n, now)).Some?
    ensures Recorded(Advance(s, Proceed(n, now)).value, key, amounts, active)
  {
    var next, t := Advance(s, Proceed(n, now)).value, s.tasks[n];
    assert IsAdd(t, key, amounts[n]) && Holds(s.books, t);
    if t.at.Found? {
      TotalAppended(s.books.deductions, t.d, key);
      SumWith(amounts, RecordedMask(s.tasks), n);
      assert RecordedMask(next.tasks) == RecordedMask(s.tasks)[n := true];
    } else {
      assert RecordedMask(next.tasks) == RecordedMask(s.tasks);
    }
  }

  /** The chains after a step: a read copies the main one, the newest insert becomes it. */
  function Follow(s: System, n: nat, w: Chains): Chains
    requires n < |s.tasks| == |w.of| && |w.of[n]| == |s.tasks|
  {
    var t := s.tasks[n];
    if t.at.Recorded? then w.(of := w.of[n := w.main])
    else if t.at.Ready? && IsNewest(s.books.entries, t.d.key, t.stamp) then w.(main := w.of[n][n := true])
    else w
  }

  lemma StillFinished(s: System, n: nat, now: int, m: Mask)
    requires OnlyFinished(s.tasks, m) && Advance(s, Proceed(n, now)).Some?
    ensures OnlyFinished(Advance(s, Proceed(n, now)).value.tasks, m)
  {}

  lemma MainStep(s: System, n: nat, now: int, key: Key, amounts: seq<int>, balance: int, w: Chains)
    requires AreAdds(s, key, amounts) && Chained(s, key, amounts, balance, w) && Advance(s, Proceed(n, now)).Some?
    ensures n < |w.of| && |w.of[n]| == |s.tasks|
    ensures var next, w' := Advance(s, Proceed(n, now)).value, Follow(s, n, w);
      && OnlyFinished(next.tasks, w'.main)
      && LastBalance(next.books.entries, key) == balance - MaskSum(amounts, w'.main)
  {
    var t := s.tasks[n];
    assert IsAdd(t, key, amounts[n]) && Holds(s.books, t) && ReadChain(s.tasks, n, w.of[n], amounts, balance);
    if t.at.Ready? {
      InsertMoves(s.books, t, key);
      SumWith(amounts, w.of[n], n);
    }
    StillFinished(s, n, now, w.main);
    StillFinished(s, n, now, w.of[n]);
  }

  lemma ReadStep(s: System, n: nat, now: int, k: nat, key: Key, amounts: seq<int>, balance: int, w: Chains)
    requires AreAdds(s, key, amounts) && Chained(s, key, amounts, balance, w) && Advance(s, Proceed(n, now)).Some?
    requires k < |s.tasks|
    ensures n < |w.of| && |w.of[n]| == |s.tasks|
    ensures var next, w' := Advance(s, Proceed(n, now)).value, Follow(s, n, w);
      |w'.of| == |s.tasks| && ReadChain(next.tasks, k, w'.of[k], amounts, balance)
  {
    assert IsAdd(s.tasks[n], key, amounts[n]) && Holds(s.books, s.tasks[n]);
    assert ReadChain(s.tasks, k, w.of[k], amounts, balance) && ReadChain(s.tasks, n, w.of[n], amounts, balance);
    StillFinished(s, n, now, w.of[k]);
    StillFinished(s, n, now, w.main);
  }

  lemma ChainStep(s: System, n: nat, now: int, key: Key, amounts: seq<int>, balance: int, w: Chains)
    requires AreAdds(s, key, amounts) && Chained(s, key, amounts, balance, w) && Advance(s, Proceed(n, now)).Some?
    ensures n < |w.of| && |w.of[n]| == |s.tasks|
    ensures |Advance(s, Proceed(n, now)).value.tasks| == |amounts|
    ensures Chained(Advance(s, Proceed(n, now)).value, key, amounts, balance, Follow(s, n, w))
  {
    MainStep(s, n, now, key, amounts, balance, w);
    forall k | 0 <= k < |s.tasks|
      ensures ReadChain(Advance(s, Proceed(n, now)).value.tasks, k, Follow(s, n, w).of[k], amounts, balance)
    {
      ReadStep(s, n, now, k, key, amounts, balance, w);
    }
  }

  lemma PartedStays(s: System, n: nat, now: int, key: Key, amounts: seq<int>, balance: int, w: Chains, x: nat, y: nat)
    requires AreAdds(s, key, amounts) && Chained(s, key, amounts, balance, w) && Advance(s, Proceed(n, now)).Some?
    requires Parted(s, w, x, y)
    ensures n < |w.of| && |w.of[n]| == |s.tasks|
    ensures Parted(Advance(s, Proceed(n, now)).value, Follow(s, n, w), x, y)
  {
    assert ReadChain(s.tasks, n, w.of[n], amounts, balance) && NotBoth(w.of[n], x, y);
    assert IsAdd(s.tasks[n], key, amounts[n]) && IsAdd(s.tasks[y], key, amounts[y]);
  }

  /** An entry is inserted in the window of another request. */
  lemma OverlapParts(s: System, n: nat, now: int, m: nat, key: Key, amounts: seq<int>, balance: int, w: Chains)
    requires AreAdds(s, key, amounts) && Chained(s, key, amounts, balance, w) && Advance(s, Proceed(n, now)).Some?
    requires m < |s.tasks| && m != n && s.tasks[n].at.Ready? && s.tasks[m].at.Ready?
    ensures n < |w.of| && |w.of[n]| == |s.tasks|
    ensures Parted(Advance(s, Proceed(n, now)).value, Follow(s, n, w), n, m)
  {
    assert IsAdd(s.tasks[n], key, amounts[n]);
    forall k | 0 <= k < |s.tasks| ensures OnlyFinished(s.tasks, w.of[k]) {
      assert ReadChain(s.tasks, k, w.of[k], amounts, balance);
    }
  }

  // ---------- Any run ----------

  /** What is known after a run, and that an overlap has left two requests parted. */
  lemma {:induction false} AddsRun(s: System, events: seq<Event>, key: Key, amounts: seq<int>,
                                   balance: int, active: int, w: Chains, x: nat, y: nat)
    returns (w': Chains, x': nat, y': nat)
    requires AreAdds(s, key, amounts) && Chained(s, key, amounts, balance, w) && Recorded(s, key, amounts, active)
    requires OwnSteps(events) && Play(s, events).Some?
    ensures var last := Play(s, events).value;
      && AreAdds(last, key, amounts) && Chained(last, key, amounts, balance, w') && Recorded(last, key, amounts, active)
      && (Parted(s, w, x, y) || !NoOverlap(s, events, key) ==> Parted(last, w', x', y'))
    decreases |events|
  {
    if events == [] {
      w', x', y' := w, x, y;
    } else {
      assert events[0] in events;
      var n, now, next := events[0].n, events[0].now, Advance(s, events[0]).value;
      AddsStep(s, n, now, key, amounts);
      RecordedStep(s, n, now, key, amounts, active);
      ChainStep(s, n, now, key, amounts, balance, w);
      var u, v := x, y;
      if Parted(s, w, x, y) {
        PartedStays(s, n, now, key, amounts, balance, w, x, y);
      } else if !Guarded(s, events[0], key) {
        v := Overtaken(s, n, now, key, amounts);
        u := n;
        OverlapParts(s, n, now, v, key, amounts, balance, w);
      }
      w', x', y' := AddsRun(next, events[1..], key, amounts, balance, active, Follow(s, n, w), u, v);
    }
  }

  /** The guard of an add fails only for another one that has read and not inserted. */
  lemma Overtaken(s: System, n: nat, now: int, key: Key, amounts: seq<int>) returns (m: nat)
    requires AreAdds(s, key, amounts) && Advance(s, Proceed(n, now)).Some? && !Guarded(s, Proceed(n, now), key)
    ensures m < |s.tasks| && m != n && s.tasks[n].at.Ready? && s.tasks[m].at.Ready?
  {
    assert IsAdd(s.tasks[n], key, amounts[n]) && Holds(s.books, s.tasks[n]);
    m :| 0 <= m < |s.tasks| && m != n && InWindow(s.tasks[m], key);
    assert IsAdd(s.tasks[m], key, amounts[m]) && Holds(s.books, s.tasks[m]);
  }

  function Arrived(b: Books, key: Key, amounts: seq<int>, clock: int): System {
    System(b, seq(|amounts|, n requires 0 <= n < |amounts| => NewTask(b, AddRequest(key, amounts[n]))), clock)
  }

  lemma {:induction false} NoneSum(amounts: seq<int>, m: Mask)
    requires |m| == |amounts| && forall i :: 0 <= i < |m| ==> !m[i]
    ensures MaskSum(amounts, m) == 0
    decreases |m|
  {
    if m != [] {
      NoneSum(amounts[..|m| - 1], m[..|m| - 1]);
    }
  }

  lemma AddsStart(b: Books, key: Key, amounts: seq<int>, clock: int) returns (w: Chains)
    requires key in b.leases && forall i :: 0 <= i < |amounts| ==> amounts[i] > 0
    ensures var s := Arrived(b, key, amounts, clock);
      && AreAdds(s, key, amounts) && Chained(s, key, amounts, LastBalance(b.entries, key), w)
      && Recorded(s, key, amounts, ActiveTotal(b.deductions, key)) && !Parted(s, w, 0, 0)
  {
    var s, none := Arrived(b, key, amounts, clock), seq(|amounts|, _ => false);
    w := Chains(none, seq(|amounts|, _ => none));
    NoneSum(amounts, none);
    NoneSum(amounts, RecordedMask(s.tasks));
  }

  lemma AllRecorded(s: System, key: Key, amounts: seq<int>)
    requires AreAdds(s, key, amounts) && AllOver(s.tasks)
    ensures RecordedMask(s.tasks) == All(|amounts|)
  {
    assert forall n :: 0 <= n < |amounts| ==> IsAdd(s.tasks[n], key, amounts[n]);
  }

  lemma NothingOwedYet(b: Books, key: Key, amounts: seq<int>, clock: int)
    requires key in b.leases && forall e :: e in b.entries ==> e.createdAt <= clock
    ensures Fresh(Arrived(b, key, amounts, clock), key) && OwedSum(Arrived(b, key, amounts, clock).tasks, key) == 0
  {
    StartedOweNothing(Arrived(b, key, amounts, clock).tasks, key);
  }

  lemma {:induction false} StartedOweNothing(tasks: seq<Task>, key: Key)
    requires forall n :: 0 <= n < |tasks| ==> tasks[n].at.Started?
    ensures OwedSum(tasks, key) == 0
    decreases |tasks|
  {
    if tasks != [] {
      StartedOweNothing(tasks[..|tasks| - 1], key);
    }
  }

  /**
   * Any number of adds to one lease, in any interleaving until all are over, keep last balance plus
   * active deductions exactly if no entry was inserted in another's window; otherwise the balance
   * has lost some of the debits and is too high.
   */
  lemma AddsConserveIff(b: Books, key: Key, amounts: seq<int>, clock: int, events: seq<Event>, last: System)
    requires key in b.leases && forall i :: 0 <= i < |amounts| ==> amounts[i] > 0
    requires forall e :: e in b.entries ==> e.createdAt <= clock
    requires OwnSteps(events) && Play(Arrived(b, key, amounts, clock), events) == Some(last) && AllOver(last.tasks)
    ensures Kept(b, last.books, key) <==> NoOverlap(Arrived(b, key, amounts, clock), events, key)
    ensures LastBalance(last.books.entries, key) + ActiveTotal(last.books.deductions, key)
         >= LastBalance(b.entries, key) + ActiveTotal(b.deductions, key)
  {
    var s := Arrived(b, key, amounts, clock);
    var w := AddsStart(b, key, amounts, clock);
    var balance, active := LastBalance(b.entries, key), ActiveTotal(b.deductions, key);
    var w', x, y := AddsRun(s, events, key, amounts, balance, active, w, 0, 0);
    AllRecorded(last, key, amounts);
    SumOfPart(amounts, w'.main);
    if NoOverlap(s, events, key) {
      NothingOwedYet(b, key, amounts, clock);
      NoOverlapNoDrift(s, events, key);
      NothingOwed(last.tasks, key);
    }
  }
}
