/**
 * Two deduction requests of one lease at the same time: when exactly last balance plus active
 * deductions survives every interleaving of their steps.
 */
module LedgerPairs {
  import opened Options
  import opened DeductionLedger
  import opened ConcurrentLedger

  // ---------- Different deductions ----------

  /** Two requests of the same lease, not both deletes of the same deduction. */
  predicate Pair(s: System, key: Key) {
    && |s.tasks| == 2
    && (s.tasks[0].request.DeleteRequest? && s.tasks[1].request.DeleteRequest? ==>
          s.tasks[0].request.id != s.tasks[1].request.id)
    && Sound(s) && ClockOk(s) && StampsPast(s) && key in s.books.leases
    && OfLease(s, s.tasks[0], key) && OfLease(s, s.tasks[1], key)
  }

  /**
   * The request concerns this lease: the deduction that it adds, has fetched or would find is of
   * this lease, and one that it has fetched and not saved is still active.
   */
  predicate OfLease(s: System, t: Task, key: Key) {
    && !t.at.Skipped?
    && (t.request.AddRequest? || (!t.at.Started? && !t.at.Refused?) ==> t.d.key == key && t.d.amount > 0)
    && (t.request.DeleteRequest? && t.at.Started? && t.request.id < |s.books.deductions| ==>
          s.books.deductions[t.request.id].key == key && s.books.deductions[t.request.id].amount > 0)
    && (t.request.DeleteRequest? && !t.at.Started? && !t.at.Refused? && !t.at.Finished? ==> StillActive(s.books, t))
  }

  predicate Past(t: Task) { t.at.Posted? || t.at.Finished? }

  predicate Current(s: System, t: Task, key: Key) {
    t.seen == LastBalance(s.books.entries, key) && StampOk(s.books.entries, t, key)
  }

  /** Not both are in their window, and one that is holds the current balance. */
  predicate Apart(s: System, key: Key, total: int) {
    && Pair(s, key) && Total(s, key) == total && !(InWindow(s.tasks[0], key) && InWindow(s.tasks[1], key))
    && (InWindow(s.tasks[0], key) ==> Current(s, s.tasks[0], key))
    && (InWindow(s.tasks[1], key) ==> Current(s, s.tasks[1], key))
  }

  predicate BothIn(s: System, key: Key) {
    |s.tasks| == 2 && InWindow(s.tasks[0], key) && InWindow(s.tasks[1], key)
  }

  /** Both are in their window; or one has inserted and the other is stale; or the total has moved. */
  predicate Crossed(s: System, key: Key, total: int) {
    && Pair(s, key)
    && ((BothIn(s, key) && Total(s, key) == total && Current(s, s.tasks[0], key) && Current(s, s.tasks[1], key))
        || Stale(s, 0, 1, key, total) || Stale(s, 1, 0, key, total)
        || (Past(s.tasks[0]) && Past(s.tasks[1]) && Total(s, key) != total))
  }

  predicate Stale(s: System, i: nat, j: nat, key: Key, total: int)
    requires |s.tasks| == 2 && i < 2 && j < 2
  {
    && InWindow(s.tasks[i], key) && Past(s.tasks[j]) && Total(s, key) == total
    && s.tasks[i].seen != LastBalance(s.books.entries, key)
  }

  lemma OwnOfLease(s: System, n: nat, now: int, key: Key)
    requires Pair(s, key) && n < 2 && Advance(s, Proceed(n, now)).Some?
    ensures var next := Advance(s, Proceed(n, now)).value;
      OfLease(next, next.tasks[n], key) && next.tasks[n].request == s.tasks[n].request
  {
    assert Holds(s.books, s.tasks[n]);
  }

  lemma OtherOfLease(s: System, n: nat, now: int, m: nat, key: Key)
    requires Pair(s, key) && n < 2 && m < 2 && n != m && Advance(s, Proceed(n, now)).Some?
    ensures var next := Advance(s, Proceed(n, now)).value;
      next.tasks[m] == s.tasks[m] && OfLease(next, s.tasks[m], key)
  {
    assert Holds(s.books, s.tasks[n]) && Holds(s.books, s.tasks[m]);
  }

  lemma PairStep(s: System, e: Event, key: Key)
    requires Pair(s, key) && e.Proceed? && Advance(s, e).Some?
    ensures Pair(Advance(s, e).value, key)
  {
    StepKeepsSound(s, e);
    StepKeepsClock(s, e.n, e.now);
    OwnOfLease(s, e.n, e.now, key);
    OtherOfLease(s, e.n, e.now, 1 - e.n, key);
  }

  /** The total moves only when a stale request inserts. */
  lemma PairDrift(s: System, n: nat, now: int, key: Key)
    requires Pair(s, key) && n < 2 && Advance(s, Proceed(n, now)).Some?
    ensures !s.tasks[n].at.Ready? || Current(s, s.tasks[n], key) ==> Drift(s, Proceed(n, now), key) == 0
    ensures s.tasks[n].at.Ready? && s.tasks[n].seen != LastBalance(s.books.entries, key) ==>
      Drift(s, Proceed(n, now), key) != 0
  {
    assert Holds(s.books, s.tasks[n]);
  }

  /** What a step of one task does to the balance that the other may have read. */
  lemma PairBalance(s: System, n: nat, now: int, key: Key)
    requires Pair(s, key) && n < 2 && Advance(s, Proceed(n, now)).Some?
    ensures var next, t := Advance(s, Proceed(n, now)).value, s.tasks[n];
      && (!t.at.Ready? ==> next.books.entries == s.books.entries)
      && (t.at.Ready? && Current(s, t, key) ==>
            LastBalance(next.books.entries, key) == LastBalance(s.books.entries, key) + Change(t))
  {
    if s.tasks[n].at.Ready? {
      InsertMoves(s.books, s.tasks[n], key);
    }
  }

  predicate CurrentInWindow(s: System, t: Task, key: Key) { InWindow(t, key) ==> Current(s, t, key) }

  lemma OwnWindow(s: System, n: nat, now: int, key: Key)
    requires Pair(s, key) && n < 2 && Advance(s, Proceed(n, now)).Some? && CurrentInWindow(s, s.tasks[n], key)
    ensures var next := Advance(s, Proceed(n, now)).value; CurrentInWindow(next, next.tasks[n], key)
  {
    NowIsNewest(s, key, now);
    assert Holds(s.books, s.tasks[n]);
  }

  lemma OtherWindow(s: System, n: nat, now: int, m: nat, key: Key)
    requires Pair(s, key) && n < 2 && m < 2 && n != m && Advance(s, Proceed(n, now)).Some?
    requires CurrentInWindow(s, s.tasks[m], key)
    ensures var next := Advance(s, Proceed(n, now)).value;
      next.tasks[m] == s.tasks[m] && (!s.tasks[n].at.Ready? ==> CurrentInWindow(next, s.tasks[m], key))
  {
    PairBalance(s, n, now, key);
  }

  /** Apart, no step moves the total. */
  lemma ApartTotal(s: System, n: nat, now: int, key: Key, total: int)
    requires Apart(s, key, total) && n < 2 && Advance(s, Proceed(n, now)).Some?
    ensures var next := Advance(s, Proceed(n, now)).value; Pair(next, key) && Total(next, key) == total
  {
    PairStep(s, Proceed(n, now), key);
    PairDrift(s, n, now, key);
    StepDrift(s, Proceed(n, now), key);
  }

  lemma ApartWindows(s: System, n: nat, now: int, key: Key, total: int)
    requires Apart(s, key, total) && n < 2 && Advance(s, Proceed(n, now)).Some?
    ensures var next := Advance(s, Proceed(n, now)).value;
      && |next.tasks| == 2 && CurrentInWindow(next, next.tasks[0], key) && CurrentInWindow(next, next.tasks[1], key)
  {
    OwnWindow(s, n, now, key);
    OtherWindow(s, n, now, 1 - n, key);
  }

  lemma ApartStep(s: System, n: nat, now: int, key: Key, total: int)
    requires Apart(s, key, total) && n < 2 && Advance(s, Proceed(n, now)).Some?
    ensures var next := Advance(s, Proceed(n, now)).value;
      if BothIn(next, key) then Crossed(next, key, total) else Apart(next, key, total)
  {
    ApartTotal(s, n, now, key, total);
    ApartWindows(s, n, now, key, total);
  }

  lemma CrossedStep(s: System, n: nat, now: int, key: Key, total: int)
    requires Crossed(s, key, total) && n < 2 && Advance(s, Proceed(n, now)).Some?
    ensures Crossed(Advance(s, Proceed(n, now)).value, key, total)
  {
    PairStep(s, Proceed(n, now), key);
    PairDrift(s, n, now, key);
    PairBalance(s, n, now, key);
    StepDrift(s, Proceed(n, now), key);
    NowIsNewest(s, key, now);
  }

  /** At some point both requests have read the balance and neither has inserted its entry. */
  predicate Met(s: System, events: seq<Event>, key: Key)
    decreases |events|
  {
    BothIn(s, key)
    || (events != [] && match Advance(s, events[0]) case None => false case Some(next) => Met(next, events[1..], key))
  }

  lemma {:induction false} CrossedRun(s: System, events: seq<Event>, key: Key, total: int)
    requires Crossed(s, key, total) && OwnSteps(events) && Play(s, events).Some?
    ensures Crossed(Play(s, events).value, key, total)
    decreases |events|
  {
    if events != [] {
      assert events[0] in events;
      CrossedStep(s, events[0].n, events[0].now, key, total);
      CrossedRun(Advance(s, events[0]).value, events[1..], key, total);
    }
  }

  lemma ApartIsNotBoth(s: System, key: Key, total: int)
    requires Apart(s, key, total)
    ensures !BothIn(s, key)
  {}

  lemma {:induction false} ApartRun(s: System, events: seq<Event>, key: Key, total: int)
    requires Apart(s, key, total) && OwnSteps(events) && Play(s, events).Some?
    ensures var last := Play(s, events).value;
      if Met(s, events, key) then Crossed(last, key, total) else Apart(last, key, total)
    decreases |events|
  {
    ApartIsNotBoth(s, key, total);
    if events != [] {
      assert events[0] in events;
      var next := Advance(s, events[0]).value;
      assert Met(s, events, key) <==> Met(next, events[1..], key);
      ApartStep(s, events[0].n, events[0].now, key, total);
      if BothIn(next, key) {
        CrossedRun(next, events[1..], key, total);
      } else {
        ApartRun(next, events[1..], key, total);
      }
    }
  }

  /** The request concerns this lease; a delete may also name a deduction that is gone or yet to come. */
  predicate Concerns(b: Books, r: Request, key: Key) {
    match r
    case AddRequest(k, amount) => k == key && amount > 0
    case DeleteRequest(id, _) => id < |b.deductions| ==> b.deductions[id].key == key && b.deductions[id].amount > 0
  }

  predicate SameDeduction(r: Request, r': Request) { r.DeleteRequest? && r'.DeleteRequest? && r.id == r'.id }

  /** Two requests arrive. */
  function TwoArrive(b: Books, r: Request, r': Request, clock: int): System {
    System(b, [NewTask(b, r), NewTask(b, r')], clock)
  }

  /** Different deductions: conserved exactly if the requests have never met. */
  lemma DifferentConserveIff(b: Books, r: Request, r': Request, clock: int,
                             events: seq<Event>, last: System, key: Key)
    requires key in b.leases && Concerns(b, r, key) && Concerns(b, r', key) && !SameDeduction(r, r')
    requires forall e :: e in b.entries ==> e.createdAt <= clock
    requires OwnSteps(events) && Play(TwoArrive(b, r, r', clock), events) == Some(last) && AllOver(last.tasks)
    ensures Kept(b, last.books, key) <==> !Met(TwoArrive(b, r, r', clock), events, key)
  {
    var s := TwoArrive(b, r, r', clock);
    var total := Total(s, key);
    OwedByTwo(s.tasks, key);
    ApartRun(s, events, key, total);
    FinishedPair(last, key, total);
    NothingOwed(last.tasks, key);
  }

  lemma OwedByTwo(tasks: seq<Task>, key: Key)
    requires |tasks| == 2
    ensures OwedSum(tasks, key) == Owed(tasks[0], key) + Owed(tasks[1], key)
  {
    assert tasks[..1][..0] == [] && tasks[..1] != [];
    assert OwedSum(tasks[..1], key) == OwedSum([], key) + Owed(tasks[0], key);
  }

  /** Once both are over, the total shows whether they have crossed. */
  lemma FinishedPair(s: System, key: Key, total: int)
    requires (Apart(s, key, total) || Crossed(s, key, total)) && AllOver(s.tasks)
    ensures Total(s, key) == total <==> Apart(s, key, total)
  {}

  // ---------- The same deduction ----------

  /** The books before the two deletes: last balance, active total, and the deduction's amount and flag. */
  datatype Before = Before(balance: int, active: int, amount: int, deleted: bool)

  function BeforeOf(b: Books, id: nat, key: Key): Before
    requires id < |b.deductions|
  {
    var d := b.deductions[id];
    Before(LastBalance(b.entries, key), ActiveTotal(b.deductions, key), d.amount, d.deleted)
  }

  predicate Began(t: Task) { !t.at.Started? && !t.at.Refused? }

  /** Two deletes of one deduction of this lease. */
  predicate Twins(s: System, id: nat, key: Key, o: Before) {
    && |s.tasks| == 2 && Sound(s) && ClockOk(s) && StampsPast(s) && key in s.books.leases
    && s.tasks[0].request.DeleteRequest? && s.tasks[0].request.id == id
    && s.tasks[1].request.DeleteRequest? && s.tasks[1].request.id == id
    && id < |s.books.deductions| && s.books.deductions[id].key == key && s.books.deductions[id].amount == o.amount
    && TwinAt(s.tasks[0], key, o) && TwinAt(s.tasks[1], key, o)
  }

  predicate TwinAt(t: Task, key: Key, o: Before) {
    !t.at.Skipped? && !t.at.Recorded? && (Began(t) ==> !o.deleted && t.d.key == key && t.d.amount == o.amount)
  }

  predicate OneFinished(s: System)
    requires |s.tasks| == 2
  {
    s.tasks[0].at.Finished? || s.tasks[1].at.Finished?
  }

  /** The deduction is flagged, and out of the active total, once one of them has finished. */
  predicate TwinFlag(s: System, id: nat, key: Key, o: Before)
    requires |s.tasks| == 2 && id < |s.books.deductions|
  {
    && (s.books.deductions[id].deleted <==> o.deleted || OneFinished(s))
    && ActiveTotal(s.books.deductions, key) == o.active - (if OneFinished(s) then o.amount else 0)
  }

  /** What the two have credited so far. */
  function Credited(s: System, amount: int, met: bool): int
    requires |s.tasks| == 2
  {
    if Past(s.tasks[0]) && Past(s.tasks[1]) then (if met then amount else amount + amount)
    else if Past(s.tasks[0]) || Past(s.tasks[1]) then amount else 0
  }

  /** What a delete in its window has read; only if they have met is the other's credit not in it. */
  predicate TwinWindow(s: System, i: nat, j: nat, key: Key, o: Before, met: bool)
    requires |s.tasks| == 2 && i < 2 && j < 2
  {
    var t, later := s.tasks[i], Past(s.tasks[j]);
    InWindow(t, key) ==>
      && t.seen == o.balance + (if later && !met then o.amount else 0)
      && ((later && met) || StampOk(s.books.entries, t, key))
  }

  predicate TwinBalance(s: System, key: Key, o: Before, met: bool)
    requires |s.tasks| == 2
  {
    && LastBalance(s.books.entries, key) == o.balance + Credited(s, o.amount, met)
    && TwinWindow(s, 0, 1, key, o, met) && TwinWindow(s, 1, 0, key, o, met) && (BothIn(s, key) ==> met)
    && (met ==> Began(s.tasks[0]) && Began(s.tasks[1])
                && (InWindow(s.tasks[0], key) || Past(s.tasks[0])) && (InWindow(s.tasks[1], key) || Past(s.tasks[1])))
  }

  lemma TwinsStep(s: System, n: nat, now: int, id: nat, key: Key, o: Before)
    requires Twins(s, id, key, o) && TwinFlag(s, id, key, o) && n < 2 && Advance(s, Proceed(n, now)).Some?
    ensures Twins(Advance(s, Proceed(n, now)).value, id, key, o)
  {
    StepKeepsSound(s, Proceed(n, now));
    StepKeepsClock(s, n, now);
    assert Holds(s.books, s.tasks[n]);
  }

  lemma FlagStep(s: System, n: nat, now: int, id: nat, key: Key, o: Before)
    requires Twins(s, id, key, o) && TwinFlag(s, id, key, o) && n < 2 && Advance(s, Proceed(n, now)).Some?
    ensures TwinFlag(Advance(s, Proceed(n, now)).value, id, key, o)
  {
    assert Holds(s.books, s.tasks[n]);
    if s.tasks[n].at.Posted? {
      SaveMoves(s.books, s.tasks[n], key);
    }
  }

  lemma OwnTwinWindow(s: System, n: nat, now: int, id: nat, key: Key, o: Before, met: bool)
    requires Twins(s, id, key, o) && TwinBalance(s, key, o, met) && n < 2 && Advance(s, Proceed(n, now)).Some?
    requires !s.tasks[n].at.Ready?
    ensures TwinWindow(Advance(s, Proceed(n, now)).value, n, 1 - n, key, o, met)
  {
    NowIsNewest(s, key, now);
  }

  lemma OtherTwinWindow(s: System, n: nat, now: int, id: nat, key: Key, o: Before, met: bool)
    requires Twins(s, id, key, o) && TwinBalance(s, key, o, met) && n < 2 && Advance(s, Proceed(n, now)).Some?
    requires !s.tasks[n].at.Ready?
    ensures var next := Advance(s, Proceed(n, now)).value;
      && TwinWindow(next, 1 - n, n, key, o, met) && next.books.entries == s.books.entries
      && Credited(next, o.amount, met) == Credited(s, o.amount, met)
  {}

  lemma MetLater(s: System, i: nat, j: nat, key: Key, o: Before, met: bool)
    requires |s.tasks| == 2 && i < 2 && j < 2 && TwinWindow(s, i, j, key, o, met) && (!met ==> !Past(s.tasks[j]))
    ensures TwinWindow(s, i, j, key, o, true)
  {}

  /** A step that inserts nothing leaves the balance, and reads the current one if any. */
  lemma BalanceStays(s: System, n: nat, now: int, id: nat, key: Key, o: Before, met: bool)
    requires Twins(s, id, key, o) && TwinBalance(s, key, o, met) && n < 2 && Advance(s, Proceed(n, now)).Some?
    requires !s.tasks[n].at.Ready?
    ensures var next := Advance(s, Proceed(n, now)).value; TwinBalance(next, key, o, met || BothIn(next, key))
  {
    var next := Advance(s, Proceed(n, now)).value;
    OwnTwinWindow(s, n, now, id, key, o, met);
    OtherTwinWindow(s, n, now, id, key, o, met);
    if BothIn(next, key) {
      MetLater(next, 0, 1, key, o, met);
      MetLater(next, 1, 0, key, o, met);
    }
  }

  /** A delete inserts its entry: the state afterwards. */
  lemma InsertDelete(s: System, n: nat, now: int, id: nat, key: Key, o: Before)
    requires Twins(s, id, key, o) && n < 2 && Advance(s, Proceed(n, now)).Some? && s.tasks[n].at.Ready?
    ensures var next, t := Advance(s, Proceed(n, now)).value, s.tasks[n];
      && InWindow(t, key) && next.tasks == s.tasks[n := t.(at := Posted)]
      && next.books.entries == s.books.entries + [EntryOf(t)]
      && LastBalance(next.books.entries, key)
         == if IsNewest(s.books.entries, key, t.stamp) then t.seen + o.amount else LastBalance(s.books.entries, key)
  {
    InsertMoves(s.books, s.tasks[n], key);
  }

  /** The first credit counts; the second does too unless they have met. */
  lemma InsertedBalance(s: System, next: System, n: nat, key: Key, o: Before, met: bool)
    requires |s.tasks| == 2 && n < 2 && TwinBalance(s, key, o, met) && InWindow(s.tasks[n], key) && s.tasks[n].at.Ready?
    requires next.tasks == s.tasks[n := s.tasks[n].(at := Posted)]
    requires LastBalance(next.books.entries, key)
      == if IsNewest(s.books.entries, key, s.tasks[n].stamp) then s.tasks[n].seen + o.amount
         else LastBalance(s.books.entries, key)
    ensures LastBalance(next.books.entries, key) == o.balance + Credited(next, o.amount, met)
  {
    assert TwinWindow(s, n, 1 - n, key, o, met);
  }

  /** Of the two, only the other one can still be in its window, and then they have met. */
  lemma InsertedWindows(s: System, next: System, n: nat, key: Key, o: Before, met: bool)
    requires |s.tasks| == 2 && n < 2 && TwinBalance(s, key, o, met) && InWindow(s.tasks[n], key)
    requires next.tasks == s.tasks[n := s.tasks[n].(at := Posted)]
    ensures TwinWindow(next, 0, 1, key, o, met) && TwinWindow(next, 1, 0, key, o, met) && !BothIn(next, key)
  {
    assert TwinWindow(s, n, 1 - n, key, o, met) && TwinWindow(s, 1 - n, n, key, o, met);
  }

  lemma BalanceStep(s: System, n: nat, now: int, id: nat, key: Key, o: Before, met: bool)
    requires Twins(s, id, key, o) && TwinBalance(s, key, o, met) && n < 2 && Advance(s, Proceed(n, now)).Some?
    ensures var next := Advance(s, Proceed(n, now)).value; TwinBalance(next, key, o, met || BothIn(next, key))
  {
    if s.tasks[n].at.Ready? {
      var next := Advance(s, Proceed(n, now)).value;
      InsertDelete(s, n, now, id, key, o);
      InsertedBalance(s, next, n, key, o, met);
      InsertedWindows(s, next, n, key, o, met);
    } else {
      BalanceStays(s, n, now, id, key, o, met);
    }
  }

  lemma {:induction false} TwinsRun(s: System, events: seq<Event>, id: nat, key: Key, o: Before, met: bool)
    requires Twins(s, id, key, o) && TwinFlag(s, id, key, o) && TwinBalance(s, key, o, met)
    requires OwnSteps(events) && Play(s, events).Some?
    ensures var last := Play(s, events).value;
      Twins(last, id, key, o) && TwinFlag(last, id, key, o) && TwinBalance(last, key, o, met || Met(s, events, key))
    decreases |events|
  {
    if events != [] {
      assert events[0] in events;
      var next := Advance(s, events[0]).value;
      TwinsStep(s, events[0].n, events[0].now, id, key, o);
      FlagStep(s, events[0].n, events[0].now, id, key, o);
      BalanceStep(s, events[0].n, events[0].now, id, key, o, met);
      TwinsRun(next, events[1..], id, key, o, met || BothIn(next, key));
    }
  }

  /**
   * Two deletes of the same deduction keep the books exactly if one of them is refused or they
   * have met: then the second credit overwrites the first. Otherwise it is credited twice.
   */
  lemma SameConserveIff(b: Books, r: Request, r': Request, clock: int, events: seq<Event>, last: System, key: Key)
    requires key in b.leases && Concerns(b, r, key) && Concerns(b, r', key) && SameDeduction(r, r')
    requires forall e :: e in b.entries ==> e.createdAt <= clock
    requires OwnSteps(events) && Play(TwoArrive(b, r, r', clock), events) == Some(last) && AllOver(last.tasks)
    ensures |last.tasks| == 2
    ensures Kept(b, last.books, key)
       <==> last.tasks[0].at.Refused? || last.tasks[1].at.Refused? || Met(TwoArrive(b, r, r', clock), events, key)
  {
    var s := TwoArrive(b, r, r', clock);
    if r.id < |b.deductions| {
      var o := BeforeOf(b, r.id, key);
      TwinsRun(s, events, r.id, key, o, false);
    } else {
      NeverFound(s, events, r.id);
    }
  }

  /** Deletes of a deduction that does not exist change nothing. */
  lemma {:induction false} NeverFound(s: System, events: seq<Event>, id: nat)
    requires |s.tasks| == 2 && OwnSteps(events) && Play(s, events).Some? && id >= |s.books.deductions|
    requires forall t :: t in s.tasks ==>
      t.request.DeleteRequest? && t.request.id == id && (t.at.Started? || t.at.Refused?)
    ensures var last := Play(s, events).value;
      && |last.tasks| == 2 && last.books == s.books
      && forall t :: t in last.tasks ==> t.at.Started? || t.at.Refused?
    decreases |events|
  {
    if events != [] {
      assert events[0] in events && s.tasks[events[0].n] in s.tasks;
      NeverFound(Advance(s, events[0]).value, events[1..], id);
    }
  }

  // ---------- Any two requests ----------

  lemma {:induction false} StillTwo(s: System, events: seq<Event>)
    requires |s.tasks| == 2 && OwnSteps(events) && Play(s, events).Some?
    ensures |Play(s, events).value.tasks| == 2
    decreases |events|
  {
    if events != [] {
      assert events[0] in events;
      StillTwo(Advance(s, events[0]).value, events[1..]);
    }
  }

  /**
   * Two requests of one lease, in any interleaving until both are over, keep last balance plus
   * active deductions exactly if there was no moment when both had read the balance and neither
   * had inserted its entry; two deletes of the same deduction keep it exactly if there was such a
   * moment or one of them was refused.
   */
  lemma TwoRequestsConserveIff(b: Books, r: Request, r': Request, clock: int,
                               events: seq<Event>, last: System, key: Key)
    requires key in b.leases && Concerns(b, r, key) && Concerns(b, r', key)
    requires forall e :: e in b.entries ==> e.createdAt <= clock
    requires OwnSteps(events) && Play(TwoArrive(b, r, r', clock), events) == Some(last) && AllOver(last.tasks)
    ensures |last.tasks| == 2
    ensures Kept(b, last.books, key)
       <==> if SameDeduction(r, r')
            then last.tasks[0].at.Refused? || last.tasks[1].at.Refused? || Met(TwoArrive(b, r, r', clock), events, key)
            else !Met(TwoArrive(b, r, r', clock), events, key)
  {
    StillTwo(TwoArrive(b, r, r', clock), events);
    if SameDeduction(r, r') {
      SameConserveIff(b, r, r', clock, events, last, key);
    } else {
      DifferentConserveIff(b, r, r', clock, events, last, key);
    }
  }

  // ---------- Two concrete runs ----------

  /** One more step of one of two requests. */
  lemma StepOf(start: System, events: seq<Event>, s: System, n: nat, t: Task, b: Books)
    returns (events': seq<Event>, s': System)
    requires Play(start, events) == Some(s) && |s.tasks| == 2 && n < 2
    requires !s.tasks[n].at.Finished? && !s.tasks[n].at.Refused? && Move(s.books, s.tasks[n], s.clock + 1) == (b, t)
    ensures Play(start, events') == Some(s') && s'.clock == s.clock + 1 && s'.books == b
    ensures s'.tasks == if n == 0 then [t, s.tasks[1]] else [s.tasks[0], t]
  {
    events', s' := Extend(start, events, s, Proceed(n, s.clock + 1));
    assert s.tasks == [s.tasks[0], s.tasks[1]];
  }

  function Adding(key: Key, amount: int, at: At, seen: int, stamp: int): Task {
    Task(AddRequest(key, amount), at, Deduction(key, amount, false), seen, stamp)
  }

  function Recording(b: Books, key: Key, amount: int): Books {
    b.(deductions := b.deductions + [Deduction(key, amount, false)])
  }

  /** Two adds have recorded their deductions. */
  lemma BothRecorded(b: Books, key: Key, x: int, y: int, clock: int) returns (events: seq<Event>, s: System)
    requires key in b.leases
    ensures Play(TwoArrive(b, AddRequest(key, x), AddRequest(key, y), clock), events) == Some(s)
    ensures s == System(Recording(Recording(b, key, x), key, y),
                        [Adding(key, x, Recorded, 0, 0), Adding(key, y, Recorded, 0, 0)], clock + 4)
  {
    var start := TwoArrive(b, AddRequest(key, x), AddRequest(key, y), clock);
    events, s := StepOf(start, [], start, 0, Adding(key, x, Found, 0, 0), b);
    events, s := StepOf(start, events, s, 1, Adding(key, y, Found, 0, 0), b);
    events, s := StepOf(start, events, s, 0, Adding(key, x, Recorded, 0, 0), Recording(b, key, x));
    events, s := StepOf(start, events, s, 1, Adding(key, y, Recorded, 0, 0), Recording(Recording(b, key, x), key, y));
  }

  /** Both read the balance before either inserts its entry. */
  lemma BothRead(b: Books, key: Key, x: int, y: int, clock: int) returns (events: seq<Event>, s: System)
    requires key in b.leases
    ensures Play(TwoArrive(b, AddRequest(key, x), AddRequest(key, y), clock), events) == Some(s)
    ensures var seen := LastBalance(b.entries, key);
      s == System(Recording(Recording(b, key, x), key, y),
                  [Adding(key, x, Ready, seen, clock + 5), Adding(key, y, Ready, seen, clock + 6)], clock + 6)
  {
    var start, seen := TwoArrive(b, AddRequest(key, x), AddRequest(key, y), clock), LastBalance(b.entries, key);
    events, s := BothRecorded(b, key, x, y, clock);
    events, s := StepOf(start, events, s, 0, Adding(key, x, Ready, seen, clock + 5), s.books);
    events, s := StepOf(start, events, s, 1, Adding(key, y, Ready, seen, clock + 6), s.books);
  }

  function Posting(b: Books, e: Entry): Books { b.(entries := b.entries + [e]) }

  /** From any books: both deductions are recorded, but the balance has lost the first one. */
  lemma LostDebit(b: Books, key: Key, x: int, y: int, clock: int) returns (events: seq<Event>, s: System)
    requires key in b.leases && Later(b.entries, clock)
    ensures Play(TwoArrive(b, AddRequest(key, x), AddRequest(key, y), clock), events) == Some(s)
    ensures |s.tasks| == 2 && s.tasks[0].at.Finished? && s.tasks[1].at.Finished?
    ensures ActiveTotal(s.books.deductions, key) == ActiveTotal(b.deductions, key) + x + y
    ensures LastBalance(s.books.entries, key) == LastBalance(b.entries, key) - y
  {
    var start := TwoArrive(b, AddRequest(key, x), AddRequest(key, y), clock);
    events, s := BothRead(b, key, x, y, clock);
    var t, t' := s.tasks[0], s.tasks[1];
    events, s := StepOf(start, events, s, 0, t.(at := Finished), Posting(s.books, EntryOf(t)));
    events, s := StepOf(start, events, s, 1, t'.(at := Finished), Posting(s.books, EntryOf(t')));
    TotalAppended(b.deductions, Deduction(key, x, false), key);
    TotalAppended(b.deductions + [Deduction(key, x, false)], Deduction(key, y, false), key);
    BalanceAppended(b.entries, EntryOf(t));
    BalanceAppended(b.entries + [EntryOf(t)], EntryOf(t'));
  }

  function DeleteTask(id: nat, orgId: string, d: Deduction, at: At, seen: int, stamp: int): Task {
    Task(DeleteRequest(id, orgId), at, d, seen, stamp)
  }

  function FirstPosted(b: Books, id: nat, orgId: string, clock: int): Task
    requires id < |b.deductions|
  {
    DeleteTask(id, orgId, b.deductions[id], Posted, LastBalance(b.entries, b.deductions[id].key), clock + 4)
  }

  /** The books once the first of two deletes has inserted its entry. */
  function Once(b: Books, id: nat, orgId: string, clock: int): Books
    requires id < |b.deductions|
  {
    Posting(b, EntryOf(FirstPosted(b, id, orgId, clock)))
  }

  function SecondPosted(b: Books, id: nat, orgId: string, clock: int): Task
    requires id < |b.deductions|
  {
    var d := b.deductions[id];
    DeleteTask(id, orgId, d, Posted, LastBalance(Once(b, id, orgId, clock).entries, d.key), clock + 7)
  }

  function Twice(b: Books, id: nat, orgId: string, clock: int): Books
    requires id < |b.deductions|
  {
    Posting(Once(b, id, orgId, clock), EntryOf(SecondPosted(b, id, orgId, clock)))
  }

  function TwoDeletes(b: Books, id: nat, orgId: string, clock: int): System {
    TwoArrive(b, DeleteRequest(id, orgId), DeleteRequest(id, orgId), clock)
  }

  /** Both deletes have found the deduction; the first has inserted its entry. */
  lemma FirstCredit(b: Books, id: nat, orgId: string, clock: int) returns (events: seq<Event>, s: System)
    requires Deletable(b, id, orgId) && b.deductions[id].key in b.leases
    ensures Play(TwoDeletes(b, id, orgId, clock), events) == Some(s)
    ensures s == System(Once(b, id, orgId, clock),
                        [FirstPosted(b, id, orgId, clock), DeleteTask(id, orgId, b.deductions[id], Found, 0, 0)],
                        clock + 5)
  {
    var start, d := TwoDeletes(b, id, orgId, clock), b.deductions[id];
    var first := FirstPosted(b, id, orgId, clock);
    events, s := StepOf(start, [], start, 0, DeleteTask(id, orgId, d, Found, 0, 0), b);
    events, s := StepOf(start, events, s, 1, DeleteTask(id, orgId, d, Found, 0, 0), b);
    events, s := StepOf(start, events, s, 0, first.(at := Balanced, stamp := 0), b);
    events, s := StepOf(start, events, s, 0, first.(at := Ready), b);
    events, s := StepOf(start, events, s, 0, first, Once(b, id, orgId, clock));
  }

  /** Then the second one reads the balance. */
  lemma SecondReads(b: Books, id: nat, orgId: string, clock: int) returns (events: seq<Event>, s: System)
    requires Deletable(b, id, orgId) && b.deductions[id].key in b.leases
    ensures Play(TwoDeletes(b, id, orgId, clock), events) == Some(s)
    ensures s == System(Once(b, id, orgId, clock),
                        [FirstPosted(b, id, orgId, clock), SecondPosted(b, id, orgId, clock).(at := Ready)], clock + 7)
  {
    var start := TwoDeletes(b, id, orgId, clock);
    events, s := FirstCredit(b, id, orgId, clock);
    var once, second := s.books, SecondPosted(b, id, orgId, clock);
    events, s := StepOf(start, events, s, 1, second.(at := Balanced, stamp := 0), once);
    events, s := StepOf(start, events, s, 1, second.(at := Ready), once);
  }

  /** A delete inserts its entry. */
  lemma PostOf(start: System, events: seq<Event>, s: System, t: Task) returns (events': seq<Event>, s': System)
    requires Play(start, events) == Some(s) && |s.tasks| == 2
    requires t.request.DeleteRequest? && t.at.Posted? && s.tasks[1] == t.(at := Ready)
    ensures Play(start, events') == Some(s')
    ensures s' == System(Posting(s.books, EntryOf(t)), [s.tasks[0], t], s.clock + 1)
  {
    assert EntryOf(t.(at := Ready)) == EntryOf(t);
    events', s' := StepOf(start, events, s, 1, t, Posting(s.books, EntryOf(t)));
  }

  /** And inserts its own entry. */
  lemma SecondCredit(b: Books, id: nat, orgId: string, clock: int) returns (events: seq<Event>, s: System)
    requires Deletable(b, id, orgId) && b.deductions[id].key in b.leases
    ensures Play(TwoDeletes(b, id, orgId, clock), events) == Some(s)
    ensures s == System(Twice(b, id, orgId, clock),
                        [FirstPosted(b, id, orgId, clock), SecondPosted(b, id, orgId, clock)], clock + 8)
  {
    events, s := SecondReads(b, id, orgId, clock);
    events, s := PostOf(TwoDeletes(b, id, orgId, clock), events, s, SecondPosted(b, id, orgId, clock));
  }

  lemma SavedTwice(b: Books, id: nat, d: Deduction)
    requires id < |b.deductions| && d == b.deductions[id] && !d.deleted
    ensures Save(Save(b, id, d), id, d) == Save(b, id, d)
    ensures ActiveTotal(Save(b, id, d).deductions, d.key) == ActiveTotal(b.deductions, d.key) - d.amount
  {
    TotalReplaced(b.deductions, id, d.(deleted := true), d.key);
  }

  predicate IsPosted(t: Task, id: nat, d: Deduction) {
    t.at.Posted? && t.request.DeleteRequest? && t.request.id == id && t.d == d
  }

  /** At last both save. */
  lemma BothSaveFrom(start: System, before: seq<Event>, s: System, id: nat, d: Deduction)
    returns (events: seq<Event>, last: System)
    requires Play(start, before) == Some(s) && |s.tasks| == 2
    requires IsPosted(s.tasks[0], id, d) && IsPosted(s.tasks[1], id, d)
    requires Save(Save(s.books, id, d), id, d) == Save(s.books, id, d)
    ensures Play(start, events) == Some(last) && AllOver(last.tasks) && last.books == Save(s.books, id, d)
  {
    var saved := Save(s.books, id, d);
    events, last := StepOf(start, before, s, 0, s.tasks[0].(at := Finished), saved);
    events, last := StepOf(start, events, last, 1, s.tasks[1].(at := Finished), saved);
  }

  lemma BothSave(b: Books, id: nat, orgId: string, clock: int) returns (events: seq<Event>, s: System)
    requires Deletable(b, id, orgId) && b.deductions[id].key in b.leases
    ensures Play(TwoDeletes(b, id, orgId, clock), events) == Some(s) && AllOver(s.tasks)
    ensures s.books == Save(Twice(b, id, orgId, clock), id, b.deductions[id])
  {
    events, s := SecondCredit(b, id, orgId, clock);
    SavedTwice(s.books, id, b.deductions[id]);
    events, s := BothSaveFrom(TwoDeletes(b, id, orgId, clock), events, s, id, b.deductions[id]);
  }

  lemma TwiceBalance(b: Books, id: nat, orgId: string, clock: int)
    requires Deletable(b, id, orgId) && Later(b.entries, clock)
    ensures var d := b.deductions[id];
      LastBalance(Twice(b, id, orgId, clock).entries, d.key) == LastBalance(b.entries, d.key) + 2 * d.amount
  {
    var e := EntryOf(FirstPosted(b, id, orgId, clock));
    BalanceAppended(b.entries, e);
    BalanceAppended(b.entries + [e], EntryOf(SecondPosted(b, id, orgId, clock)));
  }

  /** From any books: one deduction is deleted, and its amount credited twice. */
  lemma CreditedTwice(b: Books, id: nat, orgId: string, clock: int) returns (events: seq<Event>, s: System)
    requires Deletable(b, id, orgId) && b.deductions[id].key in b.leases && Later(b.entries, clock)
    ensures Play(TwoDeletes(b, id, orgId, clock), events) == Some(s) && AllOver(s.tasks)
    ensures var key, amount := b.deductions[id].key, b.deductions[id].amount;
      && ActiveTotal(s.books.deductions, key) == ActiveTotal(b.deductions, key) - amount
      && LastBalance(s.books.entries, key) == LastBalance(b.entries, key) + 2 * amount
  {
    events, s := BothSave(b, id, orgId, clock);
    SavedTwice(Twice(b, id, orgId, clock), id, b.deductions[id]);
    TwiceBalance(b, id, orgId, clock);
  }
}
