/**
 * Deduction requests that run at the same time: every database call of a request is one step,
 * and the steps of any number of requests interleave.
 */
module ConcurrentLedger {
  import opened Options
  import opened DeductionLedger

  datatype Request = AddRequest(key: Key, amount: int) | DeleteRequest(id: nat, orgId: string)

  /**
   * Add: Started, lease found, deduction Recorded, Ready with a balance and a time, Finished.
   * Delete: Started, deduction found, Balanced, Ready with a time, Posted, Finished; without its
   * lease it is Skipped instead of Ready and Posted.
   */
  datatype At = Started | Found | Recorded | Balanced | Ready | Posted | Skipped | Finished | Refused

  /**
   * d: the deduction at hand, or before a delete has fetched it, the one that its id names.
   * seen: the balance it has read. stamp: the time of its entry.
   */
  datatype Task = Task(request: Request, at: At, d: Deduction, seen: int, stamp: int)

  function NewTask(b: Books, r: Request): Task {
    match r
    case AddRequest(key, amount) => Task(r, Started, Deduction(key, amount, false), 0, 0)
    case DeleteRequest(id, _) =>
      var d := if id < |b.deductions| then b.deductions[id] else Deduction(Key("", ""), 0, false);
      Task(r, Started, d.(deleted := false), 0, 0)
  }

  /** What the request's entry does to the balance. */
  function Change(t: Task): int { if t.request.AddRequest? then -t.d.amount else t.d.amount }

  function EntryOf(t: Task): Entry {
    Entry(t.d.key, if t.request.AddRequest? then Debit else Credit, t.d.amount, t.seen + Change(t), t.stamp)
  }

  function Save(b: Books, id: nat, d: Deduction): Books {
    if id < |b.deductions| then b.(deductions := b.deductions[id := d.(deleted := true)]) else b
  }

  /** The next database call of a request, and what it does to the books. */
  function Move(b: Books, t: Task, now: int): (Books, Task) {
    match t.request
    case AddRequest(key, _) =>
      (match t.at
       case Started => (b, t.(at := if key in b.leases then Found else Refused))
       case Found => (b.(deductions := b.deductions + [t.d]), t.(at := Recorded))
       case Recorded => (b, t.(at := Ready, seen := LastBalance(b.entries, key), stamp := now))
       case Ready => (b.(entries := b.entries + [EntryOf(t)]), t.(at := Finished))
       case _ => (b, t))
    case DeleteRequest(id, orgId) =>
      (match t.at
       case Started =>
         if Deletable(b, id, orgId) then (b, t.(at := Found, d := b.deductions[id])) else (b, t.(at := Refused))
       case Found => (b, t.(at := Balanced, seen := LastBalance(b.entries, t.d.key)))
       case Balanced =>
         if t.d.key in b.leases then (b, t.(at := Ready, stamp := now)) else (b, t.(at := Skipped))
       case Ready => (b.(entries := b.entries + [EntryOf(t)]), t.(at := Posted))
       case Posted => (Save(b, id, t.d), t.(at := Finished))
       case Skipped => (Save(b, id, t.d), t.(at := Finished))
       case _ => (b, t))
  }

  datatype System = System(books: Books, tasks: seq<Task>, clock: int)

  datatype Event =
    | Arrive(request: Request)
    | Proceed(n: nat, now: int)
    | Vanish(key: Key)           // the lease is deleted

  /** Times increase strictly. */
  function Advance(s: System, e: Event): Option<System> {
    match e
    case Arrive(r) => Some(s.(tasks := s.tasks + [NewTask(s.books, r)]))
    case Proceed(n, now) =>
      if n < |s.tasks| && !s.tasks[n].at.Finished? && !s.tasks[n].at.Refused? && now > s.clock then
        var (b, t) := Move(s.books, s.tasks[n], now);
        Some(System(b, s.tasks[n := t], now))
      else None
    case Vanish(key) => Some(s.(books := s.books.(leases := s.books.leases - {key})))
  }

  function Play(s: System, events: seq<Event>): Option<System>
    decreases |events|
  {
    if events == [] then Some(s)
    else match Advance(s, events[0])
      case None => None
      case Some(next) => Play(next, events[1..])
  }

  // ---------- What should stay the same ----------

  /** The part of a request that is in the deductions but not in the journal, or the reverse. */
  function Owed(t: Task, key: Key): int {
    if t.d.key == key
       && ((t.request.AddRequest? && (t.at.Recorded? || t.at.Ready?)) || (t.request.DeleteRequest? && t.at.Posted?))
    then t.d.amount else 0
  }

  function OwedSum(tasks: seq<Task>, key: Key): int {
    if tasks == [] then 0 else OwedSum(tasks[..|tasks| - 1], key) + Owed(tasks[|tasks| - 1], key)
  }

  /** Last balance plus active deductions, with the requests under way accounted for. */
  function Total(s: System, key: Key): int {
    LastBalance(s.books.entries, key) + ActiveTotal(s.books.deductions, key) - OwedSum(s.tasks, key)
  }

  predicate IsNewest(entries: seq<Entry>, key: Key, stamp: int) {
    Latest(entries, key).Some? ==> Latest(entries, key).value.createdAt < stamp
  }

  /**
   * How far a step moves the total: an insert by the difference of the balance it read from the
   * last one, or by its whole change if a later-stamped entry came first; a save by the amount,
   * if the deduction was already deleted or was never credited.
   */
  function Drift(s: System, e: Event, key: Key): int {
    if !e.Proceed? || e.n >= |s.tasks| || s.tasks[e.n].d.key != key then 0
    else
      var t := s.tasks[e.n];
      match t.at
      case Ready =>
        if IsNewest(s.books.entries, key, t.stamp) then t.seen - LastBalance(s.books.entries, key) else -Change(t)
      case Posted => if StillActive(s.books, t) then 0 else t.d.amount
      case Skipped => if StillActive(s.books, t) then -t.d.amount else 0
      case _ => 0
  }

  predicate StillActive(b: Books, t: Task) {
    t.request.DeleteRequest? && t.request.id < |b.deductions| && !b.deductions[t.request.id].deleted
  }

  function DriftSum(s: System, events: seq<Event>, key: Key): int
    decreases |events|
  {
    if events == [] then 0
    else match Advance(s, events[0])
      case None => 0
      case Some(next) => Drift(s, events[0], key) + DriftSum(next, events[1..], key)
  }

  /** A delete under way holds its deduction as it is stored, up to the flag. */
  predicate Holds(b: Books, t: Task) {
    && !t.d.deleted
    && (t.request.AddRequest? ==>
          t.d.key == t.request.key && (t.at in {Started, Found, Recorded, Ready, Finished, Refused}))
    && (t.request.DeleteRequest? ==> !t.at.Recorded?)
    && (t.request.DeleteRequest? && !t.at.Started? && !t.at.Refused? ==>
          t.request.id < |b.deductions| && b.deductions[t.request.id].(deleted := false) == t.d)
  }

  predicate Sound(s: System) { forall n :: 0 <= n < |s.tasks| ==> Holds(s.books, s.tasks[n]) }

  lemma {:induction false} OwedUpdate(tasks: seq<Task>, n: nat, t: Task, key: Key)
    requires n < |tasks|
    ensures OwedSum(tasks[n := t], key) == OwedSum(tasks, key) - Owed(tasks[n], key) + Owed(t, key)
    decreases |tasks|
  {
    var last := |tasks| - 1;
    if n == last {
      assert tasks[n := t][..last] == tasks[..last];
    } else {
      assert tasks[n := t][..last] == tasks[..last][n := t];
      OwedUpdate(tasks[..last], n, t, key);
    }
  }

  /** Deductions keep their key and amount, and their positions. */
  predicate Grows(b: Books, b': Books) {
    |b.deductions| <= |b'.deductions|
    && forall i :: 0 <= i < |b.deductions| ==>
         b'.deductions[i].(deleted := false) == b.deductions[i].(deleted := false)
  }

  lemma MoveGrows(b: Books, t: Task, now: int)
    requires Holds(b, t)
    ensures Grows(b, Move(b, t, now).0) && Holds(Move(b, t, now).0, Move(b, t, now).1)
  {}

  lemma StepKeepsSound(s: System, e: Event)
    requires Sound(s) && Advance(s, e).Some?
    ensures Sound(Advance(s, e).value)
  {
    if e.Proceed? {
      MoveGrows(s.books, s.tasks[e.n], e.now);
    }
  }

  lemma InsertMoves(b: Books, t: Task, key: Key)
    requires t.d.key == key
    ensures LastBalance(b.entries + [EntryOf(t)], key)
         == if IsNewest(b.entries, key, t.stamp) then t.seen + Change(t) else LastBalance(b.entries, key)
  {
    LatestAppended(b.entries, EntryOf(t), key);
  }

  lemma OtherInsert(b: Books, t: Task, key: Key)
    requires t.d.key != key
    ensures LastBalance(b.entries + [EntryOf(t)], key) == LastBalance(b.entries, key)
  {
    LatestAppended(b.entries, EntryOf(t), key);
  }

  lemma SaveMoves(b: Books, t: Task, key: Key)
    requires Holds(b, t) && t.request.DeleteRequest? && !t.at.Started? && !t.at.Refused?
    ensures ActiveTotal(Save(b, t.request.id, t.d).deductions, key)
         == ActiveTotal(b.deductions, key) - (if t.d.key == key && StillActive(b, t) then t.d.amount else 0)
  {
    TotalReplaced(b.deductions, t.request.id, t.d.(deleted := true), key);
  }

  /** What one call of a request does to balance, active deductions and its own debt. */
  lemma MoveDrift(s: System, n: nat, now: int, key: Key)
    requires n < |s.tasks| && Holds(s.books, s.tasks[n])
    requires !s.tasks[n].at.Finished? && !s.tasks[n].at.Refused?
    ensures var t := s.tasks[n]; var (b', t') := Move(s.books, t, now);
      LastBalance(b'.entries, key) - LastBalance(s.books.entries, key)
      + ActiveTotal(b'.deductions, key) - ActiveTotal(s.books.deductions, key)
      - Owed(t', key) + Owed(t, key) == Drift(s, Proceed(n, now), key)
  {
    var b, t := s.books, s.tasks[n];
    match t.at
    case Found => TotalAppended(b.deductions, t.d, key);
    case Ready =>
      if t.d.key == key {
        InsertMoves(b, t, key);
      } else {
        OtherInsert(b, t, key);
      }
    case Posted => SaveMoves(b, t, key);
    case Skipped => SaveMoves(b, t, key);
    case _ =>
  }

  lemma StepDrift(s: System, e: Event, key: Key)
    requires Sound(s) && Advance(s, e).Some?
    ensures Total(Advance(s, e).value, key) == Total(s, key) + Drift(s, e, key)
  {
    match e
    case Arrive(r) => assert (s.tasks + [NewTask(s.books, r)])[..|s.tasks|] == s.tasks;
    case Proceed(n, now) =>
      MoveDrift(s, n, now, key);
      OwedUpdate(s.tasks, n, Move(s.books, s.tasks[n], now).1, key);
    case Vanish(_) =>
  }

  /** Over every interleaving the total moves by the sum of the drifts. */
  lemma {:induction false} DriftLaw(s: System, events: seq<Event>, key: Key)
    requires Sound(s) && Play(s, events).Some?
    ensures Sound(Play(s, events).value)
    ensures Total(Play(s, events).value, key) == Total(s, key) + DriftSum(s, events, key)
    decreases |events|
  {
    if events != [] {
      StepKeepsSound(s, events[0]);
      StepDrift(s, events[0], key);
      DriftLaw(Advance(s, events[0]).value, events[1..], key);
    }
  }

  predicate AllOver(tasks: seq<Task>) {
    forall n :: 0 <= n < |tasks| ==> tasks[n].at.Finished? || tasks[n].at.Refused?
  }

  lemma {:induction false} NothingOwed(tasks: seq<Task>, key: Key)
    requires AllOver(tasks)
    ensures OwedSum(tasks, key) == 0
    decreases |tasks|
  {
    if tasks != [] {
      NothingOwed(tasks[..|tasks| - 1], key);
    }
  }

  /** Between two moments without requests under way, it is balance plus active deductions that drift. */
  lemma DriftOfRun(b: Books, clock: int, events: seq<Event>, last: System, key: Key)
    requires Play(System(b, [], clock), events) == Some(last) && AllOver(last.tasks)
    ensures LastBalance(last.books.entries, key) + ActiveTotal(last.books.deductions, key)
         == LastBalance(b.entries, key) + ActiveTotal(b.deductions, key)
            + DriftSum(System(b, [], clock), events, key)
  {
    DriftLaw(System(b, [], clock), events, key);
    NothingOwed(last.tasks, key);
  }

  // ---------- Without overlap nothing drifts ----------

  /** The request has read the lease's balance and not yet inserted its entry. */
  predicate InWindow(t: Task, key: Key) { t.d.key == key && (t.at.Balanced? || t.at.Ready?) }

  /** The delete has fetched its deduction and not yet saved it. */
  predicate Deleting(t: Task, key: Key) {
    t.request.DeleteRequest? && t.d.key == key && (t.at.Found? || t.at.Balanced? || t.at.Ready? || t.at.Posted?)
  }

  /**
   * The lease stays; no entry is inserted while another request of the lease is between its read
   * and its insert; no deduction is saved while another delete of it is under way.
   */
  predicate Guarded(s: System, e: Event, key: Key) {
    && e != Vanish(key)
    && (e.Proceed? && e.n < |s.tasks| && s.tasks[e.n].d.key == key ==>
          && (s.tasks[e.n].at.Ready? ==>
                forall m :: 0 <= m < |s.tasks| && m != e.n ==> !InWindow(s.tasks[m], key))
          && (s.tasks[e.n].at.Posted? && s.tasks[e.n].request.DeleteRequest? ==>
                forall m :: 0 <= m < |s.tasks| && m != e.n && Deleting(s.tasks[m], key) ==>
                  s.tasks[m].request.id != s.tasks[e.n].request.id))
  }

  predicate NoOverlap(s: System, events: seq<Event>, key: Key)
    decreases |events|
  {
    events == []
    || (Guarded(s, events[0], key)
        && (Advance(s, events[0]).Some? ==> NoOverlap(Advance(s, events[0]).value, events[1..], key)))
  }

  /** No request has been stamped later than the clock. */
  predicate StampsPast(s: System) {
    forall n :: 0 <= n < |s.tasks| && s.tasks[n].at.Ready? ==> s.tasks[n].stamp <= s.clock
  }

  predicate ClockOk(s: System) { forall e :: e in s.books.entries ==> e.createdAt <= s.clock }

  predicate StampOk(entries: seq<Entry>, t: Task, key: Key) { t.at.Ready? ==> IsNewest(entries, key, t.stamp) }

  /** A request in its window holds the current balance and the newest time. */
  predicate FreshTask(s: System, t: Task, key: Key) {
    && (InWindow(t, key) ==> t.seen == LastBalance(s.books.entries, key) && StampOk(s.books.entries, t, key))
    && (Deleting(t, key) ==> StillActive(s.books, t))
    && (t.d.key == key ==> !t.at.Skipped?)
  }

  predicate Fresh(s: System, key: Key) {
    && Sound(s) && ClockOk(s) && StampsPast(s) && key in s.books.leases
    && forall n :: 0 <= n < |s.tasks| ==> FreshTask(s, s.tasks[n], key)
  }

  lemma NowIsNewest(s: System, key: Key, now: int)
    requires ClockOk(s) && now > s.clock
    ensures IsNewest(s.books.entries, key, now)
  {
    assert Latest(s.books.entries, key).Some? ==> Latest(s.books.entries, key).value in s.books.entries;
  }

  lemma StepKeepsClock(s: System, n: nat, now: int)
    requires ClockOk(s) && Advance(s, Proceed(n, now)).Some?
    requires s.tasks[n].at.Ready? ==> s.tasks[n].stamp <= s.clock
    ensures ClockOk(Advance(s, Proceed(n, now)).value)
  {}

  /** A step that inserts nothing and saves nothing leaves every other request fresh. */
  lemma OwnStepFresh(s: System, n: nat, now: int, key: Key)
    requires Fresh(s, key) && Advance(s, Proceed(n, now)).Some?
    ensures var next := Advance(s, Proceed(n, now)).value; FreshTask(next, next.tasks[n], key)
  {
    NowIsNewest(s, key, now);
  }

  lemma OthersStayFresh(s: System, n: nat, now: int, m: nat, key: Key)
    requires Fresh(s, key) && Advance(s, Proceed(n, now)).Some? && Guarded(s, Proceed(n, now), key)
    requires m < |s.tasks| && m != n
    ensures var next := Advance(s, Proceed(n, now)).value; FreshTask(next, next.tasks[m], key)
  {
    var t, u := s.tasks[n], s.tasks[m];
    assert FreshTask(s, u, key) && FreshTask(s, t, key) && Holds(s.books, t) && Holds(s.books, u);
    if t.at.Ready? && t.d.key != key {
      LatestAppended(s.books.entries, EntryOf(t), key);
    }
  }

  lemma GuardedDrift(s: System, e: Event, key: Key)
    requires Fresh(s, key) && Guarded(s, e, key) && Advance(s, e).Some?
    ensures Drift(s, e, key) == 0
  {
    if e.Proceed? {
      assert FreshTask(s, s.tasks[e.n], key) && Holds(s.books, s.tasks[e.n]);
    }
  }

  lemma GuardedStep(s: System, e: Event, key: Key)
    requires Fresh(s, key) && Guarded(s, e, key) && Advance(s, e).Some?
    ensures Fresh(Advance(s, e).value, key)
  {
    StepKeepsSound(s, e);
    if e.Proceed? {
      StepKeepsClock(s, e.n, e.now);
      OwnStepFresh(s, e.n, e.now, key);
      var next := Advance(s, e).value;
      forall m | 0 <= m < |next.tasks| ensures FreshTask(next, next.tasks[m], key) {
        if m != e.n {
          OthersStayFresh(s, e.n, e.now, m, key);
        }
      }
    }
  }

  /** In every interleaving without overlap on the lease, the total stays the same. */
  lemma {:induction false} NoOverlapNoDrift(s: System, events: seq<Event>, key: Key)
    requires Fresh(s, key) && NoOverlap(s, events, key) && Play(s, events).Some?
    ensures Total(Play(s, events).value, key) == Total(s, key)
    decreases |events|
  {
    if events != [] {
      var e, next := events[0], Advance(s, events[0]).value;
      GuardedDrift(s, e, key);
      StepDrift(s, e, key);
      GuardedStep(s, e, key);
      NoOverlapNoDrift(next, events[1..], key);
    }
  }

  lemma ConservedWithoutOverlap(b: Books, clock: int, events: seq<Event>, last: System, key: Key)
    requires key in b.leases && forall e :: e in b.entries ==> e.createdAt <= clock
    requires Play(System(b, [], clock), events) == Some(last) && AllOver(last.tasks)
    requires NoOverlap(System(b, [], clock), events, key)
    ensures LastBalance(last.books.entries, key) + ActiveTotal(last.books.deductions, key)
         == LastBalance(b.entries, key) + ActiveTotal(b.deductions, key)
  {
    NoOverlapNoDrift(System(b, [], clock), events, key);
    NothingOwed(last.tasks, key);
  }

  // ---------- One request alone ----------

  /** Run without interruption, a request does what the sequential operation does. */
  lemma AddAlone(b: Books, key: Key, amount: int, now: int)
    ensures var t := NewTask(b, AddRequest(key, amount));
            var (b1, t1) := Move(b, t, now); var (b2, t2) := Move(b1, t1, now);
            var (b3, t3) := Move(b2, t2, now); var (b4, t4) := Move(b3, t3, now);
      b4 == Add(b, key, amount, now) && (t4.at.Finished? <==> key in b.leases) && (t4.at.Refused? <==> key !in b.leases)
  {}

  lemma DeleteAlone(b: Books, id: nat, orgId: string, now: int)
    ensures var t := NewTask(b, DeleteRequest(id, orgId));
            var (b1, t1) := Move(b, t, now); var (b2, t2) := Move(b1, t1, now);
            var (b3, t3) := Move(b2, t2, now); var (b4, t4) := Move(b3, t3, now);
            var (b5, t5) := Move(b4, t4, now);
      b5 == Delete(b, id, orgId, now)
      && (Deletable(b, id, orgId) && b.deductions[id].key in b.leases ==> t5.at.Finished?)
  {}

  // ---------- Longer runs ----------

  /** Nothing but steps of the requests that are there. */
  predicate OwnSteps(events: seq<Event>) { forall e :: e in events ==> e.Proceed? }

  /** Last balance plus active deductions is the same. */
  predicate Kept(b: Books, b': Books, key: Key) {
    LastBalance(b'.entries, key) + ActiveTotal(b'.deductions, key)
      == LastBalance(b.entries, key) + ActiveTotal(b.deductions, key)
  }

  lemma Extend(start: System, events: seq<Event>, s: System, e: Event) returns (events': seq<Event>, s': System)
    requires Play(start, events) == Some(s) && Advance(s, e).Some?
    ensures events' == events + [e] && Advance(s, e) == Some(s') && Play(start, events') == Some(s')
  {
    events', s' := events + [e], Advance(s, e).value;
    PlaySnoc(start, events, e);
  }

  lemma {:induction false} PlaySnoc(s: System, events: seq<Event>, e: Event)
    requires Play(s, events).Some?
    ensures Play(s, events + [e]) == Advance(Play(s, events).value, e)
    decreases |events|
  {
    if events == [] {
      assert events + [e] == [e] && [e][1..] == [];
    } else {
      assert (events + [e])[1..] == events[1..] + [e];
      PlaySnoc(Advance(s, events[0]).value, events[1..], e);
    }
  }
}
