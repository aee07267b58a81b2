/**
 * What the container's hash and its two memberships hold while the agent runs, over every run, as
 * far as the manager has not written them since.
 */
module PoolHash {
  import opened Options
  import opened PoolAgent

  /** The last job that got past a stage. */
  function LastPast(attempts: seq<Attempt>, st: Stage): Option<Attempt> {
    if attempts == [] then None
    else
      var a := attempts[|attempts| - 1];
      if Rank(a.stage) > Rank(st) then Some(a) else LastPast(attempts[..|attempts| - 1], st)
  }

  lemma LastPastSnoc(attempts: seq<Attempt>, a: Attempt, st: Stage)
    ensures LastPast(attempts + [a], st) == if Rank(a.stage) > Rank(st) then Some(a) else LastPast(attempts, st)
  {
    assert (attempts + [a])[..|attempts|] == attempts;
  }

  /** The last job past a stage, the one in hand included. */
  function Latest(l: Log, p: Poll, st: Stage): Option<Attempt> {
    if p.Working? && Rank(p.a.stage) > Rank(st) then Some(p.a) else LastPast(l.attempts, st)
  }

  /** Idle without a job, or busy with the last job that was marked busy and not marked idle again. */
  predicate StatusOk(s: State) {
    s.main.Gathering? && !s.log.foreign.status ==>
      match Latest(s.log, s.poll, MarkBusy)
      case None => s.redis.status == Idle && s.redis.jobId == ""
      case Some(a) =>
        if a.stage.Finished? then s.redis.status == Idle && s.redis.jobId == ""
        else
          var id := ParsePayload(a.payload).id;
          s.redis.status == Busy && (id != "" ==> s.redis.jobId == id)
  }

  /** In the idle set unless removed, or, between leaving and rejoining it, only if put back. */
  predicate IdleOk(s: State) {
    s.main.Gathering? ==>
      match Latest(s.log, s.poll, LeaveIdle)
      case None => s.redis.idle <==> !s.log.foreign.removed
      case Some(a) =>
        if Rank(a.stage) > Rank(JoinIdle) then s.redis.idle <==> !s.log.foreign.removed
        else s.redis.idle <==> s.log.foreign.idle
  }

  /** Before the loops. */
  predicate StartOk(s: State) {
    && (Starting(s.main) ==> s.poll.PollNotStarted? && s.log.attempts == [])
    && (s.main in {RegisterSet, FirstJoinIdle, FirstMarkIdle} && !s.log.foreign.status ==>
          s.redis.status == Warming && s.redis.jobId == "")
    && (s.main.FirstMarkIdle? ==> (s.redis.idle <==> !s.log.foreign.removed))
    && (s.main in {FirstJoinIdle, FirstMarkIdle, Gathering} ==> (s.redis.registered <==> !s.log.foreign.unregistered))
  }

  /** Outside the loops no job is in hand. */
  predicate HandOk(s: State) { s.poll.Working? ==> s.main.Gathering? && s.poll.a.stage != Finished }

  predicate HashOk(s: State) { StatusOk(s) && IdleOk(s) && StartOk(s) && HandOk(s) }

  // ---------- Every step keeps them ----------

  lemma WorkKeepsStatus(s: State, a: Attempt, exit: Exit)
    requires HashOk(s) && s.poll == Working(a)
    ensures StatusOk(WorkStep(s, a, exit))
  {
    LastPastSnoc(s.log.attempts, a.(stage := Finished), MarkBusy);
    if Rank(a.stage) > Rank(MarkBusy) && !a.stage.MarkIdle? {
      assert WorkRedis(s.redis, a).status == s.redis.status && WorkRedis(s.redis, a).jobId == s.redis.jobId;
    }
  }

  lemma WorkKeepsIdle(s: State, a: Attempt, exit: Exit)
    requires HashOk(s) && s.poll == Working(a)
    ensures IdleOk(WorkStep(s, a, exit))
  {
    LastPastSnoc(s.log.attempts, a.(stage := Finished), LeaveIdle);
  }

  lemma WorkKeepsHash(s: State, a: Attempt, exit: Exit)
    requires HashOk(s) && s.poll == Working(a)
    ensures HashOk(WorkStep(s, a, exit))
  {
    WorkKeepsStatus(s, a, exit);
    WorkKeepsIdle(s, a, exit);
  }

  /** A raise records the job where it stands: the last job past a stage is the same. */
  lemma RaiseKeepsHash(s: State, a: Attempt, timeout: bool, exit: Exit)
    requires HashOk(s) && s.poll == Working(a) && PollNext(s, true, timeout, exit).Some?
    ensures HashOk(PollNext(s, true, timeout, exit).value)
  {
    LastPastSnoc(s.log.attempts, a, MarkBusy);
    LastPastSnoc(s.log.attempts, a, LeaveIdle);
  }

  /** Nothing that the hash predicates read has changed, but that a job may have been popped. */
  predicate SameHash(s: State, next: State) {
    && next.main == s.main && next.log.attempts == s.log.attempts && next.log.foreign == s.log.foreign
    && next.redis.(queue := s.redis.queue) == s.redis && !s.poll.Working?
    && (next.poll.Working? ==> s.main.Gathering? && next.poll.a.stage.Decode?)
    && (s.poll.PollNotStarted? ==> next.poll.PollNotStarted?)
  }

  lemma FreeFrame(s: State, raise: bool, timeout: bool, exit: Exit)
    requires LoopsInside(s) && !s.poll.Working? && PollNext(s, raise, timeout, exit).Some?
    ensures SameHash(s, PollNext(s, raise, timeout, exit).value)
  {}

  lemma SameKeepsHash(s: State, next: State)
    requires HashOk(s) && SameHash(s, next)
    ensures HashOk(next)
  {}

  lemma FreeKeepsHash(s: State, raise: bool, timeout: bool, exit: Exit)
    requires HashOk(s) && LoopsInside(s) && !s.poll.Working? && PollNext(s, raise, timeout, exit).Some?
    ensures HashOk(PollNext(s, raise, timeout, exit).value)
  {
    FreeFrame(s, raise, timeout, exit);
    SameKeepsHash(s, PollNext(s, raise, timeout, exit).value);
  }

  lemma PollKeepsHash(s: State, raise: bool, timeout: bool, exit: Exit)
    requires HashOk(s) && LoopsInside(s) && PollNext(s, raise, timeout, exit).Some?
    ensures HashOk(PollNext(s, raise, timeout, exit).value)
  {
    if !s.poll.Working? {
      FreeKeepsHash(s, raise, timeout, exit);
    } else if raise {
      RaiseKeepsHash(s, s.poll.a, timeout, exit);
    } else {
      WorkKeepsHash(s, s.poll.a, exit);
    }
  }

  lemma MainKeepsHash(s: State, raise: bool)
    requires HashOk(s) && LoopsInside(s) && MainNext(s, raise).Some?
    ensures HashOk(MainNext(s, raise).value)
  {}

  lemma ManagerKeepsStatus(s: State, op: ManagerOp)
    requires HashOk(s)
    ensures StatusOk(ManagerNext(s, op))
  {}

  lemma ManagerKeepsIdle(s: State, op: ManagerOp)
    requires HashOk(s)
    ensures IdleOk(ManagerNext(s, op))
  {}

  lemma ManagerKeepsStart(s: State, op: ManagerOp)
    requires HashOk(s)
    ensures StartOk(ManagerNext(s, op)) && HandOk(ManagerNext(s, op))
  {}

  lemma ManagerKeepsHash(s: State, op: ManagerOp)
    requires HashOk(s)
    ensures HashOk(ManagerNext(s, op))
  {
    ManagerKeepsStatus(s, op);
    ManagerKeepsIdle(s, op);
    ManagerKeepsStart(s, op);
  }

  lemma SideKeepsHash(s: State, e: Event)
    requires HashOk(s) && IsSide(e) && Next(s, e).Some?
    ensures HashOk(Next(s, e).value)
  {
    SideFrame(s, e);
  }

  lemma StepKeepsHash(s: State, e: Event)
    requires HashOk(s) && LoopsInside(s) && Next(s, e).Some?
    ensures HashOk(Next(s, e).value)
  {
    match e
    case PollStep(raise, timeout, exit) => PollKeepsHash(s, raise, timeout, exit);
    case MainStep(raise) => MainKeepsHash(s, raise);
    case Manager(op) => ManagerKeepsHash(s, op);
    case _ => SideKeepsHash(s, e);
  }

  lemma {:induction false} RunKeepsHash(s: State, events: seq<Event>)
    requires HashOk(s) && Inv(s) && Run(s, events).Some?
    ensures HashOk(Run(s, events).value)
    decreases |events|
  {
    if events != [] {
      StepKeepsInv(s, events[0]);
      StepKeepsHash(s, events[0]);
      RunKeepsHash(Next(s, events[0]).value, events[1..]);
    }
  }

  lemma HashOfEveryRun(events: seq<Event>, s: State)
    requires Run(INIT, events) == Some(s)
    ensures HashOk(s)
  {
    InitInv();
    RunKeepsHash(INIT, events);
  }

  // ---------- Results for every run from the start ----------

  /** From being marked busy to being marked idle, the hash says busy and names the job. */
  lemma BusyWhileWorking(events: seq<Event>, s: State)
    requires Run(INIT, events) == Some(s) && s.poll.Working? && !s.log.foreign.status
    requires Rank(WriteMode) <= Rank(s.poll.a.stage) <= Rank(MarkIdle)
    ensures s.redis.status == Busy
    ensures var id := ParsePayload(s.poll.a.payload).id; id != "" ==> s.redis.jobId == id
  {
    HashOfEveryRun(events, s);
  }

  /** No job is being worked on that has been marked busy, and the last one that was, was marked idle again. */
  predicate AtRest(s: State) {
    && s.main.Gathering?
    && (s.poll.Working? ==> Rank(s.poll.a.stage) <= Rank(MarkBusy))
    && (LastPast(s.log.attempts, MarkBusy).Some? ==> LastPast(s.log.attempts, MarkBusy).value.stage.Finished?)
  }

  /** At rest the hash says idle and names no job. */
  lemma IdleAtRest(events: seq<Event>, s: State)
    requires Run(INIT, events) == Some(s) && AtRest(s) && !s.log.foreign.status
    ensures s.redis.status == Idle && s.redis.jobId == ""
  {
    HashOfEveryRun(events, s);
  }

  /** Before a job has left the idle set, and after the last one has rejoined it. */
  predicate Available(s: State) {
    && s.main.Gathering?
    && (s.poll.Working? ==> Rank(s.poll.a.stage) <= Rank(LeaveIdle) || Rank(s.poll.a.stage) > Rank(JoinIdle))
    && (LastPast(s.log.attempts, LeaveIdle).Some? ==>
          Rank(LastPast(s.log.attempts, LeaveIdle).value.stage) > Rank(JoinIdle))
  }

  /** An available container is in the idle set exactly if the manager has not taken it out. */
  lemma InIdleSetUnlessRemoved(events: seq<Event>, s: State)
    requires Run(INIT, events) == Some(s) && Available(s)
    ensures s.redis.idle <==> !s.log.foreign.removed
  {
    HashOfEveryRun(events, s);
  }

  /** From registering on, the container is in the registry exactly if the manager has not taken it out. */
  lemma RegisteredUnlessRemoved(events: seq<Event>, s: State)
    requires Run(INIT, events) == Some(s) && s.main in {FirstJoinIdle, FirstMarkIdle, Gathering}
    ensures s.redis.registered <==> !s.log.foreign.unregistered
    ensures !s.main.Gathering? && !s.log.foreign.status ==> s.redis.status == Warming && s.redis.jobId == ""
  {
    HashOfEveryRun(events, s);
  }

  /** After a raise in between, the hash stays busy with the abandoned job until the next one. */
  lemma BusyAfterRaise(events: seq<Event>, s: State)
    requires Run(INIT, events) == Some(s) && s.main.Gathering? && !s.poll.Working? && !s.log.foreign.status
    requires var last := LastPast(s.log.attempts, MarkBusy); last.Some? && !last.value.stage.Finished?
    ensures s.redis.status == Busy
  {
    HashOfEveryRun(events, s);
  }

  // ---------- How long the loops run ----------

  /** The poll loop's error handler fails in this run. */
  predicate HandlerFails(s: State, events: seq<Event>)
    decreases |events|
  {
    events != []
    && ((events[0].PollStep? && events[0].raise && s.poll.Failing?)
        || match Next(s, events[0]) case None => false case Some(next) => HandlerFails(next, events[1..]))
  }

  /** While main gathers and the flag is not set, every loop is alive, but for a failed error handler. */
  predicate LoopsOk(s: State, failed: bool) {
    s.main.Gathering? && !s.shutdown ==>
      && s.heartbeat && s.metrics && !s.watch.WatchOver? && !s.watch.WatchNotStarted?
      && !s.poll.PollNotStarted? && (s.poll.PollOver? ==> failed)
  }

  lemma PollKeepsLoops(s: State, raise: bool, timeout: bool, exit: Exit, failed: bool)
    requires LoopsOk(s, failed) && PollNext(s, raise, timeout, exit).Some?
    ensures LoopsOk(PollNext(s, raise, timeout, exit).value, failed || (raise && s.poll.Failing?))
  {}

  lemma StepKeepsLoops(s: State, e: Event, failed: bool)
    requires LoopsOk(s, failed) && Next(s, e).Some?
    ensures LoopsOk(Next(s, e).value, failed || (e.PollStep? && e.raise && s.poll.Failing?))
  {
    if e.PollStep? {
      PollKeepsLoops(s, e.raise, e.timeout, e.exit, failed);
    }
  }

  lemma {:induction false} RunKeepsLoops(s: State, events: seq<Event>, failed: bool)
    requires LoopsOk(s, failed) && Run(s, events).Some?
    ensures LoopsOk(Run(s, events).value, failed || HandlerFails(s, events))
    decreases |events|
  {
    if events != [] {
      var e := events[0];
      StepKeepsLoops(s, e, failed);
      RunKeepsLoops(Next(s, e).value, events[1..], failed || (e.PollStep? && e.raise && s.poll.Failing?));
    }
  }

  /** Until shutdown all four loops run; only the poll loop can end before, if its error handler fails. */
  lemma LoopsRunUntilShutdown(events: seq<Event>, s: State)
    requires Run(INIT, events) == Some(s) && s.main.Gathering? && !s.shutdown
    ensures s.heartbeat && s.metrics && !s.watch.WatchOver?
    ensures s.poll.PollOver? ==> HandlerFails(INIT, events)
  {
    RunKeepsLoops(INIT, events, false);
  }

  /** After a fatal error at the start, the hash says dead before the cleanup begins. */
  lemma FatalMarksDead(s: State)
    requires s.main.Fatal?
    ensures MainNext(s, false).Some?
    ensures var next := MainNext(s, false).value; next.redis.status == Dead && next.main.FinallyDead?
  {}

  /** SIGTERM sets the flag, and with the flag set every loop ends at its next check. */
  lemma LoopsEndAtNextCheck(s: State, timeout: bool, exit: Exit, raise: bool)
    ensures Next(s, Sigterm).Some? && Next(s, Sigterm).value.shutdown
    ensures s.shutdown && s.heartbeat ==> Next(s, HeartbeatStep).Some? && !Next(s, HeartbeatStep).value.heartbeat
    ensures s.shutdown && s.metrics ==> Next(s, MetricsStep).Some? && !Next(s, MetricsStep).value.metrics
    ensures s.shutdown && s.watch.WatchCheck? ==>
      Next(s, WatchStep(raise)).Some? && Next(s, WatchStep(raise)).value.watch.WatchOver?
    ensures s.shutdown && s.poll.Checking? ==>
      Next(s, PollStep(raise, timeout, exit)).Some? && Next(s, PollStep(raise, timeout, exit)).value.poll.PollOver?
  {}
}
