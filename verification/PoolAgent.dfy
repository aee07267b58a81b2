/**
 * The sandbox pool agent: its coroutines, its Redis keys and the pool manager as one
 * transition system. Every Redis call and every other await is one atomic step; any Redis call
 * and the spawn may raise instead, and then has had no effect.
 */
module PoolAgent {
  import opened Options

  // ---------- Payloads ----------

  datatype Job = Job(id: string, mode: string)

  /** The part of s before the first ':', if there is one. */
  function BeforeColon(s: string): (r: Option<string>)
    ensures r.Some? ==> |r.value| < |s| && s[..|r.value|] == r.value && s[|r.value|] == ':'
    ensures r.Some? ==> ':' !in r.value
    ensures r.None? <==> ':' !in s
  {
    if s == [] then None
    else if s[0] == ':' then Some([])
    else match BeforeColon(s[1..])
      case None => None
      case Some(rest) => Some([s[0]] + rest)
  }

  function ParsePayload(payload: string): Job {
    match BeforeColon(payload)
    case Some(id) => Job(id, payload[|id| + 1..])
    case None => Job(payload, "train")
  }

  /**
   * The dispatcher's "id:mode" comes back as that id and mode exactly if the id has no colon; an id
   * alone means training.
   */
  lemma PayloadRoundTrip(id: string, mode: string)
    ensures ParsePayload(id + ":" + mode) == Job(id, mode) <==> ':' !in id
    ensures ':' !in id ==> ParsePayload(id) == Job(id, "train")
  {
    var payload := id + ":" + mode;
    assert payload[|id|] == ':';
    var found := BeforeColon(payload).value;
    if ':' !in id {
      assert forall n :: 0 <= n < |id| ==> payload[n] == id[n];
      assert payload[|id| + 1..] == mode;
    }
  }

  // ---------- State ----------

  datatype Status = Absent | Warming | Idle | Busy | Draining | Dead

  datatype Exit = TimedOut | Returned(code: int)

  /** The next await of _run_job, in order. */
  datatype Stage =
    | Decode | LeaveIdle | MarkBusy | WriteMode | Spawn | Await
    | Publish | Store | Stamp | JoinIdle | MarkIdle | Finished

  function Rank(st: Stage): nat {
    match st
    case Decode => 0 case LeaveIdle => 1 case MarkBusy => 2 case WriteMode => 3
    case Spawn => 4 case Await => 5 case Publish => 6 case Store => 7
    case Stamp => 8 case JoinIdle => 9 case MarkIdle => 10 case Finished => 11
  }

  function Following(st: Stage): (next: Stage)
    ensures st != Finished ==> Rank(next) == Rank(st) + 1
  {
    match st
    case Decode => LeaveIdle case LeaveIdle => MarkBusy case MarkBusy => WriteMode
    case WriteMode => Spawn case Spawn => Await case Await => Publish case Publish => Store
    case Store => Stamp case Stamp => JoinIdle case JoinIdle => MarkIdle case _ => Finished
  }

  /** One popped payload and how far its handling has come; exit is known after Await. */
  datatype Attempt = Attempt(payload: string, stage: Stage, exit: Exit)

  datatype Poll = PollNotStarted | Checking | Blocked | Working(a: Attempt) | Failing | Pausing | PollOver

  datatype Watch = WatchNotStarted | WatchCheck | ReadStatus | ReadJob | WatchSleep | WatchOver

  datatype Main =
    | RegisterHash | RegisterSet | FirstJoinIdle | FirstMarkIdle | Gathering
    | Fatal | FinallyDead | FinallyRegistry | FinallyIdle | Closed | Crashed

  /** The container's hash, its membership in the two sets, and its job list. */
  datatype Redis = Redis(status: Status, jobId: string, idle: bool, registered: bool, queue: seq<string>)

  /** The published signal: "1" or "error". */
  datatype Signal = One | ErrorSignal

  /** The stored job status: "done" or "error". */
  datatype JobStatus = Done | Error

  datatype Published = Published(jobId: string, signal: Signal)

  datatype Stored = Stored(jobId: string, status: JobStatus)

  /**
   * The manager has written the status after the agent did, or has put the container into a set
   * where it still is (idle, registered), or has taken it out (removed, unregistered) since the
   * agent's own last write of its membership.
   */
  datatype Foreign = Foreign(status: bool, idle: bool, registered: bool, removed: bool, unregistered: bool)

  /** What has happened so far. */
  datatype Log = Log(
    pushed: seq<string>, attempts: seq<Attempt>, signals: seq<Published>, statuses: seq<Stored>,
    spawnedAfterShutdown: nat, raised: bool, foreign: Foreign)

  datatype State = State(
    shutdown: bool, poll: Poll, watch: Watch, heartbeat: bool, metrics: bool, main: Main,
    redis: Redis, log: Log)

  const INIT := State(
    false, PollNotStarted, WatchNotStarted, false, false, RegisterHash,
    Redis(Absent, "", false, false, []), Log([], [], [], [], 0, false, Foreign(false, false, false, false, false)))

  // ---------- Steps ----------

  datatype ManagerOp =
    | Push(payload: string)      // rpush
    | Acquire(id: string)        // the Lua script, which claims only an empty job_id
    | SetStatus(st: Status)      // hset state
    | Reset(warming: bool)       // hset state and an empty job_id: spawn, release
    | AddIdle | AddRegistered    // sadd
    | RemoveIdle | RemoveRegistered

  /** raise: the awaited call raises; timeout: BLPOP returns nothing; exit: how a job ends. */
  datatype Event =
    | PollStep(raise: bool, timeout: bool, exit: Exit)
    | WatchStep(raise: bool)
    | HeartbeatStep | MetricsStep
    | MainStep(raise: bool)
    | Manager(op: ManagerOp)
    | Sigterm

  function SignalFor(exit: Exit): Signal {
    if exit.TimedOut? then ErrorSignal else if exit.code != 0 then ErrorSignal else One
  }

  function StatusFor(signal: Signal): JobStatus { if signal.One? then Done else Error }

  function WorkRedis(r: Redis, a: Attempt): Redis {
    match a.stage
    case LeaveIdle => r.(idle := false)
    case MarkBusy =>
      var id := ParsePayload(a.payload).id;
      r.(status := Busy, jobId := if id != "" then id else r.jobId)
    case JoinIdle => r.(idle := true)
    case MarkIdle => r.(status := Idle, jobId := "")
    case _ => r
  }

  function WorkLog(l: Log, a: Attempt, shutdown: bool): Log {
    match a.stage
    case LeaveIdle => l.(foreign := l.foreign.(idle := false, removed := false))
    case MarkBusy => l.(foreign := l.foreign.(status := false))
    case Spawn => if shutdown then l.(spawnedAfterShutdown := l.spawnedAfterShutdown + 1) else l
    case Publish =>
      l.(signals := l.signals + [Published(ParsePayload(a.payload).id, SignalFor(a.exit))])
    case Store =>
      l.(statuses := l.statuses + [Stored(ParsePayload(a.payload).id, StatusFor(SignalFor(a.exit)))])
    case JoinIdle => l.(foreign := l.foreign.(idle := false, removed := false))
    case MarkIdle => l.(foreign := l.foreign.(status := false), attempts := l.attempts + [a.(stage := Finished)])
    case _ => l
  }

  function Advanced(a: Attempt, exit: Exit): Attempt {
    Attempt(a.payload, Following(a.stage), if a.stage.Await? then exit else a.exit)
  }

  function WorkStep(s: State, a: Attempt, exit: Exit): State {
    s.(redis := WorkRedis(s.redis, a), log := WorkLog(s.log, a, s.shutdown),
       poll := if a.stage.MarkIdle? then Checking else Working(Advanced(a, exit)))
  }

  function PollNext(s: State, raise: bool, timeout: bool, exit: Exit): Option<State> {
    match s.poll
    case Checking => Some(s.(poll := if s.shutdown then PollOver else Blocked))
    case Blocked =>
      if raise then Some(s.(poll := Failing, log := s.log.(raised := true)))
      else if timeout then Some(s.(poll := Checking))
      else if s.redis.queue == [] then None
      else Some(s.(redis := s.redis.(queue := s.redis.queue[1..]),
                   poll := Working(Attempt(s.redis.queue[0], Decode, TimedOut))))
    case Working(a) =>
      if !raise then Some(WorkStep(s, a, exit))
      else if a.stage.Await? then None
      else Some(s.(poll := Failing, log := s.log.(raised := true, attempts := s.log.attempts + [a])))
    case Failing => Some(s.(poll := if raise then PollOver else Pausing))
    case Pausing => Some(s.(poll := Checking))
    case _ => None
  }

  function WatchNext(s: State, raise: bool): Option<State> {
    match s.watch
    case WatchCheck => Some(s.(watch := if s.shutdown then WatchOver else ReadStatus))
    case ReadStatus =>
      Some(s.(watch := if !raise && s.redis.status.Draining? then ReadJob else WatchSleep))
    case ReadJob =>
      Some(if !raise && s.redis.jobId == "" then s.(shutdown := true, watch := WatchOver)
           else s.(watch := WatchSleep))
    case WatchSleep => Some(s.(watch := WatchCheck))
    case _ => None
  }

  predicate LoopsOver(s: State) {
    s.poll.PollOver? && s.watch.WatchOver? && !s.heartbeat && !s.metrics
  }

  /** The agent's own write of the hash field state. */
  function Write(s: State, st: Status): State {
    s.(redis := s.redis.(status := st), log := s.log.(foreign := s.log.foreign.(status := false)))
  }

  /** The agent's own sadd or srem of the idle set. */
  function WriteIdle(s: State, idle: bool): State {
    s.(redis := s.redis.(idle := idle), log := s.log.(foreign := s.log.foreign.(idle := false, removed := false)))
  }

  function WriteRegistered(s: State, registered: bool): State {
    s.(redis := s.redis.(registered := registered),
       log := s.log.(foreign := s.log.foreign.(registered := false, unregistered := false)))
  }

  function MainNext(s: State, raise: bool): Option<State> {
    match s.main
    case RegisterHash =>
      Some(if raise then s.(main := Fatal)
           else State(s.shutdown, s.poll, s.watch, s.heartbeat, s.metrics, RegisterSet,
                      s.redis.(status := Warming, jobId := ""), Write(s, Warming).log))
    case RegisterSet =>
      Some(if raise then s.(main := Fatal)
           else WriteRegistered(s, true).(main := FirstJoinIdle))
    case FirstJoinIdle =>
      Some(if raise then s.(main := Fatal)
           else WriteIdle(s, true).(main := FirstMarkIdle))
    case FirstMarkIdle =>
      Some(if raise then s.(main := Fatal)
           else State(s.shutdown, Checking, WatchCheck, true, true, Gathering,
                      s.redis.(status := Idle, jobId := ""), Write(s, Idle).log))
    case Gathering => if LoopsOver(s) then Some(s.(main := FinallyDead)) else None
    case Fatal => Some((if raise then s else Write(s, Dead)).(main := FinallyDead))
    case FinallyDead =>
      Some(if raise then s.(main := Crashed) else Write(s, Dead).(main := FinallyRegistry))
    case FinallyRegistry =>
      Some(if raise then s.(main := Crashed)
           else WriteRegistered(s, false).(main := FinallyIdle))
    case FinallyIdle =>
      Some(if raise then s.(main := Crashed)
           else WriteIdle(s, false).(main := Closed))
    case _ => None
  }

  /** The manager writes what it likes, at any time. */
  function ManagerNext(s: State, op: ManagerOp): State {
    var r, l := s.redis, s.log;
    match op
    case Push(payload) =>
      s.(redis := r.(queue := r.queue + [payload]), log := l.(pushed := l.pushed + [payload]))
    case Acquire(id) =>
      if r.jobId == ""
      then s.(redis := r.(jobId := id, status := Busy, idle := false),
              log := l.(foreign := l.foreign.(status := true, idle := false, removed := true)))
      else s
    case SetStatus(st) => s.(redis := r.(status := st), log := l.(foreign := l.foreign.(status := true)))
    case Reset(warming) =>
      s.(redis := r.(status := if warming then Warming else Idle, jobId := ""),
         log := l.(foreign := l.foreign.(status := true)))
    case AddIdle => s.(redis := r.(idle := true), log := l.(foreign := l.foreign.(idle := true, removed := false)))
    case AddRegistered =>
      s.(redis := r.(registered := true), log := l.(foreign := l.foreign.(registered := true, unregistered := false)))
    case RemoveIdle => s.(redis := r.(idle := false), log := l.(foreign := l.foreign.(idle := false, removed := true)))
    case RemoveRegistered =>
      s.(redis := r.(registered := false), log := l.(foreign := l.foreign.(registered := false, unregistered := true)))
  }

  /** None: the event cannot happen in s. */
  function Next(s: State, e: Event): Option<State> {
    match e
    case PollStep(raise, timeout, exit) => PollNext(s, raise, timeout, exit)
    case WatchStep(raise) => WatchNext(s, raise)
    case HeartbeatStep => if s.heartbeat then Some(s.(heartbeat := !s.shutdown)) else None
    case MetricsStep => if s.metrics then Some(s.(metrics := !s.shutdown)) else None
    case MainStep(raise) => MainNext(s, raise)
    case Manager(op) => Some(ManagerNext(s, op))
    case Sigterm => Some(s.(shutdown := true))
  }

  function Run(s: State, events: seq<Event>): Option<State>
    decreases |events|
  {
    if events == [] then Some(s)
    else match Next(s, events[0])
      case None => None
      case Some(next) => Run(next, events[1..])
  }

  // ---------- What the logs say ----------

  function PayloadOf(p: Poll): seq<string> { if p.Working? then [p.a.payload] else [] }

  function Payloads(attempts: seq<Attempt>): seq<string> {
    if attempts == [] then []
    else Payloads(attempts[..|attempts| - 1]) + [attempts[|attempts| - 1].payload]
  }

  /** The signal an attempt has published, given how far it came: "1" exactly for exit code 0. */
  function SignalsOf(a: Attempt): seq<Published> {
    if Rank(a.stage) > Rank(Publish)
    then [Published(ParsePayload(a.payload).id, if a.exit == Returned(0) then One else ErrorSignal)] else []
  }

  function StatusesOf(a: Attempt): seq<Stored> {
    if Rank(a.stage) > Rank(Store)
    then [Stored(ParsePayload(a.payload).id, if a.exit == Returned(0) then Done else Error)] else []
  }

  function AllSignals(attempts: seq<Attempt>): seq<Published> {
    if attempts == [] then []
    else AllSignals(attempts[..|attempts| - 1]) + SignalsOf(attempts[|attempts| - 1])
  }

  function AllStatuses(attempts: seq<Attempt>): seq<Stored> {
    if attempts == [] then []
    else AllStatuses(attempts[..|attempts| - 1]) + StatusesOf(attempts[|attempts| - 1])
  }

  /** Every pushed payload is handled, in hand or queued, in the order of pushing. */
  predicate ConservedJobs(l: Log, p: Poll, queue: seq<string>) {
    l.pushed == Payloads(l.attempts) + PayloadOf(p) + queue
  }

  predicate ConsistentRecords(l: Log, p: Poll) {
    && l.signals == AllSignals(l.attempts) + (if p.Working? then SignalsOf(p.a) else [])
    && l.statuses == AllStatuses(l.attempts) + (if p.Working? then StatusesOf(p.a) else [])
  }

  predicate AllFinished(attempts: seq<Attempt>) {
    forall n :: 0 <= n < |attempts| ==> attempts[n].stage.Finished?
  }

  predicate CompleteUnlessRaised(l: Log) { !l.raised ==> AllFinished(l.attempts) }

  predicate Logs(s: State) {
    && ConservedJobs(s.log, s.poll, s.redis.queue)
    && ConsistentRecords(s.log, s.poll)
    && CompleteUnlessRaised(s.log)
  }

  // ---------- What the coroutines and sets satisfy ----------

  predicate IdleMeansFree(p: Poll, idle: bool, foreign: bool) {
    p.Working? && Rank(MarkBusy) <= Rank(p.a.stage) <= Rank(JoinIdle) ==> (idle <==> foreign)
  }

  predicate MaySpawn(p: Poll) { p.Blocked? || (p.Working? && Rank(p.a.stage) <= Rank(Spawn)) }

  predicate OneMoreJob(shutdown: bool, p: Poll, spawned: nat) {
    if shutdown then spawned + (if MaySpawn(p) then 1 else 0) <= 1 else spawned == 0
  }

  predicate Starting(m: Main) { m.RegisterHash? || m.RegisterSet? || m.FirstJoinIdle? || m.FirstMarkIdle? }

  /** The loops run only while main gathers them. */
  predicate LoopsInside(s: State) {
    && (s.poll.Working? ==> s.poll.a.stage != Finished)
    && (s.main != Gathering ==>
          && (s.poll.PollNotStarted? || s.poll.PollOver?)
          && (s.watch.WatchNotStarted? || s.watch.WatchOver?)
          && !s.heartbeat && !s.metrics)
    && (Starting(s.main) ==> s.poll.PollNotStarted?)
  }

  /** What the finally block has achieved so far. */
  predicate CleanedUp(m: Main, r: Redis, foreign: Foreign) {
    && (m.FinallyRegistry? || m.FinallyIdle? || m.Closed? ==> r.status == Dead || foreign.status)
    && (m.FinallyIdle? || m.Closed? ==> (r.registered <==> foreign.registered))
    && (m.Closed? ==> (r.idle <==> foreign.idle))
  }

  predicate Control(s: State) {
    && LoopsInside(s)
    && IdleMeansFree(s.poll, s.redis.idle, s.log.foreign.idle)
    && OneMoreJob(s.shutdown, s.poll, s.log.spawnedAfterShutdown)
    && CleanedUp(s.main, s.redis, s.log.foreign)
  }

  predicate Inv(s: State) { Logs(s) && Control(s) }

  // ---------- Every step keeps them ----------

  lemma Appended(attempts: seq<Attempt>, a: Attempt)
    ensures Payloads(attempts + [a]) == Payloads(attempts) + [a.payload]
    ensures AllSignals(attempts + [a]) == AllSignals(attempts) + SignalsOf(a)
    ensures AllStatuses(attempts + [a]) == AllStatuses(attempts) + StatusesOf(a)
  {
    assert (attempts + [a])[..|attempts|] == attempts;
  }

  lemma Grow<T>(log: seq<T>, base: seq<T>, held: seq<T>, added: seq<T>)
    requires log == base + held
    ensures log + added == base + (held + added)
  {}

  /** One stage adds the same signal to the log and to what the attempt accounts for. */
  lemma StageAddsSignals(l: Log, a: Attempt, shutdown: bool, exit: Exit) returns (added: seq<Published>)
    requires !a.stage.Finished?
    ensures WorkLog(l, a, shutdown).signals == l.signals + added
    ensures SignalsOf(Advanced(a, exit)) == SignalsOf(a) + added
  {
    added := if a.stage.Publish? then SignalsOf(Advanced(a, exit)) else [];
  }

  lemma StageAddsStatuses(l: Log, a: Attempt, shutdown: bool, exit: Exit) returns (added: seq<Stored>)
    requires !a.stage.Finished?
    ensures WorkLog(l, a, shutdown).statuses == l.statuses + added
    ensures StatusesOf(Advanced(a, exit)) == StatusesOf(a) + added
  {
    added := if a.stage.Store? then StatusesOf(Advanced(a, exit)) else [];
  }

  lemma StageKeeps(l: Log, a: Attempt, shutdown: bool, exit: Exit)
    requires !a.stage.Finished?
    ensures var l', a' := WorkLog(l, a, shutdown), Advanced(a, exit);
      && l'.pushed == l.pushed && l'.raised == l.raised && a'.payload == a.payload
      && (a.stage.MarkIdle? <==> a'.stage.Finished?)
      && l'.attempts == (if a.stage.MarkIdle? then l.attempts + [a'] else l.attempts)
  {}

  lemma AdvanceKeepsLogs(l: Log, a: Attempt, shutdown: bool, exit: Exit, queue: seq<string>)
    requires !a.stage.Finished? && ConservedJobs(l, Working(a), queue)
    requires ConsistentRecords(l, Working(a)) && CompleteUnlessRaised(l)
    ensures var l', a' := WorkLog(l, a, shutdown), Advanced(a, exit);
            var p' := if a.stage.MarkIdle? then Checking else Working(a');
      ConservedJobs(l', p', queue) && ConsistentRecords(l', p') && CompleteUnlessRaised(l')
  {
    var l', a' := WorkLog(l, a, shutdown), Advanced(a, exit);
    var signals := StageAddsSignals(l, a, shutdown, exit);
    var statuses := StageAddsStatuses(l, a, shutdown, exit);
    StageKeeps(l, a, shutdown, exit);
    Grow(l.signals, AllSignals(l.attempts), SignalsOf(a), signals);
    Grow(l.statuses, AllStatuses(l.attempts), StatusesOf(a), statuses);
    if a.stage.MarkIdle? {
      LoggedKeepsLogs(l', a', l.attempts, queue);
    }
  }

  lemma LoggedKeepsLogs(l: Log, a: Attempt, attempts: seq<Attempt>, queue: seq<string>)
    requires l.attempts == attempts + [a] && a.stage.Finished?
    requires l.pushed == Payloads(attempts) + [a.payload] + queue
    requires l.signals == AllSignals(attempts) + SignalsOf(a)
    requires l.statuses == AllStatuses(attempts) + StatusesOf(a)
    requires !l.raised ==> AllFinished(attempts)
    ensures ConservedJobs(l, Checking, queue) && ConsistentRecords(l, Checking) && CompleteUnlessRaised(l)
  {
    Appended(attempts, a);
    NoneInHand(l, Checking, queue);
  }

  lemma NoneInHand(l: Log, p: Poll, queue: seq<string>)
    requires !p.Working?
    ensures ConservedJobs(l, p, queue) <==> l.pushed == Payloads(l.attempts) + queue
    ensures ConsistentRecords(l, p)
       <==> l.signals == AllSignals(l.attempts) && l.statuses == AllStatuses(l.attempts)
  {
    assert Payloads(l.attempts) + [] == Payloads(l.attempts);
    assert AllSignals(l.attempts) + [] == AllSignals(l.attempts);
    assert AllStatuses(l.attempts) + [] == AllStatuses(l.attempts);
  }

  /** A raising call ends the attempt where it stands. */
  lemma RaiseKeepsLogs(l: Log, a: Attempt, queue: seq<string>)
    requires ConservedJobs(l, Working(a), queue) && ConsistentRecords(l, Working(a))
    ensures var l' := l.(raised := true, attempts := l.attempts + [a]);
      ConservedJobs(l', Failing, queue) && ConsistentRecords(l', Failing)
  {
    Appended(l.attempts, a);
  }

  lemma PopKeepsLogs(l: Log, queue: seq<string>)
    requires queue != [] && ConservedJobs(l, Blocked, queue) && ConsistentRecords(l, Blocked)
    ensures var p := Working(Attempt(queue[0], Decode, TimedOut));
      ConservedJobs(l, p, queue[1..]) && ConsistentRecords(l, p)
  {
    assert queue == [queue[0]] + queue[1..];
  }

  lemma WorkKeepsLogs(s: State, a: Attempt, exit: Exit)
    requires Logs(s) && s.poll == Working(a) && !a.stage.Finished?
    ensures Logs(WorkStep(s, a, exit))
  {
    AdvanceKeepsLogs(s.log, a, s.shutdown, exit, s.redis.queue);
    assert WorkRedis(s.redis, a).queue == s.redis.queue;
  }

  lemma PollKeepsLogs(s: State, raise: bool, timeout: bool, exit: Exit)
    requires Inv(s) && PollNext(s, raise, timeout, exit).Some?
    ensures Logs(PollNext(s, raise, timeout, exit).value)
  {
    match s.poll
    case Working(a) =>
      if raise {
        RaiseKeepsLogs(s.log, a, s.redis.queue);
      } else {
        WorkKeepsLogs(s, a, exit);
      }
    case Blocked =>
      if !raise && !timeout {
        PopKeepsLogs(s.log, s.redis.queue);
      }
    case _ =>
  }

  lemma WorkKeepsControl(s: State, a: Attempt, exit: Exit)
    requires Control(s) && s.poll == Working(a)
    ensures Control(WorkStep(s, a, exit))
  {}

  lemma PollKeepsControl(s: State, raise: bool, timeout: bool, exit: Exit)
    requires Control(s) && PollNext(s, raise, timeout, exit).Some?
    ensures Control(PollNext(s, raise, timeout, exit).value)
  {
    if s.poll.Working? {
      WorkKeepsControl(s, s.poll.a, exit);
    }
  }

  /** main touches neither the jobs nor their records. */
  lemma MainFrame(s: State, raise: bool)
    requires LoopsInside(s) && MainNext(s, raise).Some?
    ensures var next := MainNext(s, raise).value;
      && next.log.(foreign := s.log.foreign) == s.log && next.redis.queue == s.redis.queue
      && (next.poll == s.poll || (!next.poll.Working? && !s.poll.Working?))
  {}

  lemma MainKeepsLogs(s: State, raise: bool)
    requires Inv(s) && MainNext(s, raise).Some?
    ensures Logs(MainNext(s, raise).value)
  {
    MainFrame(s, raise);
    SameLogs(s, MainNext(s, raise).value);
  }

  lemma LoopsStart(s: State)
    requires Control(s) && s.main.FirstMarkIdle?
    ensures Control(MainNext(s, false).value)
  {}

  lemma CleanupKeepsControl(s: State, raise: bool)
    requires Control(s) && (s.main.FinallyRegistry? || s.main.FinallyIdle?)
    ensures MainNext(s, raise).Some? && Control(MainNext(s, raise).value)
  {}

  lemma FinallyKeepsControl(s: State, raise: bool)
    requires Control(s) && !Starting(s.main) && MainNext(s, raise).Some?
    ensures Control(MainNext(s, raise).value)
  {
    if s.main.FinallyRegistry? || s.main.FinallyIdle? {
      CleanupKeepsControl(s, raise);
    }
  }

  lemma MainKeepsControl(s: State, raise: bool)
    requires Control(s) && MainNext(s, raise).Some?
    ensures Control(MainNext(s, raise).value)
  {
    if s.main.FirstMarkIdle? && !raise {
      LoopsStart(s);
    } else if !Starting(s.main) {
      FinallyKeepsControl(s, raise);
    }
  }

  lemma ManagerKeepsControl(s: State, op: ManagerOp)
    requires Control(s)
    ensures Control(ManagerNext(s, op))
  {}

  lemma ManagerKeepsInv(s: State, op: ManagerOp)
    requires Inv(s)
    ensures Inv(ManagerNext(s, op))
  {
    ManagerKeepsControl(s, op);
    if op.Push? {
      PushKeepsLogs(s, op.payload);
    } else {
      SameLogs(s, ManagerNext(s, op));
    }
  }

  lemma PushKeepsLogs(s: State, payload: string)
    requires Logs(s)
    ensures Logs(ManagerNext(s, Push(payload)))
  {
    Grow(s.log.pushed, Payloads(s.log.attempts) + PayloadOf(s.poll), s.redis.queue, [payload]);
  }

  predicate IsSide(e: Event) { e.WatchStep? || e.HeartbeatStep? || e.MetricsStep? || e.Sigterm? }

  /** The other coroutines and the signal handler touch neither Redis nor the records. */
  lemma SideFrame(s: State, e: Event)
    requires IsSide(e) && Next(s, e).Some?
    ensures var next := Next(s, e).value;
      next.log == s.log && next.poll == s.poll && next.redis == s.redis && next.main == s.main
  {}

  lemma SameLogs(s: State, next: State)
    requires Logs(s) && next.log.(foreign := s.log.foreign) == s.log && next.redis.queue == s.redis.queue
    requires next.poll == s.poll || (!next.poll.Working? && !s.poll.Working?)
    ensures Logs(next)
  {}

  lemma SideKeepsControl(s: State, e: Event)
    requires Control(s) && IsSide(e) && Next(s, e).Some?
    ensures Control(Next(s, e).value)
  {}

  lemma StepKeepsInv(s: State, e: Event)
    requires Inv(s) && Next(s, e).Some?
    ensures Inv(Next(s, e).value)
  {
    if e.PollStep? {
      PollKeepsLogs(s, e.raise, e.timeout, e.exit);
      PollKeepsControl(s, e.raise, e.timeout, e.exit);
    } else if e.MainStep? {
      MainKeepsLogs(s, e.raise);
      MainKeepsControl(s, e.raise);
    } else if e.Manager? {
      ManagerKeepsInv(s, e.op);
    } else {
      SideFrame(s, e);
      SameLogs(s, Next(s, e).value);
      SideKeepsControl(s, e);
    }
  }

  lemma {:induction false} RunKeepsInv(s: State, events: seq<Event>)
    requires Inv(s) && Run(s, events).Some?
    ensures Inv(Run(s, events).value)
    decreases |events|
  {
    if events != [] {
      StepKeepsInv(s, events[0]);
      RunKeepsInv(Next(s, events[0]).value, events[1..]);
    }
  }

  // ---------- Results for every run from the start ----------

  lemma InitInv()
    ensures Inv(INIT)
  {}

  lemma {:induction false} PayloadAt(attempts: seq<Attempt>, n: nat)
    ensures |Payloads(attempts)| == |attempts|
    ensures n < |attempts| ==> Payloads(attempts)[n] == attempts[n].payload
    decreases |attempts|
  {
    if attempts != [] {
      PayloadAt(attempts[..|attempts| - 1], n);
    }
  }

  /** Pushed = handled + at most one in hand + queued, in the order of pushing, raising or not. */
  lemma JobConservation(events: seq<Event>, s: State)
    requires Run(INIT, events) == Some(s)
    ensures s.log.pushed == Payloads(s.log.attempts) + PayloadOf(s.poll) + s.redis.queue
    ensures |s.log.pushed|
         == |s.log.attempts| + (if s.poll.Working? then 1 else 0) + |s.redis.queue|
  {
    InitInv();
    RunKeepsInv(INIT, events);
    PayloadAt(s.log.attempts, 0);
  }

  /**
   * If nothing raised, the n-th pushed job has one signal and one status, both the n-th: they
   * carry its id, and are "1" and "done" exactly if its subprocess returned 0 in time. At most
   * one further signal and status exist, those of the job in hand.
   */
  lemma OneStatusPerJob(events: seq<Event>, s: State, n: nat)
    requires Run(INIT, events) == Some(s) && !s.log.raised
    ensures |s.log.attempts| <= |s.log.statuses| <= |s.log.signals| <= |s.log.attempts| + 1
    ensures n < |s.log.attempts| ==>
      var a := s.log.attempts[n];
      && n < |s.log.pushed| && a.payload == s.log.pushed[n]
      && s.log.signals[n].jobId == s.log.statuses[n].jobId == ParsePayload(s.log.pushed[n]).id
      && (s.log.signals[n].signal == One <==> a.exit == Returned(0))
      && (s.log.statuses[n].status == Done <==> a.exit == Returned(0))
  {
    InitInv();
    RunKeepsInv(INIT, events);
    Counts(s.log, s.poll, s.redis.queue);
    if n < |s.log.attempts| {
      RecordsAt(s.log, s.poll, s.redis.queue, n);
    }
  }

  /** The attempts that got past a stage, in order. */
  function Past(attempts: seq<Attempt>, st: Stage): seq<Attempt> {
    if attempts == [] then []
    else
      var a := attempts[|attempts| - 1];
      Past(attempts[..|attempts| - 1], st) + (if Rank(a.stage) > Rank(st) then [a] else [])
  }

  /** All jobs that were ever popped, the one in hand last. */
  function Popped(s: State): seq<Attempt> { s.log.attempts + (if s.poll.Working? then [s.poll.a] else []) }

  predicate IsStatusOf(x: Stored, a: Attempt) {
    x.jobId == ParsePayload(a.payload).id && (x.status == Done <==> a.exit == Returned(0))
  }

  predicate IsSignalOf(x: Published, a: Attempt) {
    x.jobId == ParsePayload(a.payload).id && (x.signal == One <==> a.exit == Returned(0))
  }

  lemma {:induction false} StatusesOfPast(attempts: seq<Attempt>, k: nat)
    ensures |AllStatuses(attempts)| == |Past(attempts, Store)|
    ensures k < |AllStatuses(attempts)| ==> IsStatusOf(AllStatuses(attempts)[k], Past(attempts, Store)[k])
    decreases |attempts|
  {
    if attempts != [] {
      StatusesOfPast(attempts[..|attempts| - 1], k);
    }
  }

  lemma {:induction false} SignalsOfPast(attempts: seq<Attempt>, k: nat)
    ensures |AllSignals(attempts)| == |Past(attempts, Publish)|
    ensures k < |AllSignals(attempts)| ==> IsSignalOf(AllSignals(attempts)[k], Past(attempts, Publish)[k])
    decreases |attempts|
  {
    if attempts != [] {
      SignalsOfPast(attempts[..|attempts| - 1], k);
    }
  }

  lemma RecordsOfPopped(s: State)
    requires Logs(s)
    ensures s.log.statuses == AllStatuses(Popped(s)) && s.log.signals == AllSignals(Popped(s))
  {
    if s.poll.Working? {
      Appended(s.log.attempts, s.poll.a);
    } else {
      NoneInHand(s.log, s.poll, s.redis.queue);
      assert s.log.attempts + [] == s.log.attempts;
    }
  }

  /**
   * Whatever raised: the k-th stored status is that of the k-th job that got past storing it, and
   * no other exists; the same holds for signals and publishing.
   */
  lemma RecordsOfEveryRun(events: seq<Event>, s: State, k: nat)
    requires Run(INIT, events) == Some(s)
    ensures |s.log.statuses| == |Past(Popped(s), Store)| && |s.log.signals| == |Past(Popped(s), Publish)|
    ensures k < |s.log.statuses| ==> IsStatusOf(s.log.statuses[k], Past(Popped(s), Store)[k])
    ensures k < |s.log.signals| ==> IsSignalOf(s.log.signals[k], Past(Popped(s), Publish)[k])
  {
    InitInv();
    RunKeepsInv(INIT, events);
    RecordsOfPopped(s);
    StatusesOfPast(Popped(s), k);
    SignalsOfPast(Popped(s), k);
  }

  predicate HasStatus(statuses: seq<Stored>, id: string) { exists x :: x in statuses && x.jobId == id }

  predicate GotPastStore(attempts: seq<Attempt>, id: string) {
    exists a :: a in attempts && ParsePayload(a.payload).id == id && Rank(a.stage) > Rank(Store)
  }

  lemma {:induction false} StatusesByJob(attempts: seq<Attempt>, id: string)
    ensures HasStatus(AllStatuses(attempts), id) <==> GotPastStore(attempts, id)
    decreases |attempts|
  {
    if attempts != [] {
      var rest, a := attempts[..|attempts| - 1], attempts[|attempts| - 1];
      StatusesByJob(rest, id);
      StatusConcat(AllStatuses(rest), StatusesOf(a), id);
      StatusOfOne(a, id);
      PastConcat(rest, a, id);
      assert attempts == rest + [a];
    }
  }

  lemma StatusConcat(x: seq<Stored>, y: seq<Stored>, id: string)
    ensures HasStatus(x + y, id) <==> HasStatus(x, id) || HasStatus(y, id)
  {
    assert forall z :: z in x + y <==> z in x || z in y;
  }

  lemma StatusOfOne(a: Attempt, id: string)
    ensures HasStatus(StatusesOf(a), id) <==> ParsePayload(a.payload).id == id && Rank(a.stage) > Rank(Store)
  {
    assert StatusesOf(a) != [] ==> StatusesOf(a)[0] in StatusesOf(a);
  }

  lemma PastConcat(attempts: seq<Attempt>, a: Attempt, id: string)
    ensures GotPastStore(attempts + [a], id)
       <==> GotPastStore(attempts, id) || (ParsePayload(a.payload).id == id && Rank(a.stage) > Rank(Store))
  {
    assert forall b :: b in attempts + [a] <==> b in attempts || b == a;
  }

  /** Whatever raised: a job id has a stored status exactly if a job of that id got past storing it. */
  lemma StatusIffPastStore(events: seq<Event>, s: State, id: string)
    requires Run(INIT, events) == Some(s)
    ensures HasStatus(s.log.statuses, id) <==> GotPastStore(Popped(s), id)
  {
    InitInv();
    RunKeepsInv(INIT, events);
    RecordsOfPopped(s);
    StatusesByJob(Popped(s), id);
  }

  lemma {:induction false} PastAll(attempts: seq<Attempt>, st: Stage)
    requires AllFinished(attempts) && !st.Finished?
    ensures Past(attempts, st) == attempts
    decreases |attempts|
  {
    if attempts != [] {
      PastAll(attempts[..|attempts| - 1], st);
    }
  }

  lemma Counts(l: Log, p: Poll, queue: seq<string>)
    requires ConservedJobs(l, p, queue) && ConsistentRecords(l, p) && AllFinished(l.attempts)
    ensures |l.attempts| <= |l.statuses| <= |l.signals| <= |l.attempts| + 1
    ensures |l.attempts| <= |l.pushed|
  {
    PayloadAt(l.attempts, 0);
    FinishedRecords(l.attempts, 0);
    if p.Working? {
      InHand(p.a);
    }
  }

  lemma InHand(a: Attempt)
    ensures |StatusesOf(a)| <= |SignalsOf(a)| <= 1
  {}

  lemma FinishedRecords(attempts: seq<Attempt>, n: nat)
    requires AllFinished(attempts)
    ensures |AllSignals(attempts)| == |AllStatuses(attempts)| == |attempts|
    ensures n < |attempts| ==>
      IsSignalOf(AllSignals(attempts)[n], attempts[n]) && IsStatusOf(AllStatuses(attempts)[n], attempts[n])
  {
    PastAll(attempts, Publish);
    PastAll(attempts, Store);
    SignalsOfPast(attempts, n);
    StatusesOfPast(attempts, n);
  }

  lemma RecordsAt(l: Log, p: Poll, queue: seq<string>, n: nat)
    requires ConservedJobs(l, p, queue) && ConsistentRecords(l, p) && AllFinished(l.attempts)
    requires n < |l.attempts|
    ensures |l.attempts| <= |l.pushed| && |l.attempts| <= |l.signals| && |l.attempts| <= |l.statuses|
    ensures l.pushed[n] == l.attempts[n].payload
    ensures IsSignalOf(l.signals[n], l.attempts[n]) && IsStatusOf(l.statuses[n], l.attempts[n])
  {
    PayloadAt(l.attempts, n);
    FinishedRecords(l.attempts, n);
  }

  /**
   * From leaving to rejoining the idle set, and so while its subprocess runs, a job's container is
   * in the idle set exactly if the manager has put it back there.
   */
  lemma IdleWhileBusyIffPutBack(events: seq<Event>, s: State)
    requires Run(INIT, events) == Some(s) && s.poll.Working?
    requires Rank(MarkBusy) <= Rank(s.poll.a.stage) <= Rank(JoinIdle)
    ensures s.redis.idle <==> s.log.foreign.idle
  {
    InitInv();
    RunKeepsInv(INIT, events);
  }

  /** At most one job is started after the shutdown flag is set. */
  lemma AtMostOneMoreJob(events: seq<Event>, s: State)
    requires Run(INIT, events) == Some(s)
    ensures s.log.spawnedAfterShutdown <= 1
    ensures s.shutdown && s.log.spawnedAfterShutdown == 1 ==> !MaySpawn(s.poll)
  {
    InitInv();
    RunKeepsInv(INIT, events);
  }

  /**
   * The finally block runs with no job in hand. Once it is through, the container is dead and in
   * neither set, each unless the manager has since written the contrary.
   */
  lemma CleanShutdown(events: seq<Event>, s: State)
    requires Run(INIT, events) == Some(s)
    ensures s.main in {FinallyDead, FinallyRegistry, FinallyIdle, Closed, Crashed} ==>
      !s.poll.Working? && (s.poll.PollOver? || s.poll.PollNotStarted?)
    ensures s.main.Closed? ==>
      && (s.redis.idle <==> s.log.foreign.idle) && (s.redis.registered <==> s.log.foreign.registered)
      && (s.redis.status.Dead? || s.log.foreign.status)
  {
    InitInv();
    RunKeepsInv(INIT, events);
  }

  // ---------- When a drain request is honoured ----------

  /** The events that replace the status: agent writes that do not raise, and manager writes. */
  predicate WritesStatus(s: State, e: Event) {
    match e
    case PollStep(raise, _, _) =>
      s.poll.Working? && !raise && (s.poll.a.stage.MarkBusy? || s.poll.a.stage.MarkIdle?)
    case MainStep(raise) =>
      !raise && (s.main.RegisterHash? || s.main.FirstMarkIdle? || s.main.Fatal? || s.main.FinallyDead?)
    case Manager(op) => (op.Acquire? && s.redis.jobId == "") || op.Reset? || (op.SetStatus? && op.st != Draining)
    case _ => false
  }

  lemma PollWrites(s: State, raise: bool, timeout: bool, exit: Exit)
    requires s.redis.status == Draining && PollNext(s, raise, timeout, exit).Some?
    ensures PollNext(s, raise, timeout, exit).value.redis.status != Draining
       <==> WritesStatus(s, PollStep(raise, timeout, exit))
  {}

  lemma MainWrites(s: State, raise: bool)
    requires s.redis.status == Draining && MainNext(s, raise).Some?
    ensures MainNext(s, raise).value.redis.status != Draining <==> WritesStatus(s, MainStep(raise))
  {}

  /** A drain request in the hash is erased by exactly those events. */
  lemma DrainLostExactlyBy(s: State, e: Event)
    requires s.redis.status == Draining && Next(s, e).Some?
    ensures Next(s, e).value.redis.status != Draining <==> WritesStatus(s, e)
  {
    if e.PollStep? {
      PollWrites(s, e.raise, e.timeout, e.exit);
    } else if e.MainStep? {
      MainWrites(s, e.raise);
    } else if IsSide(e) {
      SideFrame(s, e);
    }
  }

  /** Neither SIGTERM nor a drain request. */
  predicate AsksNothing(e: Event) { !e.Sigterm? && e != Manager(SetStatus(Draining)) }

  /** No drain request is in the hash or in the watcher's hands. */
  predicate Forgotten(s: State) { !s.shutdown && s.redis.status != Draining && s.watch != ReadJob }

  /** All that a step of another coroutine or of the manager can do to what the watcher reads and sets. */
  predicate LeavesWatch(s: State, e: Event, next: State) {
    && next.shutdown == s.shutdown && (Starting(next.main) ==> Starting(s.main))
    && (next.watch == s.watch || (s.main.FirstMarkIdle? && next.watch == WatchCheck))
    && (next.redis.status == s.redis.status || next.redis.status != Draining || e == Manager(SetStatus(Draining)))
    && (!WritesStatus(s, e) ==> next.redis.jobId == s.redis.jobId && next.watch == s.watch)
  }

  lemma WorkLeavesWatch(s: State, a: Attempt, exit: Exit, e: Event)
    requires s.poll == Working(a) && e.PollStep? && !e.raise
    ensures LeavesWatch(s, e, WorkStep(s, a, exit))
  {}

  lemma PollLeavesWatch(s: State, raise: bool, timeout: bool, exit: Exit)
    requires PollNext(s, raise, timeout, exit).Some?
    ensures LeavesWatch(s, PollStep(raise, timeout, exit), PollNext(s, raise, timeout, exit).value)
  {
    if s.poll.Working? && !raise {
      WorkLeavesWatch(s, s.poll.a, exit, PollStep(raise, timeout, exit));
    }
  }

  lemma MainLeavesWatch(s: State, raise: bool)
    requires MainNext(s, raise).Some?
    ensures LeavesWatch(s, MainStep(raise), MainNext(s, raise).value)
  {}

  lemma ManagerLeavesWatch(s: State, op: ManagerOp)
    ensures LeavesWatch(s, Manager(op), ManagerNext(s, op))
  {}

  lemma OthersLeaveWatch(s: State, e: Event)
    requires !e.WatchStep? && !e.Sigterm? && Next(s, e).Some?
    ensures LeavesWatch(s, e, Next(s, e).value)
  {
    match e
    case PollStep(raise, timeout, exit) => PollLeavesWatch(s, raise, timeout, exit);
    case MainStep(raise) => MainLeavesWatch(s, raise);
    case Manager(op) => ManagerLeavesWatch(s, op);
    case _ =>
  }

  lemma StepStaysForgotten(s: State, e: Event)
    requires Forgotten(s) && AsksNothing(e) && Next(s, e).Some?
    ensures Forgotten(Next(s, e).value)
  {
    if !e.WatchStep? {
      OthersLeaveWatch(s, e);
    }
  }

  /** Once forgotten, a drain request never makes the agent shut down. */
  lemma {:induction false} StaysForgotten(s: State, events: seq<Event>)
    requires Forgotten(s) && (forall e :: e in events ==> AsksNothing(e)) && Run(s, events).Some?
    ensures Forgotten(Run(s, events).value)
    decreases |events|
  {
    if events != [] {
      StepStaysForgotten(s, events[0]);
      StaysForgotten(Next(s, events[0]).value, events[1..]);
    }
  }

  lemma {:induction false} ShutdownStays(s: State, events: seq<Event>)
    requires s.shutdown && Run(s, events).Some?
    ensures Run(s, events).value.shutdown
    decreases |events|
  {
    if events != [] {
      StepKeepsShutdown(s, events[0]);
      ShutdownStays(Next(s, events[0]).value, events[1..]);
    }
  }

  lemma StepKeepsShutdown(s: State, e: Event)
    requires s.shutdown && Next(s, e).Some?
    ensures Next(s, e).value.shutdown
  {}

  /** The watcher's next step is a successful read of an empty job id. */
  predicate ReadsFree(s: State, events: seq<Event>)
    decreases |events|
  {
    events != []
    && if events[0].WatchStep? then !events[0].raise && s.redis.jobId == ""
       else match Next(s, events[0]) case None => false case Some(next) => ReadsFree(next, events[1..])
  }

  lemma StepKeepsReading(s: State, e: Event)
    requires !s.shutdown && s.redis.status != Draining && s.watch == ReadJob && !Starting(s.main)
    requires AsksNothing(e) && Next(s, e).Some?
    ensures var next := Next(s, e).value;
      && next.redis.status != Draining && !Starting(next.main)
      && if e.WatchStep?
         then if !e.raise && s.redis.jobId == "" then next.shutdown else Forgotten(next)
         else next.watch == ReadJob && !next.shutdown
  {
    if !e.WatchStep? {
      OthersLeaveWatch(s, e);
    }
  }

  /** With the state read as draining and erased since, the read of the job id decides. */
  lemma {:induction false} JobReadDecides(s: State, events: seq<Event>)
    requires !s.shutdown && s.redis.status != Draining && s.watch == ReadJob && !Starting(s.main)
    requires (forall e :: e in events ==> AsksNothing(e)) && Run(s, events).Some?
    ensures Run(s, events).value.shutdown <==> ReadsFree(s, events)
    decreases |events|
  {
    if events != [] {
      var next := Next(s, events[0]).value;
      StepKeepsReading(s, events[0]);
      if next.shutdown {
        ShutdownStays(next, events[1..]);
      } else if events[0].WatchStep? {
        StaysForgotten(next, events[1..]);
      } else {
        JobReadDecides(next, events[1..]);
      }
    }
  }

  /** No event of the run replaces the status, and none is SIGTERM. */
  predicate RequestStands(s: State, events: seq<Event>)
    decreases |events|
  {
    events == []
    || (!WritesStatus(s, events[0]) && !events[0].Sigterm?
        && Next(s, events[0]).Some? && RequestStands(Next(s, events[0]).value, events[1..]))
  }

  /** One step of a watcher that finds draining and no job id; raise: its read raises. */
  function Watched(w: Watch, raise: bool): Watch {
    match w
    case WatchCheck => ReadStatus
    case ReadStatus => if raise then WatchSleep else ReadJob
    case ReadJob => if raise then WatchSleep else WatchOver
    case WatchSleep => WatchCheck
    case _ => w
  }

  function WatchAlone(w: Watch, raises: seq<bool>): Watch
    decreases |raises|
  {
    if raises == [] then w else WatchAlone(Watched(w, raises[0]), raises[1..])
  }

  /** The watcher's steps of a run, by whether they raise. */
  function Raises(events: seq<Event>): seq<bool> {
    if events == [] then []
    else (if events[0].WatchStep? then [events[0].raise] else []) + Raises(events[1..])
  }

  /** The watcher has set the flag exactly if it is over. */
  predicate WatchDecides(s: State) { s.redis.status == Draining && (s.shutdown <==> s.watch.WatchOver?) }

  lemma StandingStep(s: State, e: Event)
    requires WatchDecides(s) && !WritesStatus(s, e) && !e.Sigterm? && Next(s, e).Some?
    ensures var next := Next(s, e).value;
      && WatchDecides(next) && next.redis.jobId == s.redis.jobId
      && (!e.WatchStep? ==> next.watch == s.watch)
      && (e.WatchStep? && s.redis.jobId == "" ==> next.watch == Watched(s.watch, e.raise))
      && (s.redis.jobId != "" && !s.shutdown ==> !next.shutdown)
  {
    DrainLostExactlyBy(s, e);
    if !e.WatchStep? {
      OthersLeaveWatch(s, e);
    }
  }

  /** While the request stands, only the watcher's own steps matter, and a job id holds it off. */
  lemma {:induction false} WhileRequestStands(s: State, events: seq<Event>)
    requires WatchDecides(s) && RequestStands(s, events) && Run(s, events).Some?
    ensures var last := Run(s, events).value;
      && WatchDecides(last) && last.redis.jobId == s.redis.jobId
      && (s.redis.jobId == "" ==> last.watch == WatchAlone(s.watch, Raises(events)))
      && (s.redis.jobId != "" && !s.shutdown ==> !last.shutdown)
    decreases |events|
  {
    if events != [] {
      var e, next := events[0], Next(s, events[0]).value;
      StandingStep(s, e);
      WhileRequestStands(next, events[1..]);
      if e.WatchStep? {
        assert Raises(events) == [e.raise] + Raises(events[1..]);
      } else {
        assert Raises(events) == Raises(events[1..]);
      }
    }
  }

  /**
   * A drain request that stands during `first` and is then erased (or the run ends), with no other
   * request and no SIGTERM, shuts the agent down exactly if the watcher ran through while it stood
   * and no job was claimed, or the watcher had read the status by then and reads no job id next.
   */
  lemma DrainHonouredIff(s: State, first: seq<Event>, mid: State, rest: seq<Event>, last: State)
    requires s.redis.status == Draining && !s.shutdown && !s.watch.WatchOver?
    requires RequestStands(s, first) && Run(s, first) == Some(mid) && Run(mid, rest) == Some(last)
    requires rest != [] ==> WritesStatus(mid, rest[0])
    requires LoopsInside(mid) && forall e :: e in rest ==> AsksNothing(e)
    ensures last.shutdown
       <==> (s.redis.jobId == "" && WatchAlone(s.watch, Raises(first)) == WatchOver)
            || (mid.watch == ReadJob && ReadsFree(mid, rest))
  {
    WhileRequestStands(s, first);
    if mid.shutdown {
      ShutdownStays(mid, rest);
    } else if rest != [] {
      ErasedStep(mid, rest[0]);
      var next := Next(mid, rest[0]).value;
      if mid.watch == ReadJob {
        JobReadDecides(next, rest[1..]);
      } else {
        StaysForgotten(next, rest[1..]);
      }
    }
  }

  lemma ErasedStep(s: State, e: Event)
    requires s.redis.status == Draining && !s.shutdown && WritesStatus(s, e) && Next(s, e).Some? && LoopsInside(s)
    ensures var next := Next(s, e).value;
      && !e.WatchStep? && !next.shutdown && next.redis.status != Draining
      && (next.watch == ReadJob <==> s.watch == ReadJob) && (s.watch == ReadJob ==> !Starting(next.main))
  {
    DrainLostExactlyBy(s, e);
    OthersLeaveWatch(s, e);
  }

  /**
   * A request made during a job, on any reachable run: when the agent marks itself idle, the
   * watcher must have read the status but not yet the job id, and its next read must find no job
   * id: before the next claim, or after a claimed job has ended again.
   */
  lemma DrainDuringJobHonouredIff(events: seq<Event>, s: State, first: seq<Event>, mid: State,
                                  rest: seq<Event>, last: State)
    requires Run(INIT, events) == Some(s) && s.redis.status == Draining && !s.shutdown && s.redis.jobId != ""
    requires RequestStands(s, first) && Run(s, first) == Some(mid) && Run(mid, rest) == Some(last)
    requires mid.poll.Working? && mid.poll.a.stage.MarkIdle? && rest != [] && rest[0].PollStep? && !rest[0].raise
    requires forall e :: e in rest ==> AsksNothing(e)
    ensures last.shutdown <==> mid.watch == ReadJob && ReadsFree(Next(mid, rest[0]).value, rest[1..])
  {
    ReachableMid(events, s, first, mid);
    DrainHonouredIff(s, first, mid, rest, last);
  }

  /** Reachable states keep the invariant; without the flag the watcher is not over. */
  lemma ReachableMid(events: seq<Event>, s: State, first: seq<Event>, mid: State)
    requires Run(INIT, events) == Some(s) && Run(s, first) == Some(mid)
    ensures Inv(s) && Inv(mid) && (!s.shutdown ==> !s.watch.WatchOver?)
  {
    InitInv();
    RunKeepsInv(INIT, events);
    RunKeepsInv(s, first);
    WatchOverMeansShutdown(INIT, events);
  }

  lemma {:induction false} WatchOverMeansShutdown(s: State, events: seq<Event>)
    requires (s.watch.WatchOver? ==> s.shutdown) && Run(s, events).Some?
    ensures Run(s, events).value.watch.WatchOver? ==> Run(s, events).value.shutdown
    decreases |events|
  {
    if events != [] {
      WatchOverStep(s, events[0]);
      WatchOverMeansShutdown(Next(s, events[0]).value, events[1..]);
    }
  }

  lemma WatchOverStep(s: State, e: Event)
    requires (s.watch.WatchOver? ==> s.shutdown) && Next(s, e).Some?
    ensures Next(s, e).value.watch.WatchOver? ==> Next(s, e).value.shutdown
  {
    if !e.WatchStep? && !e.Sigterm? {
      OthersLeaveWatch(s, e);
    }
  }

  /** How many steps a running watcher takes to see a request and exit. */
  function StepsToExit(w: Watch): nat {
    match w
    case ReadJob => 1 case ReadStatus => 2 case WatchCheck => 3 case WatchSleep => 4 case _ => 0
  }

  lemma {:induction false} CountDown(w: Watch, raises: seq<bool>)
    requires !w.WatchNotStarted? && forall n :: 0 <= n < |raises| ==> !raises[n]
    ensures WatchAlone(w, raises) == WatchOver <==> |raises| >= StepsToExit(w)
    ensures WatchAlone(w, raises) == ReadJob <==> |raises| + 1 == StepsToExit(w)
    decreases |raises|
  {
    if raises != [] {
      CountDown(Watched(w, false), raises[1..]);
    }
  }

  /**
   * A request made while no job is claimed, the watcher's reads not raising: it is honoured exactly
   * if the watcher gets its one to four steps before the status is overwritten, or gets all but the
   * last, which then still finds no job id.
   */
  lemma DrainWhileFreeHonouredIff(events: seq<Event>, s: State, first: seq<Event>, mid: State,
                                  rest: seq<Event>, last: State)
    requires Run(INIT, events) == Some(s) && s.redis.status == Draining && !s.shutdown && s.redis.jobId == ""
    requires !s.watch.WatchNotStarted?
    requires RequestStands(s, first) && Run(s, first) == Some(mid) && Run(mid, rest) == Some(last)
    requires rest != [] ==> WritesStatus(mid, rest[0])
    requires forall e :: e in rest ==> AsksNothing(e)
    requires forall n :: 0 <= n < |Raises(first)| ==> !Raises(first)[n]
    ensures last.shutdown
       <==> |Raises(first)| >= StepsToExit(s.watch)
            || (|Raises(first)| + 1 == StepsToExit(s.watch) && ReadsFree(mid, rest))
  {
    ReachableMid(events, s, first, mid);
    DrainHonouredIff(s, first, mid, rest, last);
    WhileRequestStands(s, first);
    CountDown(s.watch, Raises(first));
  }

  // ---------- Concrete runs ----------

  lemma Extend(start: State, events: seq<Event>, s: State, e: Event) returns (events': seq<Event>, s': State)
    requires Run(start, events) == Some(s) && Next(s, e).Some?
    ensures events' == events + [e] && Next(s, e) == Some(s') && Run(start, events') == Some(s')
  {
    events', s' := events + [e], Next(s, e).value;
    RunSnoc(start, events, e);
  }

  lemma {:induction false} RunSnoc(s: State, events: seq<Event>, e: Event)
    requires Run(s, events).Some?
    ensures Run(s, events + [e]) == Next(Run(s, events).value, e)
    decreases |events|
  {
    if events == [] {
      assert events + [e] == [e] && [e][1..] == [];
    } else {
      assert (events + [e])[1..] == events[1..] + [e];
      RunSnoc(Next(s, events[0]).value, events[1..], e);
    }
  }

  /** The poll loop is at p, everything else runs undisturbed and the watcher is about to look. */
  predicate Serving(s: State, p: Poll) {
    s.poll == p && s.watch == WatchCheck && s.main == Gathering && !s.shutdown && !s.log.raised
  }

  const GO := PollStep(false, false, Returned(0))

  lemma Started() returns (events: seq<Event>, s: State)
    ensures Run(INIT, events) == Some(s) && Serving(s, Checking) && s.redis.queue == ["j"]
  {
    events, s := [], INIT;
    events, s := Extend(INIT, events, s, Manager(Push("j")));
    events, s := Extend(INIT, events, s, MainStep(false));
    events, s := Extend(INIT, events, s, MainStep(false));
    events, s := Extend(INIT, events, s, MainStep(false));
    events, s := Extend(INIT, events, s, MainStep(false));
  }

  lemma JobTaken() returns (events: seq<Event>, s: State)
    ensures Run(INIT, events) == Some(s) && Serving(s, Working(Attempt("j", LeaveIdle, TimedOut)))
  {
    events, s := Started();
    events, s := Extend(INIT, events, s, GO);  // not shut down: BLPOP
    events, s := Extend(INIT, events, s, GO);  // pop
    events, s := Extend(INIT, events, s, GO);  // decode
  }

  lemma JobUnderWay() returns (events: seq<Event>, s: State)
    ensures Run(INIT, events) == Some(s) && Serving(s, Working(Attempt("j", Await, TimedOut)))
    ensures s.redis.jobId == "j"
  {
    events, s := JobTaken();
    events, s := Extend(INIT, events, s, GO);  // leave the idle set
    events, s := Extend(INIT, events, s, GO);  // busy
    events, s := Extend(INIT, events, s, GO);  // job mode
    events, s := Extend(INIT, events, s, GO);  // spawn
  }

  /** The manager can put a busy container back into the idle set. */
  lemma IdleWhileBusy() returns (events: seq<Event>, s: State)
    ensures Run(INIT, events) == Some(s) && s.redis.idle && s.poll.Working? && s.poll.a.stage.Await?
    ensures events != [] && events[|events| - 1] == Manager(AddIdle)
  {
    events, s := JobUnderWay();
    events, s := Extend(INIT, events, s, Manager(AddIdle));
  }

  /** n steps of the poll loop in which nothing goes wrong. */
  function Smoothly(n: nat): seq<Event> { seq(n, _ => GO) }

  /** The job in hand is signalled and its status stored. */
  lemma JobReports(start: State, before: seq<Event>, busy: State) returns (events: seq<Event>, s: State)
    requires Run(start, before) == Some(busy) && busy.poll == Working(Attempt("j", Await, TimedOut))
    ensures events == before + Smoothly(3) && Run(start, events) == Some(s)
    ensures s.poll == Working(Attempt("j", Stamp, Returned(0))) && s.redis == busy.redis
    ensures s.watch == busy.watch && s.shutdown == busy.shutdown && s.log.raised == busy.log.raised
  {
    events, s := Extend(start, before, busy, GO);  // the subprocess ends
    events, s := Extend(start, events, s, GO);     // publish
    events, s := Extend(start, events, s, GO);     // store
  }

  lemma JobReturns(start: State, before: seq<Event>, busy: State) returns (events: seq<Event>, s: State)
    requires Run(start, before) == Some(busy) && busy.poll == Working(Attempt("j", Stamp, Returned(0)))
    ensures events == before + Smoothly(3) && Run(start, events) == Some(s)
    ensures s.poll == Checking && s.redis.status == Idle && s.redis.jobId == "" && s.redis.idle
    ensures s.watch == busy.watch && s.shutdown == busy.shutdown && s.log.raised == busy.log.raised
  {
    events, s := Extend(start, before, busy, GO);  // last job time
    events, s := Extend(start, events, s, GO);     // join the idle set
    events, s := Extend(start, events, s, GO);     // idle
  }

  lemma JobFinishes(start: State, before: seq<Event>, busy: State) returns (events: seq<Event>, s: State)
    requires Run(start, before) == Some(busy) && busy.poll == Working(Attempt("j", Await, TimedOut))
    ensures events == before + Smoothly(6) && Run(start, events) == Some(s)
    ensures s.poll == Checking && s.redis.status == Idle && s.redis.jobId == "" && s.redis.idle
    ensures s.watch == busy.watch && s.shutdown == busy.shutdown && s.log.raised == busy.log.raised
  {
    events, s := JobReports(start, before, busy);
    events, s := JobReturns(start, events, s);
    assert Smoothly(3) + Smoothly(3) == Smoothly(6);
  }

  /** A drain request made while a job runs is overwritten, and then never heard of again. */
  lemma DrainDuringJobIsLost() returns (before: seq<Event>, busy: State, after: seq<Event>, s: State)
    ensures Run(INIT, before) == Some(busy) && busy.poll.Working? && busy.poll.a.stage.Await?
    ensures Run(busy, after) == Some(s) && after == [Manager(SetStatus(Draining))] + Smoothly(6)
    ensures s.redis.status == Idle && s.redis.idle && !s.shutdown && s.poll == Checking && !s.log.raised
    ensures forall more :: Run(s, more).Some? && (forall e :: e in more ==> AsksNothing(e)) ==>
      !Run(s, more).value.shutdown
  {
    before, busy := JobUnderWay();
    after, s := [], busy;
    after, s := Extend(busy, after, s, Manager(SetStatus(Draining)));
    after, s := JobFinishes(busy, after, s);
    forall more | Run(s, more).Some? && (forall e :: e in more ==> AsksNothing(e))
      ensures !Run(s, more).value.shutdown
    {
      StaysForgotten(s, more);
    }
  }

  /** The same request is honoured if the watcher reads the status before and the job id after. */
  lemma DrainDuringJobIsHonoured() returns (before: seq<Event>, busy: State, after: seq<Event>, s: State)
    ensures Run(INIT, before) == Some(busy) && busy.poll.Working? && busy.poll.a.stage.Await?
    ensures Run(busy, after) == Some(s) && s.shutdown && !s.log.raised
    ensures after == [Manager(SetStatus(Draining)), WatchStep(false), WatchStep(false)] + Smoothly(6)
                     + [WatchStep(false)]
  {
    before, busy := JobUnderWay();
    after, s := WatcherSees(busy);
    after, s := JobFinishes(busy, after, s);
    after, s := Extend(busy, after, s, WatchStep(false));
  }

  lemma WatcherSees(busy: State) returns (events: seq<Event>, s: State)
    requires Serving(busy, Working(Attempt("j", Await, TimedOut)))
    ensures events == [Manager(SetStatus(Draining)), WatchStep(false), WatchStep(false)]
    ensures Run(busy, events) == Some(s) && s.poll == busy.poll && s.watch == ReadJob
    ensures !s.shutdown && !s.log.raised
  {
    events, s := [], busy;
    events, s := Extend(busy, events, s, Manager(SetStatus(Draining)));
    events, s := Extend(busy, events, s, WatchStep(false));
    events, s := Extend(busy, events, s, WatchStep(false));
  }

  // ---------- After a call has raised ----------

  /** The poll loop puts the container back into the idle set. */
  predicate Rejoins(s: State, e: Event) {
    e.PollStep? && !e.raise && s.poll.Working? && s.poll.a.stage.JoinIdle?
  }

  /** No job passes JoinIdle in this run, and the manager adds the container to no idle set. */
  predicate NothingRejoins(s: State, events: seq<Event>)
    decreases |events|
  {
    events == []
    || (!Rejoins(s, events[0]) && events[0] != Manager(AddIdle)
        && Next(s, events[0]).Some? && NothingRejoins(Next(s, events[0]).value, events[1..]))
  }

  lemma StepStaysOut(s: State, e: Event)
    requires !s.redis.idle && !Starting(s.main) && !Rejoins(s, e) && e != Manager(AddIdle) && Next(s, e).Some?
    ensures !Next(s, e).value.redis.idle && !Starting(Next(s, e).value.main)
  {
    if e.PollStep? {
      PollStaysOut(s, e.raise, e.timeout, e.exit);
    }
  }

  lemma PollStaysOut(s: State, raise: bool, timeout: bool, exit: Exit)
    requires PollNext(s, raise, timeout, exit).Some?
    ensures var next := PollNext(s, raise, timeout, exit).value;
      next.main == s.main && (next.redis.idle ==> s.redis.idle || Rejoins(s, PollStep(raise, timeout, exit)))
  {}

  lemma {:induction false} StaysOut(s: State, events: seq<Event>)
    requires !s.redis.idle && !Starting(s.main) && NothingRejoins(s, events) && Run(s, events).Some?
    ensures !Run(s, events).value.redis.idle
    decreases |events|
  {
    if events != [] {
      StepStaysOut(s, events[0]);
      StaysOut(Next(s, events[0]).value, events[1..]);
    }
  }

  /**
   * If a call raises after a job has left the idle set and before it has rejoined it, and the
   * manager adds nothing, the container stays out of the idle set for as long as no later job
   * passes JoinIdle, and the first one that does puts it back.
   */
  lemma RaiseAbandonsJob(events: seq<Event>, s: State, timeout: bool, exit: Exit,
                         raised: State, more: seq<Event>, last: State, e: Event)
    requires Run(INIT, events) == Some(s) && s.poll.Working? && !s.log.foreign.idle
    requires Rank(MarkBusy) <= Rank(s.poll.a.stage) <= Rank(JoinIdle)
    requires Next(s, PollStep(true, timeout, exit)) == Some(raised)
    requires NothingRejoins(raised, more) && Run(raised, more) == Some(last)
    ensures !last.redis.idle
    ensures Rejoins(last, e) ==> Next(last, e).Some? && Next(last, e).value.redis.idle
  {
    InitInv();
    RunKeepsInv(INIT, events);
    StaysOut(raised, more);
  }
}
