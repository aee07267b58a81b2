/**
 * The tier runner: one task per job behind a semaphore, interleaved at every await. The runner's
 * subprocess, pip and the files it leaves are the environment's choice at each step.
 */
module TierRunner {
  import opened Options

  datatype Mode = Fixture | Real

  /** final: the line's own event, which replaces the computed one, is "done" or "error". */
  datatype Message = LogMessage | LineMessage(final: bool) | ArtifactMessage | ErrorMessage | DoneMessage

  predicate IsTerminal(m: Message) { m.ErrorMessage? || m.DoneMessage? }

  /** The path of an artifact notice: no string, one whose probing raises, or what is there. */
  datatype ArtifactFile = OddPath | Unprobeable | Absent | Readable | Unreadable

  /**
   * A stdout line: over the stream's limit; text whose decoding raises something else than a
   * JSONDecodeError (too many digits, too deep); no JSON; JSON but no object; an object; an
   * artifact notice.
   */
  datatype Line = TooLong | Undecodable | NoJson | OtherJson | Object(final: bool) | Artifact(file: ArtifactFile)

  /** What is found in result.json; plotsList: its plots directory, if there is one, can be listed. */
  datatype ResultFile = Missing | Malformed | OtherResult | ObjectResult(ok: bool, plotsList: bool)

  datatype Cause =
    | NoId | BadId | BadSource | BadOverrides | BadArgument | BadLine | BadResult
    | InputOutput

  datatype End = Completed | RaisedBy(cause: Cause)

  /** Where a task is; each is the next await, or the next block without one, which may be split. */
  datatype Point =
    | Created | Waiting | Setup | Writing
    | Announce | PipSpawn(new_: seq<string>) | PipWait(new_: seq<string>) | PipReport
    | Spawning | Streaming | Reaping
    | PublishError | StoreError
    | Reading | StoreResult | PublishDone
    | Over(end: End)

  /**
   * The decoded payload: an object with a job_id; the id can name a directory; trainer_source is
   * text; the truthy config_overrides can be merged into a dict.
   */
  datatype Payload = Payload(hasId: bool, idIsName: bool, sourceIsText: bool, overridesMerge: bool)

  /** packages: from the trainer's header. */
  datatype Job = Job(id: string, payload: Payload, packages: seq<string>)

  /** What a task has sent to Redis: its messages, and how often it set its result key. */
  datatype Output = Output(published: seq<Message>, stored: nat)

  /** A line that was read; sent: its publish did not fail. */
  datatype Seen = Seen(line: Line, sent: bool)

  /** What a task has read. */
  datatype Input = Input(lines: seq<Seen>, result: Option<ResultFile>)

  /** made: the workspace was created. lost: a Redis, disk or pip call failed on the way. */
  datatype Flags = Flags(made: bool, spawned: bool, timedOut: bool, lost: bool)

  datatype Task = Task(job: Job, at: Point, out: Output, input: Input, flags: Flags)

  function NewTask(job: Job): Task {
    Task(job, Created, Output([], 0), Input([], None), Flags(false, false, false, false))
  }

  function Lost(t: Task): Task { t.(flags := t.flags.(lost := true)) }

  function Published(t: Task, m: Message): Task {
    t.(out := t.out.(published := t.out.published + [m]))
  }

  function Stored(t: Task): Task { t.(out := t.out.(stored := t.out.stored + 1)) }

  // ---------- One step of one task ----------

  /**
   * Fail: a Redis, disk or process call raises; FailLate: so does one after the first mkdir.
   * Lose: a publish fails and _pub swallows it; so does `lose` for the publish of a line.
   */
  datatype Choice =
    | Go | Fail | FailLate | Lose
    | Read(line: Line, lose: bool) | EndOfOutput | Timeout
    | PipExit(ok: bool)
    | Found(file: ResultFile)

  datatype Permit = Keep | Acquire | Release

  datatype Disk = Untouched | MakeDirectory | RemoveDirectory

  /** The task afterwards, and what the step does to the shared state. */
  datatype Effect = Effect(task: Task, permit: Permit, disk: Disk, installed: bool)

  function Stay(t: Task): Effect { Effect(t, Keep, Untouched, false) }

  /** Leaving the semaphore block, by return or by exception. */
  function Leave(t: Task, end: End, disk: Disk): Effect {
    Effect(t.(at := Over(end)), Release, disk, false)
  }

  function Raise(t: Task): Effect {
    Leave(Lost(t), RaisedBy(InputOutput), Untouched)
  }

  /** The input itself makes the task raise. */
  function Reject(t: Task, cause: Cause): Effect { Leave(t, RaisedBy(cause), Untouched) }

  /** A command's argument must not hold a NUL. */
  predicate IsArgument(s: string) { '\0' !in s }

  predicate AreArguments(names: seq<string>) { forall x :: x in names ==> IsArgument(x) }

  function Publish(t: Task, m: Message, c: Choice): Task {
    if c.Lose? then Lost(t) else Published(t, m)
  }

  function NotInstalled(packages: seq<string>, installed: set<string>): seq<string> {
    if packages == [] then []
    else (if packages[0] in installed then [] else [packages[0]]) + NotInstalled(packages[1..], installed)
  }

  function StepBefore(t: Task, c: Choice, installed: set<string>): Option<Effect> {
    match t.at
    case Created =>
      Some(if t.job.payload.hasId then Stay(t.(at := Waiting))
           else Stay(t.(at := Over(RaisedBy(NoId)))))
    case Waiting => Some(Effect(t.(at := Setup), Acquire, Untouched, false))
    case Setup =>
      var making := t.(flags := t.flags.(made := true));
      Some(if !t.job.payload.idIsName then Reject(t, BadId)
           else if c.Fail? then Raise(t)
           else if c.FailLate? then Leave(Lost(making), RaisedBy(InputOutput), MakeDirectory)
           else Effect(making.(at := Writing), Keep, MakeDirectory, false))
    case Writing =>
      Some(if !t.job.payload.sourceIsText then Reject(t, BadSource)
           else if !t.job.payload.overridesMerge then Reject(t, BadOverrides)
           else if c.Fail? then Raise(t)
           else Stay(t.(at := if t.job.packages == [] then Spawning else Announce)))
    case Announce =>
      var missing := NotInstalled(t.job.packages, installed);
      Some(if missing == [] then Stay(t.(at := Spawning))
           else if c.Fail? then Raise(t)
           else Stay(Publish(t, LogMessage, c).(at := PipSpawn(missing))))
    case PipSpawn(missing) =>
      Some(if !AreArguments(missing) then Reject(t, BadArgument)
           else if c.Fail? then Raise(t)
           else Stay(t.(at := PipWait(missing))))
    case PipWait(missing) =>
      if c.Fail? then Some(Raise(t))
      else if c.PipExit? then Some(Effect(t.(at := PipReport), Keep, Untouched, c.ok))
      else None
    case PipReport => Some(Stay(Publish(t, LogMessage, c).(at := Spawning)))
    case Spawning =>
      Some(if c.Fail? then Stay(t.(at := PublishError))
           else Stay(t.(flags := t.flags.(spawned := true), at := Streaming)))
    case _ => None
  }

  /** The line is read and handled without an exception. */
  predicate Harmless(line: Line) {
    !line.TooLong? && !line.Undecodable? && !line.OtherJson?
    && line != Artifact(Unprobeable) && line != Artifact(Unreadable)
  }

  function ReadLine(t: Task, line: Line, lose: bool): Effect {
    var seen := t.(input := t.input.(lines := t.input.lines + [Seen(line, !lose)]));
    var c := if lose then Lose else Go;
    if !Harmless(line) then Reject(seen, BadLine)
    else
      match line
      case Object(final) => Stay(Publish(seen, LineMessage(final), c))
      case Artifact(file) =>
        Stay(if file.Readable? then Publish(seen, ArtifactMessage, c)
             else if file.OddPath? then Publish(seen, LineMessage(false), c)
             else seen)
      case _ => Stay(Publish(seen, LineMessage(false), c))
  }

  /** The result file is read and handled without an exception. */
  predicate CleanResult(mode: Mode, file: ResultFile) {
    match file
    case OtherResult => false
    case ObjectResult(ok, plotsList) => mode.Real? && ok ==> plotsList
    case _ => true
  }

  function StepAfter(mode: Mode, t: Task, c: Choice): Option<Effect> {
    match t.at
    case Streaming =>
      (match c
       case Read(line, lose) => Some(ReadLine(t, line, lose))
       case EndOfOutput => Some(Stay(t.(at := Reaping)))
       case Timeout => Some(Stay(t.(flags := t.flags.(timedOut := true), at := Reaping)))
       case Fail => Some(Raise(t))
       case _ => None)
    case Reaping => Some(Stay(t.(at := if t.flags.timedOut then PublishError else Reading)))
    case PublishError => Some(Stay(Publish(t, ErrorMessage, c).(at := StoreError)))
    case StoreError =>
      Some(if c.Fail? then Raise(t) else Leave(Stored(t), Completed, RemoveDirectory))
    case Reading =>
      if c.Fail? then Some(Raise(t))
      else if !c.Found? then None
      else
        var found := t.(input := t.input.(result := Some(c.file)));
        Some(if mode.Real? && !CleanResult(mode, c.file) then Reject(found, BadResult)
             else Stay(found.(at := StoreResult)))
    case StoreResult =>
      Some(if c.Fail? then Raise(t) else Stay(Stored(t).(at := PublishDone)))
    case PublishDone =>
      Some(if t.input.result == Some(OtherResult) then Reject(t, BadResult)
           else Leave(Publish(t, DoneMessage, c), Completed, if mode.Real? then Untouched else RemoveDirectory))
    case _ => None
  }

  function TaskStep(mode: Mode, t: Task, c: Choice, installed: set<string>): Option<Effect> {
    if InSecondPart(t.at) then StepAfter(mode, t, c) else StepBefore(t, c, installed)
  }

  // ---------- All tasks together ----------

  datatype State = State(
    mode: Mode, permits: nat, tasks: seq<Task>,
    workspaces: set<string>, installed: set<string>)

  function Init(mode: Mode, max: nat, workspaces: set<string>): State {
    State(mode, max, [], workspaces, {})
  }

  datatype Event =
    | Submit(job: Job)
    | Step(n: nat, c: Choice)

  function Elements(s: seq<string>): set<string> { set x | x in s }

  function Disked(disk: Disk, id: string, workspaces: set<string>): set<string> {
    match disk
    case Untouched => workspaces
    case MakeDirectory => workspaces + {id}
    case RemoveDirectory => workspaces - {id}
  }

  function Apply(s: State, n: nat, e: Effect): State
    requires n < |s.tasks| && (e.permit.Acquire? ==> s.permits > 0)
  {
    var t := s.tasks[n];
    State(s.mode,
          match e.permit case Keep => s.permits case Acquire => s.permits - 1 case Release => s.permits + 1,
          s.tasks[n := e.task],
          Disked(e.disk, t.job.id, s.workspaces),
          if e.installed then s.installed + Elements(t.job.packages) else s.installed)
  }

  function Next(s: State, e: Event): Option<State> {
    match e
    case Submit(job) =>
      Some(s.(tasks := s.tasks + [NewTask(job)]))
    case Step(n, c) =>
      if n >= |s.tasks| then None
      else match TaskStep(s.mode, s.tasks[n], c, s.installed)
        case None => None
        case Some(effect) =>
          if effect.permit.Acquire? && s.permits == 0 then None else Some(Apply(s, n, effect))
  }

  function Run(s: State, events: seq<Event>): Option<State>
    decreases |events|
  {
    if events == [] then Some(s)
    else match Next(s, events[0])
      case None => None
      case Some(next) => Run(next, events[1..])
  }

  // ---------- The semaphore ----------

  /** Past `async with _semaphore` and not yet out of its block. */
  predicate Holds(t: Task) { !t.at.Created? && !t.at.Waiting? && !t.at.Over? }

  function Holding(tasks: seq<Task>): nat {
    if tasks == [] then 0
    else Holding(tasks[..|tasks| - 1]) + (if Holds(tasks[|tasks| - 1]) then 1 else 0)
  }

  lemma {:induction false} HoldingUpdate(tasks: seq<Task>, n: nat, t: Task)
    requires n < |tasks|
    ensures Holding(tasks[n := t])
         == Holding(tasks) - (if Holds(tasks[n]) then 1 else 0) + (if Holds(t) then 1 else 0)
    decreases |tasks|
  {
    var last := |tasks| - 1;
    if n == last {
      assert tasks[n := t][..last] == tasks[..last];
    } else {
      assert tasks[n := t][..last] == tasks[..last][n := t];
      HoldingUpdate(tasks[..last], n, t);
    }
  }

  predicate PermitMatches(t: Task, e: Effect) {
    && (e.permit.Acquire? <==> !Holds(t) && Holds(e.task))
    && (e.permit.Release? <==> Holds(t) && !Holds(e.task))
  }

  lemma PermitBefore(t: Task, c: Choice, installed: set<string>)
    requires StepBefore(t, c, installed).Some?
    ensures PermitMatches(t, StepBefore(t, c, installed).value)
  {}

  lemma PermitReading(t: Task, line: Line, lose: bool)
    requires t.at.Streaming?
    ensures PermitMatches(t, ReadLine(t, line, lose))
  {}

  lemma PermitAfter(mode: Mode, t: Task, c: Choice)
    requires StepAfter(mode, t, c).Some?
    ensures PermitMatches(t, StepAfter(mode, t, c).value)
  {
    if t.at.Streaming? && c.Read? {
      PermitReading(t, c.line, c.lose);
    }
  }

  predicate InSecondPart(p: Point) {
    p.Streaming? || p.Reaping? || p.PublishError? || p.StoreError?
    || p.Reading? || p.StoreResult? || p.PublishDone?
  }

  lemma PermitFollowsHolds(mode: Mode, t: Task, c: Choice, installed: set<string>)
    requires TaskStep(mode, t, c, installed).Some?
    ensures PermitMatches(t, TaskStep(mode, t, c, installed).value)
  {
    if InSecondPart(t.at) {
      PermitAfter(mode, t, c);
    } else {
      PermitBefore(t, c, installed);
    }
  }

  lemma {:induction false} PermitsRun(s: State, events: seq<Event>)
    requires Run(s, events).Some?
    ensures var last := Run(s, events).value;
      last.permits + Holding(last.tasks) == s.permits + Holding(s.tasks)
    decreases |events|
  {
    if events != [] {
      var next := Next(s, events[0]).value;
      match events[0] {
        case Submit(job) =>
          assert next.tasks[..|s.tasks|] == s.tasks;
        case Step(n, c) =>
          PermitFollowsHolds(s.mode, s.tasks[n], c, s.installed);
          HoldingUpdate(s.tasks, n, TaskStep(s.mode, s.tasks[n], c, s.installed).value.task);
      }
      PermitsRun(next, events[1..]);
    }
  }

  /** Free permits and tasks past the semaphore always add up to the limit, raising or not. */
  lemma PermitConservation(mode: Mode, max: nat, workspaces: set<string>, events: seq<Event>, s: State)
    requires Run(Init(mode, max, workspaces), events) == Some(s)
    ensures s.permits + Holding(s.tasks) == max
  {
    PermitsRun(Init(mode, max, workspaces), events);
  }

  // ---------- What each task has delivered ----------

  function Terminals(ms: seq<Message>): nat {
    if ms == [] then 0
    else Terminals(ms[..|ms| - 1]) + (if IsTerminal(ms[|ms| - 1]) then 1 else 0)
  }

  predicate EndsWith(ms: seq<Message>, m: Message) { ms != [] && ms[|ms| - 1] == m && Terminals(ms) == 1 }

  /** Exactly one result stored, and the one terminal message is the last one published. */
  predicate Delivered(t: Task) {
    t.out.stored == 1 && (EndsWith(t.out.published, ErrorMessage) || EndsWith(t.out.published, DoneMessage))
  }

  predicate CleanPayload(p: Payload) { p.hasId && p.idIsName && p.sourceIsText && p.overridesMerge }

  predicate AllHarmless(lines: seq<Seen>) { forall x :: x in lines ==> Harmless(x.line) }

  /** The payload's fields, the package names, the lines read and the result found raise nothing. */
  predicate CleanInput(mode: Mode, t: Task) {
    && t.job.payload == Payload(true, true, true, true)
    && (forall x :: x in t.job.packages ==> '\0' !in x)
    && (forall x :: x in t.input.lines ==>
          x.line in {NoJson, Object(false), Object(true), Artifact(OddPath), Artifact(Absent), Artifact(Readable)})
    && t.input.result != Some(OtherResult)
    && !(mode.Real? && t.input.result == Some(ObjectResult(true, false)))
  }

  /** The same, as the steps test it. */
  lemma CleanInputIs(mode: Mode, t: Task)
    ensures CleanInput(mode, t)
       <==> CleanPayload(t.job.payload) && AreArguments(t.job.packages) && AllHarmless(t.input.lines)
            && (t.input.result.Some? ==> CleanResult(mode, t.input.result.value))
  {
    forall x | x in t.input.lines
      ensures Harmless(x.line)
         <==> x.line in {NoJson, Object(false), Object(true), Artifact(OddPath), Artifact(Absent), Artifact(Readable)}
    {
      HarmlessKinds(x.line);
    }
  }

  lemma HarmlessKinds(line: Line)
    ensures Harmless(line)
       <==> line in {NoJson, Object(false), Object(true), Artifact(OddPath), Artifact(Absent), Artifact(Readable)}
    ensures !Harmless(line)
       <==> line in {TooLong, Undecodable, OtherJson, Artifact(Unprobeable), Artifact(Unreadable)}
  {
    if line.Artifact? {
      assert line.file in {OddPath, Unprobeable, Absent, Readable, Unreadable} by {
        match line.file case OddPath => case Unprobeable => case Absent => case Readable => case Unreadable =>
      }
    }
  }

  predicate BeforeResult(p: Point) {
    p.Created? || p.Waiting? || p.Setup? || p.Writing? || p.Announce? || p.PipSpawn? || p.PipWait? || p.PipReport?
    || p.Spawning? || p.Streaming? || p.Reaping? || p.Reading? || p.PublishError?
  }

  /** How far the payload has been found to be in order. */
  predicate PayloadOk(at: Point, p: Payload) {
    match at
    case Created => true
    case Waiting => p.hasId
    case Setup => p.hasId
    case Writing => p.hasId && p.idIsName
    case Over(end) =>
      (match end
       case Completed => CleanPayload(p)
       case RaisedBy(cause) =>
         (match cause
          case NoId => !p.hasId
          case BadId => !p.idIsName
          case BadSource => !p.sourceIsText
          case BadOverrides => !p.overridesMerge
          case _ => true))
    case _ => CleanPayload(p)
  }

  /** What has been sent and found so far. */
  predicate OutputOk(mode: Mode, t: Task) {
    match t.at
    case StoreError =>
      t.out.stored == 0 && t.input.result == None && (!t.flags.lost ==> EndsWith(t.out.published, ErrorMessage))
    case StoreResult => t.out.stored == 0 && Terminals(t.out.published) == 0 && ResultOk(mode, t)
    case PublishDone => t.out.stored == 1 && Terminals(t.out.published) == 0 && ResultOk(mode, t)
    case Over(end) =>
      (match end
       case Completed =>
         (t.input.result.Some? ==> CleanResult(mode, t.input.result.value)) && (!t.flags.lost ==> Delivered(t))
       case RaisedBy(cause) =>
         (match cause
          case InputOutput => t.flags.lost
          case BadResult => t.input.result.Some? && !CleanResult(mode, t.input.result.value)
                            && Terminals(t.out.published) == 0
          case _ => t.out.stored == 0))
    case _ => true
  }

  /** In real mode a result that is not clean has raised already; otherwise it may be no object. */
  predicate ResultOk(mode: Mode, t: Task) {
    t.input.result.Some? && (CleanResult(mode, t.input.result.value) || t.input.result == Some(OtherResult))
  }

  predicate TaskOk(mode: Mode, t: Task) {
    && PayloadOk(t.at, t.job.payload) && OutputOk(mode, t)
    && (BeforeResult(t.at) ==> t.out.stored == 0 && Terminals(t.out.published) == 0 && t.input.result == None)
    && (!AllHarmless(t.input.lines) <==> t.at == Over(RaisedBy(BadLine)))
  }

  lemma TerminalsSnoc(ms: seq<Message>, m: Message)
    ensures Terminals(ms + [m]) == Terminals(ms) + (if IsTerminal(m) then 1 else 0)
  {
    assert (ms + [m])[..|ms|] == ms;
  }

  lemma PublishFacts(t: Task, m: Message, c: Choice)
    ensures Terminals(Publish(t, m, c).out.published)
         == Terminals(t.out.published) + (if IsTerminal(m) && !c.Lose? then 1 else 0)
    ensures !c.Lose? ==>
      && |Publish(t, m, c).out.published| == |t.out.published| + 1
      && Publish(t, m, c).out.published[|t.out.published|] == m
  {
    TerminalsSnoc(t.out.published, m);
  }

  predicate Installing(p: Point) { p.Announce? || p.PipSpawn? || p.PipWait? || p.PipReport? }

  predicate BeforeSpawn(p: Point) { Installing(p) || p.Spawning? }

  /** Up to the result, only the flags, the messages and the point change. */
  predicate StillBefore(t: Task, next: Task) {
    && next.out.stored == t.out.stored && next.input.result == t.input.result && next.input.lines == t.input.lines
    && next.job == t.job && (t.flags.lost ==> next.flags.lost)
    && Terminals(next.out.published) == Terminals(t.out.published)
    && (BeforeSpawn(next.at) || (next.at == Over(RaisedBy(InputOutput)) && next.flags.lost)
        || next.at == Over(RaisedBy(BadArgument)))
  }

  lemma InstallStep(t: Task, c: Choice, installed: set<string>)
    requires Installing(t.at) && StepBefore(t, c, installed).Some?
    ensures StillBefore(t, StepBefore(t, c, installed).value.task)
  {
    if t.at.Announce? || t.at.PipReport? {
      PublishFacts(t, LogMessage, c);
    }
  }

  lemma StillBeforeOk(mode: Mode, t: Task, next: Task)
    requires TaskOk(mode, t) && StillBefore(t, next) && Installing(t.at)
    ensures TaskOk(mode, next)
  {}

  lemma InstallKeepsTaskOk(mode: Mode, t: Task, c: Choice, installed: set<string>)
    requires TaskOk(mode, t) && Installing(t.at) && StepBefore(t, c, installed).Some?
    ensures TaskOk(mode, StepBefore(t, c, installed).value.task)
  {
    InstallStep(t, c, installed);
    StillBeforeOk(mode, t, StepBefore(t, c, installed).value.task);
  }

  lemma SetupKeepsTaskOk(mode: Mode, t: Task, c: Choice, installed: set<string>)
    requires TaskOk(mode, t) && (t.at.Setup? || t.at.Writing?) && StepBefore(t, c, installed).Some?
    ensures TaskOk(mode, StepBefore(t, c, installed).value.task)
  {}

  lemma BeforeKeepsTaskOk(mode: Mode, t: Task, c: Choice, installed: set<string>)
    requires TaskOk(mode, t) && StepBefore(t, c, installed).Some?
    ensures TaskOk(mode, StepBefore(t, c, installed).value.task)
  {
    if Installing(t.at) {
      InstallKeepsTaskOk(mode, t, c, installed);
    } else if t.at.Setup? || t.at.Writing? {
      SetupKeepsTaskOk(mode, t, c, installed);
    }
  }

  lemma LinesSnoc(lines: seq<Seen>, x: Seen)
    ensures AllHarmless(lines + [x]) <==> AllHarmless(lines) && Harmless(x.line)
  {
    assert x in lines + [x];
    assert forall y :: y in lines ==> y in lines + [x];
  }

  /** Reading a line only adds it, and perhaps a message that is not terminal. */
  predicate OneLineFurther(t: Task, next: Task, x: Seen) {
    && next.job == t.job && next.input.result == t.input.result && next.out.stored == t.out.stored
    && next.input.lines == t.input.lines + [x]
    && Terminals(next.out.published) == Terminals(t.out.published)
    && next.at == if Harmless(x.line) then t.at else Over(RaisedBy(BadLine))
  }

  lemma PublishQuietly(t: Task, m: Message, c: Choice)
    requires !IsTerminal(m)
    ensures var next := Publish(t, m, c);
      && next.job == t.job && next.at == t.at && next.input == t.input && next.out.stored == t.out.stored
      && Terminals(next.out.published) == Terminals(t.out.published)
  {
    PublishFacts(t, m, c);
  }

  lemma ReadOneLine(t: Task, line: Line, lose: bool)
    ensures OneLineFurther(t, ReadLine(t, line, lose).task, Seen(line, !lose))
  {
    var seen := t.(input := t.input.(lines := t.input.lines + [Seen(line, !lose)]));
    var c := if lose then Lose else Go;
    PublishQuietly(seen, LineMessage(false), c);
    PublishQuietly(seen, ArtifactMessage, c);
    if line.Object? {
      PublishQuietly(seen, LineMessage(line.final), c);
    }
  }

  lemma FurtherKeepsTaskOk(mode: Mode, t: Task, next: Task, x: Seen)
    requires TaskOk(mode, t) && t.at.Streaming? && OneLineFurther(t, next, x)
    ensures TaskOk(mode, next)
  {
    LinesSnoc(t.input.lines, x);
  }

  lemma ReadLineKeepsTaskOk(mode: Mode, t: Task, line: Line, lose: bool)
    requires TaskOk(mode, t) && t.at.Streaming?
    ensures TaskOk(mode, ReadLine(t, line, lose).task)
  {
    ReadOneLine(t, line, lose);
    FurtherKeepsTaskOk(mode, t, ReadLine(t, line, lose).task, Seen(line, !lose));
  }

  lemma ErrorKeepsTaskOk(mode: Mode, t: Task, c: Choice)
    requires TaskOk(mode, t) && (t.at.PublishError? || t.at.StoreError?) && StepAfter(mode, t, c).Some?
    ensures TaskOk(mode, StepAfter(mode, t, c).value.task)
  {
    PublishFacts(t, ErrorMessage, c);
  }

  lemma ResultKeepsTaskOk(mode: Mode, t: Task, c: Choice)
    requires TaskOk(mode, t) && (t.at.Reading? || t.at.StoreResult?) && StepAfter(mode, t, c).Some?
    ensures TaskOk(mode, StepAfter(mode, t, c).value.task)
  {}

  lemma DoneIsLast(t: Task, c: Choice)
    requires t.out.stored == 1 && Terminals(t.out.published) == 0
    ensures var next := Publish(t, DoneMessage, c);
      && next.job == t.job && next.input == t.input
      && (if c.Lose? then next.flags.lost else Delivered(next))
  {
    PublishFacts(t, DoneMessage, c);
  }

  lemma DoneKeepsTaskOk(mode: Mode, t: Task, c: Choice)
    requires TaskOk(mode, t) && t.at.PublishDone? && StepAfter(mode, t, c).Some?
    ensures TaskOk(mode, StepAfter(mode, t, c).value.task)
  {
    if t.input.result != Some(OtherResult) {
      DoneIsLast(t, c);
      CompletedIsOk(mode, Publish(t, DoneMessage, c));
    }
  }

  lemma CompletedIsOk(mode: Mode, t: Task)
    requires CleanPayload(t.job.payload) && AllHarmless(t.input.lines)
    requires t.input.result.Some? && CleanResult(mode, t.input.result.value)
    requires t.flags.lost || Delivered(t)
    ensures TaskOk(mode, t.(at := Over(Completed)))
  {}

  lemma StreamKeepsTaskOk(mode: Mode, t: Task, c: Choice)
    requires TaskOk(mode, t) && (t.at.Streaming? || t.at.Reaping?) && StepAfter(mode, t, c).Some?
    ensures TaskOk(mode, StepAfter(mode, t, c).value.task)
  {
    if t.at.Streaming? && c.Read? {
      ReadLineKeepsTaskOk(mode, t, c.line, c.lose);
    }
  }

  lemma AfterKeepsTaskOk(mode: Mode, t: Task, c: Choice)
    requires TaskOk(mode, t) && StepAfter(mode, t, c).Some?
    ensures TaskOk(mode, StepAfter(mode, t, c).value.task)
  {
    if t.at.Streaming? || t.at.Reaping? {
      StreamKeepsTaskOk(mode, t, c);
    } else if t.at.Reading? || t.at.StoreResult? {
      ResultKeepsTaskOk(mode, t, c);
    } else if t.at.PublishDone? {
      DoneKeepsTaskOk(mode, t, c);
    } else {
      ErrorKeepsTaskOk(mode, t, c);
    }
  }

  predicate TasksOk(s: State) { forall n :: 0 <= n < |s.tasks| ==> TaskOk(s.mode, s.tasks[n]) }

  lemma StepKeepsTasksOk(s: State, e: Event)
    requires TasksOk(s) && Next(s, e).Some?
    ensures TasksOk(Next(s, e).value)
  {
    if e.Step? {
      var t := s.tasks[e.n];
      if StepAfter(s.mode, t, e.c).Some? {
        AfterKeepsTaskOk(s.mode, t, e.c);
      }
      if StepBefore(t, e.c, s.installed).Some? {
        BeforeKeepsTaskOk(s.mode, t, e.c, s.installed);
      }
    }
  }

  lemma {:induction false} RunKeepsTasksOk(s: State, events: seq<Event>)
    requires TasksOk(s) && Run(s, events).Some?
    ensures TasksOk(Run(s, events).value)
    decreases |events|
  {
    if events != [] {
      StepKeepsTasksOk(s, events[0]);
      RunKeepsTasksOk(Next(s, events[0]).value, events[1..]);
    }
  }

  /**
   * In every interleaving, a task that is over and lost no Redis, disk or pip call has delivered
   * its result exactly if its payload, package names, lines and result file were clean.
   */
  lemma DeliveredExactlyOnCleanInput(mode: Mode, max: nat, workspaces: set<string>,
                                     events: seq<Event>, s: State, n: nat)
    requires Run(Init(mode, max, workspaces), events) == Some(s)
    requires n < |s.tasks| && s.tasks[n].at.Over? && !s.tasks[n].flags.lost
    ensures Delivered(s.tasks[n]) <==> CleanInput(mode, s.tasks[n])
    ensures Delivered(s.tasks[n]) <==> s.tasks[n].at == Over(Completed)
  {
    ModeKept(Init(mode, max, workspaces), events);
    RunKeepsTasksOk(Init(mode, max, workspaces), events);
    RunKeepsInstalledOk(Init(mode, max, workspaces), events);
    assert TaskOk(s.mode, s.tasks[n]) && CommandOk(s.tasks[n], s.installed);
    DeliveredIfClean(mode, s.tasks[n], s.installed);
  }

  lemma DeliveredIfClean(mode: Mode, t: Task, installed: set<string>)
    requires TaskOk(mode, t) && CommandOk(t, installed) && t.at.Over? && !t.flags.lost
    ensures Delivered(t) <==> CleanInput(mode, t)
    ensures Delivered(t) <==> t.at == Over(Completed)
  {
    CleanInputIs(mode, t);
  }

  /** In every run, a task ends at a line exactly if some line that it read is of one of these kinds. */
  lemma EndsAtBadLine(mode: Mode, max: nat, workspaces: set<string>, events: seq<Event>, s: State, n: nat)
    requires Run(Init(mode, max, workspaces), events) == Some(s) && n < |s.tasks|
    ensures s.tasks[n].at == Over(RaisedBy(BadLine))
       <==> exists x :: x in s.tasks[n].input.lines
              && x.line in {TooLong, Undecodable, OtherJson, Artifact(Unprobeable), Artifact(Unreadable)}
  {
    RunKeepsTasksOk(Init(mode, max, workspaces), events);
    var t := s.tasks[n];
    assert TaskOk(s.mode, t);
    forall x | x in t.input.lines
      ensures !Harmless(x.line)
         <==> x.line in {TooLong, Undecodable, OtherJson, Artifact(Unprobeable), Artifact(Unreadable)}
    {
      HarmlessKinds(x.line);
    }
  }

  // ---------- What a subscriber streams ----------

  /** A subscriber to the job's log channel stops at the first message whose event is done or error. */
  predicate Stops(m: Message) { IsTerminal(m) || m == LineMessage(true) }

  function Streamed(ms: seq<Message>): seq<Message> {
    if ms == [] then [] else [ms[0]] + (if Stops(ms[0]) then [] else Streamed(ms[1..]))
  }

  lemma SameTail(m: Message, a: seq<Message>, b: seq<Message>)
    ensures [m] + a == [m] + b <==> a == b
  {
    assert ([m] + a)[1..] == a && ([m] + b)[1..] == b;
  }

  /** A stream that ends with a final message is read whole exactly if no message before it is final. */
  lemma {:induction false} StreamedUpTo(rest: seq<Message>, last: Message)
    requires Stops(last)
    ensures Streamed(rest + [last]) == rest + [last] <==> forall m :: m in rest ==> !Stops(m)
    decreases |rest|
  {
    if rest == [] {
      assert rest + [last] == [last] && [last][1..] == [];
    } else {
      var first, tail := rest[0], rest[1..];
      assert rest == [first] + tail && rest + [last] == [first] + (tail + [last]);
      assert (rest + [last])[1..] == tail + [last];
      StreamedUpTo(tail, last);
      SameTail(first, Streamed(tail + [last]), tail + [last]);
      SameTail(first, [], tail + [last]);
    }
  }

  lemma {:induction false} NoTerminals(ms: seq<Message>)
    requires Terminals(ms) == 0
    ensures forall m :: m in ms ==> !IsTerminal(m)
    decreases |ms|
  {
    if ms != [] {
      NoTerminals(ms[..|ms| - 1]);
      assert ms == ms[..|ms| - 1] + [ms[|ms| - 1]];
    }
  }

  /** A final line has been published exactly if one has been read and its publish did not fail. */
  predicate Echoes(t: Task) {
    LineMessage(true) in t.out.published <==> Seen(Object(true), true) in t.input.lines
  }

  lemma ReadingKeepsEchoes(t: Task, line: Line, lose: bool)
    requires Echoes(t)
    ensures Echoes(ReadLine(t, line, lose).task)
  {}

  lemma StepKeepsEchoes(mode: Mode, t: Task, c: Choice, installed: set<string>)
    requires Echoes(t) && TaskStep(mode, t, c, installed).Some?
    ensures Echoes(TaskStep(mode, t, c, installed).value.task)
  {
    if t.at.Streaming? && c.Read? {
      ReadingKeepsEchoes(t, c.line, c.lose);
    } else {
      if InSecondPart(t.at) {
        AfterEchoesNothing(mode, t, c);
      } else {
        BeforeEchoesNothing(t, c, installed);
      }
      AddsNoFinal(t, TaskStep(mode, t, c, installed).value.task);
    }
  }

  /** The lines stay, and no line is published. */
  predicate EchoesNothing(t: Task, next: Task) {
    && next.input.lines == t.input.lines
    && (next.out.published == t.out.published || AddsAnother(t.out.published, next.out.published))
  }

  lemma BeforeEchoesNothing(t: Task, c: Choice, installed: set<string>)
    requires StepBefore(t, c, installed).Some?
    ensures EchoesNothing(t, StepBefore(t, c, installed).value.task)
  {}

  lemma AfterEchoesNothing(mode: Mode, t: Task, c: Choice)
    requires StepAfter(mode, t, c).Some? && !(t.at.Streaming? && c.Read?)
    ensures EchoesNothing(t, StepAfter(mode, t, c).value.task)
  {}

  lemma AddsNoFinal(t: Task, next: Task)
    requires Echoes(t) && EchoesNothing(t, next)
    ensures Echoes(next)
  {}

  predicate AddsAnother(ms: seq<Message>, ms': seq<Message>) {
    |ms'| == |ms| + 1 && ms' == ms + [ms'[|ms|]] && !ms'[|ms|].LineMessage? && !ms'[|ms|].ArtifactMessage?
  }

  lemma {:induction false} RunKeepsEchoes(s: State, events: seq<Event>)
    requires Run(s, events).Some? && forall t :: t in s.tasks ==> Echoes(t)
    ensures forall t :: t in Run(s, events).value.tasks ==> Echoes(t)
    decreases |events|
  {
    if events != [] {
      if events[0].Step? {
        StepKeepsEchoes(s.mode, s.tasks[events[0].n], events[0].c, s.installed);
      }
      RunKeepsEchoes(Next(s, events[0]).value, events[1..]);
    }
  }

  /**
   * A subscriber streams all of a delivered job's messages, up to its terminal one, exactly if
   * no stdout line that was published carried a final event of its own.
   */
  lemma StreamReachesTheEnd(mode: Mode, max: nat, workspaces: set<string>,
                            events: seq<Event>, s: State, n: nat)
    requires Run(Init(mode, max, workspaces), events) == Some(s)
    requires n < |s.tasks| && Delivered(s.tasks[n])
    ensures Streamed(s.tasks[n].out.published) == s.tasks[n].out.published
       <==> Seen(Object(true), true) !in s.tasks[n].input.lines
  {
    RunKeepsEchoes(Init(mode, max, workspaces), events);
    assert Echoes(s.tasks[n]);
    StreamedToTerminal(s.tasks[n].out.published);
  }

  lemma StreamedToTerminal(ms: seq<Message>)
    requires ms != [] && IsTerminal(ms[|ms| - 1]) && Terminals(ms) == 1
    ensures Streamed(ms) == ms <==> LineMessage(true) !in ms
  {
    SplitLast(ms);
    StreamedWithLast(ms[..|ms| - 1], ms[|ms| - 1]);
  }

  lemma SplitLast(ms: seq<Message>)
    requires ms != []
    ensures ms[..|ms| - 1] + [ms[|ms| - 1]] == ms
  {}

  lemma StreamedWithLast(rest: seq<Message>, last: Message)
    requires Terminals(rest) == 0 && IsTerminal(last)
    ensures Streamed(rest + [last]) == rest + [last] <==> LineMessage(true) !in rest + [last]
  {
    StreamedUpTo(rest, last);
    OnlyLinesStop(rest);
    assert LineMessage(true) in rest + [last] <==> LineMessage(true) in rest;
  }

  lemma OnlyLinesStop(ms: seq<Message>)
    requires Terminals(ms) == 0
    ensures LineMessage(true) !in ms <==> forall m :: m in ms ==> !Stops(m)
  {
    NoTerminals(ms);
    assert Stops(LineMessage(true));
  }

  // ---------- Two concrete runs ----------

  lemma Extend(start: State, events: seq<Event>, s: State, e: Event) returns (events': seq<Event>, s': State)
    requires Run(start, events) == Some(s) && Next(s, e).Some?
    ensures events' == events + [e] && Next(s, e) == Some(s') && Run(start, events') == Some(s')
  {
    events', s' := events + [e], Next(s, e).value;
    RunSnoc(start, events, e);
  }

  lemma {:induction false} RunSnoc(s: State, events: seq<Event>, e: Event)
    requires Run(s, events).Some?
    ensures Run(s, events + [e]) == Next(Run(s, events).value, e)
    decreases |events|
  {
    if events == [] {
      assert events + [e] == [e] && [e][1..] == [];
    } else {
      assert (events + [e])[1..] == events[1..] + [e];
      RunSnoc(Next(s, events[0]).value, events[1..], e);
    }
  }

  const PLAIN_JOB := Job("a", Payload(true, true, true, true), [])

  /** The one task of a run, and a permit for it if it holds none yet. */
  predicate Alone(mode: Mode, s: State, t: Task) {
    s.mode == mode && s.tasks == [t] && (Holds(t) || s.permits > 0)
  }

  /** One more step of the one task. */
  lemma Move(mode: Mode, events: seq<Event>, s: State, t: Task, c: Choice, e: Effect)
    returns (events': seq<Event>, s': State)
    requires Run(Init(mode, 1, {}), events) == Some(s) && Alone(mode, s, t)
    requires TaskStep(mode, t, c, s.installed) == Some(e) && (Holds(e.task) || e.task.at.Over? || e.permit.Keep?)
    ensures Run(Init(mode, 1, {}), events') == Some(s') && s'.mode == mode && s'.tasks == [e.task]
    ensures Holds(e.task) || !Holds(t) ==> Alone(mode, s', e.task)
  {
    PermitFollowsHolds(mode, t, c, s.installed);
    events', s' := Extend(Init(mode, 1, {}), events, s, Step(0, c));
  }

  function Plain(at: Point, out: Output, input: Input, made: bool, spawned: bool): Task {
    Task(PLAIN_JOB, at, out, input, Flags(made, spawned, false, false))
  }

  lemma StartSetup(mode: Mode) returns (events: seq<Event>, s: State)
    ensures Run(Init(mode, 1, {}), events) == Some(s)
    ensures Alone(mode, s, Plain(Setup, Output([], 0), Input([], None), false, false))
  {
    events, s := [], Init(mode, 1, {});
    events, s := Extend(Init(mode, 1, {}), events, s, Submit(PLAIN_JOB));
    var t := NewTask(PLAIN_JOB);
    events, s := Move(mode, events, s, t, Go, Stay(t.(at := Waiting)));
    events, s := Move(mode, events, s, t.(at := Waiting), Go, Effect(t.(at := Setup), Acquire, Untouched, false));
  }

  lemma StartStreaming(mode: Mode) returns (events: seq<Event>, s: State)
    ensures Run(Init(mode, 1, {}), events) == Some(s)
    ensures Alone(mode, s, Plain(Streaming, Output([], 0), Input([], None), true, true))
  {
    var out, input := Output([], 0), Input([], None);
    events, s := StartSetup(mode);
    events, s := Move(mode, events, s, Plain(Setup, out, input, false, false), Go,
                      Effect(Plain(Writing, out, input, true, false), Keep, MakeDirectory, false));
    events, s := Move(mode, events, s, Plain(Writing, out, input, true, false), Go,
                      Stay(Plain(Spawning, out, input, true, false)));
    events, s := Move(mode, events, s, Plain(Spawning, out, input, true, false), Go,
                      Stay(Plain(Streaming, out, input, true, true)));
  }

  /** Nothing fails, and yet a single line of the runner loses the result. */
  lemma LineLosesResult(mode: Mode, line: Line) returns (events: seq<Event>, s: State)
    requires line in {TooLong, Undecodable, OtherJson, Artifact(Unprobeable), Artifact(Unreadable)}
    ensures Run(Init(mode, 1, {}), events) == Some(s) && |s.tasks| == 1 && CleanPayload(s.tasks[0].job.payload)
    ensures s.tasks[0].at == Over(RaisedBy(BadLine)) && !s.tasks[0].flags.lost && !Delivered(s.tasks[0])
  {
    events, s := StartStreaming(mode);
    var t := s.tasks[0];
    events, s := Move(mode, events, s, t, Read(line, false), ReadLine(t, line, false));
  }

  /** The runner prints one object or text line and ends. */
  lemma ReadOneAndEnd(mode: Mode, line: Line, m: Message) returns (events: seq<Event>, s: State)
    requires (line.Object? && m == LineMessage(line.final)) || (line.NoJson? && m == LineMessage(false))
    ensures Run(Init(mode, 1, {}), events) == Some(s)
    ensures Alone(mode, s, Plain(Reading, Output([m], 0), Input([Seen(line, true)], None), true, true))
  {
    events, s := StartStreaming(mode);
    var t := s.tasks[0];
    var out, input := Output([m], 0), Input([Seen(line, true)], None);
    assert [] + out.published == out.published && [] + input.lines == input.lines;
    assert ReadLine(t, line, false) == Stay(Plain(Streaming, out, input, true, true));
    events, s := Move(mode, events, s, t, Read(line, false), Stay(Plain(Streaming, out, input, true, true)));
    events, s := Move(mode, events, s, Plain(Streaming, out, input, true, true), EndOfOutput,
                      Stay(Plain(Reaping, out, input, true, true)));
    events, s := Move(mode, events, s, Plain(Reaping, out, input, true, true), Go,
                      Stay(Plain(Reading, out, input, true, true)));
  }

  lemma StoreAfterLine(mode: Mode, line: Line, m: Message) returns (events: seq<Event>, s: State)
    requires (line.Object? && m == LineMessage(line.final)) || (line.NoJson? && m == LineMessage(false))
    ensures Run(Init(mode, 1, {}), events) == Some(s)
    ensures Alone(mode, s, Plain(PublishDone, Output([m], 1), Input([Seen(line, true)], Some(Missing)), true, true))
  {
    events, s := ReadOneAndEnd(mode, line, m);
    var lines, ms := [Seen(line, true)], [m];
    var input := Input(lines, Some(Missing));
    events, s := Move(mode, events, s, Plain(Reading, Output(ms, 0), Input(lines, None), true, true), Found(Missing),
                      Stay(Plain(StoreResult, Output(ms, 0), input, true, true)));
    events, s := Move(mode, events, s, Plain(StoreResult, Output(ms, 0), input, true, true), Go,
                      Stay(Plain(PublishDone, Output(ms, 1), input, true, true)));
  }

  lemma LineThenDone(m: Message)
    requires m.LineMessage?
    ensures var ms := [m, DoneMessage];
      Terminals(ms) == 1 && Streamed(ms) == if m == LineMessage(true) then [m] else ms
  {
    var ms := [m, DoneMessage];
    TerminalsSnoc([], m);
    TerminalsSnoc([m], DoneMessage);
    assert [] + [m] == [m] && [m] + [DoneMessage] == ms;
    assert Streamed([DoneMessage]) == [DoneMessage] by {
      assert [DoneMessage] + [] == [DoneMessage];
    }
    assert ms[1..] == [DoneMessage] && [m] + [] == [m];
  }

  /** A job that prints one object or text line is delivered, and the line is published as it is. */
  lemma LineIsDelivered(mode: Mode, line: Line, m: Message) returns (events: seq<Event>, s: State)
    requires (line.Object? && m == LineMessage(line.final)) || (line.NoJson? && m == LineMessage(false))
    ensures Run(Init(mode, 1, {}), events) == Some(s) && |s.tasks| == 1 && Delivered(s.tasks[0])
    ensures s.tasks[0].input.lines == [Seen(line, true)] && !s.tasks[0].flags.lost
    ensures s.tasks[0].out.published == [m, DoneMessage]
  {
    events, s := StoreAfterLine(mode, line, m);
    var t := s.tasks[0];
    var sent := t.(out := Output([m, DoneMessage], 1));
    assert Published(t, DoneMessage) == sent;
    events, s := Move(mode, events, s, t, Go,
                      Leave(sent, Completed, if mode.Real? then Untouched else RemoveDirectory));
    LineThenDone(m);
  }

  /** A plain text line loses nothing, in either mode. */
  lemma PlainTextIsDelivered(mode: Mode) returns (events: seq<Event>, s: State)
    ensures Run(Init(mode, 1, {}), events) == Some(s) && |s.tasks| == 1 && Delivered(s.tasks[0])
    ensures s.tasks[0].input.lines == [Seen(NoJson, true)]
    ensures s.tasks[0].out.published == [LineMessage(false), DoneMessage]
  {
    events, s := LineIsDelivered(mode, NoJson, LineMessage(false));
  }

  /** A job is delivered, but its subscriber stops at a line that says "done". */
  lemma StreamStopsEarly(mode: Mode) returns (events: seq<Event>, s: State)
    ensures Run(Init(mode, 1, {}), events) == Some(s) && |s.tasks| == 1 && Delivered(s.tasks[0])
    ensures s.tasks[0].out.published == [LineMessage(true), DoneMessage]
    ensures Streamed(s.tasks[0].out.published) == [LineMessage(true)]
  {
    events, s := LineIsDelivered(mode, Object(true), LineMessage(true));
    LineThenDone(LineMessage(true));
  }

  // ---------- Workspaces ----------

  /** The workspace must be gone: the task completed, in fixture mode or on an error path. */
  predicate Removed(mode: Mode, t: Task) {
    t.at == Over(Completed) && !(mode.Real? && t.flags.spawned && !t.flags.timedOut)
  }

  predicate DiskOk(t: Task) {
    match t.at
    case Created => !t.flags.made && !t.flags.spawned && !t.flags.timedOut
    case Waiting => !t.flags.made && !t.flags.spawned && !t.flags.timedOut
    case Setup => !t.flags.made && !t.flags.spawned && !t.flags.timedOut
    case Writing => t.flags.made && !t.flags.spawned && !t.flags.timedOut
    case Streaming => t.flags.made && t.flags.spawned && !t.flags.timedOut
    case Reaping => t.flags.made && t.flags.spawned
    case PublishError => t.flags.made && !(t.flags.spawned && !t.flags.timedOut)
    case StoreError => t.flags.made && !(t.flags.spawned && !t.flags.timedOut)
    case Reading => t.flags.made && t.flags.spawned && !t.flags.timedOut
    case StoreResult => t.flags.made && t.flags.spawned && !t.flags.timedOut
    case PublishDone => t.flags.made && t.flags.spawned && !t.flags.timedOut
    case Over(end) => end.Completed? ==> t.flags.made
    case _ => t.flags.made && !t.flags.spawned && !t.flags.timedOut
  }

  /** What a step does to the directory is what it does to the flags. */
  predicate DiskMatches(mode: Mode, t: Task, e: Effect) {
    && e.task.job.id == t.job.id && DiskOk(e.task) && !Removed(mode, t)
    && (e.disk.MakeDirectory? <==> !t.flags.made && e.task.flags.made)
    && (t.flags.made ==> e.task.flags.made)
    && (e.disk.RemoveDirectory? <==> Removed(mode, e.task))
  }

  lemma DiskBefore(mode: Mode, t: Task, c: Choice, installed: set<string>)
    requires DiskOk(t) && StepBefore(t, c, installed).Some?
    ensures DiskMatches(mode, t, StepBefore(t, c, installed).value)
  {}

  lemma DiskReading(mode: Mode, t: Task, line: Line, lose: bool)
    requires DiskOk(t) && t.at.Streaming?
    ensures DiskMatches(mode, t, ReadLine(t, line, lose))
  {}

  lemma DiskAfter(mode: Mode, t: Task, c: Choice)
    requires DiskOk(t) && StepAfter(mode, t, c).Some?
    ensures DiskMatches(mode, t, StepAfter(mode, t, c).value)
  {
    if t.at.Streaming? && c.Read? {
      DiskReading(mode, t, c.line, c.lose);
    } else {
      assert StepAfter(mode, t, c).value.task.flags.made == t.flags.made;
    }
  }

  predicate Unique(tasks: seq<Task>, n: nat)
    requires n < |tasks|
  {
    forall m :: 0 <= m < |tasks| && m != n ==> tasks[m].job.id != tasks[n].job.id
  }

  predicate DirectoryOk(s: State, n: nat)
    requires n < |s.tasks|
  {
    var t := s.tasks[n];
    && (Removed(s.mode, t) ==> t.job.id !in s.workspaces)
    && (t.flags.made && !Removed(s.mode, t) ==> t.job.id in s.workspaces)
  }

  predicate DisksOk(s: State) {
    && (forall n :: 0 <= n < |s.tasks| ==> DiskOk(s.tasks[n]))
    && (forall n :: 0 <= n < |s.tasks| && Unique(s.tasks, n) ==> DirectoryOk(s, n))
  }

  lemma StepMatchesDisk(s: State, n: nat, c: Choice)
    requires DisksOk(s) && n < |s.tasks| && TaskStep(s.mode, s.tasks[n], c, s.installed).Some?
    ensures DiskMatches(s.mode, s.tasks[n], TaskStep(s.mode, s.tasks[n], c, s.installed).value)
  {
    if InSecondPart(s.tasks[n].at) {
      DiskAfter(s.mode, s.tasks[n], c);
    } else {
      DiskBefore(s.mode, s.tasks[n], c, s.installed);
    }
  }

  lemma ApplyKeepsDisksOk(s: State, n: nat, e: Effect)
    requires DisksOk(s) && n < |s.tasks| && DiskMatches(s.mode, s.tasks[n], e)
    requires e.permit.Acquire? ==> s.permits > 0
    ensures DisksOk(Apply(s, n, e))
  {
    var next := Apply(s, n, e);
    forall m | 0 <= m < |next.tasks| && Unique(next.tasks, m) ensures DirectoryOk(next, m) {
      assert Unique(s.tasks, m) by {
        forall k | 0 <= k < |s.tasks| && k != m ensures s.tasks[k].job.id != s.tasks[m].job.id {
          assert next.tasks[k].job.id == s.tasks[k].job.id && next.tasks[m].job.id == s.tasks[m].job.id;
        }
      }
      assert DirectoryOk(s, m);
      if m != n {
        assert s.tasks[n].job.id != s.tasks[m].job.id;
      }
    }
  }

  lemma SubmitKeepsDisksOk(s: State, t: Task)
    requires DisksOk(s) && t.at.Created? && DiskOk(t)
    ensures DisksOk(s.(tasks := s.tasks + [t]))
  {
    var next := s.(tasks := s.tasks + [t]);
    forall m | 0 <= m < |s.tasks| && Unique(next.tasks, m) ensures DirectoryOk(next, m) {
      assert forall k :: 0 <= k < |s.tasks| ==> next.tasks[k] == s.tasks[k];
      assert Unique(s.tasks, m);
      assert DirectoryOk(s, m);
    }
  }

  lemma {:induction false} RunKeepsDisksOk(s: State, events: seq<Event>)
    requires DisksOk(s) && Run(s, events).Some?
    ensures DisksOk(Run(s, events).value)
    decreases |events|
  {
    if events != [] {
      match events[0] {
        case Submit(job) =>
          SubmitKeepsDisksOk(s, NewTask(job));
        case Step(n, c) =>
          StepMatchesDisk(s, n, c);
          ApplyKeepsDisksOk(s, n, TaskStep(s.mode, s.tasks[n], c, s.installed).value);
      }
      RunKeepsDisksOk(Next(s, events[0]).value, events[1..]);
    }
  }

  /**
   * Once a task is over, the workspace that it made is on disk exactly if the task raised, or the
   * mode is real and it got past spawning and the timeout; provided no other task of the run
   * shares its job id. A task that completed did make one.
   */
  lemma WorkspaceSurvival(mode: Mode, max: nat, workspaces: set<string>,
                          events: seq<Event>, s: State, n: nat)
    requires Run(Init(mode, max, workspaces), events) == Some(s)
    requires n < |s.tasks| && s.tasks[n].at.Over? && Unique(s.tasks, n)
    ensures s.tasks[n].at == Over(Completed) ==> s.tasks[n].flags.made
    ensures s.tasks[n].flags.made ==>
      (s.tasks[n].job.id in s.workspaces <==> !Removed(mode, s.tasks[n]))
  {
    ModeKept(Init(mode, max, workspaces), events);
    RunKeepsDisksOk(Init(mode, max, workspaces), events);
    assert DirectoryOk(s, n);
  }

  lemma {:induction false} ModeKept(s: State, events: seq<Event>)
    requires Run(s, events).Some?
    ensures Run(s, events).value.mode == s.mode
    decreases |events|
  {
    if events != [] {
      ModeKept(Next(s, events[0]).value, events[1..]);
    }
  }

  // ---------- Installed packages ----------

  lemma {:induction false} NotInstalledSplits(packages: seq<string>, installed: set<string>)
    ensures Elements(NotInstalled(packages, installed)) == Elements(packages) - installed
  {
    if packages != [] {
      NotInstalledSplits(packages[1..], installed);
      var head := if packages[0] in installed then [] else [packages[0]];
      var tail := NotInstalled(packages[1..], installed);
      assert forall x :: x in head + tail <==> x in head || x in tail;
      assert forall x :: x in packages <==> x == packages[0] || x in packages[1..];
      assert forall x :: x in Elements(tail) <==> x in tail;
      assert forall x :: x in Elements(packages[1..]) <==> x in packages[1..];
    }
  }

  /**
   * What a task leaves out of its pip command is installed by then and stays so; and from the
   * command on, all its package names have been found to be arguments.
   */
  predicate CommandOk(t: Task, installed: set<string>) {
    match t.at
    case PipSpawn(missing) => Covers(t.job.packages, missing, installed)
    case PipWait(missing) => Covers(t.job.packages, missing, installed) && AreArguments(t.job.packages)
    case Over(end) =>
      (match end
       case Completed => AreArguments(t.job.packages)
       case RaisedBy(cause) => cause.BadArgument? ==> !AreArguments(t.job.packages))
    case _ => BeforePip(t.at) || AreArguments(t.job.packages)
  }

  predicate BeforePip(p: Point) { p.Created? || p.Waiting? || p.Setup? || p.Writing? || p.Announce? }

  predicate Covers(packages: seq<string>, missing: seq<string>, installed: set<string>) {
    Elements(missing) <= Elements(packages) <= Elements(missing) + installed
  }

  predicate InstalledOk(s: State) {
    && (forall x :: x in s.installed ==> IsArgument(x))
    && forall n :: 0 <= n < |s.tasks| ==> CommandOk(s.tasks[n], s.installed)
  }

  lemma CoveredArguments(packages: seq<string>, missing: seq<string>, installed: set<string>)
    requires Covers(packages, missing, installed) && forall x :: x in installed ==> IsArgument(x)
    ensures AreArguments(missing) <==> AreArguments(packages)
  {
    forall x | x in packages ensures x in missing || x in installed {
      assert x in Elements(packages);
    }
    forall x | x in missing ensures x in packages {
      assert x in Elements(missing);
    }
  }

  lemma PipKeepsCommandOk(t: Task, c: Choice, installed: set<string>)
    requires CommandOk(t, installed) && Installing(t.at) && StepBefore(t, c, installed).Some?
    requires forall x :: x in installed ==> IsArgument(x)
    ensures CommandOk(StepBefore(t, c, installed).value.task, installed)
  {
    if t.at.Announce? {
      var missing := NotInstalled(t.job.packages, installed);
      NotInstalledSplits(t.job.packages, installed);
      CoveredArguments(t.job.packages, missing, installed);
    } else if t.at.PipSpawn? {
      CoveredArguments(t.job.packages, t.at.new_, installed);
    }
  }

  lemma BeforeKeepsCommandOk(t: Task, c: Choice, installed: set<string>)
    requires CommandOk(t, installed) && StepBefore(t, c, installed).Some?
    requires forall x :: x in installed ==> IsArgument(x)
    ensures CommandOk(StepBefore(t, c, installed).value.task, installed)
    ensures StepBefore(t, c, installed).value.installed ==> t.at.PipWait?
  {
    if Installing(t.at) {
      PipKeepsCommandOk(t, c, installed);
    }
  }

  lemma AfterKeepsCommandOk(mode: Mode, t: Task, c: Choice, installed: set<string>)
    requires CommandOk(t, installed) && StepAfter(mode, t, c).Some?
    ensures CommandOk(StepAfter(mode, t, c).value.task, installed) && !StepAfter(mode, t, c).value.installed
  {
    if t.at.Streaming? && c.Read? {
      ReadOneLine(t, c.line, c.lose);
      assert !ReadLine(t, c.line, c.lose).installed;
    }
  }

  lemma TaskKeepsCommandOk(mode: Mode, t: Task, c: Choice, installed: set<string>)
    requires CommandOk(t, installed) && TaskStep(mode, t, c, installed).Some?
    requires forall x :: x in installed ==> IsArgument(x)
    ensures var e := TaskStep(mode, t, c, installed).value;
      && CommandOk(e.task, installed)
      && (e.installed ==> t.at.PipWait?)
  {
    if InSecondPart(t.at) {
      AfterKeepsCommandOk(mode, t, c, installed);
    } else {
      BeforeKeepsCommandOk(t, c, installed);
    }
  }

  lemma StepKeepsInstalledOk(s: State, e: Event)
    requires InstalledOk(s) && Next(s, e).Some?
    ensures InstalledOk(Next(s, e).value) && s.installed <= Next(s, e).value.installed
  {
    if e.Step? {
      TaskKeepsCommandOk(s.mode, s.tasks[e.n], e.c, s.installed);
      var next := Next(s, e).value;
      forall m | 0 <= m < |next.tasks| ensures CommandOk(next.tasks[m], next.installed) {
        assert CommandOk(if m == e.n then next.tasks[m] else s.tasks[m], s.installed);
      }
    }
  }

  lemma {:induction false} RunKeepsInstalledOk(s: State, events: seq<Event>)
    requires InstalledOk(s) && Run(s, events).Some?
    ensures InstalledOk(Run(s, events).value) && s.installed <= Run(s, events).value.installed
    decreases |events|
  {
    if events != [] {
      StepKeepsInstalledOk(s, events[0]);
      RunKeepsInstalledOk(Next(s, events[0]).value, events[1..]);
    }
  }

  /** What a step adds: the names in a pip command that exits with success. */
  function FetchedBy(s: State, e: Event): set<string> {
    if e.Step? && e.n < |s.tasks| && e.c == PipExit(true) then
      match s.tasks[e.n].at case PipWait(missing) => Elements(missing) case _ => {}
    else {}
  }

  /** The names in all pip commands of the run that have succeeded. */
  function Fetched(s: State, events: seq<Event>): set<string>
    decreases |events|
  {
    if events == [] then {}
    else match Next(s, events[0])
      case None => {}
      case Some(next) => FetchedBy(s, events[0]) + Fetched(next, events[1..])
  }

  lemma InstallsOnlyOnSuccess(mode: Mode, t: Task, c: Choice, installed: set<string>)
    requires TaskStep(mode, t, c, installed).Some?
    ensures TaskStep(mode, t, c, installed).value.installed <==> t.at.PipWait? && c == PipExit(true)
  {
    if InSecondPart(t.at) && t.at.Streaming? && c.Read? {
      assert !ReadLine(t, c.line, c.lose).installed;
    }
  }

  lemma StepFetches(s: State, e: Event)
    requires InstalledOk(s) && Next(s, e).Some?
    ensures Next(s, e).value.installed == s.installed + FetchedBy(s, e)
  {
    if e.Step? {
      InstallsOnlyOnSuccess(s.mode, s.tasks[e.n], e.c, s.installed);
      assert CommandOk(s.tasks[e.n], s.installed);
    }
  }

  lemma {:induction false} RunFetches(s: State, events: seq<Event>)
    requires InstalledOk(s) && Run(s, events).Some?
    ensures Run(s, events).value.installed == s.installed + Fetched(s, events)
    decreases |events|
  {
    if events != [] {
      StepKeepsInstalledOk(s, events[0]);
      StepFetches(s, events[0]);
      RunFetches(Next(s, events[0]).value, events[1..]);
    }
  }

  /**
   * In every interleaving of installs, the packages believed to be installed only grow, and are
   * exactly those named in some pip command that exited with success.
   */
  lemma InstalledProvenance(mode: Mode, max: nat, workspaces: set<string>,
                            before: seq<Event>, after: seq<Event>, mid: State, s: State)
    requires Run(Init(mode, max, workspaces), before) == Some(mid) && Run(mid, after) == Some(s)
    ensures mid.installed == Fetched(Init(mode, max, workspaces), before)
    ensures s.installed == mid.installed + Fetched(mid, after)
  {
    RunKeepsInstalledOk(Init(mode, max, workspaces), before);
    RunFetches(Init(mode, max, workspaces), before);
    RunFetches(mid, after);
  }
}
