/** What a tier job has done and sent, compared with what its environment did, over every run. */
module TierTrace {
  import opened Options
  import opened TierRunner

  // ---------- What a task has seen ----------

  datatype History = History(spawned: bool, timedOut: bool, lines: seq<Seen>, result: Option<ResultFile>)

  const NOTHING := History(false, false, [], None)

  function HistoryOf(t: Task): History {
    History(t.flags.spawned, t.flags.timedOut, t.input.lines, t.input.result)
  }

  /** What one event means for the n-th task. */
  function Noted(s: State, e: Event, n: nat, h: History): History {
    if !e.Step? || e.n != n || n >= |s.tasks| then h
    else
      match (s.tasks[n].at, e.c)
      case (Spawning, Fail) => h
      case (Spawning, _) => h.(spawned := true)
      case (Streaming, Read(line, lose)) => h.(lines := h.lines + [Seen(line, !lose)])
      case (Streaming, Timeout) => h.(timedOut := true)
      case (Reading, Found(file)) => h.(result := Some(file))
      case _ => h
  }

  function Heard(s: State, events: seq<Event>, n: nat, h: History): History
    decreases |events|
  {
    if events == [] then h
    else match Next(s, events[0])
      case None => h
      case Some(next) => Heard(next, events[1..], n, Noted(s, events[0], n, h))
  }

  lemma ReadNotes(t: Task, line: Line, lose: bool)
    ensures HistoryOf(ReadLine(t, line, lose).task)
         == HistoryOf(t).(lines := t.input.lines + [Seen(line, !lose)])
  {}

  lemma BeforeNotes(s: State, n: nat, c: Choice)
    requires n < |s.tasks| && StepBefore(s.tasks[n], c, s.installed).Some?
    ensures HistoryOf(StepBefore(s.tasks[n], c, s.installed).value.task)
         == Noted(s, Step(n, c), n, HistoryOf(s.tasks[n]))
  {}

  lemma AfterNotes(s: State, n: nat, c: Choice)
    requires n < |s.tasks| && StepAfter(s.mode, s.tasks[n], c).Some? && !c.Read?
    ensures HistoryOf(StepAfter(s.mode, s.tasks[n], c).value.task)
         == Noted(s, Step(n, c), n, HistoryOf(s.tasks[n]))
  {}

  lemma TaskNotes(s: State, n: nat, c: Choice)
    requires n < |s.tasks| && TaskStep(s.mode, s.tasks[n], c, s.installed).Some?
    ensures HistoryOf(TaskStep(s.mode, s.tasks[n], c, s.installed).value.task)
         == Noted(s, Step(n, c), n, HistoryOf(s.tasks[n]))
  {
    var t := s.tasks[n];
    if t.at.Streaming? && c.Read? {
      ReadNotes(t, c.line, c.lose);
    } else if InSecondPart(t.at) {
      if c.Read? {
        OnlyStreamingReads(s, n, c);
      } else {
        AfterNotes(s, n, c);
      }
    } else {
      BeforeNotes(s, n, c);
    }
  }

  lemma OnlyStreamingReads(s: State, n: nat, c: Choice)
    requires n < |s.tasks| && StepAfter(s.mode, s.tasks[n], c).Some? && c.Read? && !s.tasks[n].at.Streaming?
    ensures HistoryOf(StepAfter(s.mode, s.tasks[n], c).value.task) == HistoryOf(s.tasks[n])
  {}

  predicate Knows(s: State, n: nat, h: History) { if n < |s.tasks| then HistoryOf(s.tasks[n]) == h else h == NOTHING }

  lemma StepKnows(s: State, e: Event, n: nat, h: History)
    requires Knows(s, n, h) && Next(s, e).Some?
    ensures Knows(Next(s, e).value, n, Noted(s, e, n, h))
  {
    if e.Step? && e.n == n {
      TaskNotes(s, n, e.c);
    }
  }

  lemma {:induction false} RunKnows(s: State, events: seq<Event>, n: nat, h: History)
    requires Knows(s, n, h) && Run(s, events).Some?
    ensures Knows(Run(s, events).value, n, Heard(s, events, n, h))
    decreases |events|
  {
    if events != [] {
      StepKnows(s, events[0], n, h);
      RunKnows(Next(s, events[0]).value, events[1..], n, Noted(s, events[0], n, h));
    }
  }

  /** In every run a task has spawned, timed out, read and found exactly what the events say. */
  lemma TaskSawTheEvents(mode: Mode, max: nat, workspaces: set<string>, events: seq<Event>, s: State, n: nat)
    requires Run(Init(mode, max, workspaces), events) == Some(s) && n < |s.tasks|
    ensures HistoryOf(s.tasks[n]) == Heard(Init(mode, max, workspaces), events, n, NOTHING)
  {
    RunKnows(Init(mode, max, workspaces), events, n, NOTHING);
  }

  // ---------- What a task has published for its lines ----------

  /** The messages that come from lines of the runner. */
  function FromLines(ms: seq<Message>): seq<Message> {
    if ms == [] then []
    else
      var m := ms[|ms| - 1];
      FromLines(ms[..|ms| - 1]) + (if m.LineMessage? || m.ArtifactMessage? then [m] else [])
  }

  /** What a line is to be published as, unless its publish fails. */
  function Expected(x: Seen): seq<Message> {
    if !x.sent then []
    else
      match x.line
      case NoJson => [LineMessage(false)]
      case Object(final) => [LineMessage(final)]
      case Artifact(file) =>
        (match file
         case Readable => [ArtifactMessage]
         case OddPath => [LineMessage(false)]
         case _ => [])
      case _ => []
  }

  function AllExpected(lines: seq<Seen>): seq<Message> {
    if lines == [] then [] else AllExpected(lines[..|lines| - 1]) + Expected(lines[|lines| - 1])
  }

  predicate Echoed(t: Task) { FromLines(t.out.published) == AllExpected(t.input.lines) }

  lemma FromLinesSnoc(ms: seq<Message>, m: Message)
    ensures FromLines(ms + [m]) == FromLines(ms) + (if m.LineMessage? || m.ArtifactMessage? then [m] else [])
  {
    assert (ms + [m])[..|ms|] == ms;
  }

  lemma AllExpectedSnoc(lines: seq<Seen>, x: Seen)
    ensures AllExpected(lines + [x]) == AllExpected(lines) + Expected(x)
  {
    assert (lines + [x])[..|lines|] == lines;
  }

  /** A line is published as expected, or not at all. */
  lemma ReadPublishes(t: Task, line: Line, lose: bool)
    ensures ReadLine(t, line, lose).task.input.lines == t.input.lines + [Seen(line, !lose)]
    ensures ReadLine(t, line, lose).task.out.published == t.out.published + Expected(Seen(line, !lose))
  {
    assert t.out.published + [] == t.out.published;
  }

  lemma ReadKeepsEchoed(t: Task, line: Line, lose: bool)
    requires Echoed(t)
    ensures Echoed(ReadLine(t, line, lose).task)
  {
    var x := Seen(line, !lose);
    ReadPublishes(t, line, lose);
    AllExpectedSnoc(t.input.lines, x);
    if Expected(x) != [] {
      assert Expected(x) == [Expected(x)[0]];
      FromLinesSnoc(t.out.published, Expected(x)[0]);
    } else {
      assert t.out.published + [] == t.out.published && AllExpected(t.input.lines) + [] == AllExpected(t.input.lines);
    }
  }

  lemma OtherKeepsEchoed(t: Task, next: Task)
    requires Echoed(t) && EchoesNothing(t, next)
    ensures Echoed(next)
  {
    if next.out.published != t.out.published {
      FromLinesSnoc(t.out.published, next.out.published[|t.out.published|]);
    }
  }

  lemma TaskKeepsEchoed(mode: Mode, t: Task, c: Choice, installed: set<string>)
    requires Echoed(t) && TaskStep(mode, t, c, installed).Some?
    ensures Echoed(TaskStep(mode, t, c, installed).value.task)
  {
    if t.at.Streaming? && c.Read? {
      ReadKeepsEchoed(t, c.line, c.lose);
    } else {
      if InSecondPart(t.at) {
        AfterEchoesNothing(mode, t, c);
      } else {
        BeforeEchoesNothing(t, c, installed);
      }
      OtherKeepsEchoed(t, TaskStep(mode, t, c, installed).value.task);
    }
  }

  lemma {:induction false} RunKeepsEchoed(s: State, events: seq<Event>)
    requires Run(s, events).Some? && forall t :: t in s.tasks ==> Echoed(t)
    ensures forall t :: t in Run(s, events).value.tasks ==> Echoed(t)
    decreases |events|
  {
    if events != [] {
      if events[0].Step? {
        TaskKeepsEchoed(s.mode, s.tasks[events[0].n], events[0].c, s.installed);
      }
      RunKeepsEchoed(Next(s, events[0]).value, events[1..]);
    }
  }

  /** In every run, what was published for lines is, in order, one message per text or object line. */
  lemma LinesArePublished(mode: Mode, max: nat, workspaces: set<string>, events: seq<Event>, s: State, n: nat)
    requires Run(Init(mode, max, workspaces), events) == Some(s) && n < |s.tasks|
    ensures FromLines(s.tasks[n].out.published) == AllExpected(s.tasks[n].input.lines)
  {
    RunKeepsEchoed(Init(mode, max, workspaces), events);
    assert s.tasks[n] in s.tasks;
  }

  // ---------- Requirements come first ----------

  /** The event is a failing exit of the n-th task's pip command. */
  predicate PipFails(s: State, e: Event, n: nat) {
    e.Step? && e.n == n && n < |s.tasks| && s.tasks[n].at.PipWait? && e.c == PipExit(false)
  }

  predicate PipFailed(s: State, events: seq<Event>, n: nat)
    decreases |events|
  {
    events != []
    && (PipFails(s, events[0], n)
        || match Next(s, events[0]) case None => false case Some(next) => PipFailed(next, events[1..], n))
  }

  /** Past pip, the packages are installed unless the command has failed. */
  predicate Prepared(s: State, n: nat, failed: bool) {
    n < |s.tasks| && !BeforePip(s.tasks[n].at) && !s.tasks[n].at.PipSpawn? && !s.tasks[n].at.PipWait?
      && (s.tasks[n].at.Over? ==> s.tasks[n].flags.spawned) ==>
      failed || Elements(s.tasks[n].job.packages) <= s.installed
  }

  lemma PipPrepares(s: State, n: nat, c: Choice, failed: bool)
    requires Prepared(s, n, failed) && n < |s.tasks| && Installing(s.tasks[n].at) && KindOk(s.tasks[n])
    requires InstalledOk(s) && Next(s, Step(n, c)).Some?
    ensures Prepared(Next(s, Step(n, c)).value, n, failed || PipFails(s, Step(n, c), n))
  {
    assert CommandOk(s.tasks[n], s.installed);
    assert Elements([]) == {};
    if s.tasks[n].at.Announce? && NotInstalled(s.tasks[n].job.packages, s.installed) == [] {
      NothingMissing(s.tasks[n].job.packages, s.installed);
    }
  }

  lemma NothingMissing(packages: seq<string>, installed: set<string>)
    requires NotInstalled(packages, installed) == []
    ensures Elements(packages) <= installed
  {
    NotInstalledSplits(packages, installed);
    assert Elements(packages) - installed == {};
    forall x | x in Elements(packages) ensures x in installed {
      assert x in Elements(packages) - installed || x in installed;
    }
  }

  lemma OwnStepPrepares(s: State, n: nat, c: Choice, failed: bool)
    requires Prepared(s, n, failed) && n < |s.tasks| && !Installing(s.tasks[n].at)
    requires KindOk(s.tasks[n]) && Next(s, Step(n, c)).Some?
    ensures Prepared(Next(s, Step(n, c)).value, n, failed)
  {
    if s.tasks[n].at.Streaming? && c.Read? {
      ReadOneLine(s.tasks[n], c.line, c.lose);
      assert ReadLine(s.tasks[n], c.line, c.lose).task.flags.spawned == s.tasks[n].flags.spawned;
    }
  }

  lemma StepPrepares(s: State, e: Event, n: nat, failed: bool)
    requires Prepared(s, n, failed) && InstalledOk(s) && Next(s, e).Some?
    requires forall t :: t in s.tasks ==> KindOk(t)
    ensures Prepared(Next(s, e).value, n, failed || PipFails(s, e, n))
  {
    StepKeepsInstalledOk(s, e);
    if e.Step? && e.n == n {
      if Installing(s.tasks[n].at) {
        PipPrepares(s, n, e.c, failed);
      } else {
        OwnStepPrepares(s, n, e.c, failed);
      }
    }
  }

  lemma {:induction false} RunPrepares(s: State, events: seq<Event>, n: nat, failed: bool)
    requires Prepared(s, n, failed) && InstalledOk(s) && Run(s, events).Some?
    requires forall t :: t in s.tasks ==> KindOk(t)
    ensures Prepared(Run(s, events).value, n, failed || PipFailed(s, events, n))
    decreases |events|
  {
    if events != [] {
      StepPrepares(s, events[0], n, failed);
      StepKeepsInstalledOk(s, events[0]);
      RunKeepsKind(s, events[..1]);
      OneEvent(s, events);
      RunPrepares(Next(s, events[0]).value, events[1..], n, failed || PipFails(s, events[0], n));
    }
  }

  lemma OneEvent(s: State, events: seq<Event>)
    requires events != [] && Next(s, events[0]).Some?
    ensures Run(s, events[..1]) == Next(s, events[0])
  {
    assert events[..1][1..] == [];
  }

  /**
   * In every run, whenever a task has its runner spawned, all packages that it declares are
   * installed, or its own pip command has failed.
   */
  lemma InstalledBeforeSpawn(mode: Mode, max: nat, workspaces: set<string>, events: seq<Event>, s: State, n: nat)
    requires Run(Init(mode, max, workspaces), events) == Some(s)
    requires n < |s.tasks| && s.tasks[n].flags.spawned
    ensures Elements(s.tasks[n].job.packages) <= s.installed || PipFailed(Init(mode, max, workspaces), events, n)
  {
    RunPrepares(Init(mode, max, workspaces), events, n, false);
    RunKeepsKind(Init(mode, max, workspaces), events);
    assert KindOk(s.tasks[n]);
  }

  // ---------- Which message ends it ----------

  predicate LastIs(ms: seq<Message>, m: Message) { ms != [] && ms[|ms| - 1] == m }

  /** The error path is for a runner that was not spawned or timed out, the result for any other. */
  predicate KindOk(t: Task) {
    var ran := t.flags.spawned && !t.flags.timedOut;
    match t.at
    case Streaming => ran && t.input.result.None?
    case Reaping => t.flags.spawned && t.input.result.None?
    case Reading => ran && t.input.result.None?
    case StoreResult => ran && t.input.result.Some?
    case PublishDone => ran && t.input.result.Some?
    case PublishError => !ran && t.input.result.None?
    case StoreError => !ran && t.input.result.None? && (!t.flags.lost ==> LastIs(t.out.published, ErrorMessage))
    case Over(end) =>
      end.Completed? ==>
        && (t.input.result.Some? <==> ran)
        && (!t.flags.lost ==> LastIs(t.out.published, if ran then DoneMessage else ErrorMessage))
    case _ => !t.flags.spawned && !t.flags.timedOut && t.input.result.None?
  }

  lemma BeforeKeepsKind(t: Task, c: Choice, installed: set<string>)
    requires KindOk(t) && StepBefore(t, c, installed).Some?
    ensures KindOk(StepBefore(t, c, installed).value.task)
  {}

  lemma ReadKeepsKind(t: Task, line: Line, lose: bool)
    requires KindOk(t) && t.at.Streaming?
    ensures KindOk(ReadLine(t, line, lose).task)
  {}

  lemma AfterKeepsKind(mode: Mode, t: Task, c: Choice)
    requires KindOk(t) && StepAfter(mode, t, c).Some?
    ensures KindOk(StepAfter(mode, t, c).value.task)
  {
    if t.at.Streaming? && c.Read? {
      ReadKeepsKind(t, c.line, c.lose);
    }
  }

  lemma {:induction false} RunKeepsKind(s: State, events: seq<Event>)
    requires Run(s, events).Some? && forall t :: t in s.tasks ==> KindOk(t)
    ensures forall t :: t in Run(s, events).value.tasks ==> KindOk(t)
    decreases |events|
  {
    if events != [] {
      if events[0].Step? {
        var t := s.tasks[events[0].n];
        if InSecondPart(t.at) {
          AfterKeepsKind(s.mode, t, events[0].c);
        } else {
          BeforeKeepsKind(t, events[0].c, s.installed);
        }
      }
      RunKeepsKind(Next(s, events[0]).value, events[1..]);
    }
  }

  /**
   * In every run, a completed task that lost no call ends with "done" and has found a result
   * exactly if its runner was spawned and did not time out; otherwise it ends with "error".
   */
  lemma WhichEnd(mode: Mode, max: nat, workspaces: set<string>, events: seq<Event>, s: State, n: nat)
    requires Run(Init(mode, max, workspaces), events) == Some(s)
    requires n < |s.tasks| && s.tasks[n].at == Over(Completed) && !s.tasks[n].flags.lost
    ensures var t, h := s.tasks[n], Heard(Init(mode, max, workspaces), events, n, NOTHING);
      && (t.input.result.Some? <==> h.spawned && !h.timedOut)
      && LastIs(t.out.published, if h.spawned && !h.timedOut then DoneMessage else ErrorMessage)
  {
    RunKeepsKind(Init(mode, max, workspaces), events);
    assert s.tasks[n] in s.tasks;
    TaskSawTheEvents(mode, max, workspaces, events, s, n);
  }

  // ---------- What counts as lost ----------

  /** Some call of the n-th task fails in this event, other than the spawn of its runner. */
  predicate CallFails(s: State, e: Event, n: nat) {
    e.Step? && e.n == n && n < |s.tasks| && !s.tasks[n].at.Spawning?
    && (e.c in {Fail, FailLate, Lose} || (e.c.Read? && e.c.lose))
  }

  predicate SomeCallFails(s: State, events: seq<Event>, n: nat)
    decreases |events|
  {
    events != []
    && (CallFails(s, events[0], n)
        || match Next(s, events[0]) case None => false case Some(next) => SomeCallFails(next, events[1..], n))
  }

  predicate LostOk(s: State, n: nat, failed: bool) { n < |s.tasks| && s.tasks[n].flags.lost ==> failed }

  lemma ReadLoses(t: Task, line: Line, lose: bool)
    ensures ReadLine(t, line, lose).task.flags.lost ==> t.flags.lost || lose
  {}

  lemma TaskLoses(s: State, n: nat, c: Choice)
    requires n < |s.tasks| && TaskStep(s.mode, s.tasks[n], c, s.installed).Some?
    ensures TaskStep(s.mode, s.tasks[n], c, s.installed).value.task.flags.lost ==>
      s.tasks[n].flags.lost || CallFails(s, Step(n, c), n)
  {
    if s.tasks[n].at.Streaming? && c.Read? {
      ReadLoses(s.tasks[n], c.line, c.lose);
    }
  }

  lemma {:induction false} RunLoses(s: State, events: seq<Event>, n: nat, failed: bool)
    requires LostOk(s, n, failed) && Run(s, events).Some?
    ensures LostOk(Run(s, events).value, n, failed || SomeCallFails(s, events, n))
    decreases |events|
  {
    if events != [] {
      var e := events[0];
      if e.Step? && e.n == n {
        TaskLoses(s, n, e.c);
      }
      RunLoses(Next(s, e).value, events[1..], n, failed || CallFails(s, e, n));
    }
  }

  /** A task counts as having lost a call only if one other than the spawn has failed. */
  lemma LostMeansCallFailed(mode: Mode, max: nat, workspaces: set<string>, events: seq<Event>, s: State, n: nat)
    requires Run(Init(mode, max, workspaces), events) == Some(s) && n < |s.tasks| && s.tasks[n].flags.lost
    ensures SomeCallFails(Init(mode, max, workspaces), events, n)
  {
    RunLoses(Init(mode, max, workspaces), events, n, false);
  }

  /**
   * Hence in every run: a task of a clean payload and clean package names that is over without any
   * failing call but perhaps the spawn, and has read no harmful line and found no harmful result,
   * has delivered.
   */
  lemma DeliveredUnlessCallFails(mode: Mode, max: nat, workspaces: set<string>, events: seq<Event>, s: State, n: nat)
    requires Run(Init(mode, max, workspaces), events) == Some(s) && n < |s.tasks| && s.tasks[n].at.Over?
    requires !SomeCallFails(Init(mode, max, workspaces), events, n)
    ensures Delivered(s.tasks[n]) <==> CleanInput(mode, s.tasks[n])
  {
    if s.tasks[n].flags.lost {
      LostMeansCallFailed(mode, max, workspaces, events, s, n);
    }
    DeliveredExactlyOnCleanInput(mode, max, workspaces, events, s, n);
  }

  // ---------- The two log messages of an install ----------

  function Logged(ms: seq<Message>): nat {
    if ms == [] then 0 else Logged(ms[..|ms| - 1]) + (if ms[|ms| - 1].LogMessage? then 1 else 0)
  }

  lemma LoggedSnoc(ms: seq<Message>, m: Message)
    ensures Logged(ms + [m]) == Logged(ms) + (if m.LogMessage? then 1 else 0)
  {
    assert (ms + [m])[..|ms|] == ms;
  }

  /** The n-th task's pip command exits. */
  predicate PipExits(s: State, e: Event, n: nat) {
    e.Step? && e.n == n && n < |s.tasks| && s.tasks[n].at.PipWait? && e.c.PipExit?
  }

  predicate PipRan(s: State, events: seq<Event>, n: nat)
    decreases |events|
  {
    events != []
    && (PipExits(s, events[0], n)
        || match Next(s, events[0]) case None => false case Some(next) => PipRan(next, events[1..], n))
  }

  /** One message when pip is started, one when it has ended. */
  predicate LogsOk(t: Task, ran: bool) {
    && (BeforePip(t.at) || t.at.PipSpawn? || t.at.PipWait? ==> !ran)
    && (t.at.PipReport? ==> ran)
    && (!t.flags.lost ==>
          Logged(t.out.published)
            == if t.at.PipSpawn? || t.at.PipWait? || t.at.PipReport? || t.at == Over(RaisedBy(BadArgument)) then 1
               else if ran then 2 else 0)
  }

  /** Nothing is published, or no log message. */
  predicate AddsNoLog(ms: seq<Message>, ms': seq<Message>) {
    ms' == ms || (|ms'| == |ms| + 1 && ms' == ms + [ms'[|ms|]] && !ms'[|ms|].LogMessage?)
  }

  lemma NoLogAdded(ms: seq<Message>, ms': seq<Message>)
    requires AddsNoLog(ms, ms')
    ensures Logged(ms') == Logged(ms)
  {
    if ms' != ms {
      LoggedSnoc(ms, ms'[|ms|]);
    }
  }

  lemma SetupKeepsLogs(t: Task, c: Choice, installed: set<string>, ran: bool)
    requires LogsOk(t, ran) && !Installing(t.at) && StepBefore(t, c, installed).Some?
    ensures LogsOk(StepBefore(t, c, installed).value.task, ran)
  {}

  lemma PublishLogs(t: Task, c: Choice)
    ensures c.Lose? ==> Publish(t, LogMessage, c).flags.lost
    ensures !c.Lose? ==>
      && Publish(t, LogMessage, c).flags.lost == t.flags.lost
      && Logged(Publish(t, LogMessage, c).out.published) == Logged(t.out.published) + 1
  {
    LoggedSnoc(t.out.published, LogMessage);
  }

  lemma AnnounceKeepsLogs(t: Task, c: Choice, installed: set<string>, ran: bool)
    requires LogsOk(t, ran) && t.at.Announce? && StepBefore(t, c, installed).Some?
    ensures LogsOk(StepBefore(t, c, installed).value.task, ran)
  {
    PublishLogs(t, c);
  }

  lemma ReportKeepsLogs(t: Task, c: Choice, installed: set<string>, ran: bool)
    requires LogsOk(t, ran) && t.at.PipReport? && StepBefore(t, c, installed).Some?
    ensures LogsOk(StepBefore(t, c, installed).value.task, ran)
  {
    PublishLogs(t, c);
  }

  lemma CommandKeepsLogs(t: Task, c: Choice, installed: set<string>, ran: bool)
    requires LogsOk(t, ran) && (t.at.PipSpawn? || t.at.PipWait?) && StepBefore(t, c, installed).Some?
    ensures LogsOk(StepBefore(t, c, installed).value.task, ran || (t.at.PipWait? && c.PipExit?))
  {}

  lemma PipKeepsLogs(t: Task, c: Choice, installed: set<string>, ran: bool)
    requires LogsOk(t, ran) && Installing(t.at) && StepBefore(t, c, installed).Some?
    ensures LogsOk(StepBefore(t, c, installed).value.task, ran || (t.at.PipWait? && c.PipExit?))
  {
    if t.at.Announce? {
      AnnounceKeepsLogs(t, c, installed, ran);
    } else if t.at.PipReport? {
      ReportKeepsLogs(t, c, installed, ran);
    } else {
      CommandKeepsLogs(t, c, installed, ran);
    }
  }

  lemma BeforeKeepsLogs(t: Task, c: Choice, installed: set<string>, ran: bool)
    requires LogsOk(t, ran) && StepBefore(t, c, installed).Some?
    ensures LogsOk(StepBefore(t, c, installed).value.task, ran || (t.at.PipWait? && c.PipExit?))
  {
    if Installing(t.at) {
      PipKeepsLogs(t, c, installed, ran);
    } else {
      SetupKeepsLogs(t, c, installed, ran);
    }
  }

  lemma ReadAddsNoLog(t: Task, line: Line, lose: bool)
    ensures AddsNoLog(t.out.published, ReadLine(t, line, lose).task.out.published)
  {
    var x := Seen(line, !lose);
    ReadPublishes(t, line, lose);
    assert Expected(x) == [] || Expected(x) == [Expected(x)[0]];
    assert t.out.published + [] == t.out.published;
  }

  lemma OtherAddsNoLog(mode: Mode, t: Task, c: Choice)
    requires InSecondPart(t.at) && StepAfter(mode, t, c).Some? && !(t.at.Streaming? && c.Read?)
    ensures AddsNoLog(t.out.published, StepAfter(mode, t, c).value.task.out.published)
  {}

  /** Past the spawn a task neither goes back to pip nor finds what it has lost. */
  lemma AfterGoesOn(mode: Mode, t: Task, c: Choice)
    requires InSecondPart(t.at) && StepAfter(mode, t, c).Some?
    ensures var next := StepAfter(mode, t, c).value.task;
      && (InSecondPart(next.at) || next.at.Over?) && next.at != Over(RaisedBy(BadArgument))
      && (t.flags.lost ==> next.flags.lost)
  {
    if t.at.Streaming? && c.Read? {
      ReadOneLine(t, c.line, c.lose);
    }
  }

  lemma AfterKeepsLogs(mode: Mode, t: Task, c: Choice, ran: bool)
    requires LogsOk(t, ran) && InSecondPart(t.at) && StepAfter(mode, t, c).Some?
    ensures LogsOk(StepAfter(mode, t, c).value.task, ran)
  {
    if t.at.Streaming? && c.Read? {
      ReadAddsNoLog(t, c.line, c.lose);
    } else {
      OtherAddsNoLog(mode, t, c);
    }
    AfterGoesOn(mode, t, c);
    NoLogAdded(t.out.published, StepAfter(mode, t, c).value.task.out.published);
  }

  predicate TaskLogs(s: State, n: nat, ran: bool) { if n < |s.tasks| then LogsOk(s.tasks[n], ran) else !ran }

  lemma {:induction false} RunKeepsLogged(s: State, events: seq<Event>, n: nat, ran: bool)
    requires TaskLogs(s, n, ran) && Run(s, events).Some?
    ensures TaskLogs(Run(s, events).value, n, ran || PipRan(s, events, n))
    decreases |events|
  {
    if events != [] {
      var e := events[0];
      if e.Step? && e.n == n {
        if InSecondPart(s.tasks[n].at) {
          AfterKeepsLogs(s.mode, s.tasks[n], e.c, ran);
        } else {
          BeforeKeepsLogs(s.tasks[n], e.c, s.installed, ran);
        }
      }
      RunKeepsLogged(Next(s, e).value, events[1..], n, ran || PipExits(s, e, n));
    }
  }

  /** A delivered task that lost no call has logged its install twice if pip ran, and else not at all. */
  lemma InstallIsLogged(mode: Mode, max: nat, workspaces: set<string>, events: seq<Event>, s: State, n: nat)
    requires Run(Init(mode, max, workspaces), events) == Some(s)
    requires n < |s.tasks| && s.tasks[n].at == Over(Completed) && !s.tasks[n].flags.lost
    ensures Logged(s.tasks[n].out.published) == if PipRan(Init(mode, max, workspaces), events, n) then 2 else 0
  {
    RunKeepsLogged(Init(mode, max, workspaces), events, n, false);
  }

  /** A failing call ends the task as raised and gives its permit back, but for the spawn. */
  lemma FailEndsTask(s: State, n: nat)
    requires n < |s.tasks| && s.tasks[n].at in {Setup, Writing, Streaming, StoreError, Reading, StoreResult}
    requires CleanPayload(s.tasks[n].job.payload)
    ensures TaskStep(s.mode, s.tasks[n], Fail, s.installed).Some?
    ensures var e := TaskStep(s.mode, s.tasks[n], Fail, s.installed).value;
      && e.task.at == Over(RaisedBy(InputOutput)) && e.task.flags.lost && e.permit.Release?
      && e.task.out == s.tasks[n].out
  {}
}
