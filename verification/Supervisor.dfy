/**
 The supervisor of one proof process, as a step system: its polling loop, the escalation from a
 termination signal to SIGKILL, the atomic publication of a report, and signals that may arrive
 between any two statements while its handlers are installed.
 */
module Supervisor {
  import opened Common

  const SIGINT := 2
  const SIGKILL := 9
  const SIGTERM := 15

  /** `minStep` and `maxStep` bound the time between two clock readings of the loop. */
  datatype Config = Config(timeout: real, grace: real, minStep: real, maxStep: real)

  ghost predicate ConfigOk(c: Config) {
    c.timeout > 0.0 && c.grace > 0.0 && 0.0 < c.minStep <= c.maxStep
  }

  datatype Outcome = Running | Success | ChildFailed | Timeout | Abandoned | Cancelled | CleanupIncomplete

  datatype Report = Report(
    outcome: Outcome, exitStatus: int, childRc: Option<int>, cancel: Option<int>, forcedKill: bool, cleanup: bool)

  datatype Exit = Return(code: int) | Raise

  /**
   The statement about to run; `Unwind` is the inner `finally`, `Guard` the outer `except`. The guard is
   `armed` when an exception cut the `finally` short, before the handlers were restored.
   */
  datatype Pc =
    | Spawn | Poll | Classify | Terminate | Escalate | GiveUp
    | MarkPublishing | Status | WriteTemp | Replace | Announce
    | Unwind(exit: Exit) | Restore(exit: Exit) | Guard(exit: Exit, armed: bool) | Done(exit: Exit)

  /** The loop's clock readings. */
  datatype Clock = Clock(started: real, now: real, polls: nat)

  /** What the loop knows of the child. */
  datatype Watch = Watch(outcome: Outcome, childRc: Option<int>, groupAlive: bool, cleanup: bool)

  datatype Kill = Kill(time: real, signal: int)

  /** What the loop has sent to the process group, and when. */
  datatype Force = Force(termination: Option<real>, kill: Option<real>, forcedKill: bool, kills: seq<Kill>)

  /** The publication of the result; `report` is the file. */
  datatype Desk = Desk(publishing: bool, exitStatus: int, pending: Option<Report>, report: Option<Report>)

  /** What is the case outside the supervisor. */
  datatype World = World(childExited: Option<int>, groupDead: bool)

  datatype State = State(pc: Pc, clock: Clock, watch: Watch, force: Force, cancel: Option<int>, desk: Desk,
                         world: World)

  datatype Event =
    | ChildExits(code: int)
    | GroupDies
    | Signal(signum: int)
    | Fails
    | Tick(now: real, reap: bool)
    | Goes

  /** After the stale report is unlinked and the handlers are installed. */
  function Initial(started: real): State {
    State(Spawn, Clock(started, started, 0), Watch(Running, None, true, false), Force(None, None, false, []), None,
          Desk(false, 0, None, None), World(None, false))
  }

  predicate HandlersInstalled(pc: Pc) { !pc.Restore? && (pc.Guard? ==> pc.armed) && !pc.Done? }

  /** Every statement can raise, those of the `finally` included; the guard itself only unlinks. */
  predicate MayFail(pc: Pc) { !pc.Guard? && !pc.Done? }

  /** Where an exception goes from a statement. */
  function Raised(pc: Pc): Pc {
    if pc.Guard? then Done(Raise) else if pc.Unwind? || pc.Restore? then Guard(Raise, pc.Unwind?) else Unwind(Raise)
  }

  predicate Enabled(c: Config, s: State, e: Event) {
    match e
    case ChildExits(_) => s.pc != Spawn && s.world.childExited.None?
    case GroupDies => s.world.childExited.Some? && !s.world.groupDead
    case Signal(n) => HandlersInstalled(s.pc) && Polite(n)
    case Fails => MayFail(s.pc)
    case Tick(t, reap) =>
      && s.pc == Poll && s.clock.now <= t <= s.clock.now + c.maxStep
      && (s.clock.polls > 0 ==> s.clock.now + c.minStep <= t)
      && (reap ==> s.world.childExited.Some?)
    case Goes => s.pc != Poll && !s.pc.Done?
  }

  predicate Polite(signal: int) { signal == SIGTERM || signal == SIGINT }

  /** The signal handler: remember the first signal; once publication has begun, withdraw the report and raise. */
  function OnSignal(s: State, n: int): State {
    var noted := s.(cancel := if s.cancel.None? then Some(n) else s.cancel);
    if s.desk.publishing then
      noted.(desk := s.desk.(report := None), pc := Raised(s.pc))
    else noted
  }

  predicate TimedOut(c: Config, k: Clock) { k.now - k.started >= c.timeout }

  predicate Finished(w: Watch) { w.childRc.Some? && !w.groupAlive }

  /** Lines 117-126: name the trouble, if any, and leave the loop when the child and its group are gone. */
  function Classified(c: Config, k: Clock, cancel: Option<int>, w: Watch): Watch {
    var outcome :=
      if cancel.Some? then Cancelled
      else if w.outcome == Running && TimedOut(c, k) then Timeout
      else w.outcome;
    if Finished(w) then
      w.(cleanup := true,
         outcome := if outcome != Running then outcome else if w.childRc.value == 0 then Success else ChildFailed)
    else w.(outcome := outcome)
  }

  function AbandonedCheck(w: Watch): Watch {
    if w.outcome == Running && w.childRc.Some? then w.(outcome := Abandoned) else w
  }

  function Terminated(now: real, cancel: Option<int>, outcome: Outcome, f: Force): Force {
    if outcome != Running && f.termination.None? then
      f.(termination := Some(now), kills := f.kills + [Kill(now, if cancel.Some? then cancel.value else SIGTERM)])
    else f
  }

  function Escalated(c: Config, now: real, f: Force): Force {
    if f.termination.Some? && f.kill.None? && now - f.termination.value >= c.grace then
      f.(forcedKill := true, kill := Some(now), kills := f.kills + [Kill(now, SIGKILL)])
    else f
  }

  predicate GivesUp(c: Config, now: real, f: Force) { f.kill.Some? && now - f.kill.value >= c.grace }

  /** Lines 147-157. */
  function ExitStatus(cancel: Option<int>, w: Watch): int {
    if cancel.Some? then 128 + cancel.value
    else if w.outcome == Timeout then 124
    else if w.outcome == Abandoned || w.outcome == CleanupIncomplete then 125
    else if w.childRc.None? then 125
    else if w.childRc.value >= 0 then w.childRc.value
    else 128 - w.childRc.value
  }

  function LoopStep(c: Config, s: State): State {
    match s.pc
    case Classify =>
      s.(watch := Classified(c, s.clock, s.cancel, s.watch),
         pc := if Finished(s.watch) then MarkPublishing else Terminate)
    case Terminate =>
      var w := AbandonedCheck(s.watch);
      s.(watch := w, force := Terminated(s.clock.now, s.cancel, w.outcome, s.force), pc := Escalate)
    case Escalate => s.(force := Escalated(c, s.clock.now, s.force), pc := GiveUp)
    case GiveUp =>
      if GivesUp(c, s.clock.now, s.force) then s.(watch := s.watch.(outcome := CleanupIncomplete), pc := MarkPublishing)
      else s.(pc := Poll)
    case _ => s.(pc := Poll)
  }

  function PublishStep(s: State): State {
    match s.pc
    case MarkPublishing => s.(desk := s.desk.(publishing := true), pc := Status)
    case Status =>
      s.(watch := if s.cancel.Some? then s.watch.(outcome := Cancelled) else s.watch,
         desk := s.desk.(exitStatus := ExitStatus(s.cancel, s.watch)), pc := WriteTemp)
    case WriteTemp =>
      var report := Report(s.watch.outcome, s.desk.exitStatus, s.watch.childRc, s.cancel, s.force.forcedKill,
          s.watch.cleanup);
      s.(desk := s.desk.(pending := Some(report)), pc := Replace)
    case Replace => s.(desk := s.desk.(report := s.desk.pending), pc := Announce)
    case _ => s.(pc := Unwind(Return(s.desk.exitStatus)))
  }

  function LeaveStep(s: State): State
    requires Leaving(s.pc)
  {
    match s.pc
    case Unwind(x) => s.(pc := Restore(x))
    case Restore(x) => s.(pc := Guard(x, false))
    case Guard(x, _) => s.(desk := if x == Raise then s.desk.(report := None) else s.desk, pc := Done(x))
    case Done(_) => s
  }

  predicate Looping(pc: Pc) {
    pc == Spawn || pc == Poll || pc == Classify || pc == Terminate || pc == Escalate || pc == GiveUp
  }

  predicate Publishing(pc: Pc) { pc == Status || pc == WriteTemp || pc == Replace || pc == Announce }

  predicate Leaving(pc: Pc) { pc.Unwind? || pc.Restore? || pc.Guard? || pc.Done? }

  function GoStep(c: Config, s: State): State {
    if Leaving(s.pc) then LeaveStep(s) else if Looping(s.pc) then LoopStep(c, s) else PublishStep(s)
  }

  function Step(c: Config, s: State, e: Event): State {
    match e
    case ChildExits(code) => s.(world := s.world.(childExited := Some(code)))
    case GroupDies => s.(world := s.world.(groupDead := true))
    case Signal(n) => OnSignal(s, n)
    case Fails => s.(pc := Raised(s.pc))
    case Tick(t, reap) =>
      s.(clock := Clock(s.clock.started, t, s.clock.polls + 1), pc := Classify,
         watch := s.watch.(groupAlive := !s.world.groupDead,
                           childRc := if reap then s.world.childExited else s.watch.childRc))
    case Goes => GoStep(c, s)
  }

  // ---- Runs ----

  ghost predicate ValidRun(c: Config, s: State, es: seq<Event>)
    decreases |es|
  {
    es == [] || (Enabled(c, s, es[0]) && ValidRun(c, Step(c, s, es[0]), es[1..]))
  }

  function After(c: Config, s: State, es: seq<Event>): State
    decreases |es|
  {
    if es == [] then s else After(c, Step(c, s, es[0]), es[1..])
  }

  // ---- What every state of every run satisfies ----

  /** Observations are true of the outside. */
  ghost predicate Truthful(s: State) {
    && (s.watch.childRc.Some? ==> s.world.childExited == s.watch.childRc)
    && (!s.watch.groupAlive ==> s.world.groupDead)
    && (s.cancel.Some? ==> Polite(s.cancel.value))
  }

  /** The child succeeded, its group is gone, and nothing went wrong on the way. */
  ghost predicate Green(s: State) {
    && s.world == World(Some(0), true)
    && s.watch.outcome == Success && s.watch.cleanup
    && s.cancel.None?
    && s.force == Force(None, None, false, [])
  }

  /** What each outcome stands for. */
  ghost predicate Meaningful(s: State) {
    && (s.watch.outcome == Running || s.watch.outcome == Success ==> s.force == Force(None, None, false, []))
    && (s.watch.outcome == Running ==> !s.desk.publishing && s.pc != MarkPublishing)
    && (s.watch.outcome == Success ==> s.watch.childRc == Some(0) && !s.watch.groupAlive && s.watch.cleanup)
    && (s.watch.outcome == ChildFailed ==> s.watch.childRc.Some? && s.watch.childRc.value != 0)
    && (s.watch.outcome == Success || s.watch.outcome == ChildFailed ==> !Looping(s.pc))
    && (s.watch.outcome == Cancelled ==> s.cancel.Some?)
  }

  /** How far publication has got, and that a zero status stands for a green run at every point of it. */
  ghost predicate Published(s: State) {
    && (Publishing(s.pc) ==> s.desk.publishing)
    && (s.desk.publishing ==> Publishing(s.pc) || Leaving(s.pc))
    && (s.pc == WriteTemp || s.pc == Replace || s.pc == Announce ==> s.desk.exitStatus == 0 ==> Green(s))
    && (s.pc == Replace ==> s.desk.pending.Some? && s.desk.pending.value.exitStatus == s.desk.exitStatus)
    && (s.pc == Announce ==> s.desk.report.Some? && s.desk.report.value.exitStatus == s.desk.exitStatus)
    && (s.desk.report.Some? ==> s.desk.publishing && (s.pc == Announce || Leaving(s.pc)))
    && (s.desk.report.Some? && s.desk.report.value.exitStatus == 0 ==> Green(s))
    && (Leaving(s.pc) && s.pc.exit.Return? ==> s.desk.report.Some? && s.desk.report.value.exitStatus == s.pc.exit.code)
    && (s.pc == Done(Raise) ==> s.desk.report.None?)
    && (s.pc.Guard? && s.pc.armed ==> s.pc.exit == Raise)
  }

  ghost predicate Safe(s: State) { Truthful(s) && Meaningful(s) && Published(s) }

  lemma {:induction false} SafeLoop(c: Config, s: State)
    requires Safe(s) && Looping(s.pc)
    ensures Safe(LoopStep(c, s))
  {
  }

  lemma {:induction false} SafePublish(s: State)
    requires Safe(s) && (s.pc == MarkPublishing || Publishing(s.pc))
    ensures Safe(PublishStep(s))
  {
  }

  lemma {:induction false} SafeLeave(s: State)
    requires Safe(s) && Leaving(s.pc)
    ensures Safe(LeaveStep(s))
  {
  }

  lemma {:induction false} SafeStep(c: Config, s: State, e: Event)
    requires Safe(s) && Enabled(c, s, e)
    ensures Safe(Step(c, s, e))
  {
    if e == Goes {
      if Leaving(s.pc) { SafeLeave(s); } else if Looping(s.pc) { SafeLoop(c, s); } else { SafePublish(s); }
    }
  }

  lemma {:induction false} SafeRun(c: Config, s: State, es: seq<Event>)
    requires Safe(s) && ValidRun(c, s, es)
    ensures Safe(After(c, s, es))
    decreases |es|
  {
    if es != [] {
      SafeStep(c, s, es[0]);
      SafeRun(c, Step(c, s, es[0]), es[1..]);
    }
  }

  /**
   At every moment of every run, a report on disk with exit status 0, or a returned 0, means that the
   child exited 0, its group is dead, and no timeout, abandoned descendant, forced kill or
   cancellation was seen; and a run that ends in an exception leaves no report.
   */
  lemma {:induction false} GreenReportsAreTrue(c: Config, started: real, es: seq<Event>)
    requires ValidRun(c, Initial(started), es)
    ensures var s := After(c, Initial(started), es);
            && (s.desk.report.Some? && s.desk.report.value.exitStatus == 0 ==> Green(s))
            && (s.pc == Done(Return(0)) ==> Green(s) && s.desk.report.Some? && s.desk.report.value.exitStatus == 0)
            && (s.pc == Done(Raise) ==> s.desk.report.None?)
  {
    SafeRun(c, Initial(started), es);
  }

  // ---- Trouble is final ----

  /** Anything but still running or success. */
  predicate Troubled(w: Watch) { w.outcome != Running && w.outcome != Success }

  lemma {:induction false} TroubledStep(c: Config, s: State, e: Event)
    requires Troubled(s.watch)
    ensures Troubled(Step(c, s, e).watch)
  {
  }

  /** An outcome that has left `Running` for anything but success never becomes success, and never exits 0. */
  lemma {:induction false} TroubleStays(c: Config, s: State, es: seq<Event>)
    requires Safe(s) && Troubled(s.watch) && ValidRun(c, s, es)
    ensures Troubled(After(c, s, es).watch)
    ensures After(c, s, es).pc != Done(Return(0))
    decreases |es|
  {
    SafeRun(c, s, es);
    if es != [] {
      SafeStep(c, s, es[0]);
      TroubledStep(c, s, es[0]);
      TroubleStays(c, Step(c, s, es[0]), es[1..]);
    }
  }

  // ---- Signals sent to the group ----

  /** First one termination signal, then at most one SIGKILL, a full grace period later. */
  predicate KillsInOrder(c: Config, f: Force) {
    match (f.termination, f.kill)
    case (None, None) => f.kills == []
    case (None, Some(_)) => false
    case (Some(t), None) => |f.kills| == 1 && f.kills[0].time == t && Polite(f.kills[0].signal)
    case (Some(t), Some(k)) =>
      && |f.kills| == 2 && f.kills[0].time == t && Polite(f.kills[0].signal)
      && f.kills[1] == Kill(k, SIGKILL) && k - t >= c.grace
  }

  ghost predicate Disciplined(c: Config, s: State) {
    KillsInOrder(c, s.force) && (s.cancel.Some? ==> Polite(s.cancel.value))
  }

  lemma {:induction false} DisciplinedStep(c: Config, s: State, e: Event)
    requires Disciplined(c, s) && Enabled(c, s, e)
    ensures Disciplined(c, Step(c, s, e))
  {
  }

  lemma {:induction false} DisciplinedRun(c: Config, s: State, es: seq<Event>)
    requires Disciplined(c, s) && ValidRun(c, s, es)
    ensures Disciplined(c, After(c, s, es))
    decreases |es|
  {
    if es != [] {
      DisciplinedStep(c, s, es[0]);
      DisciplinedRun(c, Step(c, s, es[0]), es[1..]);
    }
  }

  /** In every run the loop sends SIGKILL at most once, at least one grace period after its first signal. */
  lemma {:induction false} KillEscalation(c: Config, started: real, es: seq<Event>)
    requires ValidRun(c, Initial(started), es)
    ensures var kills := After(c, Initial(started), es).force.kills;
            && |kills| <= 2
            && (|kills| >= 1 ==> kills[0].signal != SIGKILL)
            && (|kills| == 2 ==> kills[1].signal == SIGKILL && kills[1].time - kills[0].time >= c.grace)
  {
    DisciplinedRun(c, Initial(started), es);
  }

  // ---- How long the loop can take ----

  /** Trouble is noticed one step late at most, and the first grace period is overrun by one step at most. */
  ghost predicate OnSchedule(c: Config, k: Clock, f: Force) {
    && (f.termination.Some? ==> f.termination.value < k.started + c.timeout + c.maxStep)
    && (f.kill.Some? ==> f.termination.Some? && f.kill.value < f.termination.value + c.grace + c.maxStep)
  }

  /** The latest reading is at most `slack` past the point where the loop acts next. */
  ghost predicate Prompt(c: Config, k: Clock, f: Force, slack: real) {
    if f.kill.Some? then k.now < f.kill.value + c.grace + slack
    else if f.termination.Some? then k.now < f.termination.value + c.grace + slack
    else k.now < k.started + c.timeout + slack
  }

  ghost predicate Paced(c: Config, k: Clock) {
    if k.polls == 0 then k.now == k.started else (k.polls - 1) as real * c.minStep <= k.now - k.started
  }

  ghost predicate Timely(c: Config, s: State) {
    && OnSchedule(c, s.clock, s.force) && Paced(c, s.clock) && Prompt(c, s.clock, s.force, c.maxStep)
    && (s.pc == Spawn || s.pc == Poll ==> Prompt(c, s.clock, s.force, 0.0))
    && (Looping(s.pc) && s.force.termination.Some? ==> s.watch.outcome != Running)
    && (s.pc == Terminate && s.watch.outcome == Running ==> Prompt(c, s.clock, s.force, 0.0))
    && (s.pc == Escalate && s.force.termination.None? ==> Prompt(c, s.clock, s.force, 0.0))
    && (s.pc == GiveUp && s.force.kill.None? ==> Prompt(c, s.clock, s.force, 0.0))
  }

  lemma {:induction false} TimelyTick(c: Config, s: State, t: real, reap: bool)
    requires ConfigOk(c) && Timely(c, s) && Enabled(c, s, Tick(t, reap))
    ensures Timely(c, Step(c, s, Tick(t, reap)))
  {
    if s.clock.polls > 0 {
      assert s.clock.polls as real * c.minStep == (s.clock.polls - 1) as real * c.minStep + c.minStep;
    }
  }

  lemma {:induction false} TimelyLoop(c: Config, s: State)
    requires ConfigOk(c) && Timely(c, s) && Looping(s.pc)
    ensures Timely(c, LoopStep(c, s))
  {
  }

  lemma {:induction false} TimelyStep(c: Config, s: State, e: Event)
    requires ConfigOk(c) && Timely(c, s) && Enabled(c, s, e)
    ensures Timely(c, Step(c, s, e))
  {
    match e
    case Tick(t, reap) => TimelyTick(c, s, t, reap);
    case Goes => if !Leaving(s.pc) && Looping(s.pc) { TimelyLoop(c, s); }
    case _ =>
  }

  lemma {:induction false} TimelyRun(c: Config, s: State, es: seq<Event>)
    requires ConfigOk(c) && Timely(c, s) && ValidRun(c, s, es)
    ensures Timely(c, After(c, s, es)) && After(c, s, es).clock.started == s.clock.started
    decreases |es|
  {
    if es != [] {
      TimelyStep(c, s, es[0]);
      TimelyRun(c, Step(c, s, es[0]), es[1..]);
    }
  }

  /**
   Whatever the child does: no clock reading of the loop is later than the timeout, two grace periods
   and three loop steps after the start, so the number of iterations is bounded too.
   */
  lemma {:induction false} LoopIsBounded(c: Config, started: real, es: seq<Event>)
    requires ConfigOk(c) && ValidRun(c, Initial(started), es)
    ensures var k := After(c, Initial(started), es).clock;
            && k.now < started + c.timeout + 2.0 * c.grace + 3.0 * c.maxStep
            && (k.polls > 0 ==> (k.polls - 1) as real * c.minStep < c.timeout + 2.0 * c.grace + 3.0 * c.maxStep)
  {
    TimelyRun(c, Initial(started), es);
  }
}
