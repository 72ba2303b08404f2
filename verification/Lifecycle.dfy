/**
 * The service lifecycle as steps of concurrent goroutines. Critical sections
 * that do not block are one step each; Stop keeps the lock over many steps,
 * while its dependency goroutines interleave freely.
 */
module Lifecycle {
  import opened Options

  datatype State = Created | Started | Stopped

  /** An integration, known by its name. */
  datatype Integration = Integration(name: string)

  /** An entry of the errors array. */
  type Entry = string

  /** Where the Stop that holds the lock stands; Idle when the lock is free. */
  datatype Phase =
    | Idle
    | StoppingServer
    | Closing(begun: set<nat>, ended: set<nat>)
    | DrainingTracer
    | DrainingLogger
    | SyncingLogger

  /** What the log records; n counts the Stops that passed the state check. */
  datatype Event =
    | ServerStopped(n: nat)
    | CloseBegan(n: nat, dep: nat)
    | CloseEnded(n: nat, dep: nat)
    | TracerDrained(n: nat)
    | LoggerDrained(n: nat)
    | LoggerSynced(n: nat)

  datatype Service = Service(
    state: State,
    server: Option<Integration>,
    deps: seq<Integration>,
    inFlight: set<nat>,
    phase: Phase,
    children: seq<Entry>,
    passed: nat,
    log: seq<Event>)

  const INITIAL := Service(Created, None, [], {}, Idle, [], 0, [])

  datatype Step =
    | Serve(server: Option<Integration>)
    | Attach(dep: Option<Integration>)
    | BeginStart(call: nat)
    | SignalStart(call: nat)
    | FailStart(call: nat)
    | ReadStatus
    | BeginStop
    | StopServer(entries: seq<Entry>)
    | BeginClose(k: nat)
    | EndClose(k: nat, entries: seq<Entry>)
    | CloseAll
    | DrainTracer(entries: seq<Entry>)
    | DrainLogger(entries: seq<Entry>)
    | SyncLogger(entries: seq<Entry>)

  predicate Unlocked(s: Service) {
    s.phase == Idle
  }

  /** A step can happen: it has the lock it needs and its goroutine is there. */
  predicate Enabled(s: Service, step: Step) {
    match step
    case Serve(_) => Unlocked(s)
    case Attach(_) => Unlocked(s)
    case BeginStart(call) => Unlocked(s) && call !in s.inFlight
    case SignalStart(call) => Unlocked(s) && call in s.inFlight
    case FailStart(call) => call in s.inFlight
    case ReadStatus => Unlocked(s)
    case BeginStop => Unlocked(s)
    case StopServer(entries) => s.phase == StoppingServer && (s.server.None? ==> entries == [])
    case BeginClose(k) => s.phase.Closing? && k < |s.deps| && k !in s.phase.begun
    case EndClose(k, _) => s.phase.Closing? && k in s.phase.begun && k !in s.phase.ended
    case CloseAll => s.phase.Closing? && forall k :: 0 <= k < |s.deps| ==> k in s.phase.ended
    case DrainTracer(_) => s.phase == DrainingTracer
    case DrainLogger(_) => s.phase == DrainingLogger
    case SyncLogger(_) => s.phase == SyncingLogger
  }

  predicate Named(i: Option<Integration>) {
    i.Some? && i.value.name != ""
  }

  /** Serve registers a named server once, before any start. */
  predicate Serves(s: Service, server: Option<Integration>) {
    s.state == Created && Named(server) && s.server.None?
  }

  predicate Attaches(s: Service, dep: Option<Integration>) {
    s.state == Created && Named(dep)
  }

  predicate Starts(s: Service) {
    s.state == Created && s.server.Some?
  }

  function Next(s: Service, step: Step): Service
    requires Enabled(s, step)
  {
    match step
    case Serve(server) => if Serves(s, server) then s.(server := server) else s
    case Attach(dep) => if Attaches(s, dep) then s.(deps := s.deps + [dep.value]) else s
    case BeginStart(call) => if Starts(s) then s.(inFlight := s.inFlight + {call}) else s
    case SignalStart(call) => s.(inFlight := s.inFlight - {call}, state := Started)
    case FailStart(call) => s.(inFlight := s.inFlight - {call})
    case ReadStatus => s
    case BeginStop =>
      if s.state == Started then s.(phase := StoppingServer, children := [], passed := s.passed + 1) else s
    case StopServer(entries) =>
      s.(phase := Closing({}, {}), children := s.children + entries, log := s.log + [ServerStopped(s.passed)])
    case BeginClose(k) =>
      s.(phase := Closing(s.phase.begun + {k}, s.phase.ended), log := s.log + [CloseBegan(s.passed, k)])
    case EndClose(k, entries) =>
      s.(phase := Closing(s.phase.begun, s.phase.ended + {k}), children := s.children + entries,
         log := s.log + [CloseEnded(s.passed, k)])
    case CloseAll => s.(phase := DrainingTracer)
    case DrainTracer(entries) =>
      s.(phase := DrainingLogger, children := s.children + entries, log := s.log + [TracerDrained(s.passed)])
    case DrainLogger(entries) =>
      s.(phase := SyncingLogger, children := s.children + entries, log := s.log + [LoggerDrained(s.passed)])
    case SyncLogger(entries) =>
      s.(phase := Idle, children := s.children + entries, log := s.log + [LoggerSynced(s.passed)],
         state := if s.children + entries == [] then Stopped else s.state)
  }

  /** A run: each state follows from the one before by an enabled step. */
  ghost predicate IsRun(states: seq<Service>, steps: seq<Step>) {
    && |states| == |steps| + 1
    && states[0] == INITIAL
    && forall i :: 0 <= i < |steps| ==> Enabled(states[i], steps[i]) && states[i + 1] == Next(states[i], steps[i])
  }

  // ---- The order inside each Stop ----

  /** An event happens once, and only after the events it has to wait for. */
  predicate Justified(before: seq<Event>, e: Event, deps: nat) {
    && e !in before
    && match e
       case ServerStopped(_) => true
       case CloseBegan(n, k) => k < deps && ServerStopped(n) in before
       case CloseEnded(n, k) => CloseBegan(n, k) in before
       case TracerDrained(n) => ServerStopped(n) in before && forall k :: 0 <= k < deps ==> CloseEnded(n, k) in before
       case LoggerDrained(n) => TracerDrained(n) in before
       case LoggerSynced(n) => LoggerDrained(n) in before
  }

  predicate Ordered(log: seq<Event>, deps: nat) {
    log == [] ||
      var n := |log| - 1;
      Ordered(log[..n], deps) && Justified(log[..n], log[n], deps)
  }

  /** How often dependency k was closed. */
  function Closes(log: seq<Event>, k: nat): nat {
    if log == [] then 0
    else
      var e := log[|log| - 1];
      Closes(log[..|log| - 1], k) + if e.CloseEnded? && e.dep == k then 1 else 0
  }

  /** The log has exactly the events of the current Stop that its phase implies. */
  ghost predicate PhaseLogged(s: Service) {
    var n := s.passed;
    && (forall e :: e in s.log ==> 1 <= e.n <= n)
    && (ServerStopped(n) in s.log <==> n > 0 && s.phase != StoppingServer)
    && (TracerDrained(n) in s.log <==> n > 0 && (s.phase == Idle || s.phase == DrainingLogger || s.phase == SyncingLogger))
    && (LoggerDrained(n) in s.log <==> n > 0 && (s.phase == Idle || s.phase == SyncingLogger))
    && (LoggerSynced(n) in s.log <==> n > 0 && s.phase == Idle)
    && (s.phase == StoppingServer ==> forall k: nat :: CloseBegan(n, k) !in s.log && CloseEnded(n, k) !in s.log)
    && (s.phase.Closing? ==>
          && (forall k: nat :: CloseBegan(n, k) in s.log <==> k in s.phase.begun)
          && (forall k: nat :: CloseEnded(n, k) in s.log <==> k in s.phase.ended))
    && (s.phase == DrainingTracer ==> forall k: nat :: k < |s.deps| ==> CloseEnded(n, k) in s.log)
  }

  /** Whether dependency k still waits for its Close in the Stop under way. */
  predicate Pending(s: Service, k: nat) {
    s.phase == StoppingServer || (s.phase.Closing? && k !in s.phase.ended)
  }

  ghost predicate Inv(s: Service) {
    && (s.state == Created ==> s.passed == 0)
    && (s.passed == 0 ==> s.log == [])
    && (s.server.None? ==> s.state == Created && s.inFlight == {})
    && (s.phase != Idle ==> s.state == Started && s.passed > 0)
    && (s.phase.Closing? ==> s.phase.ended <= s.phase.begun)
    && Ordered(s.log, |s.deps|)
    && PhaseLogged(s)
    && forall k: nat :: k < |s.deps| ==> Closes(s.log, k) + (if Pending(s, k) then 1 else 0) == s.passed
  }

  // ---- Every reachable state keeps the invariant ----

  lemma OrderedExtends(log: seq<Event>, e: Event, deps: nat)
    requires Ordered(log, deps) && Justified(log, e, deps)
    ensures Ordered(log + [e], deps)
  {
    assert (log + [e])[..|log|] == log;
  }

  lemma ClosesExtends(log: seq<Event>, e: Event, k: nat)
    ensures Closes(log + [e], k) == Closes(log, k) + if e.CloseEnded? && e.dep == k then 1 else 0
  {
    assert (log + [e])[..|log|] == log;
  }

  lemma RegistrationKeepsInv(s: Service, step: Step)
    requires Inv(s) && Enabled(s, step) && (step.Serve? || step.Attach? || step.ReadStatus?)
    ensures Inv(Next(s, step))
  {
    assert s.state == Created ==> s.log == [];
  }

  lemma StartKeepsInv(s: Service, step: Step)
    requires Inv(s) && Enabled(s, step) && (step.BeginStart? || step.SignalStart? || step.FailStart?)
    ensures Inv(Next(s, step))
  {}

  lemma EventJustified(s: Service, step: Step)
    requires Inv(s) && Enabled(s, step) && |Next(s, step).log| > |s.log|
    ensures Justified(s.log, Next(s, step).log[|s.log|], |s.deps|)
  {
    assert s.passed == 0 ==> s.phase == Idle;
  }

  /** The part of the invariant about the log, after one more event of the current Stop. */
  lemma LogGrows(s: Service, step: Step)
    requires Inv(s) && Enabled(s, step) && |Next(s, step).log| > |s.log|
    ensures
      var t := Next(s, step);
      && Ordered(t.log, |t.deps|)
      && (forall e :: e in t.log <==> e in s.log || e == t.log[|s.log|])
      && forall k: nat :: k < |s.deps| ==> Closes(t.log, k) + (if Pending(t, k) then 1 else 0) == t.passed
  {
    var t := Next(s, step);
    var e := t.log[|s.log|];
    assert t.log == s.log + [e];
    EventJustified(s, step);
    OrderedExtends(s.log, e, |s.deps|);
    forall k: nat | k < |s.deps| ensures Closes(t.log, k) + (if Pending(t, k) then 1 else 0) == t.passed {
      CloseCounted(s, step, k);
    }
  }

  lemma CloseCounted(s: Service, step: Step, k: nat)
    requires Enabled(s, step) && |Next(s, step).log| > |s.log| && k < |s.deps|
    requires s.phase.Closing? ==> s.phase.ended <= s.phase.begun
    ensures
      var t := Next(s, step);
      Closes(t.log, k) + (if Pending(t, k) then 1 else 0)
      == Closes(s.log, k) + if Pending(s, k) then 1 else 0
  {
    var e := Next(s, step).log[|s.log|];
    assert Next(s, step).log == s.log + [e];
    ClosesExtends(s.log, e, k);
  }

  lemma BeginStopKeepsInv(s: Service, step: Step)
    requires Inv(s) && Enabled(s, step) && step.BeginStop?
    ensures Inv(Next(s, step))
  {}

  lemma CloseAllKeepsInv(s: Service, step: Step)
    requires Inv(s) && Enabled(s, step) && step.CloseAll?
    ensures Inv(Next(s, step))
  {}

  lemma StopServerKeepsInv(s: Service, step: Step)
    requires Inv(s) && Enabled(s, step) && step.StopServer?
    ensures Inv(Next(s, step))
  {
    LogGrows(s, step);
  }

  lemma BeginCloseKeepsInv(s: Service, step: Step)
    requires Inv(s) && Enabled(s, step) && step.BeginClose?
    ensures Inv(Next(s, step))
  {
    LogGrows(s, step);
  }

  lemma EndCloseKeepsInv(s: Service, step: Step)
    requires Inv(s) && Enabled(s, step) && step.EndClose?
    ensures Inv(Next(s, step))
  {
    LogGrows(s, step);
  }

  lemma DrainTracerKeepsInv(s: Service, step: Step)
    requires Inv(s) && Enabled(s, step) && step.DrainTracer?
    ensures Inv(Next(s, step))
  {
    LogGrows(s, step);
  }

  lemma DrainLoggerKeepsInv(s: Service, step: Step)
    requires Inv(s) && Enabled(s, step) && step.DrainLogger?
    ensures Inv(Next(s, step))
  {
    LogGrows(s, step);
  }

  lemma SyncLoggerKeepsInv(s: Service, step: Step)
    requires Inv(s) && Enabled(s, step) && step.SyncLogger?
    ensures Inv(Next(s, step))
  {
    LogGrows(s, step);
  }

  lemma StepKeepsInv(s: Service, step: Step)
    requires Inv(s) && Enabled(s, step)
    ensures Inv(Next(s, step))
  {
    match step
    case Serve(_) => RegistrationKeepsInv(s, step);
    case Attach(_) => RegistrationKeepsInv(s, step);
    case ReadStatus => RegistrationKeepsInv(s, step);
    case BeginStart(_) => StartKeepsInv(s, step);
    case SignalStart(_) => StartKeepsInv(s, step);
    case FailStart(_) => StartKeepsInv(s, step);
    case BeginStop => BeginStopKeepsInv(s, step);
    case CloseAll => CloseAllKeepsInv(s, step);
    case StopServer(_) => StopServerKeepsInv(s, step);
    case BeginClose(_) => BeginCloseKeepsInv(s, step);
    case EndClose(_, _) => EndCloseKeepsInv(s, step);
    case DrainTracer(_) => DrainTracerKeepsInv(s, step);
    case DrainLogger(_) => DrainLoggerKeepsInv(s, step);
    case SyncLogger(_) => SyncLoggerKeepsInv(s, step);
  }

  lemma {:induction false} RunKeepsInv(states: seq<Service>, steps: seq<Step>, i: nat)
    requires IsRun(states, steps) && i < |states|
    ensures Inv(states[i])
  {
    if i > 0 {
      RunKeepsInv(states, steps, i - 1);
      StepKeepsInv(states[i - 1], steps[i - 1]);
    }
  }

  lemma StepAt(states: seq<Service>, steps: seq<Step>, i: nat)
    requires IsRun(states, steps) && i < |steps|
    ensures Enabled(states[i], steps[i]) && states[i + 1] == Next(states[i], steps[i])
  {}

  // ---- What every run guarantees ----

  /** Each event of an ordered log waited for what it has to wait for. */
  lemma {:induction false} OrderedAt(log: seq<Event>, deps: nat, i: nat)
    requires Ordered(log, deps) && i < |log|
    ensures Justified(log[..i], log[i], deps)
    decreases |log|
  {
    var n := |log| - 1;
    if i < n {
      OrderedAt(log[..n], deps, i);
      assert log[..n][..i] == log[..i];
    }
  }

  /**
   * In any run and any schedule of the goroutines: no event happens twice, the
   * server stops before any Close begins, every Close ends before the tracer,
   * the tracer before the logger provider, and that before the final sync.
   */
  lemma StopOrder(states: seq<Service>, steps: seq<Step>, i: nat, p: nat)
    requires IsRun(states, steps) && i < |states| && p < |states[i].log|
    ensures Justified(states[i].log[..p], states[i].log[p], |states[i].deps|)
    ensures
      var before, e, deps := states[i].log[..p], states[i].log[p], |states[i].deps|;
      && e !in before
      && (e.CloseBegan? ==> e.dep < deps && ServerStopped(e.n) in before)
      && (e.CloseEnded? ==> CloseBegan(e.n, e.dep) in before)
      && (e.TracerDrained? ==> ServerStopped(e.n) in before && forall k :: 0 <= k < deps ==> CloseEnded(e.n, k) in before)
      && (e.LoggerDrained? ==> TracerDrained(e.n) in before)
      && (e.LoggerSynced? ==> LoggerDrained(e.n) in before)
  {
    RunKeepsInv(states, steps, i);
    OrderedAt(states[i].log, |states[i].deps|, p);
  }

  /**
   * Whenever no Stop is under way, every dependency has been closed exactly as
   * often as a Stop passed the state check; and when it was attached, none had.
   */
  lemma CloseConservation(states: seq<Service>, steps: seq<Step>, i: nat, j: nat, k: nat)
    requires IsRun(states, steps) && i < j < |states|
    requires steps[i].Attach? && Attaches(states[i], steps[i].dep) && k == |states[i].deps|
    requires states[j].phase == Idle
    ensures k < |states[j].deps| && states[j].deps[k] == steps[i].dep.value
    ensures states[i].passed == 0 && Closes(states[j].log, k) == states[j].passed - states[i].passed
  {
    RunKeepsInv(states, steps, i);
    RunKeepsInv(states, steps, j);
    StepAt(states, steps, i);
    DependenciesGrow(states, steps, i + 1, j);
  }

  /** Dependencies are only ever appended. */
  lemma {:induction false} DependenciesGrow(states: seq<Service>, steps: seq<Step>, i: nat, j: nat)
    requires IsRun(states, steps) && i <= j < |states|
    ensures states[i].deps <= states[j].deps
    decreases j
  {
    if i < j {
      DependenciesGrow(states, steps, i, j - 1);
      StepAt(states, steps, j - 1);
    }
  }

  /** A server is never replaced, whatever the schedule. */
  lemma {:induction false} ServerKept(states: seq<Service>, steps: seq<Step>, i: nat, j: nat)
    requires IsRun(states, steps) && i <= j < |states|
    requires states[i].server.Some?
    ensures states[j].server == states[i].server
    decreases j
  {
    if i < j {
      ServerKept(states, steps, i, j - 1);
      StepAt(states, steps, j - 1);
    }
  }

  function Rank(s: State): nat {
    match s case Created => 0 case Started => 1 case Stopped => 2
  }

  /** A Start begins only when no other is in flight. */
  ghost predicate OneStartAtATime(states: seq<Service>, steps: seq<Step>)
    requires |states| == |steps| + 1
  {
    forall i :: 0 <= i < |steps| && steps[i].BeginStart? ==> states[i].inFlight == {}
  }

  /** With one Start at a time, a Start in flight means the service is still only created. */
  lemma {:induction false} InFlightMeansCreated(states: seq<Service>, steps: seq<Step>, i: nat)
    requires IsRun(states, steps) && OneStartAtATime(states, steps) && i < |states|
    ensures states[i].inFlight != {} ==> states[i].state == Created
    ensures forall c, d :: c in states[i].inFlight && d in states[i].inFlight ==> c == d
  {
    if i > 0 {
      InFlightMeansCreated(states, steps, i - 1);
      RunKeepsInv(states, steps, i - 1);
      StepAt(states, steps, i - 1);
    }
  }

  /** With one Start at a time the state never moves backwards. */
  lemma {:induction false} StateNeverMovesBack(states: seq<Service>, steps: seq<Step>, i: nat, j: nat)
    requires IsRun(states, steps) && OneStartAtATime(states, steps) && i <= j < |states|
    ensures Rank(states[i].state) <= Rank(states[j].state)
    decreases j
  {
    if i < j {
      StateNeverMovesBack(states, steps, i, j - 1);
      InFlightMeansCreated(states, steps, j - 1);
      StepAt(states, steps, j - 1);
    }
  }

  /** Every continuation of the run leaves the service stopped. */
  ghost predicate StaysStopped(states: seq<Service>, steps: seq<Step>) {
    forall longer: seq<Service>, more: seq<Step> ::
      IsRun(longer, more) && states <= longer && steps <= more ==> longer[|more|].state == Stopped
  }

  predicate AtRest(s: Service) {
    s.state == Stopped && s.inFlight == {} && s.phase == Idle
  }

  lemma RestStep(s: Service, step: Step)
    requires AtRest(s) && Enabled(s, step)
    ensures AtRest(Next(s, step))
  {}

  lemma {:induction false} RestStays(states: seq<Service>, steps: seq<Step>, i: nat, j: nat)
    requires IsRun(states, steps) && i <= j < |states| && AtRest(states[i])
    ensures AtRest(states[j])
    decreases j
  {
    if i < j {
      RestStays(states, steps, i, j - 1);
      StepAt(states, steps, j - 1);
      RestStep(states[j - 1], steps[j - 1]);
    }
  }

  /** A stopped service stays stopped in every continuation if and only if no Start is still in flight. */
  lemma StaysStoppedIff(states: seq<Service>, steps: seq<Step>)
    requires IsRun(states, steps) && states[|steps|].state == Stopped
    ensures StaysStopped(states, steps) <==> states[|steps|].inFlight == {}
  {
    var s := states[|steps|];
    RunKeepsInv(states, steps, |steps|);
    if s.inFlight == {} {
      forall longer: seq<Service>, more: seq<Step> | IsRun(longer, more) && states <= longer && steps <= more
        ensures longer[|more|].state == Stopped
      {
        assert longer[|steps|] == s;
        RestStays(longer, more, |steps|, |more|);
      }
    } else {
      var call :| call in s.inFlight;
      var longer, more := Extend(states, steps, SignalStart(call));
      assert longer[|more|].state == Started;
    }
  }

  /** Without the premise it happens: two overlapping Starts, a Stop in between, and a stopped service is started again. */
  lemma OverlappingStartsMoveBack() returns (states: seq<Service>, steps: seq<Step>)
    ensures IsRun(states, steps)
    ensures exists i :: 0 <= i < |steps| && states[i].state == Stopped && states[i + 1].state == Started
  {
    states, steps := TwoStarts();
    states, steps := CleanStop(states, steps);
    states, steps := Extend(states, steps, SignalStart(2));
    assert states[|steps| - 1].state == Stopped && states[|steps| - 1 + 1].state == Started;
  }

  lemma TwoStarts() returns (states: seq<Service>, steps: seq<Step>)
    ensures IsRun(states, steps)
    ensures states[|steps|] == Service(Started, Some(Integration("rest")), [], {2}, Idle, [], 0, [])
  {
    var rest := Some(Integration("rest"));
    states, steps := [INITIAL], [];
    states, steps := Extend(states, steps, Serve(rest));
    states, steps := Extend(states, steps, BeginStart(1));
    states, steps := Extend(states, steps, BeginStart(2));
    states, steps := Extend(states, steps, SignalStart(1));
    assert {1, 2} - {1} == {2};
  }

  lemma CleanStop(states: seq<Service>, steps: seq<Step>) returns (states': seq<Service>, steps': seq<Step>)
    requires IsRun(states, steps)
    requires states[|steps|].state == Started && states[|steps|].phase == Idle && states[|steps|].deps == []
    ensures IsRun(states', steps') && states'[|steps'|].inFlight == states[|steps|].inFlight
    ensures states'[|steps'|].state == Stopped && states'[|steps'|].phase == Idle
  {
    states', steps' := Extend(states, steps, BeginStop);
    states', steps' := Extend(states', steps', StopServer([]));
    states', steps' := Extend(states', steps', CloseAll);
    states', steps' := Extend(states', steps', DrainTracer([]));
    states', steps' := Extend(states', steps', DrainLogger([]));
    states', steps' := Extend(states', steps', SyncLogger([]));
  }

  lemma Extend(states: seq<Service>, steps: seq<Step>, step: Step) returns (states': seq<Service>, steps': seq<Step>)
    requires IsRun(states, steps) && Enabled(states[|steps|], step)
    ensures steps' == steps + [step] && states' == states + [Next(states[|steps|], step)]
    ensures IsRun(states', steps')
  {
    states', steps' := states + [Next(states[|steps|], step)], steps + [step];
  }

  /** The entries a step contributes to the Stop under way. */
  function Entries(step: Step): seq<Entry> {
    match step
    case StopServer(entries) => entries
    case EndClose(_, entries) => entries
    case DrainTracer(entries) => entries
    case DrainLogger(entries) => entries
    case SyncLogger(entries) => entries
    case _ => []
  }

  function AllEntries(steps: seq<Step>): seq<Entry> {
    if steps == [] then [] else AllEntries(steps[..|steps| - 1]) + Entries(steps[|steps| - 1])
  }

  /** During one Stop nothing that a component contributes is lost or made up. */
  lemma {:induction false} ChildrenAreContributions(states: seq<Service>, steps: seq<Step>, i: nat, j: nat)
    requires IsRun(states, steps) && i < j < |states|
    requires steps[i].BeginStop? && states[i].state == Started
    requires forall k :: i < k < j ==> states[k].phase != Idle
    ensures states[j].children == AllEntries(steps[i + 1..j])
    decreases j
  {
    StepAt(states, steps, j - 1);
    if j == i + 1 {
      assert steps[i + 1..j] == [];
    } else {
      assert states[j].children == AllEntries(steps[i + 1..j - 1]) + Entries(steps[j - 1]) by {
        ChildrenAreContributions(states, steps, i, j - 1);
        StepContributes(states[j - 1], steps[j - 1]);
      }
      LastOfSegment(steps, i + 1, j);
    }
  }

  lemma StepContributes(s: Service, step: Step)
    requires Enabled(s, step) && s.phase != Idle
    ensures Next(s, step).children == s.children + Entries(step)
  {}

  lemma LastOfSegment(steps: seq<Step>, i: nat, j: nat)
    requires i < j <= |steps|
    ensures AllEntries(steps[i..j]) == AllEntries(steps[i..j - 1]) + Entries(steps[j - 1])
  {
    assert steps[i..j][..j - 1 - i] == steps[i..j - 1];
  }

  /** Stopped is reached only at the end of a Stop in which no component contributed an entry. */
  lemma StoppedOnlyWhenClean(states: seq<Service>, steps: seq<Step>, i: nat, j: nat)
    requires IsRun(states, steps) && i < j < |states|
    requires steps[i].BeginStop? && states[i].state == Started
    requires forall k :: i < k < j ==> states[k].phase != Idle
    requires states[j].phase == Idle
    ensures states[j].state == Stopped <==> AllEntries(steps[i + 1..j]) == []
    ensures states[j].state != Stopped ==> states[j].state == Started
  {
    ChildrenAreContributions(states, steps, i, j);
    StepAt(states, steps, i);
    StepAt(states, steps, j - 1);
    RunKeepsInv(states, steps, j - 1);
    EndOfStop(states[j - 1], steps[j - 1]);
  }

  lemma EndOfStop(s: Service, step: Step)
    requires Inv(s) && Enabled(s, step) && s.phase != Idle && Next(s, step).phase == Idle
    ensures Next(s, step).state == if Next(s, step).children == [] then Stopped else Started
  {}

  lemma OnlyStopStops(s: Service, step: Step)
    requires Inv(s) && Enabled(s, step) && s.state != Stopped
    ensures Next(s, step).state == Stopped <==> step.SyncLogger? && s.children + step.entries == []
  {}
}
