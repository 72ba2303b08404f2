/**
 * The service as an object: its methods under the lock, each tied to the steps
 * of the lifecycle that it performs.
 */
module ServiceObject {
  import opened Options
  import opened Lifecycle
  import opened Sequences
  import opened Gathering
  import Health

  const NOT_STARTED := "Service has not been started yet"
  const ALREADY_STARTED := "Service has already been started"
  const ALREADY_STOPPED := "Service has already been stopped"
  const STOP_FAILED := "Failed to gracefully close Service's connections"
  const NOT_HEALTHY := "Service is not in a healthy state"
  const SERVE_REFUSED := "Failed to register server integration"
  const ATTACH_REFUSED := "Failed to attach dependency integration"
  const START_REFUSED := "Failed to initialize Service"
  const NOT_SET := "Must be set"
  const START_FAILED := "Failed to start server"
  const TRACER_FAILED := "Failed to gracefully drain/close tracer"
  const PROVIDER_FAILED := "Failed to gracefully drain/close logger provider"
  const LOGGER_FAILED := "Failed to gracefully drain/close logger"

  datatype SyncResult = Synced | NotATerminal | SyncFailed

  /** What the actual state says to an operation that expected another one. */
  function Mismatch(s: State): Entry {
    match s case Created => NOT_STARTED case Started => ALREADY_STARTED case Stopped => ALREADY_STOPPED
  }

  function Taken(name: string): Entry {
    "Must be unique; " + name + " is already registered"
  }

  function When(fails: bool, message: string): seq<Entry> {
    if fails then [message] else []
  }

  /** The steps can be performed one after the other from s, and lead to the result. */
  function Exec(s: Service, steps: seq<Step>): Option<Service> {
    if steps == [] then Some(s)
    else
      var n := |steps| - 1;
      match Exec(s, steps[..n])
      case None => None
      case Some(t) => if Enabled(t, steps[n]) then Some(Next(t, steps[n])) else None
  }

  lemma ExecStep(s: Service, steps: seq<Step>, t: Service, step: Step)
    requires Exec(s, steps) == Some(t) && Enabled(t, step)
    ensures Exec(s, steps + [step]) == Some(Next(t, step))
    ensures AllEntries(steps + [step]) == AllEntries(steps) + Entries(step)
  {
    assert (steps + [step])[..|steps|] == steps;
  }

  lemma ExecOne(s: Service, step: Step)
    requires Enabled(s, step)
    ensures Exec(s, [step]) == Some(Next(s, step)) && AllEntries([step]) == Entries(step)
  {
    ExecStep(s, [], s, step);
    assert [] + [step] == [step];
  }

  lemma BeginStopPerformed(s: Service)
    requires Unlocked(s) && s.state == Started
    ensures Performed(s, [BeginStop], Next(s, BeginStop))
  {
    ExecOne(s, BeginStop);
  }

  /** What an object does continues the run that led to it, so every theorem about runs applies. */
  lemma {:induction false} ExecContinuesRun(states: seq<Service>, done: seq<Step>, steps: seq<Step>, t: Service)
    returns (longer: seq<Service>)
    requires IsRun(states, done) && Exec(states[|done|], steps) == Some(t)
    ensures IsRun(longer, done + steps) && longer[|done + steps|] == t && states <= longer
    decreases |steps|
  {
    if steps == [] {
      longer := states;
      assert done + steps == done;
    } else {
      var n := |steps| - 1;
      longer := ExecContinuesRun(states, done, steps[..n], Exec(states[|done|], steps[..n]).value);
      var all;
      longer, all := Extend(longer, done + steps[..n], steps[n]);
      assert all == done + steps;
    }
  }

  /** Whatever an object does keeps the invariant that its history has. */
  lemma {:induction false} ExecKeepsInv(s: Service, steps: seq<Step>, t: Service)
    requires Inv(s) && Exec(s, steps) == Some(t)
    ensures Inv(t)
    decreases |steps|
  {
    if steps != [] {
      var n := |steps| - 1;
      var m := Exec(s, steps[..n]).value;
      ExecKeepsInv(s, steps[..n], m);
      StepKeepsInv(m, steps[n]);
    }
  }

  /** The steps lead from s to t, and t holds what they contributed. */
  ghost predicate Performed(s: Service, steps: seq<Step>, t: Service) {
    Exec(s, steps) == Some(t) && AllEntries(steps) == t.children
  }

  lemma OneMore(s: Service, steps: seq<Step>, t: Service, step: Step) returns (longer: seq<Step>)
    requires Performed(s, steps, t) && Enabled(t, step) && t.phase != Idle
    ensures longer == steps + [step] && Performed(s, longer, Next(t, step))
  {
    longer := steps + [step];
    ExecStep(s, steps, t, step);
    StepContributes(t, step);
  }

  /** One step inside a Stop moves its phase and adds entries, and nothing else that the object can see. */
  predicate Advanced(s: Service, t: Service, phase: Phase, entries: seq<Entry>) {
    && t.phase == phase && t.children == s.children + entries
    && t.state == s.state && t.server == s.server && t.deps == s.deps && t.passed == s.passed
  }

  lemma StepAdvances(s: Service, step: Step)
    requires Enabled(s, step) && s.phase != Idle && Next(s, step).phase != Idle
    ensures Advanced(s, Next(s, step), Next(s, step).phase, Entries(step))
  {}

  lemma CollectedInOrder(before: seq<Entry>, closed: seq<Entry>, entries: seq<Entry>)
    ensures before + closed + entries == before + (closed + entries)
    ensures multiset(closed + entries) == multiset(closed) + multiset(entries)
  {}

  class ServiceObject {
    var state: State
    var server: Option<Integration>
    var dependencies: seq<Integration>
    ghost var model: Service

    ghost predicate Valid()
      reads this
    {
      model.state == state && model.server == server && model.deps == dependencies
    }

    constructor ()
      ensures Valid() && model == INITIAL
    {
      state, server, dependencies := Created, None, [];
      model := INITIAL;
    }

    method RequireState(expected: State) returns (err: Option<Entry>)
      ensures err.None? <==> state == expected
      ensures err.Some? ==> err.value == Mismatch(state)
      ensures err.Some? && state == Created ==> err.value == "Service has not been started yet"
      ensures err.Some? && state == Started ==> err.value == "Service has already been started"
      ensures err.Some? && state == Stopped ==> err.value == "Service has already been stopped"
    {
      if state == expected {
        return None;
      }
      match state {
        case Created => err := Some(NOT_STARTED);
        case Started => err := Some(ALREADY_STARTED);
        case Stopped => err := Some(ALREADY_STOPPED);
      }
    }

    /** The ghost side of one step. */
    ghost method Perform(step: Step)
      requires Enabled(model, step)
      modifies this`model
      ensures model == Next(old(model), step)
    {
      model := Next(model, step);
    }

    /** One more step of the Stop that began at start, leading to the phase. */
    ghost method Record(start: Service, steps: seq<Step>, step: Step, phase: Phase) returns (longer: seq<Step>)
      requires Performed(start, steps, model) && Enabled(model, step) && Next(model, step).phase == phase
      requires model.phase != Idle && phase != Idle
      modifies this`model
      ensures Performed(start, longer, model) && Advanced(old(model), model, phase, Entries(step))
    {
      longer := OneMore(start, steps, model, step);
      StepAdvances(model, step);
      model := Next(model, step);
    }

    method Serve(candidate: Option<Integration>) returns (err: Option<seq<Entry>>)
      requires Valid() && Unlocked(model)
      modifies this
      ensures Valid() && model == Next(old(model), Step.Serve(candidate))
      ensures err.None? <==>
        old(state) == Created && candidate.Some? && candidate.value.name != "" && old(server).None?
      ensures server == (if err.None? then candidate else old(server))
      ensures state == old(state) && dependencies == old(dependencies)
      ensures old(state) != Created ==> err == Some([SERVE_REFUSED, Mismatch(old(state))])
      ensures old(state) == Created && (candidate.None? || candidate.value.name == "") ==> err == Some([NOT_SET])
      ensures old(state) == Created && candidate.Some? && candidate.value.name != "" && old(server).Some? ==>
        err == Some(["Must be unique; " + old(server).value.name + " is already registered"])
    {
      var refusal := RequireState(Created);
      Perform(Step.Serve(candidate));
      if refusal.Some? {
        return Some([SERVE_REFUSED, refusal.value]);
      }
      if candidate.None? {
        return Some([NOT_SET]);
      }
      if candidate.value.name == "" {
        return Some([NOT_SET]);
      }
      if server.Some? {
        return Some([Taken(server.value.name)]);
      }
      server := candidate;
      err := None;
    }

    method Attach(dep: Option<Integration>) returns (err: Option<seq<Entry>>)
      requires Valid() && Unlocked(model)
      modifies this
      ensures Valid() && model == Next(old(model), Step.Attach(dep))
      ensures err.None? <==> old(state) == Created && dep.Some? && dep.value.name != ""
      ensures dependencies == old(dependencies) + (if err.None? then [dep.value] else [])
      ensures state == old(state) && server == old(server)
      ensures old(state) != Created ==> err == Some([ATTACH_REFUSED, Mismatch(old(state))])
      ensures old(state) == Created && (dep.None? || dep.value.name == "") ==> err == Some([NOT_SET])
    {
      var refusal := RequireState(Created);
      Perform(Step.Attach(dep));
      if refusal.Some? {
        return Some([ATTACH_REFUSED, refusal.value]);
      }
      if dep.None? {
        return Some([NOT_SET]);
      }
      if dep.value.name == "" {
        return Some([NOT_SET]);
      }
      dependencies := dependencies + [dep.value];
      err := None;
    }

    /** The first critical section of Start: the checks, and the server launched. */
    method BeginStart(call: nat) returns (err: Option<seq<Entry>>)
      requires Valid() && Enabled(model, Step.BeginStart(call))
      modifies this
      ensures Valid() && model == Next(old(model), Step.BeginStart(call))
      ensures err.None? <==> old(state) == Created && old(server).Some?
      ensures state == old(state) && server == old(server) && dependencies == old(dependencies)
      ensures old(state) != Created ==> err == Some([START_REFUSED, Mismatch(old(state))])
      ensures old(state) == Created && old(server).None? ==> err == Some([NOT_SET])
    {
      var refusal := RequireState(Created);
      Perform(Step.BeginStart(call));
      if refusal.Some? {
        return Some([START_REFUSED, refusal.value]);
      }
      if server.None? {
        return Some([NOT_SET]);
      }
      err := None;
    }

    /** The second critical section of Start, once the signal has arrived: the state is written unchecked. */
    method SignalStart(call: nat)
      requires Valid() && Enabled(model, Step.SignalStart(call))
      modifies this
      ensures Valid() && model == Next(old(model), Step.SignalStart(call))
      ensures state == Started && server == old(server) && dependencies == old(dependencies)
    {
      Perform(Step.SignalStart(call));
      state := Started;
    }

    /** The server failed before the signal: one entry that says nothing of the cause, and the state stays. */
    method FailStart(call: nat) returns (err: seq<Entry>)
      requires Valid() && Enabled(model, Step.FailStart(call))
      modifies this`model
      ensures Valid() && model == Next(old(model), Step.FailStart(call))
      ensures err == [START_FAILED]
    {
      Perform(Step.FailStart(call));
      err := [START_FAILED];
    }

    /**
     * The health of the server and the dependencies that are there when the lock
     * is taken. The reports are what their own checks will return.
     */
    method Status(serverReport: Health.Report<Entry>, reports: seq<Health.Report<Entry>>) returns (r: Health.Report<Entry>)
      requires Valid() && Unlocked(model) && |reports| == |dependencies|
      ensures Health.Summarizes(r, Checked(server, serverReport, reports), NOT_HEALTHY)
      ensures r.status >= 200 && (server.Some? ==> r.status >= serverReport.status)
      ensures forall k :: 0 <= k < |reports| ==> r.status >= reports[k].status
      ensures r.status == 200 || (server.Some? && r.status == serverReport.status)
           || exists k :: 0 <= k < |reports| && r.status == reports[k].status
      ensures r.fault.NoFault? <==>
        && (server.None? || serverReport.fault.NoFault? || serverReport.fault.entries == [])
        && forall k :: 0 <= k < |reports| ==> reports[k].fault.NoFault? || reports[k].fault.entries == []
      ensures r.fault.Fault? ==>
        && r.fault.entries != [] && r.fault.entries[0] == NOT_HEALTHY
        && multiset(r.fault.entries[1..]) ==
             multiset(if server.Some? && serverReport.fault.Fault? then serverReport.fault.entries else [])
             + multiset(AllOf(Health.Faults(reports)))
    {
      var checked := Checked(server, serverReport, reports);
      r := Health.CheckAll(checked, NOT_HEALTHY);
      if r.fault.Fault? {
        Health.SameTail(r.fault.entries, AllOf(Health.Faults(checked)), NOT_HEALTHY);
      }
      CheckedStatus(server, serverReport, reports, r.status);
      CheckedSilentIff(server, serverReport, reports);
      CheckedEntries(server, serverReport, reports);
    }

    /**
     * Stop, over every schedule of the dependency goroutines, in terms of what the
     * components returned: it ends without error exactly when none of them reported
     * an entry, and otherwise reports all of them behind a first one.
     */
    method Stop(serverFault: Fault<Entry>, closeFaults: seq<Fault<Entry>>, tracerFails: bool, providerFails: bool, sync: SyncResult)
      returns (err: Option<seq<Entry>>, ghost steps: seq<Step>)
      requires Valid() && Unlocked(model) && |closeFaults| == |dependencies|
      modifies this
      ensures Valid() && Unlocked(model) && Exec(old(model), steps) == Some(model)
      ensures old(state) != Started ==> model == old(model) && err == Some([STOP_FAILED, Mismatch(old(state))])
      ensures old(state) == Started ==> model.passed == old(model.passed) + 1 && err == StopError(AllEntries(steps))
      ensures old(state) == Started ==> state == if err.None? then Stopped else Started
      ensures server == old(server) && dependencies == old(dependencies)
      ensures old(state) == Started ==> (err.None? <==>
        && (old(server).None? || serverFault.NoFault? || serverFault.entries == [])
        && (forall k :: 0 <= k < |closeFaults| ==> closeFaults[k].NoFault? || closeFaults[k].entries == [])
        && !tracerFails && !providerFails && sync != SyncFailed)
      ensures old(state) == Started && err.Some? ==>
        && err.value != [] && err.value[0] == STOP_FAILED
        && multiset(err.value[1..]) ==
             multiset(if old(server).Some? && serverFault.Fault? then serverFault.entries else [])
             + multiset(AllOf(closeFaults))
             + (if tracerFails then multiset{TRACER_FAILED} else multiset{})
             + (if providerFails then multiset{PROVIDER_FAILED} else multiset{})
             + (if sync == SyncFailed then multiset{LOGGER_FAILED} else multiset{})
    {
      ghost var closed;
      err, steps, closed := StopUnderLock(serverFault, closeFaults, tracerFails, providerFails, sync);
      if old(state) == Started {
        NothingReportedIff(old(server), serverFault, closeFaults, closed, tracerFails, providerFails, sync, AllEntries(steps));
        StopReports(old(server), serverFault, closeFaults, closed, tracerFails, providerFails, sync);
        StopErrorEntries(AllEntries(steps));
      }
    }

    /**
     * The body of a Stop, over every schedule of the dependency goroutines. The ghost results
     * are the schedule that took place, and the entries of the dependencies in
     * the order in which they were collected.
     */
    method StopUnderLock(serverFault: Fault<Entry>, closeFaults: seq<Fault<Entry>>, tracerFails: bool, providerFails: bool, sync: SyncResult)
      returns (err: Option<seq<Entry>>, ghost steps: seq<Step>, ghost closed: seq<Entry>)
      requires Valid() && Unlocked(model) && |closeFaults| == |dependencies|
      modifies this
      ensures Valid() && Unlocked(model) && Exec(old(model), steps) == Some(model)
      ensures old(state) != Started ==> model == old(model) && err == Some([STOP_FAILED, Mismatch(old(state))])
      ensures server == old(server) && dependencies == old(dependencies)
      ensures old(state) == Started ==> model.passed == old(model.passed) + 1
      ensures SameEntries(closed, AllOf(closeFaults))
      ensures old(state) == Started ==>
        AllEntries(steps) == ServerEntries(old(server), serverFault) + closed
                             + TelemetryEntries(tracerFails, providerFails, sync)
      ensures old(state) == Started ==> err == StopError(AllEntries(steps)) && state == if err.None? then Stopped else Started
    {
      var refusal := RequireState(Started);
      if refusal.Some? {
        steps := [BeginStop];
        ExecOne(model, BeginStop);
        return Some([STOP_FAILED, refusal.value]), steps, AllOf(closeFaults);
      }
      var children;
      children, steps, closed := StopComponents(serverFault, closeFaults, tracerFails, providerFails, sync);
      if |children| > 0 {
        return Some([STOP_FAILED] + children), steps, closed;
      }
      state := Stopped;
      err := None;
    }

    /** The part of a Stop after its state check. */
    method StopComponents(serverFault: Fault<Entry>, closeFaults: seq<Fault<Entry>>, tracerFails: bool, providerFails: bool, sync: SyncResult)
      returns (children: seq<Entry>, ghost steps: seq<Step>, ghost closed: seq<Entry>)
      requires Valid() && Unlocked(model) && |closeFaults| == |dependencies| && state == Started
      modifies this`model
      ensures model.server == server && model.deps == dependencies && Unlocked(model)
      ensures Performed(old(model), steps, model) && model.children == children
      ensures model.passed == old(model.passed) + 1
      ensures model.state == if children == [] then Stopped else Started
      ensures children
        == ServerEntries(server, serverFault) + closed + TelemetryEntries(tracerFails, providerFails, sync)
      ensures SameEntries(closed, AllOf(closeFaults))
    {
      ghost var start := model;
      children, steps := StopServerFirst(serverFault);
      children, steps, closed := CloseAllDependencies(closeFaults, children, start, steps);
      children, steps := DrainTelemetry(tracerFails, providerFails, sync, children, start, steps);
    }

    /** The state check passed; the server, if there is one, drains before anything is closed. */
    method StopServerFirst(serverFault: Fault<Entry>) returns (children: seq<Entry>, ghost steps: seq<Step>)
      requires Valid() && Unlocked(model) && state == Started
      modifies this`model
      ensures Valid() && Performed(old(model), steps, model) && model.children == children
      ensures model.phase == Closing({}, {}) && model.passed == old(model.passed) + 1
      ensures children == ServerEntries(server, serverFault)
    {
      children := [];
      ghost var start := model;
      steps := [BeginStop];
      BeginStopPerformed(start);
      model := Next(model, BeginStop);
      if server.Some? {
        children := children + EntriesIn(serverFault);
      }
      steps := Record(start, steps, StopServer(ServerEntries(server, serverFault)), Closing({}, {}));
    }

    /** The dependency goroutines: each begins and ends its Close at some point, in any interleaving. */
    method CloseAllDependencies(closeFaults: seq<Fault<Entry>>, before: seq<Entry>, ghost start: Service, ghost done: seq<Step>)
      returns (children: seq<Entry>, ghost steps: seq<Step>, ghost closed: seq<Entry>)
      requires Valid() && |closeFaults| == |dependencies|
      requires model.phase == Closing({}, {}) && before == model.children && Performed(start, done, model)
      modifies this`model
      ensures Valid() && model.phase == DrainingTracer && model.children == children
      ensures model.passed == old(model.passed) && Performed(start, steps, model)
      ensures children == before + closed && SameEntries(closed, AllOf(closeFaults))
    {
      children, steps, closed := before, done, [];
      var all := Below(|dependencies|);
      var begun: set<nat>, ended: set<nat> := {}, {};
      CollectNone(closeFaults);
      while ended != all
        invariant ended <= begun <= all
        invariant Valid() && model.phase == Closing(begun, ended) && model.children == children
        invariant model.passed == old(model.passed) && Performed(start, steps, model)
        invariant children == before + closed && multiset(closed) == Collected(closeFaults, ended)
        decreases |all - begun| + |all - ended|
      {
        var k :| k in all - ended;
        assert k < |dependencies|;
        if k !in begun {
          Shrinks(all, begun, k);
          steps := RecordBegin(start, steps, begun, ended, k);
          begun := begun + {k};
        } else {
          Shrinks(all, ended, k);
          CollectOne(closeFaults, ended, k);
          var entries := EntriesIn(closeFaults[k]);
          steps := RecordEnd(start, steps, begun, ended, k, entries);
          children := children + entries;
          CollectedInOrder(before, closed, entries);
          closed := closed + entries;
          ended := ended + {k};
        }
      }
      CollectEach(closeFaults, ended);
      steps := Record(start, steps, CloseAll, DrainingTracer);
    }

    ghost method RecordBegin(start: Service, steps: seq<Step>, begun: set<nat>, ended: set<nat>, k: nat)
      returns (longer: seq<Step>)
      requires Valid() && Performed(start, steps, model) && model.phase == Closing(begun, ended)
      requires k < |dependencies| && k !in begun
      modifies this`model
      ensures Valid() && Performed(start, longer, model) && model.phase == Closing(begun + {k}, ended)
      ensures model.children == old(model.children) && model.passed == old(model.passed)
    {
      longer := Record(start, steps, BeginClose(k), Closing(begun + {k}, ended));
    }

    ghost method RecordEnd(start: Service, steps: seq<Step>, begun: set<nat>, ended: set<nat>, k: nat, entries: seq<Entry>)
      returns (longer: seq<Step>)
      requires Valid() && Performed(start, steps, model) && model.phase == Closing(begun, ended)
      requires k in begun && k !in ended
      modifies this`model
      ensures Valid() && Performed(start, longer, model) && model.phase == Closing(begun, ended + {k})
      ensures model.children == old(model.children) + entries && model.passed == old(model.passed)
    {
      longer := Record(start, steps, EndClose(k, entries), Closing(begun, ended + {k}));
    }

    /** The tracer, then the logger provider, then the logger; a terminal that cannot sync is no failure. */
    method DrainTelemetry(tracerFails: bool, providerFails: bool, sync: SyncResult, before: seq<Entry>,
      ghost start: Service, ghost done: seq<Step>)
      returns (children: seq<Entry>, ghost steps: seq<Step>)
      requires Valid() && model.phase == DrainingTracer && before == model.children && Performed(start, done, model)
      modifies this`model
      ensures model.server == server && model.deps == dependencies && Unlocked(model)
      ensures model.state == (if children == [] then Stopped else state) && model.passed == old(model.passed)
      ensures Performed(start, steps, model) && model.children == children
      ensures children == before + TelemetryEntries(tracerFails, providerFails, sync)
    {
      children, steps := before, done;
      if tracerFails {
        children := children + [TRACER_FAILED];
      }
      steps := Record(start, steps, DrainTracer(When(tracerFails, TRACER_FAILED)), DrainingLogger);
      assert children == before + When(tracerFails, TRACER_FAILED);
      if providerFails {
        children := children + [PROVIDER_FAILED];
      }
      steps := Record(start, steps, DrainLogger(When(providerFails, PROVIDER_FAILED)), SyncingLogger);
      assert children == before + When(tracerFails, TRACER_FAILED) + When(providerFails, PROVIDER_FAILED);
      if sync != Synced {
        if sync != NotATerminal {
          children := children + [LOGGER_FAILED];
        }
      }
      Regroup(before + When(tracerFails, TRACER_FAILED), When(providerFails, PROVIDER_FAILED),
        When(sync == SyncFailed, LOGGER_FAILED));
      Regroup(before, When(tracerFails, TRACER_FAILED),
        When(providerFails, PROVIDER_FAILED) + When(sync == SyncFailed, LOGGER_FAILED));
      steps := RecordSync(start, steps, When(sync == SyncFailed, LOGGER_FAILED));
    }

    ghost method RecordSync(start: Service, steps: seq<Step>, entries: seq<Entry>) returns (longer: seq<Step>)
      requires Performed(start, steps, model) && model.phase == SyncingLogger
      modifies this`model
      ensures Performed(start, longer, model) && model.children == old(model.children) + entries
      ensures model.server == old(model.server) && model.deps == old(model.deps) && model.passed == old(model.passed)
      ensures Unlocked(model) && model.state == if model.children == [] then Stopped else old(model.state)
    {
      longer := OneMore(start, steps, model, SyncLogger(entries));
      model := Next(model, SyncLogger(entries));
    }
  }

  function Checked(server: Option<Integration>, serverReport: Health.Report<Entry>, reports: seq<Health.Report<Entry>>):
    seq<Health.Report<Entry>>
  {
    (if server.Some? then [serverReport] else []) + reports
  }

  /** The status of what is checked, in terms of its parts. */
  lemma CheckedStatus(server: Option<Integration>, serverReport: Health.Report<Entry>, reports: seq<Health.Report<Entry>>,
    status: int)
    requires Health.IsWorst(status, Checked(server, serverReport, reports))
    ensures status >= 200 && (server.Some? ==> status >= serverReport.status)
    ensures forall k :: 0 <= k < |reports| ==> status >= reports[k].status
    ensures status == 200 || (server.Some? && status == serverReport.status)
         || exists k :: 0 <= k < |reports| && status == reports[k].status
  {
    var checked := Checked(server, serverReport, reports);
    if server.None? {
      assert checked == reports;
    } else {
      assert checked[0] == serverReport;
      assert forall k :: 0 <= k < |reports| ==> checked[1 + k] == reports[k];
      if k :| 0 < k < |checked| && checked[k].status == status {
        assert reports[k - 1].status == status;
      }
    }
  }

  /** Its entries are those of the server, if there is one, and then those of the dependencies. */
  lemma CheckedEntries(server: Option<Integration>, serverReport: Health.Report<Entry>, reports: seq<Health.Report<Entry>>)
    ensures AllOf(Health.Faults(Checked(server, serverReport, reports))) ==
      (if server.Some? && serverReport.fault.Fault? then serverReport.fault.entries else []) + AllOf(Health.Faults(reports))
  {
    var checked := Checked(server, serverReport, reports);
    if server.Some? {
      assert Health.Faults(checked) == [serverReport.fault] + Health.Faults(reports);
      AllOfConcatenates([serverReport.fault], Health.Faults(reports));
      AllOfOne(serverReport.fault);
    } else {
      assert checked == reports;
    }
  }

  lemma CheckedSilentIff(server: Option<Integration>, serverReport: Health.Report<Entry>, reports: seq<Health.Report<Entry>>)
    ensures AllOf(Health.Faults(Checked(server, serverReport, reports))) == [] <==>
      && (server.None? || serverReport.fault.NoFault? || serverReport.fault.entries == [])
      && forall k :: 0 <= k < |reports| ==> reports[k].fault.NoFault? || reports[k].fault.entries == []
  {
    CheckedEntries(server, serverReport, reports);
    Health.SilentReports(reports);
    EmptySum(if server.Some? && serverReport.fault.Fault? then serverReport.fault.entries else [],
      AllOf(Health.Faults(reports)), []);
  }

  function StopError(children: seq<Entry>): Option<seq<Entry>> {
    if children == [] then None else Some([STOP_FAILED] + children)
  }

  /** Behind its first entry the error of a Stop reports every component's entries. */
  lemma StopErrorEntries(children: seq<Entry>)
    ensures StopError(children).Some? <==> children != []
    ensures StopError(children).Some? ==>
      var entries := StopError(children).value;
      entries != [] && entries[0] == STOP_FAILED && multiset(entries[1..]) == multiset(children)
  {
    assert ([STOP_FAILED] + children)[1..] == children;
  }

  lemma NothingReportedIff(server: Option<Integration>, serverFault: Fault<Entry>, closeFaults: seq<Fault<Entry>>,
    closed: seq<Entry>, tracerFails: bool, providerFails: bool, sync: SyncResult, children: seq<Entry>)
    requires SameEntries(closed, AllOf(closeFaults))
    requires children == ServerEntries(server, serverFault) + closed + TelemetryEntries(tracerFails, providerFails, sync)
    ensures children == [] <==>
      && (server.None? || serverFault.NoFault? || serverFault.entries == [])
      && (forall k :: 0 <= k < |closeFaults| ==> closeFaults[k].NoFault? || closeFaults[k].entries == [])
      && !tracerFails && !providerFails && sync != SyncFailed
  {
    NothingClosedIff(closeFaults, closed);
    NothingDrainedIff(tracerFails, providerFails, sync);
    EmptySum(ServerEntries(server, serverFault), closed, TelemetryEntries(tracerFails, providerFails, sync));
  }

  lemma EmptySum<T>(a: seq<T>, b: seq<T>, c: seq<T>)
    ensures a + b + c == [] <==> a == [] && b == [] && c == []
  {
    assert |a + b + c| == |a| + |b| + |c|;
  }

  lemma NothingClosedIff(closeFaults: seq<Fault<Entry>>, closed: seq<Entry>)
    requires SameEntries(closed, AllOf(closeFaults))
    ensures closed == [] <==> forall k :: 0 <= k < |closeFaults| ==> closeFaults[k].NoFault? || closeFaults[k].entries == []
  {
    assert |multiset(closed)| == |multiset(AllOf(closeFaults))|;
    SilentIff(closeFaults);
    forall k | 0 <= k < |closeFaults|
      ensures EntriesIn(closeFaults[k]) == [] <==> closeFaults[k].NoFault? || closeFaults[k].entries == []
    {
      SilentMeans(closeFaults[k]);
    }
  }

  lemma NothingDrainedIff(tracerFails: bool, providerFails: bool, sync: SyncResult)
    ensures TelemetryEntries(tracerFails, providerFails, sync) == []
       <==> !tracerFails && !providerFails && sync != SyncFailed
  {}

  lemma StopReports(server: Option<Integration>, serverFault: Fault<Entry>, closeFaults: seq<Fault<Entry>>,
    closed: seq<Entry>, tracerFails: bool, providerFails: bool, sync: SyncResult)
    requires SameEntries(closed, AllOf(closeFaults))
    ensures multiset(ServerEntries(server, serverFault) + closed + TelemetryEntries(tracerFails, providerFails, sync)) ==
      multiset(if server.Some? && serverFault.Fault? then serverFault.entries else [])
      + multiset(AllOf(closeFaults))
      + (if tracerFails then multiset{TRACER_FAILED} else multiset{})
      + (if providerFails then multiset{PROVIDER_FAILED} else multiset{})
      + (if sync == SyncFailed then multiset{LOGGER_FAILED} else multiset{})
  {}

  function ServerEntries(server: Option<Integration>, fault: Fault<Entry>): seq<Entry> {
    if server.Some? then EntriesIn(fault) else []
  }

  function TelemetryEntries(tracerFails: bool, providerFails: bool, sync: SyncResult): seq<Entry> {
    When(tracerFails, TRACER_FAILED) + (When(providerFails, PROVIDER_FAILED) + When(sync == SyncFailed, LOGGER_FAILED))
  }
}
