/**
 * Health checks: components checked concurrently, each folding its result into
 * a shared worst status and a shared list of entries.
 */
module Health {
  import opened Options
  import opened Gathering
  import Failover
  import ErrorStack

  const HEALTHY := 200
  const UNAVAILABLE := 503

  /** What one component's Status returns. */
  datatype Report<E> = Report(status: int, fault: Fault<E>)

  /** The two variables that the goroutines share under their mutex. */
  class Tally<E> {
    var worst: int
    var entries: seq<E>

    constructor ()
      ensures worst == HEALTHY && entries == []
    {
      worst, entries := HEALTHY, [];
    }

    method Check(r: Report<E>)
      modifies this
      ensures worst == if r.status > old(worst) then r.status else old(worst)
      ensures entries == old(entries) + EntriesIn(r.fault)
    {
      if r.status > worst {
        worst := r.status;
      }
      if r.fault.Fault? {
        entries := entries + r.fault.entries;
      }
    }
  }

  function Faults<E>(reports: seq<Report<E>>): (faults: seq<Fault<E>>)
    ensures |faults| == |reports| && forall i :: 0 <= i < |reports| ==> faults[i] == reports[i].fault
  {
    seq(|reports|, i requires 0 <= i < |reports| => reports[i].fault)
  }

  /** The maximum of 200 and the statuses of the components in the set. */
  ghost predicate WorstAmong<E>(worst: int, reports: seq<Report<E>>, ended: set<nat>) {
    && worst >= HEALTHY
    && (forall k: nat :: k in ended && k < |reports| ==> reports[k].status <= worst)
    && (worst == HEALTHY || exists k: nat :: k in ended && k < |reports| && reports[k].status == worst)
  }

  ghost predicate IsWorst<E>(worst: int, reports: seq<Report<E>>) {
    && worst >= HEALTHY
    && (forall k :: 0 <= k < |reports| ==> reports[k].status <= worst)
    && (worst == HEALTHY || exists k :: 0 <= k < |reports| && reports[k].status == worst)
  }

  /** The result of a health check: an error exactly when entries were gathered, a header before them. */
  ghost predicate Summarizes<E>(r: Report<E>, reports: seq<Report<E>>, header: E) {
    && IsWorst(r.status, reports)
    && (r.fault.NoFault? <==> AllOf(Faults(reports)) == [])
    && SameEntries(EntriesIn(r.fault), Summary(AllOf(Faults(reports)), header))
    && (r.fault.Fault? ==> r.fault.entries != [] && r.fault.entries[0] == header)
  }

  function Summary<E>(entries: seq<E>, header: E): seq<E> {
    if entries == [] then [] else [header] + entries
  }

  lemma WorstGrows<E>(worst: int, reports: seq<Report<E>>, ended: set<nat>, k: nat)
    requires WorstAmong(worst, reports, ended) && k < |reports|
    ensures WorstAmong(if reports[k].status > worst then reports[k].status else worst, reports, ended + {k})
  {}

  /** What is folded so far, of the goroutines that ended. */
  ghost predicate Folded<E>(tally: Tally<E>, reports: seq<Report<E>>, ended: set<nat>)
    reads tally
  {
    WorstAmong(tally.worst, reports, ended) && multiset(tally.entries) == Collected(Faults(reports), ended)
  }

  /** One goroutine folds its result in. */
  method Fold<E>(tally: Tally<E>, reports: seq<Report<E>>, ghost ended: set<nat>, k: nat)
    requires Folded(tally, reports, ended) && k < |reports| && k !in ended
    modifies tally
    ensures Folded(tally, reports, ended + {k})
  {
    WorstGrows(tally.worst, reports, ended, k);
    CollectOne(Faults(reports), ended, k);
    tally.Check(reports[k]);
  }

  /** All goroutines ended: the result, from what was folded. */
  method Conclude<E>(tally: Tally<E>, ghost reports: seq<Report<E>>, ghost ended: set<nat>, header: E)
    returns (r: Report<E>)
    requires Folded(tally, reports, ended) && ended == Below(|reports|)
    ensures Summarizes(r, reports, header)
  {
    CollectEach(Faults(reports), ended);
    ghost var all := AllOf(Faults(reports));
    assert |multiset(tally.entries)| == |multiset(all)|;
    if |tally.entries| > 0 {
      assert multiset([header] + tally.entries) == multiset([header] + all);
      return Report(tally.worst, Fault([header] + tally.entries));
    }
    r := Report(tally.worst, NoFault);
  }

  /** Every component checked concurrently, in any order of completion. */
  method CheckAll<E>(reports: seq<Report<E>>, header: E) returns (r: Report<E>)
    ensures Summarizes(r, reports, header)
  {
    var tally := new Tally<E>();
    var all := Below(|reports|);
    var ended: set<nat> := {};
    CollectNone(Faults(reports));
    while ended != all
      invariant ended <= all && fresh(tally) && Folded(tally, reports, ended)
      decreases |all - ended|
    {
      var k :| k in all - ended;
      Shrinks(all, ended, k);
      Fold(tally, reports, ended, k);
      ended := ended + {k};
    }
    r := Conclude(tally, reports, ended, header);
  }

  /** A summary in terms of the reports: the largest status from 200 up, and a header before all entries, or nothing. */
  lemma SummaryMeans<E>(r: Report<E>, reports: seq<Report<E>>, header: E)
    requires Summarizes(r, reports, header)
    ensures r.status >= 200 && forall k :: 0 <= k < |reports| ==> r.status >= reports[k].status
    ensures r.status == 200 || exists k :: 0 <= k < |reports| && r.status == reports[k].status
    ensures r.fault.NoFault? <==>
      forall k :: 0 <= k < |reports| ==> reports[k].fault.NoFault? || reports[k].fault.entries == []
    ensures r.fault.Fault? ==>
      && r.fault.entries != [] && r.fault.entries[0] == header
      && multiset(r.fault.entries[1..]) == multiset(AllOf(Faults(reports)))
  {
    SilentReports(reports);
    if r.fault.Fault? {
      SameTail(r.fault.entries, AllOf(Faults(reports)), header);
    }
  }

  lemma SilentReports<E>(reports: seq<Report<E>>)
    ensures AllOf(Faults(reports)) == [] <==>
      forall k :: 0 <= k < |reports| ==> reports[k].fault.NoFault? || reports[k].fault.entries == []
  {
    SilentIff(Faults(reports));
    forall k | 0 <= k < |reports|
      ensures EntriesIn(Faults(reports)[k]) == [] <==> reports[k].fault.NoFault? || reports[k].fault.entries == []
    {
      SilentMeans(Faults(reports)[k]);
    }
  }

  lemma SameTail<E>(a: seq<E>, b: seq<E>, header: E)
    requires a != [] && a[0] == header && SameEntries(a, [header] + b)
    ensures multiset(a[1..]) == multiset(b)
  {
    assert a == [header] + a[1..];
    assert multiset([header] + a[1..]) - multiset{header} == multiset(a[1..]);
    assert multiset([header] + b) - multiset{header} == multiset(b);
  }

  predicate Failed<E>(r: Report<E>) {
    r.fault.Fault?
  }

  predicate Speaks<E>(r: Report<E>) {
    EntriesIn(r.fault) != []
  }

  /**
   * The result is an error exactly when some component's error has an entry;
   * so it tells whether a component failed exactly when none did or one speaks.
   */
  lemma ErrorIffFailed<E>(r: Report<E>, reports: seq<Report<E>>, header: E)
    requires Summarizes(r, reports, header)
    ensures Failed(r) <==> exists k :: 0 <= k < |reports| && Speaks(reports[k])
    ensures (Failed(r) <==> exists k :: 0 <= k < |reports| && Failed(reports[k]))
       <==> (forall k :: 0 <= k < |reports| ==> !Failed(reports[k])) || exists k :: 0 <= k < |reports| && Speaks(reports[k])
  {
    SilentIff(Faults(reports));
    assert forall k :: 0 <= k < |reports| ==> (Speaks(reports[k]) <==> EntriesIn(Faults(reports)[k]) != []);
    assert forall k :: 0 <= k < |reports| ==> (Speaks(reports[k]) ==> Failed(reports[k]));
  }

  // ---- Errors that a component can return ----

  type GoError = ErrorStack.GoError

  /** A typed nil, or an error made by hand without entries, however deep foreign errors wrap it. */
  ghost predicate IsSilent(g: GoError)
    reads Holder(g)
  {
    match ErrorStack.Outermost(g)
    case Some(err) => err == null || err.entries == []
    case None => false
  }

  /** The error on the unwrap chain that gives the entries. */
  ghost function Holder(g: GoError): set<ErrorStack.Error> {
    match ErrorStack.Outermost(g)
    case Some(err) => if err == null then {} else {err}
    case None => {}
  }

  /** A component returns the status and the error: what the goroutine that called it has to report. */
  method ReportOf(status: int, g: GoError) returns (r: Report<ErrorStack.EntryValue>)
    ensures r.status == status && (r.fault.NoFault? <==> g == ErrorStack.NoError)
    ensures g != ErrorStack.NoError ==> (EntriesIn(r.fault) == [] <==> IsSilent(g))
  {
    if g == ErrorStack.NoError {
      return Report(status, NoFault);
    }
    var found := ErrorStack.FindError(g);
    var entries := ErrorStack.EntriesOf(g);
    var values := ErrorStack.ReadOut(entries);
    assert |values| == |entries|;
    r := Report(status, Fault(values));
  }

  /**
   * A check over one component that failed: its status counts in any case, and the
   * failure is reported if and only if its error is not silent.
   */
  method CheckOne(status: int, g: GoError, header: ErrorStack.EntryValue) returns (r: Report<ErrorStack.EntryValue>)
    requires g != ErrorStack.NoError
    ensures r.status == if status > HEALTHY then status else HEALTHY
    ensures r.fault.NoFault? <==> IsSilent(g)
  {
    var found := ErrorStack.FindError(g);
    var report := ReportOf(status, g);
    r := CheckAll([report], header);
    LoneReport(r, report, header);
  }

  lemma LoneReport<E>(r: Report<E>, report: Report<E>, header: E)
    requires Summarizes(r, [report], header)
    ensures r.status == if report.status > HEALTHY then report.status else HEALTHY
    ensures r.fault.NoFault? <==> EntriesIn(report.fault) == []
  {
    SilentIff(Faults([report]));
    assert [report][0].status == report.status;
  }

  /** Both kinds of silent error can be made, and a check over a component that returns one reports no error. */
  method SilentErrorsGoUnreported(header: ErrorStack.EntryValue)
    returns (handMade: Report<ErrorStack.EntryValue>, typedNil: Report<ErrorStack.EntryValue>)
    ensures handMade == Report(UNAVAILABLE, NoFault)
    ensures typedNil == Report(UNAVAILABLE, NoFault)
  {
    var err := new ErrorStack.Error([], ErrorStack.NoError);
    handMade := CheckOne(UNAVAILABLE, ErrorStack.Stack(err), header);
    typedNil := CheckOne(UNAVAILABLE, ErrorStack.Stack(null), header);
  }

  // ---- The HTTP client ----

  datatype ProbeEntry =
    | Header(message: string)
    | Unreachable(endpoint: string)
    | Unhealthy(endpoint: string, status: int)

  const CLIENT_HEADER := Header("Integration is not in a healthy state")

  predicate Failing(o: Failover.Outcome) {
    o.Faulted? || o.status >= 500
  }

  /** The report of one probe. */
  function Probed(endpoint: string, o: Failover.Outcome): Report<ProbeEntry> {
    match o
    case Faulted(_) => Report(UNAVAILABLE, Fault([Unreachable(endpoint)]))
    case Answered(status) =>
      if status < 500 then Report(HEALTHY, NoFault) else Report(UNAVAILABLE, Fault([Unhealthy(endpoint, status)]))
  }

  function AllProbed(endpoints: seq<string>, outcomes: seq<Failover.Outcome>): (reports: seq<Report<ProbeEntry>>)
    requires |endpoints| == |outcomes|
    ensures |reports| == |endpoints|
    ensures forall i :: 0 <= i < |reports| ==> reports[i] == Probed(endpoints[i], outcomes[i])
  {
    seq(|endpoints|, i requires 0 <= i < |endpoints| => Probed(endpoints[i], outcomes[i]))
  }

  class Client {
    const endpoints: seq<string>

    constructor (endpoints: seq<string>)
      ensures this.endpoints == endpoints
    {
      this.endpoints := endpoints;
    }

    /** A probe closes the response it obtained. */
    method Probe(endpoint: string, o: Failover.Outcome) returns (r: Report<ProbeEntry>, ghost obtained: Failover.Response?)
      ensures r == Probed(endpoint, o)
      ensures o.Faulted? ==> r == Report(503, Fault([Unreachable(endpoint)]))
      ensures o.Answered? && o.status < 500 ==> r == Report(200, NoFault)
      ensures o.Answered? && o.status >= 500 ==> r == Report(503, Fault([Unhealthy(endpoint, o.status)]))
      ensures obtained != null <==> o.Answered?
      ensures obtained != null ==> fresh(obtained) && obtained.closes == 1
    {
      var resp, err := Failover.Attempt(o);
      obtained := resp;
      if err.Some? {
        return Report(UNAVAILABLE, Fault([Unreachable(endpoint)])), obtained;
      }
      if resp.status < 500 {
        r := Report(HEALTHY, NoFault);
      } else {
        r := Report(UNAVAILABLE, Fault([Unhealthy(endpoint, resp.status)]));
      }
      Failover.DrainClose(resp);
    }

    /** A custom status is used as it is; otherwise every endpoint is probed, in any order of completion. */
    method Status(custom: Option<Report<ProbeEntry>>, outcomes: seq<Failover.Outcome>) returns (r: Report<ProbeEntry>)
      requires |outcomes| == |endpoints|
      ensures custom.Some? ==> r == custom.value
      ensures custom.None? ==> Summarizes(r, AllProbed(endpoints, outcomes), CLIENT_HEADER)
      ensures custom.None? ==>
        r.status == if exists k :: 0 <= k < |outcomes| && (outcomes[k].Faulted? || outcomes[k].status >= 500) then 503 else 200
      ensures custom.None? ==> (r.fault.NoFault? <==> r.status == 200)
    {
      if custom.Some? {
        return custom.value;
      }
      r := ProbeAll(outcomes);
      ProbeSummary(r, endpoints, outcomes);
      FailingMeans(outcomes);
    }

    method ProbeAll(outcomes: seq<Failover.Outcome>) returns (r: Report<ProbeEntry>)
      requires |outcomes| == |endpoints|
      ensures Summarizes(r, AllProbed(endpoints, outcomes), CLIENT_HEADER)
    {
      ghost var reports := AllProbed(endpoints, outcomes);
      var tally := new Tally<ProbeEntry>();
      var all := Below(|endpoints|);
      var ended: set<nat> := {};
      CollectNone(Faults(reports));
      while ended != all
        invariant ended <= all && fresh(tally) && Folded(tally, reports, ended)
        decreases |all - ended|
      {
        var k :| k in all - ended;
        Shrinks(all, ended, k);
        var report, _ := Probe(endpoints[k], outcomes[k]);
        WorstGrows(tally.worst, reports, ended, k);
        CollectOne(Faults(reports), ended, k);
        tally.Check(report);
        ended := ended + {k};
      }
      r := Conclude(tally, reports, ended, CLIENT_HEADER);
    }
  }

  lemma FailingMeans(outcomes: seq<Failover.Outcome>)
    ensures AnyFailing(outcomes) <==> exists k :: 0 <= k < |outcomes| && (outcomes[k].Faulted? || outcomes[k].status >= 500)
  {
    if AnyFailing(outcomes) {
      var k :| 0 <= k < |outcomes| && Failing(outcomes[k]);
      assert outcomes[k].Faulted? || outcomes[k].status >= 500;
    }
    if k :| 0 <= k < |outcomes| && (outcomes[k].Faulted? || outcomes[k].status >= 500) {
      assert Failing(outcomes[k]);
    }
  }

  /** What an entry says of endpoint k: it could not be reached, or answered with this status. */
  predicate Names(x: ProbeEntry, endpoint: string, o: Failover.Outcome) {
    match o
    case Faulted(_) => x == Unreachable(endpoint)
    case Answered(status) => status >= 500 && x == Unhealthy(endpoint, status)
  }

  /** Every failing endpoint is named, by its own entry, and no other. */
  lemma ProbeNames(r: Report<ProbeEntry>, endpoints: seq<string>, outcomes: seq<Failover.Outcome>, x: ProbeEntry)
    requires |endpoints| == |outcomes| && Summarizes(r, AllProbed(endpoints, outcomes), CLIENT_HEADER)
    ensures r.fault.Fault? && x in r.fault.entries[1..] <==>
      exists k :: 0 <= k < |outcomes| && Names(x, endpoints[k], outcomes[k])
  {
    SummaryMeans(r, AllProbed(endpoints, outcomes), CLIENT_HEADER);
    AllProbedNames(endpoints, outcomes, x);
    var all := AllOf(Faults(AllProbed(endpoints, outcomes)));
    if r.fault.Fault? {
      SameMembers(r.fault.entries[1..], all, x);
    } else {
      assert all == [];
    }
  }

  lemma SameMembers<E>(a: seq<E>, b: seq<E>, x: E)
    requires SameEntries(a, b)
    ensures x in a <==> x in b
  {
    assert x in a <==> x in multiset(a);
    assert x in b <==> x in multiset(b);
  }

  lemma AllProbedNames(endpoints: seq<string>, outcomes: seq<Failover.Outcome>, x: ProbeEntry)
    requires |endpoints| == |outcomes|
    ensures x in AllOf(Faults(AllProbed(endpoints, outcomes))) <==>
      exists k :: 0 <= k < |outcomes| && Names(x, endpoints[k], outcomes[k])
  {
    var faults := Faults(AllProbed(endpoints, outcomes));
    InAllOf(faults, x);
    forall k | 0 <= k < |outcomes| ensures x in EntriesIn(faults[k]) <==> Names(x, endpoints[k], outcomes[k]) {
    }
  }

  /** How many endpoints fail. */
  function FailingCount(outcomes: seq<Failover.Outcome>): nat {
    if outcomes == [] then 0
    else FailingCount(outcomes[..|outcomes| - 1]) + if Failing(outcomes[|outcomes| - 1]) then 1 else 0
  }

  lemma {:induction false} ProbeEntries(endpoints: seq<string>, outcomes: seq<Failover.Outcome>)
    requires |endpoints| == |outcomes|
    ensures |AllOf(Faults(AllProbed(endpoints, outcomes)))| == FailingCount(outcomes)
    ensures FailingCount(outcomes) == 0 <==> forall k :: 0 <= k < |outcomes| ==> !Failing(outcomes[k])
    decreases |outcomes|
  {
    if outcomes != [] {
      var n := |outcomes| - 1;
      ProbeEntries(endpoints[..n], outcomes[..n]);
      assert Faults(AllProbed(endpoints, outcomes))[..n] == Faults(AllProbed(endpoints[..n], outcomes[..n]));
    }
  }

  lemma SameLength<E>(a: seq<E>, b: seq<E>)
    requires SameEntries(a, b)
    ensures |a| == |b|
  {
    assert |multiset(a)| == |multiset(b)|;
  }

  predicate AnyFailing(outcomes: seq<Failover.Outcome>) {
    exists k :: 0 <= k < |outcomes| && Failing(outcomes[k])
  }

  /** The entries of an unhealthy client: one for itself and one per failing endpoint. */
  function ClientEntries(outcomes: seq<Failover.Outcome>): nat {
    if FailingCount(outcomes) == 0 then 0 else 1 + FailingCount(outcomes)
  }

  /** Under the default probe: 503 exactly when an endpoint fails, and one entry more than failing endpoints. */
  lemma ProbeSummary(r: Report<ProbeEntry>, endpoints: seq<string>, outcomes: seq<Failover.Outcome>)
    requires |endpoints| == |outcomes| && Summarizes(r, AllProbed(endpoints, outcomes), CLIENT_HEADER)
    ensures r.status == if AnyFailing(outcomes) then UNAVAILABLE else HEALTHY
    ensures Failed(r) <==> AnyFailing(outcomes)
    ensures |EntriesIn(r.fault)| == ClientEntries(outcomes)
  {
    ProbeEntries(endpoints, outcomes);
    SameLength(EntriesIn(r.fault), Summary(AllOf(Faults(AllProbed(endpoints, outcomes))), CLIENT_HEADER));
    ProbeStatus(r.status, endpoints, outcomes);
  }

  lemma ProbeStatus(worst: int, endpoints: seq<string>, outcomes: seq<Failover.Outcome>)
    requires |endpoints| == |outcomes| && IsWorst(worst, AllProbed(endpoints, outcomes))
    ensures worst == if AnyFailing(outcomes) then UNAVAILABLE else HEALTHY
  {
    var reports := AllProbed(endpoints, outcomes);
    assert forall k :: 0 <= k < |outcomes| ==>
      reports[k].status == if Failing(outcomes[k]) then UNAVAILABLE else HEALTHY;
  }

  /** The default probe of each client in a service. */
  ghost predicate Defaults(reports: seq<Report<ProbeEntry>>, endpoints: seq<seq<string>>, outcomes: seq<seq<Failover.Outcome>>) {
    && |reports| == |endpoints| == |outcomes|
    && forall i :: 0 <= i < |reports| ==>
         |endpoints[i]| == |outcomes[i]| && Summarizes(reports[i], AllProbed(endpoints[i], outcomes[i]), CLIENT_HEADER)
  }

  function TotalEntries(outcomes: seq<seq<Failover.Outcome>>): nat {
    if outcomes == [] then 0
    else TotalEntries(outcomes[..|outcomes| - 1]) + ClientEntries(outcomes[|outcomes| - 1])
  }

  lemma {:induction false} ClientsContribute(reports: seq<Report<ProbeEntry>>, endpoints: seq<seq<string>>,
    outcomes: seq<seq<Failover.Outcome>>)
    requires Defaults(reports, endpoints, outcomes)
    ensures |AllOf(Faults(reports))| == TotalEntries(outcomes)
    decreases |reports|
  {
    if reports != [] {
      var n := |reports| - 1;
      ClientsContribute(reports[..n], endpoints[..n], outcomes[..n]);
      ProbeSummary(reports[n], endpoints[n], outcomes[n]);
      assert Faults(reports)[..n] == Faults(reports[..n]);
    }
  }

  /** A service whose components are such clients: unavailable exactly when some endpoint of some client fails. */
  lemma ServiceOverClients(r: Report<ProbeEntry>, reports: seq<Report<ProbeEntry>>, endpoints: seq<seq<string>>,
    outcomes: seq<seq<Failover.Outcome>>, header: ProbeEntry)
    requires Defaults(reports, endpoints, outcomes) && Summarizes(r, reports, header)
    ensures r.status == if exists i :: 0 <= i < |outcomes| && AnyFailing(outcomes[i]) then UNAVAILABLE else HEALTHY
    ensures |EntriesIn(r.fault)| == if TotalEntries(outcomes) == 0 then 0 else 1 + TotalEntries(outcomes)
  {
    ClientsContribute(reports, endpoints, outcomes);
    SameLength(EntriesIn(r.fault), Summary(AllOf(Faults(reports)), header));
    forall i | 0 <= i < |reports|
      ensures reports[i].status == if AnyFailing(outcomes[i]) then UNAVAILABLE else HEALTHY
    {
      ProbeSummary(reports[i], endpoints[i], outcomes[i]);
    }
  }
}
