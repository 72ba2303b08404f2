/**
 * The failover HTTP client: which outcome a call delivers, and who closes each
 * response that it obtained on the way.
 */
module Failover {
  import opened Options
  import opened RoundRobin

  /** What one attempt comes to: a response with its status, or a transport error. */
  datatype Outcome = Answered(status: int) | Faulted(error: string)

  /** What the caller gets: the response of attempt i, the context's error, or the last transport error. */
  datatype Verdict = Delivered(attempt: nat) | Cancelled | Failed(error: string)

  predicate Good(o: Outcome) {
    o.Answered? && o.status < 500
  }

  predicate Retryable(o: Outcome) {
    o.Answered? && o.status >= 500
  }

  /** The first attempt below n whose response is below 500. */
  function FirstGood(outcomes: seq<Outcome>, n: nat): (r: Option<nat>)
    requires n <= |outcomes|
    ensures r.Some? ==> r.value < n && Good(outcomes[r.value])
    ensures forall i :: 0 <= i < (if r.Some? then r.value else n) ==> !Good(outcomes[i])
  {
    if n == 0 then None
    else
      var r := FirstGood(outcomes, n - 1);
      if r.None? && Good(outcomes[n - 1]) then Some(n - 1) else r
  }

  /** The last attempt below n that was answered with a 5xx. */
  function LastRetryable(outcomes: seq<Outcome>, n: nat): (r: Option<nat>)
    requires n <= |outcomes|
    ensures r.Some? ==> r.value < n && Retryable(outcomes[r.value])
    ensures forall i :: (if r.Some? then r.value else -1) < i < n ==> !Retryable(outcomes[i])
  {
    if n == 0 then None
    else if Retryable(outcomes[n - 1]) then Some(n - 1)
    else LastRetryable(outcomes, n - 1)
  }

  /** The last transport error below n; the empty text stands for no error. */
  function LastFault(outcomes: seq<Outcome>, n: nat): string
    requires n <= |outcomes|
  {
    if n == 0 then ""
    else if outcomes[n - 1].Faulted? then outcomes[n - 1].error
    else LastFault(outcomes, n - 1)
  }

  /** The contract of a call: doneAt is the loop head from which the context is done. */
  function Expected(outcomes: seq<Outcome>, doneAt: nat): Verdict {
    var n := if doneAt < |outcomes| then doneAt else |outcomes|;
    match FirstGood(outcomes, n)
    case Some(i) => Delivered(i)
    case None =>
      if n < |outcomes| then Cancelled
      else match LastRetryable(outcomes, n)
           case Some(i) => Delivered(i)
           case None => Failed(LastFault(outcomes, n))
  }

  /** How many attempts a call makes. */
  function Attempts(outcomes: seq<Outcome>, doneAt: nat): nat {
    var n := if doneAt < |outcomes| then doneAt else |outcomes|;
    match FirstGood(outcomes, n) case Some(i) => i + 1 case None => n
  }

  class Response {
    const status: int
    ghost var closes: nat

    constructor (status: int)
      ensures this.status == status && closes == 0
    {
      this.status := status;
      closes := 0;
    }
  }

  method DrainClose(resp: Response?)
    modifies if resp == null then {} else {resp}
    ensures resp != null ==> resp.closes == old(resp.closes) + 1
  {
    if resp == null {
      return;
    }
    resp.closes := resp.closes + 1;
  }

  /** The responses obtained so far are distinct and answer the attempts in order. */
  ghost predicate Obtained(got: seq<Response?>, outcomes: seq<Outcome>) {
    && |got| <= |outcomes|
    && (forall i :: 0 <= i < |got| ==>
          if outcomes[i].Answered? then got[i] != null && got[i].status == outcomes[i].status
          else got[i] == null)
    && (forall i, j :: 0 <= i < j < |got| && got[i] != null ==> got[i] != got[j])
  }

  /** Every response obtained was drain-closed exactly once, except the one kept, which is open. */
  ghost predicate ClosedOnceExcept(got: seq<Response?>, kept: Response?)
    reads Objects(got)
  {
    && (kept != null ==> kept in got)
    && forall r: Response :: r in got ==> r.closes == if r == kept then 0 else 1
  }

  ghost function Objects(got: seq<Response?>): set<Response> {
    set r: Response | r in got
  }

  /** Drain-closes the kept response, in favour of the next one when there is one. */
  method CloseKept(ghost got: seq<Response?>, kept: Response?, ghost next: Response?)
    requires ClosedOnceExcept(got, kept)
    requires next != null ==> next !in got && next.closes == 0
    modifies if kept == null then {} else {kept}
    ensures ClosedOnceExcept(if next == null then got else got + [next], next)
  {
    DrainClose(kept);
  }

  lemma ObtainNext(got: seq<Response?>, outcomes: seq<Outcome>, r: Response?)
    requires Obtained(got, outcomes) && |got| < |outcomes|
    requires r != null ==> r !in got
    requires if outcomes[|got|].Answered? then r != null && r.status == outcomes[|got|].status else r == null
    ensures Obtained(got + [r], outcomes)
    ensures Objects(got + [r]) == if r == null then Objects(got) else Objects(got) + {r}
  {}

  class Connection {
    const endpoints: seq<string>
    var index: nat

    ghost predicate Valid()
      reads this
    {
      endpoints != [] && |endpoints| < WRAP && index < WRAP
    }

    /**
     * One call: round-robin from the cursor, failing over on transport errors
     * and 5xx responses. A single endpoint takes a path of its own, which does
     * not look at the context nor move the cursor.
     */
    method Do(outcomes: seq<Outcome>, doneAt: nat, ctxError: string)
      returns (resp: Response?, err: Option<string>, reported: Option<string>,
        ghost got: seq<Response?>, ghost tried: seq<string>)
      requires Valid() && |outcomes| == |endpoints|
      modifies this
      ensures Valid()
      ensures index == if |endpoints| == 1 then old(index) else (old(index) + 1) % WRAP
      ensures fresh(Objects(got))
      ensures Obtained(got, outcomes) && ClosedOnceExcept(got, resp)
      ensures Delivers(outcomes, if |endpoints| == 1 then 1 else doneAt, ctxError, old(index), resp, err, reported, got)
      ensures tried == TriedFrom(old(index), |got|)
    {
      if |endpoints| == 1 {
        resp, err, reported, got, tried := DoSingle(outcomes);
      } else {
        resp, err, reported, got, tried := DoMany(outcomes, doneAt, ctxError);
      }
    }

    method DoSingle(outcomes: seq<Outcome>)
      returns (resp: Response?, err: Option<string>, reported: Option<string>,
        ghost got: seq<Response?>, ghost tried: seq<string>)
      requires Valid() && |outcomes| == |endpoints| == 1
      ensures fresh(Objects(got))
      ensures Obtained(got, outcomes) && ClosedOnceExcept(got, resp)
      ensures Delivers(outcomes, 1, "", index, resp, err, reported, got)
      ensures tried == TriedFrom(index, |got|)
    {
      resp, err := Attempt(outcomes[0]);
      got, tried := [resp], [endpoints[0]];
      reported := Some(endpoints[0]);
      assert FirstGood(outcomes, 0) == None && LastRetryable(outcomes, 0) == None;
      assert Address(index, 0, 1) == 0;
    }

    /** What a call answers and reports agrees with the contract. */
    ghost predicate Delivers(outcomes: seq<Outcome>, doneAt: nat, ctxError: string, start: nat,
      resp: Response?, err: Option<string>, reported: Option<string>, got: seq<Response?>)
      requires endpoints != []
    {
      && |got| == Attempts(outcomes, doneAt)
      && match Expected(outcomes, doneAt)
         case Delivered(i) =>
           && resp != null && i < |got| && resp == got[i] && err == None
           && reported == Some(EndpointOf(start, i))
         case Cancelled => resp == null && err == Some(ctxError) && reported == None
         case Failed(e) =>
           && resp == null && err == Some(e)
           && reported == Some(EndpointOf(start, |endpoints| - 1))
    }

    method DoMany(outcomes: seq<Outcome>, doneAt: nat, ctxError: string)
      returns (resp: Response?, err: Option<string>, reported: Option<string>,
        ghost got: seq<Response?>, ghost tried: seq<string>)
      requires Valid() && |outcomes| == |endpoints|
      modifies this
      ensures Valid() && index == (old(index) + 1) % WRAP
      ensures fresh(Objects(got))
      ensures Obtained(got, outcomes) && ClosedOnceExcept(got, resp)
      ensures Delivers(outcomes, doneAt, ctxError, old(index), resp, err, reported, got)
      ensures tried == TriedFrom(old(index), |got|)
    {
      var start := index;
      index := (index + 1) % WRAP;
      resp, err, reported, got, tried := TryInTurn(outcomes, doneAt, ctxError, start);
    }

    /** The loop over the window of a ticket. */
    method TryInTurn(outcomes: seq<Outcome>, doneAt: nat, ctxError: string, start: nat)
      returns (resp: Response?, err: Option<string>, reported: Option<string>,
        ghost got: seq<Response?>, ghost tried: seq<string>)
      requires endpoints != [] && |outcomes| == |endpoints|
      ensures fresh(Objects(got))
      ensures Obtained(got, outcomes) && ClosedOnceExcept(got, resp)
      ensures Delivers(outcomes, doneAt, ctxError, start, resp, err, reported, got)
      ensures tried == TriedFrom(start, |got|)
    {
      resp, err, reported, got, tried := null, None, None, [], [];
      var count := |endpoints|;
      var lastResp: Response? := null;
      var lastErr := "";
      var lastEndpoint, endpoint := "", "";

      for i := 0 to count
        invariant resp == null && err == None && reported == None
        invariant |got| == i && i <= doneAt && tried == TriedFrom(start, i)
        invariant fresh(Objects(got)) && (lastResp != null ==> fresh(lastResp))
        invariant Obtained(got, outcomes) && ClosedOnceExcept(got, lastResp)
        invariant FirstGood(outcomes, i) == None
        invariant Retained(outcomes, start, i, got, lastResp, lastEndpoint)
        invariant lastErr == LastFault(outcomes, i)
        invariant i > 0 ==> endpoint == EndpointOf(start, i - 1)
      {
        if i >= doneAt {
          CloseKept(got, lastResp, null);
          err := Some(ctxError);
          CancelDelivers(outcomes, doneAt, ctxError, start, got);
          return;
        }
        endpoint := EndpointOf(start, i);
        tried := tried + [endpoint];
        resp, lastResp, lastEndpoint, lastErr, got :=
          TryEndpoint(outcomes, i, start, endpoint, lastResp, lastEndpoint, lastErr, got);
        if resp != null {
          reported := Some(endpoint);
          GoodDelivers(outcomes, doneAt, ctxError, start, i, resp, got);
          return;
        }
      }
      AllFailed(outcomes, doneAt, ctxError, start, got, lastResp, lastEndpoint);
      if lastResp != null {
        reported := Some(lastEndpoint);
        resp := lastResp;
        return;
      }
      reported := Some(endpoint);
      err := Some(lastErr);
    }

    /** The context was done before the next attempt, and no good response came before. */
    lemma CancelDelivers(outcomes: seq<Outcome>, doneAt: nat, ctxError: string, start: nat, got: seq<Response?>)
      requires endpoints != [] && |outcomes| == |endpoints| && |got| == doneAt < |outcomes|
      requires FirstGood(outcomes, doneAt) == None
      ensures Delivers(outcomes, doneAt, ctxError, start, null, Some(ctxError), None, got)
    {}

    /** Every endpoint failed: the last 5xx response is what the call answers, or else the last transport error. */
    lemma AllFailed(outcomes: seq<Outcome>, doneAt: nat, ctxError: string, start: nat, got: seq<Response?>,
      lastResp: Response?, lastEndpoint: string)
      requires endpoints != [] && |outcomes| == |endpoints| == |got| <= doneAt
      requires FirstGood(outcomes, |outcomes|) == None
      requires Retained(outcomes, start, |outcomes|, got, lastResp, lastEndpoint)
      ensures lastResp != null ==> Delivers(outcomes, doneAt, ctxError, start, lastResp, None, Some(lastEndpoint), got)
      ensures lastResp == null ==>
        Delivers(outcomes, doneAt, ctxError, start, null, Some(LastFault(outcomes, |outcomes|)),
                 Some(EndpointOf(start, |endpoints| - 1)), got)
    {}

    function EndpointOf(start: nat, i: nat): string
      requires endpoints != []
    {
      endpoints[Address(start, i, |endpoints|)]
    }

    /** A good response at attempt i, with none before it, is what the call answers. */
    lemma GoodDelivers(outcomes: seq<Outcome>, doneAt: nat, ctxError: string, start: nat, i: nat, resp: Response?, got: seq<Response?>)
      requires endpoints != [] && |outcomes| == |endpoints| && i < |outcomes| && i < doneAt
      requires FirstGood(outcomes, i) == None && Good(outcomes[i])
      requires |got| == i + 1 && resp != null && resp == got[i]
      ensures Delivers(outcomes, doneAt, ctxError, start, resp, None, Some(EndpointOf(start, i)), got)
    {
      FirstGoodStays(outcomes, i, if doneAt < |outcomes| then doneAt else |outcomes|);
    }

    /** The endpoints of a call's first n attempts. */
    ghost function TriedFrom(start: nat, n: nat): seq<string>
      requires endpoints != []
    {
      if n == 0 then [] else TriedFrom(start, n - 1) + [EndpointOf(start, n - 1)]
    }

    /** They are those at the addresses of the window that the call's ticket opens. */
    lemma {:induction false} TriedIsWindow(start: nat, n: nat)
      requires endpoints != []
      ensures |TriedFrom(start, n)| == n
      ensures forall i :: 0 <= i < n ==> TriedFrom(start, n)[i] == endpoints[Window(start, n, |endpoints|)[i]]
      decreases n
    {
      if n > 0 {
        TriedIsWindow(start, n - 1);
        forall i | 0 <= i < n - 1 ensures Window(start, n, |endpoints|)[i] == Window(start, n - 1, |endpoints|)[i] {
        }
      }
    }

    /** The response kept for the caller is the last 5xx so far, with its endpoint. */
    ghost predicate Retained(outcomes: seq<Outcome>, start: nat, i: nat, got: seq<Response?>,
      lastResp: Response?, lastEndpoint: string)
      requires endpoints != [] && i <= |outcomes| && i <= |got|
    {
      match LastRetryable(outcomes, i)
      case Some(k) => lastResp != null && lastResp == got[k] && lastEndpoint == EndpointOf(start, k)
      case None => lastResp == null
    }

    /** One round of the loop; the first result is the response that ends it, if any. */
    method TryEndpoint(outcomes: seq<Outcome>, i: nat, ghost start: nat, endpoint: string,
      kept: Response?, keptEndpoint: string, keptErr: string, ghost got: seq<Response?>)
      returns (resp: Response?, lastResp: Response?, lastEndpoint: string, lastErr: string, ghost next: seq<Response?>)
      requires endpoints != [] && i < |outcomes| && |got| == i && endpoint == EndpointOf(start, i)
      requires Obtained(got, outcomes) && ClosedOnceExcept(got, kept)
      requires Retained(outcomes, start, i, got, kept, keptEndpoint) && keptErr == LastFault(outcomes, i)
      modifies if kept == null then {} else {kept}
      ensures |next| == i + 1 && fresh(Objects(next) - Objects(got))
      ensures lastResp == kept || (lastResp != null && fresh(lastResp))
      ensures Obtained(next, outcomes)
      ensures resp != null <==> Good(outcomes[i])
      ensures resp != null ==> resp == next[i] && ClosedOnceExcept(next, resp)
      ensures resp == null ==>
        && ClosedOnceExcept(next, lastResp)
        && Retained(outcomes, start, i + 1, next, lastResp, lastEndpoint)
        && lastErr == LastFault(outcomes, i + 1)
    {
      resp, lastResp, lastEndpoint, lastErr := null, kept, keptEndpoint, keptErr;
      var r, err := Attempt(outcomes[i]);
      ObtainNext(got, outcomes, r);
      next := got + [r];
      if err == None && r.status < 500 {
        CloseKept(got, lastResp, r);
        resp := r;
        return;
      }
      if err.Some? {
        lastErr := err.value;
        return;
      }
      CloseKept(got, lastResp, r);
      lastResp, lastEndpoint := r, endpoint;
    }
  }

  method Attempt(o: Outcome) returns (resp: Response?, err: Option<string>)
    ensures o.Answered? ==> err == None && resp != null && fresh(resp) && resp.status == o.status && resp.closes == 0
    ensures o.Faulted? ==> err == Some(o.error) && resp == null
  {
    match o {
      case Answered(status) =>
        resp := new Response(status);
        err := None;
      case Faulted(error) =>
        resp, err := null, Some(error);
    }
  }

  lemma {:induction false} FirstGoodStays(outcomes: seq<Outcome>, i: nat, n: nat)
    requires i < n <= |outcomes| && Good(outcomes[i]) && FirstGood(outcomes, i) == None
    ensures FirstGood(outcomes, n) == Some(i)
  {
    if n > i + 1 {
      FirstGoodStays(outcomes, i, n - 1);
    }
  }

  /**
   * The single-endpoint path is the general loop for one endpoint, except that
   * it does not look at the context: the two agree exactly while the context is live.
   */
  lemma SinglePathIff(o: Outcome, doneAt: nat)
    ensures Expected([o], doneAt) == Expected([o], 1) <==> doneAt > 0
  {
    assert FirstGood([o], 0) == None && LastRetryable([o], 0) == None;
  }

  /**
   * The contract in terms of the outcomes alone, whenever the context is done: the
   * first response below 500 that comes before that; else a cancellation, if there
   * was an endpoint left; else the last 5xx response; else the last transport error.
   */
  lemma ContractMeans(outcomes: seq<Outcome>, doneAt: nat)
    ensures match Expected(outcomes, doneAt)
      case Delivered(i) =>
        && i < |outcomes| && outcomes[i].Answered?
        && (outcomes[i].status < 500 ==>
              && i < doneAt && Attempts(outcomes, doneAt) == i + 1
              && forall k :: 0 <= k < i ==> outcomes[k].Faulted? || outcomes[k].status >= 500)
        && (outcomes[i].status >= 500 ==>
              && doneAt >= |outcomes| == Attempts(outcomes, doneAt)
              && (forall k :: 0 <= k < |outcomes| ==> outcomes[k].Faulted? || outcomes[k].status >= 500)
              && forall k :: i < k < |outcomes| ==> outcomes[k].Faulted?)
      case Cancelled =>
        && doneAt < |outcomes| && Attempts(outcomes, doneAt) == doneAt
        && forall k :: 0 <= k < doneAt ==> outcomes[k].Faulted? || outcomes[k].status >= 500
      case Failed(e) =>
        && doneAt >= |outcomes| == Attempts(outcomes, doneAt)
        && (forall k :: 0 <= k < |outcomes| ==> outcomes[k].Faulted?)
        && (outcomes != [] ==> e == outcomes[|outcomes| - 1].error)
  {
    var n := if doneAt < |outcomes| then doneAt else |outcomes|;
    assert forall k :: 0 <= k < |outcomes| ==>
      (Good(outcomes[k]) <==> outcomes[k].Answered? && outcomes[k].status < 500)
      && (Retryable(outcomes[k]) <==> outcomes[k].Answered? && outcomes[k].status >= 500);
    if FirstGood(outcomes, n).None? && doneAt >= |outcomes| && outcomes != [] && LastRetryable(outcomes, |outcomes|).None? {
      assert outcomes[|outcomes| - 1].Faulted?;
    }
  }

  /** With a live context: a good answer if there is one, else the last 5xx, else the last error; never a cancellation. */
  lemma LiveContract(outcomes: seq<Outcome>, doneAt: nat)
    requires outcomes != [] && doneAt >= |outcomes|
    ensures match Expected(outcomes, doneAt)
      case Delivered(i) =>
        && i < |outcomes| && outcomes[i].Answered?
        && (Good(outcomes[i]) ==> forall k :: 0 <= k < i ==> !Good(outcomes[k]))
        && (Retryable(outcomes[i]) ==>
              && (forall k :: 0 <= k < |outcomes| ==> !Good(outcomes[k]))
              && (forall k :: i < k < |outcomes| ==> outcomes[k].Faulted?))
      case Failed(e) =>
        && (forall k :: 0 <= k < |outcomes| ==> outcomes[k].Faulted?)
        && e == outcomes[|outcomes| - 1].error
      case Cancelled => false
    ensures Attempts(outcomes, doneAt) <= |outcomes|
  {
    var n := |outcomes|;
    assert forall k :: 0 <= k < n ==> Good(outcomes[k]) || Retryable(outcomes[k]) || outcomes[k].Faulted?;
    if FirstGood(outcomes, n).None? && LastRetryable(outcomes, n).None? {
      assert outcomes[n - 1].Faulted?;
    }
  }
}
