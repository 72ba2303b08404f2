/**
 * The round-robin cursor: an unsigned 64-bit counter that wraps, shared by
 * concurrent calls, each of which visits the endpoints from its own ticket on.
 */
module RoundRobin {
  import opened Options
  import opened Arithmetic

  const WRAP: int := 0x1_0000_0000_0000_0000

  /** The endpoint of attempt i: 64-bit addition, then the remainder. */
  function Address(start: nat, i: nat, count: nat): (a: nat)
    requires count > 0
    ensures a < count
  {
    (start + i) % WRAP % count
  }

  /** Below the wrap nothing is cut off. */
  lemma SmallAddress(x: nat, c: nat)
    requires c > 0 && x < WRAP
    ensures x % WRAP == x && Address(x, 0, c) == x % c
  {
    RemainderIs(x, 0, WRAP, x);
  }

  // ---- One call visits every endpoint exactly when the window is regular ----

  ghost predicate VisitsTwice(start: nat, count: nat)
    requires count > 0
  {
    exists i, j :: 0 <= i < j < count && Address(start, i, count) == Address(start, j, count)
  }

  ghost predicate VisitsAll(start: nat, count: nat)
    requires count > 0
  {
    forall e :: 0 <= e < count ==> Visits(start, count, e)
  }

  ghost predicate Visits(start: nat, count: nat, e: nat)
    requires count > 0
  {
    exists i :: 0 <= i < count && Address(start, i, count) == e
  }

  ghost predicate Permutes(start: nat, count: nat)
    requires count > 0
  {
    VisitsAll(start, count) && !VisitsTwice(start, count)
  }

  /** Within a regular window the address is the plain remainder of the running sum. */
  lemma RegularAddress(start: nat, i: nat, count: nat)
    requires 0 < count < WRAP && start < WRAP && i < count
    requires start + count <= WRAP || WRAP % count == 0
    ensures Address(start, i, count) == (start + i) % count
  {
    var x := start + i;
    if x < WRAP {
      RemainderIs(x, 0, WRAP, x);
    } else {
      RemainderIs(x, 1, WRAP, x - WRAP);
      var q, k := (x - WRAP) / count, WRAP / count;
      assert x == q * count + (x - WRAP) % count + k * count;
      assert q * count + k * count == (q + k) * count;
      RemainderIs(x, q + k, count, (x - WRAP) % count);
    }
  }

  lemma RegularWindowPermutes(start: nat, count: nat)
    requires 0 < count < WRAP && start < WRAP
    requires start + count <= WRAP || WRAP % count == 0
    ensures Permutes(start, count)
  {
    forall i, j | 0 <= i < j < count ensures Address(start, i, count) != Address(start, j, count) {
      RegularAddress(start, i, count);
      RegularAddress(start, j, count);
      if (start + i) % count == (start + j) % count {
        SameRemainder(start + i, start + j, count);
      }
    }
    forall e | 0 <= e < count ensures Visits(start, count, e) {
      var r := start % count;
      var i := if e >= r then e - r else e - r + count;
      RegularAddress(start, i, count);
      var q := start / count;
      if e >= r {
        RemainderIs(start + i, q, count, e);
      } else {
        assert (q + 1) * count == q * count + count;
        RemainderIs(start + i, q + 1, count, e);
      }
    }
  }

  /** The addresses of the first n attempts, without the one skipped. */
  function AddressesBut(start: nat, count: nat, n: nat, skip: nat): (s: set<nat>)
    requires count > 0
    ensures |s| <= if skip < n then n - 1 else n
    ensures forall i :: 0 <= i < n && i != skip ==> Address(start, i, count) in s
  {
    if n == 0 then {}
    else
      var s := AddressesBut(start, count, n - 1, skip);
      if n - 1 == skip then s else s + {Address(start, n - 1, count)}
  }

  lemma {:induction false} AtLeast(n: nat, s: set<nat>)
    requires forall e: nat :: e < n ==> e in s
    ensures |s| >= n
    decreases n
  {
    if n > 0 {
      AtLeast(n - 1, s - {n - 1});
    }
  }

  /** With as many attempts as endpoints, a repeat means that an endpoint is missed. */
  lemma RepeatMisses(start: nat, count: nat)
    requires count > 0 && VisitsTwice(start, count)
    ensures !VisitsAll(start, count)
  {
    var i, j :| 0 <= i < j < count && Address(start, i, count) == Address(start, j, count);
    var s := AddressesBut(start, count, count, j);
    if VisitsAll(start, count) {
      forall e: nat | e < count ensures e in s {
        assert Visits(start, count, e);
        var a :| 0 <= a < count && Address(start, a, count) == e;
        assert Address(start, if a == j then i else a, count) in s;
      }
      AtLeast(count, s);
    }
  }

  /** Across the wrap, some endpoint is visited before it and again after it, and so another one is never visited. */
  lemma IrregularWindowRepeats(start: nat, count: nat)
    requires 0 < count < WRAP && start < WRAP
    requires start + count > WRAP && WRAP % count != 0
    ensures VisitsTwice(start, count) && !VisitsAll(start, count)
  {
    var k := WRAP - start;
    var r := WRAP % count;
    var early := if k > r then k - r else 0;
    var again := if r > k then r - k else 0;
    assert start + early == WRAP - r + again;
    RemainderIs(start + early, 0, WRAP, start + early);
    var q := WRAP / count;
    assert start + early == q * count + again;
    RemainderIs(start + early, q, count, again);
    RemainderIs(start + (k + again), 1, WRAP, again);
    RemainderIs(again, 0, count, again);
    assert Address(start, early, count) == again == Address(start, k + again, count);
    RepeatMisses(start, count);
  }

  /** One call can reach every endpoint, and does so once, if and only if its window is regular. */
  lemma PermutationIff(start: nat, count: nat)
    requires 0 < count < WRAP && start < WRAP
    ensures VisitsAll(start, count) <==>
      start + count <= 0x1_0000_0000_0000_0000 || 0x1_0000_0000_0000_0000 % count == 0
    ensures Permutes(start, count) <==>
      start + count <= 0x1_0000_0000_0000_0000 || 0x1_0000_0000_0000_0000 % count == 0
  {
    if start + count <= WRAP || WRAP % count == 0 {
      RegularWindowPermutes(start, count);
    } else {
      IrregularWindowRepeats(start, count);
    }
  }

  /** Three endpoints and the last ticket before the wrap: one of the three is not reached. */
  lemma LastTicketMisses()
    ensures !VisitsAll(0xFFFF_FFFF_FFFF_FFFF, 3)
  {
    IrregularWindowRepeats(WRAP - 1, 3);
  }

  // ---- Concurrent calls ----

  /** The steps of a call: it takes its ticket, sends to one endpoint after the other, and returns. */
  datatype Step = TakeTicket(call: nat) | Send(call: nat) | Return(call: nat)

  datatype Ticket = Ticket(call: nat, value: nat)

  /** A call with its ticket and the addresses it has sent to so far. */
  datatype Call = Call(ticket: nat, sent: seq<nat>, returned: bool)

  /** The cursor, the tickets handed out by a schedule of steps in any interleaving, and the calls that took them. */
  datatype Shared = Shared(cursor: nat, tickets: seq<Ticket>, calls: map<nat, Call>)

  function Fresh(c0: nat): Shared {
    Shared(c0, [], map[])
  }

  predicate Running(s: Shared, call: nat) {
    call in s.calls && !s.calls[call].returned
  }

  /** A call takes one ticket, and sends no more often than there are endpoints. */
  predicate Enabled(s: Shared, step: Step, count: nat) {
    match step
    case TakeTicket(call) => call !in s.calls
    case Send(call) => Running(s, call) && |s.calls[call].sent| < count
    case Return(call) => Running(s, call)
  }

  function Next(s: Shared, step: Step, count: nat): Shared
    requires count > 0 && Enabled(s, step, count)
  {
    match step
    case TakeTicket(call) =>
      Shared((s.cursor + 1) % WRAP, s.tickets + [Ticket(call, s.cursor)], s.calls[call := Call(s.cursor, [], false)])
    case Send(call) =>
      var c := s.calls[call];
      s.(calls := s.calls[call := c.(sent := c.sent + [Address(c.ticket, |c.sent|, count)])])
    case Return(call) => s.(calls := s.calls[call := s.calls[call].(returned := true)])
  }

  /** The state after a schedule; None when some step in it cannot be performed. */
  function Run(s: Shared, steps: seq<Step>, count: nat): Option<Shared>
    requires count > 0
  {
    if steps == [] then Some(s)
    else
      var n := |steps| - 1;
      match Run(s, steps[..n], count)
      case None => None
      case Some(t) => if Enabled(t, steps[n], count) then Some(Next(t, steps[n], count)) else None
  }

  // ---- Each call keeps to its own window ----

  function Window(start: nat, n: nat, count: nat): (w: seq<nat>)
    requires count > 0
    ensures |w| == n && forall i :: 0 <= i < n ==> w[i] == Address(start, i, count)
  {
    seq(n, i requires 0 <= i < n => Address(start, i, count))
  }

  ghost predicate OwnWindow(c: Call, count: nat)
    requires count > 0
  {
    |c.sent| <= count && c.ticket < WRAP && c.sent == Window(c.ticket, |c.sent|, count)
  }

  ghost predicate Ordered(s: Shared, count: nat)
    requires count > 0
  {
    && s.cursor < WRAP
    && (forall call :: call in s.calls ==> OwnWindow(s.calls[call], count))
    && (forall call :: call in s.calls ==> Ticket(call, s.calls[call].ticket) in s.tickets)
    && (forall k :: 0 <= k < |s.tickets| ==> s.tickets[k].call in s.calls)
    && (forall j, k :: 0 <= j < k < |s.tickets| ==> s.tickets[j].call != s.tickets[k].call)
  }

  lemma StepKeepsOrder(s: Shared, step: Step, count: nat)
    requires count > 0 && Ordered(s, count) && Enabled(s, step, count)
    ensures Ordered(Next(s, step, count), count)
  {
    if step.Send? {
      var c := s.calls[step.call];
      assert c.sent + [Address(c.ticket, |c.sent|, count)] == Window(c.ticket, |c.sent| + 1, count);
    }
  }

  /** In every interleaving each call has one ticket, and has sent to the addresses from its ticket on, in order. */
  lemma {:induction false} CallsKeepToTheirWindow(c0: nat, steps: seq<Step>, count: nat)
    requires count > 0 && c0 < WRAP && Run(Fresh(c0), steps, count).Some?
    ensures Ordered(Run(Fresh(c0), steps, count).value, count)
    decreases |steps|
  {
    if steps != [] {
      var n := |steps| - 1;
      CallsKeepToTheirWindow(c0, steps[..n], count);
      StepKeepsOrder(Run(Fresh(c0), steps[..n], count).value, steps[n], count);
    }
  }

  predicate Distinct(w: seq<nat>) {
    forall i, j :: 0 <= i < j < |w| ==> w[i] != w[j]
  }

  /**
   * In every interleaving: a call whose window is regular never sends twice to an
   * endpoint, and a call that has used up its attempts did so to none if and only if it is.
   */
  lemma NoEndpointTwice(c0: nat, steps: seq<Step>, count: nat, call: nat)
    requires 0 < count < WRAP && c0 < WRAP && Run(Fresh(c0), steps, count).Some?
    requires call in Run(Fresh(c0), steps, count).value.calls
    ensures
      var c := Run(Fresh(c0), steps, count).value.calls[call];
      var regular := c.ticket + count <= WRAP || WRAP % count == 0;
      && (regular ==> Distinct(c.sent))
      && (|c.sent| == count ==> (Distinct(c.sent) <==> regular))
  {
    CallsKeepToTheirWindow(c0, steps, count);
    var c := Run(Fresh(c0), steps, count).value.calls[call];
    assert OwnWindow(c, count);
    PermutationIff(c.ticket, count);
    if c.ticket + count <= WRAP || WRAP % count == 0 {
      DistinctUnlessTwice(c, count);
    } else {
      IrregularWindowRepeats(c.ticket, count);
      var i, j :| 0 <= i < j < count && Address(c.ticket, i, count) == Address(c.ticket, j, count);
      assert |c.sent| == count ==> c.sent[i] == c.sent[j];
    }
  }

  lemma DistinctUnlessTwice(c: Call, count: nat)
    requires count > 0 && OwnWindow(c, count) && !VisitsTwice(c.ticket, count)
    ensures Distinct(c.sent)
  {
    forall i, j | 0 <= i < j < |c.sent| ensures c.sent[i] != c.sent[j] {
      assert Address(c.ticket, i, count) != Address(c.ticket, j, count);
    }
  }

  /** The steps of one call that makes n attempts. */
  function CallSteps(call: nat, n: nat): seq<Step> {
    [TakeTicket(call)] + seq(n, i => Send(call))
  }

  /** The state after that call, when it alone has run. */
  function AfterCall(start: nat, call: nat, n: nat, count: nat): Shared
    requires count > 0
  {
    Shared((start + 1) % WRAP, [Ticket(call, start)], map[call := Call(start, Window(start, n, count), false)])
  }

  /** One such call by itself is a schedule that moves the cursor by one and sends to the window of its start. */
  lemma {:induction false} CallIsRun(start: nat, call: nat, n: nat, count: nat)
    requires 0 < count && n <= count
    ensures Run(Fresh(start), CallSteps(call, n), count) == Some(AfterCall(start, call, n, count))
  {
    var steps := CallSteps(call, n);
    if n == 0 {
      assert steps == [TakeTicket(call)] && steps[..0] == [];
      assert Window(start, 0, count) == [];
      assert Run(Fresh(start), steps[..0], count) == Some(Fresh(start));
      assert Next(Fresh(start), TakeTicket(call), count) == AfterCall(start, call, 0, count);
    } else {
      CallIsRun(start, call, n - 1, count);
      assert steps[..|steps| - 1] == CallSteps(call, n - 1) && steps[|steps| - 1] == Send(call);
      SendExtends(start, call, n - 1, count);
    }
  }

  lemma SendExtends(start: nat, call: nat, n: nat, count: nat)
    requires 0 < count && n < count
    ensures Enabled(AfterCall(start, call, n, count), Send(call), count)
    ensures Next(AfterCall(start, call, n, count), Send(call), count) == AfterCall(start, call, n + 1, count)
  {
    assert Window(start, n + 1, count) == Window(start, n, count) + [Address(start, n, count)];
  }

  // ---- The cursor is shared fairly ----

  /** How many tickets try endpoint e first. */
  function FirstTries(tickets: seq<Ticket>, count: nat, e: nat): nat
    requires count > 0
  {
    if tickets == [] then 0
    else
      FirstTries(tickets[..|tickets| - 1], count, e)
      + if Address(tickets[|tickets| - 1].value, 0, count) == e then 1 else 0
  }

  /** Before the cursor wraps, tickets count up from where it stood. */
  lemma {:induction false} TicketsCountUp(c0: nat, steps: seq<Step>, count: nat)
    requires count > 0 && Run(Fresh(c0), steps, count).Some?
    requires c0 + |Run(Fresh(c0), steps, count).value.tickets| < WRAP
    ensures
      var s := Run(Fresh(c0), steps, count).value;
      && s.cursor == c0 + |s.tickets|
      && forall k :: 0 <= k < |s.tickets| ==> s.tickets[k].value == c0 + k
    decreases |steps|
  {
    if steps != [] {
      var init := Run(Fresh(c0), steps[..|steps| - 1], count).value;
      TicketsCountUp(c0, steps[..|steps| - 1], count);
      if steps[|steps| - 1].TakeTicket? {
        SmallAddress(init.cursor + 1, 1);
      }
    }
  }

  /** The numbers below x that leave remainder e. */
  function Hits(x: nat, c: nat, e: nat): int
    requires c > 0 && e < c
  {
    (x + c - 1 - e) / c
  }

  lemma HitsStep(x: nat, c: nat, e: nat)
    requires c > 0 && e < c
    ensures Hits(x + 1, c, e) == Hits(x, c, e) + if x % c == e then 1 else 0
  {
    var q, r := x / c, x % c;
    assert x == q * c + r;
    assert (q + 1) * c == q * c + c;
    QuotientIs(x + c - 1 - e, if r <= e then q else q + 1, c);
    QuotientIs(x + c - e, if r < e then q else q + 1, c);
  }

  lemma QuotientIs(x: int, q: int, c: nat)
    requires q * c <= x < q * c + c
    ensures x / c == q
  {
    DivisionIs(x, q, c, x - q * c);
  }

  lemma {:induction false} FirstTriesAreHits(c0: nat, tickets: seq<Ticket>, c: nat, e: nat)
    requires c > 0 && e < c && c0 + |tickets| < WRAP
    requires forall k :: 0 <= k < |tickets| ==> tickets[k].value == c0 + k
    ensures FirstTries(tickets, c, e) == Hits(c0 + |tickets|, c, e) - Hits(c0, c, e)
    decreases |tickets|
  {
    if tickets != [] {
      var n := |tickets| - 1;
      FirstTriesAreHits(c0, tickets[..n], c, e);
      HitsStep(c0 + n, c, e);
      SmallAddress(c0 + n, c);
    }
  }

  lemma HitsBounds(x: nat, n: nat, c: nat, e: nat)
    requires c > 0 && e < c
    ensures n / c <= Hits(x + n, c, e) - Hits(x, c, e) <= n / c + 1
  {
    var a := x + c - 1 - e;
    var qa, ra, qn, rn := a / c, a % c, n / c, n % c;
    assert a + n == (qa * c + qn * c) + ra + rn;
    assert qa * c + qn * c == (qa + qn) * c;
    assert (qa + qn + 1) * c == (qa + qn) * c + c;
    QuotientIs(a + n, if ra + rn < c then qa + qn else qa + qn + 1, c);
  }

  /**
   * However concurrent calls interleave, before the cursor wraps their tickets
   * are distinct and no endpoint is tried first more than once more often than another.
   */
  lemma FairUnderInterleaving(c0: nat, steps: seq<Step>, count: nat)
    requires count > 0 && Run(Fresh(c0), steps, count).Some?
    requires c0 + |Run(Fresh(c0), steps, count).value.tickets| < WRAP
    ensures
      var tickets := Run(Fresh(c0), steps, count).value.tickets;
      && (forall i, j :: 0 <= i < j < |tickets| ==> tickets[i].value != tickets[j].value)
      && (forall e, f :: 0 <= e < count && 0 <= f < count ==>
            FirstTries(tickets, count, e) <= FirstTries(tickets, count, f) + 1)
  {
    var tickets := Run(Fresh(c0), steps, count).value.tickets;
    TicketsCountUp(c0, steps, count);
    forall e | 0 <= e < count
      ensures |tickets| / count <= FirstTries(tickets, count, e) <= |tickets| / count + 1
    {
      FirstTriesAreHits(c0, tickets, count, e);
      HitsBounds(c0, |tickets|, count, e);
    }
  }
}
