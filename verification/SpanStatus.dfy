/**
 * Span status in two layers over an OpenTelemetry span: the public Span, and the
 * wrapper that the tracer provider puts around every span it starts.
 */
module SpanStatus {
  import opened Options

  datatype Code = Unset | Error | Ok

  /** The total order of the section "Set Status" of the OpenTelemetry Trace API: Ok over Error over Unset. */
  function Rank(c: Code): nat {
    match c case Unset => 0 case Error => 1 case Ok => 2
  }

  /** What a span exports: its status and its exception events; after its end nothing changes. */
  datatype Export = Export(code: Code, description: string, events: seq<string>, ended: bool)

  const STARTED := Export(Unset, "", [], false)

  function WithStatus(x: Export, code: Code, msg: string): Export {
    if x.ended || Rank(code) < Rank(x.code) then x
    else x.(code := code, description := if code == Error then msg else "")
  }

  function WithEvent(x: Export, err: string): Export {
    if x.ended then x else x.(events := x.events + [err])
  }

  /** Both layers: which have seen an error, whether the inner one is there at all, and the span below. */
  datatype Layers = Layers(outer: bool, inner: bool, wrapped: bool, exported: Export)

  function New(wrapped: bool): Layers {
    Layers(false, false, wrapped, STARTED)
  }

  /** Calls on the public Span, and calls on the span below it. */
  datatype Call =
    | RecordError(msg: string, err: Option<string>)
    | End
    | SetBelow(code: Code, msg: string)
    | EndBelow

  function Below(l: Layers, code: Code, msg: string): Layers {
    l.(inner := l.inner || (l.wrapped && code == Error), exported := WithStatus(l.exported, code, msg))
  }

  function EndedBelow(l: Layers): Layers {
    var x := if l.wrapped && !l.inner then WithStatus(l.exported, Ok, "") else l.exported;
    l.(exported := x.(ended := true))
  }

  function Apply(l: Layers, c: Call): Layers {
    match c
    case RecordError(_, None) => l
    case RecordError(msg, Some(err)) =>
      Below(l.(outer := true, exported := WithEvent(l.exported, err)), Error, msg)
    case End => EndedBelow(if l.outer then l else Below(l, Ok, ""))
    case SetBelow(code, msg) => Below(l, code, msg)
    case EndBelow => EndedBelow(l)
  }

  function ApplyAll(l: Layers, calls: seq<Call>): Layers {
    if calls == [] then l else Apply(ApplyAll(l, calls[..|calls| - 1]), calls[|calls| - 1])
  }

  // ---- The objects ----

  class RawSpan {
    var code: Code
    var description: string
    var events: seq<string>
    var ended: bool

    constructor ()
      ensures Exported() == STARTED
    {
      code, description, events, ended := Unset, "", [], false;
    }

    function Exported(): Export
      reads this
    {
      Export(code, description, events, ended)
    }

    method SetStatus(newCode: Code, msg: string)
      modifies this
      ensures Exported() == WithStatus(old(Exported()), newCode, msg)
      ensures ended == old(ended) && events == old(events)
      ensures ended || (old(code) == Ok && newCode != Ok) || (old(code) == Error && newCode == Unset) ==>
        code == old(code) && description == old(description)
      ensures !ended && (newCode == Ok || (newCode == Error && old(code) != Ok)) ==>
        code == newCode && description == if newCode == Error then msg else ""
    {
      if ended || Rank(newCode) < Rank(code) {
        return;
      }
      code := newCode;
      description := if newCode == Error then msg else "";
    }

    method RecordException(err: string)
      modifies this
      ensures Exported() == WithEvent(old(Exported()), err)
    {
      if !ended {
        events := events + [err];
      }
    }

    method End()
      modifies this
      ensures Exported() == old(Exported()).(ended := true)
    {
      ended := true;
    }
  }

  /** The wrapper that sends Ok when it ends, unless an error was set through it. */
  class StatusSpan {
    const span: RawSpan
    var hasError: bool

    constructor (span: RawSpan)
      ensures this.span == span && !hasError
    {
      this.span := span;
      hasError := false;
    }

    method SetStatus(code: Code, msg: string)
      modifies this, span
      ensures hasError == (old(hasError) || code == Error)
      ensures span.Exported() == WithStatus(old(span.Exported()), code, msg)
    {
      if code == Error {
        hasError := true;
      }
      span.SetStatus(code, msg);
    }

    method End()
      modifies span
      ensures
        var x := if old(hasError) then old(span.Exported()) else WithStatus(old(span.Exported()), Ok, "");
        span.Exported() == x.(ended := true)
    {
      if !hasError {
        span.SetStatus(Ok, "");
      }
      span.End();
    }
  }

  /** What a public Span holds: nothing, a span of another provider, or a wrapped span. */
  datatype Target = NoSpan | Raw(raw: RawSpan) | Wrapped(status: StatusSpan)

  class Span {
    const span: Target
    var hasError: bool

    constructor (span: Target)
      ensures this.span == span && !hasError
    {
      this.span := span;
      hasError := false;
    }

    ghost function Footprint(): set<object> {
      match span
      case NoSpan => {this}
      case Raw(raw) => {this, raw}
      case Wrapped(status) => {this, status, status.span}
    }

    ghost function State(): Layers
      requires span != NoSpan
      reads Footprint()
    {
      match span
      case Raw(raw) => Layers(hasError, false, false, raw.Exported())
      case Wrapped(status) => Layers(hasError, status.hasError, true, status.span.Exported())
    }

    method RecordError(msg: string, err: Option<string>)
      modifies Footprint()
      ensures span == NoSpan ==> hasError == old(hasError)
      ensures span != NoSpan ==> State() == Apply(old(State()), Call.RecordError(msg, err))
    {
      if span == NoSpan || err == None {
        return;
      }
      hasError := true;
      match span {
        case Raw(raw) =>
          raw.RecordException(err.value);
          raw.SetStatus(Error, msg);
        case Wrapped(status) =>
          status.span.RecordException(err.value);
          status.SetStatus(Error, msg);
      }
    }

    method End()
      modifies Footprint()
      ensures span == NoSpan ==> hasError == old(hasError)
      ensures span != NoSpan ==> State() == Apply(old(State()), Call.End)
    {
      match span {
        case NoSpan =>
        case Raw(raw) =>
          if !hasError {
            raw.SetStatus(Ok, "");
          }
          raw.End();
        case Wrapped(status) =>
          if !hasError {
            status.SetStatus(Ok, "");
          }
          status.End();
      }
    }

    /** Calls of code that took the span out of the context and so bypasses the public layer. */
    method SetBelow(code: Code, msg: string)
      requires span != NoSpan
      modifies Footprint()
      ensures State() == Apply(old(State()), Call.SetBelow(code, msg))
    {
      match span {
        case Raw(raw) => raw.SetStatus(code, msg);
        case Wrapped(status) => status.SetStatus(code, msg);
      }
    }

    method EndBelow()
      requires span != NoSpan
      modifies Footprint()
      ensures State() == Apply(old(State()), Call.EndBelow)
    {
      match span {
        case Raw(raw) => raw.End();
        case Wrapped(status) => status.End();
      }
    }
  }

  /** A span started by the wrapped provider and handed out as a public Span. */
  method Start() returns (s: Span)
    ensures s.span.Wrapped? && s.State() == New(true)
    ensures fresh(s.Footprint())
  {
    var raw := new RawSpan();
    var status := new StatusSpan(raw);
    s := new Span(Wrapped(status));
  }

  // ---- Any sequence of calls up to the first end ----

  predicate Ends(c: Call) {
    c.End? || c.EndBelow?
  }

  /** A non-nil error was recorded through the public layer. */
  predicate Recorded(c: Call) {
    c.RecordError? && c.err.Some?
  }

  predicate Fails(c: Call) {
    Recorded(c) || (c.SetBelow? && c.code == Error)
  }

  predicate SaysOk(c: Call) {
    c.SetBelow? && c.code == Ok
  }

  ghost predicate Any(calls: seq<Call>, p: Call -> bool) {
    exists i :: 0 <= i < |calls| && p(calls[i])
  }

  /** The message of the last call that failed the span. */
  function LastMessage(calls: seq<Call>): string {
    if calls == [] then ""
    else
      var c := calls[|calls| - 1];
      if Fails(c) then c.msg else LastMessage(calls[..|calls| - 1])
  }

  /** The errors recorded through the public layer, in order. */
  function Errors(calls: seq<Call>): seq<string> {
    if calls == [] then []
    else
      var c := calls[|calls| - 1];
      Errors(calls[..|calls| - 1]) + if Recorded(c) then [c.err.value] else []
  }

  ghost predicate Open(calls: seq<Call>) {
    !Any(calls, Ends)
  }

  /** What the three kinds of call are, said without their names. */
  lemma CallsMean(calls: seq<Call>)
    ensures Any(calls, Recorded) <==> exists i :: 0 <= i < |calls| && calls[i].RecordError? && calls[i].err.Some?
    ensures Any(calls, SaysOk) <==> exists i :: 0 <= i < |calls| && calls[i].SetBelow? && calls[i].code == Ok
    ensures Any(calls, Fails) <==>
      || (exists i :: 0 <= i < |calls| && calls[i].RecordError? && calls[i].err.Some?)
      || (exists i :: 0 <= i < |calls| && calls[i].SetBelow? && calls[i].code == Error)
  {
    if i :| 0 <= i < |calls| && calls[i].RecordError? && calls[i].err.Some? {
      assert Recorded(calls[i]) && Fails(calls[i]);
    }
    if i :| 0 <= i < |calls| && calls[i].SetBelow? && calls[i].code == Ok {
      assert SaysOk(calls[i]);
    }
    if i :| 0 <= i < |calls| && calls[i].SetBelow? && calls[i].code == Error {
      assert Fails(calls[i]);
    }
  }

  /** The errors of two sequences of calls, one after the other; a nil error is none. */
  lemma {:induction false} ErrorsConcatenate(a: seq<Call>, b: seq<Call>)
    ensures Errors(a + b) == Errors(a) + Errors(b)
    decreases |b|
  {
    if b == [] {
      assert a + b == a;
    } else {
      var n := |b| - 1;
      ErrorsConcatenate(a, b[..n]);
      assert (a + b)[..|a + b| - 1] == a + b[..n] && (a + b)[|a + b| - 1] == b[n];
    }
  }

  lemma ErrorsOfOne(c: Call)
    ensures Errors([c]) == if c.RecordError? && c.err.Some? then [c.err.value] else []
  {
    assert [c][..0] == [];
  }

  /** The last message is that of the last call that failed the span, on either layer. */
  lemma {:induction false} LastMessageIs(calls: seq<Call>, i: nat)
    requires i < |calls| && Fails(calls[i]) && forall j :: i < j < |calls| ==> !Fails(calls[j])
    ensures LastMessage(calls) == calls[i].msg
    decreases |calls|
  {
    if i < |calls| - 1 {
      LastMessageIs(calls[..|calls| - 1], i);
    }
  }

  lemma LastOrBefore(calls: seq<Call>, p: Call -> bool)
    requires calls != []
    ensures Any(calls, p) <==> Any(calls[..|calls| - 1], p) || p(calls[|calls| - 1])
  {
    var n := |calls| - 1;
    if i :| 0 <= i < n && p(calls[..n][i]) {
      assert p(calls[i]);
    }
    if i :| 0 <= i < |calls| && p(calls[i]) {
      assert i < n ==> p(calls[..n][i]);
    }
  }

  /** Before any end the state says exactly which kinds of call there were. */
  lemma {:induction false} BeforeEnd(wrapped: bool, calls: seq<Call>)
    requires Open(calls)
    ensures
      var l := ApplyAll(New(wrapped), calls);
      && l.wrapped == wrapped && !l.exported.ended
      && (l.outer <==> Any(calls, Recorded))
      && (l.inner <==> wrapped && Any(calls, Fails))
      && l.exported.code == (if Any(calls, SaysOk) then Ok else if Any(calls, Fails) then Error else Unset)
      && l.exported.description == (if l.exported.code == Error then LastMessage(calls) else "")
      && l.exported.events == Errors(calls)
    decreases |calls|
  {
    if calls != [] {
      var n := |calls| - 1;
      LastOrBefore(calls, Ends);
      LastOrBefore(calls, Recorded);
      LastOrBefore(calls, Fails);
      LastOrBefore(calls, SaysOk);
      BeforeEnd(wrapped, calls[..n]);
    }
  }

  lemma {:induction false} AfterEnd(l: Layers, calls: seq<Call>)
    requires l.exported.ended
    ensures ApplyAll(l, calls).exported == l.exported
    decreases |calls|
  {
    if calls != [] {
      AfterEnd(l, calls[..|calls| - 1]);
    }
  }

  lemma {:induction false} ApplyAppend(l: Layers, a: seq<Call>, b: seq<Call>)
    ensures ApplyAll(l, a + b) == ApplyAll(ApplyAll(l, a), b)
    decreases |b|
  {
    if b == [] {
      assert a + b == a;
    } else {
      ApplyAppend(l, a, b[..|b| - 1]);
      assert (a + b)[..|a + b| - 1] == a + b[..|b| - 1];
    }
  }

  /** What is exported: the calls, then an end of either layer, then anything at all. */
  ghost function Final(wrapped: bool, calls: seq<Call>, end: Call, later: seq<Call>): Export
    requires Ends(end)
  {
    ApplyAll(New(wrapped), calls + [end] + later).exported
  }

  lemma FinalIsAtEnd(wrapped: bool, calls: seq<Call>, end: Call, later: seq<Call>)
    requires Ends(end)
    ensures Final(wrapped, calls, end, later) == Apply(ApplyAll(New(wrapped), calls), end).exported
  {
    ApplyAppend(New(wrapped), calls + [end], later);
    ApplyAppend(New(wrapped), calls, [end]);
    assert [end][..0] == [];
    assert ApplyAll(ApplyAll(New(wrapped), calls), [end]) == Apply(ApplyAll(New(wrapped), calls), end);
    AfterEnd(Apply(ApplyAll(New(wrapped), calls), end), later);
  }

  ghost predicate Public(calls: seq<Call>) {
    forall i :: 0 <= i < |calls| ==> calls[i].RecordError?
  }

  lemma PublicMeans(calls: seq<Call>)
    requires Public(calls)
    ensures Any(calls, Recorded) <==> exists i :: 0 <= i < |calls| && calls[i].err.Some?
    ensures forall i :: 0 <= i < |calls| && calls[i].err.Some? && (forall j :: i < j < |calls| ==> calls[j].err.None?) ==>
      LastMessage(calls) == calls[i].msg
  {
    if i :| 0 <= i < |calls| && calls[i].err.Some? {
      assert Recorded(calls[i]);
    }
    forall i | 0 <= i < |calls| && calls[i].err.Some? && (forall j :: i < j < |calls| ==> calls[j].err.None?)
      ensures LastMessage(calls) == calls[i].msg
    {
      LastMessageIs(calls, i);
    }
  }

  /**
   * Through the public layer alone: Error exactly when a non-nil error was
   * recorded, with the last message; otherwise Ok. Every recorded error is an event.
   */
  lemma PublicStatus(wrapped: bool, calls: seq<Call>, later: seq<Call>)
    requires Public(calls)
    ensures
      var x := Final(wrapped, calls, End, later);
      && x.ended && x.events == Errors(calls)
      && x.code == (if Any(calls, Recorded) then Error else Ok)
      && x.description == (if Any(calls, Recorded) then LastMessage(calls) else "")
    ensures
      Final(wrapped, calls, End, later).code
      == if exists i :: 0 <= i < |calls| && calls[i].err.Some? then Error else Ok
    ensures forall i :: 0 <= i < |calls| && calls[i].err.Some? && (forall j :: i < j < |calls| ==> calls[j].err.None?) ==>
      Final(wrapped, calls, End, later).description == calls[i].msg
  {
    PublicMeans(calls);
    MixedStatus(wrapped, calls, later);
    BeforeEnd(wrapped, calls);
    FinalIsAtEnd(wrapped, calls, End, later);
  }

  /** Over both layers, ended by the public one: Error exactly when that layer recorded an error and nobody said Ok. */
  lemma MixedStatus(wrapped: bool, calls: seq<Call>, later: seq<Call>)
    requires Open(calls)
    ensures
      var x := Final(wrapped, calls, End, later);
      && x.code == (if Any(calls, Recorded) && !Any(calls, SaysOk) then Error else Ok)
      && x.events == Errors(calls)
  {
    BeforeEnd(wrapped, calls);
    FinalIsAtEnd(wrapped, calls, End, later);
  }

  /**
   * Ended below the public layer, by code that only knows the wrapper: Error
   * exactly when an error was set on either layer and nobody said Ok.
   */
  lemma WrapperStatus(calls: seq<Call>, later: seq<Call>)
    requires Open(calls)
    ensures
      var x := Final(true, calls, EndBelow, later);
      && x.code == (if Any(calls, Fails) && !Any(calls, SaysOk) then Error else Ok)
      && x.description == (if x.code == Error then LastMessage(calls) else "")
  {
    BeforeEnd(true, calls);
    FinalIsAtEnd(true, calls, EndBelow, later);
  }

  /** The wrapper's own end never turns a status into Ok once an error was set through it. */
  lemma WrapperNeverOverrides(calls: seq<Call>)
    requires Open(calls) && Any(calls, Fails)
    ensures
      var l := ApplyAll(New(true), calls);
      Apply(l, EndBelow).exported == l.exported.(ended := true)
  {
    BeforeEnd(true, calls);
  }

  /** The two ways to end a span agree exactly when no error was set below only. */
  lemma LayersAgreeIff(calls: seq<Call>, later: seq<Call>)
    requires Open(calls)
    ensures Final(true, calls, End, later).code == Final(true, calls, EndBelow, later).code
       <==> (Any(calls, Fails) && !Any(calls, SaysOk) ==> Any(calls, Recorded))
  {
    MixedStatus(true, calls, later);
    WrapperStatus(calls, later);
    if i :| 0 <= i < |calls| && Recorded(calls[i]) {
      assert Fails(calls[i]);
    }
  }

  /** An error set below is overridden with Ok by the end of the public layer. */
  lemma ErrorBelowIsLost(msg: string)
    ensures Final(true, [SetBelow(Error, msg)], End, []).code == Ok
    ensures Final(true, [SetBelow(Error, msg)], EndBelow, []).code == Error
  {
    var calls := [SetBelow(Error, msg)];
    assert Open(calls);
    assert Fails(calls[0]);
    MixedStatus(true, calls, []);
    WrapperStatus(calls, []);
  }

  /** A span of another provider gets a status from the public layer only. */
  lemma RawSpanStaysUnset(calls: seq<Call>, later: seq<Call>)
    requires Open(calls)
    ensures Final(false, calls, EndBelow, later).code == Unset <==> !Any(calls, Fails) && !Any(calls, SaysOk)
  {
    BeforeEnd(false, calls);
    FinalIsAtEnd(false, calls, EndBelow, later);
  }
}
