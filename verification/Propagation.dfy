/**
 * An event travelling from service to service: starting a span turns the event
 * found in the context into baggage, and the next service reads it back.
 */
module Propagation {
  import opened Options
  import opened BaggageKeys
  import opened Carried
  import opened Keys
  import opened Schema
  import opened FlatMapSpec
  import opened FlatMapArbitrary
  import opened EventSchema
  import FlatMapCodec

  type Event = v: seq<Value> | HasType(EVENT, v) witness Zeros(EVENT)

  /** What a context carries for this purpose: an event value, if set, and ideal baggage. */
  datatype Context = Context(event: Option<Event>, baggage: FlatMap)

  function ToMap(c: Codec, e: Event): FlatMap {
    Shift("event", Enc(c, EVENT, e))
  }

  /** The baggage asks for no slice of impossible length. */
  ghost predicate Readable(b: FlatMap) {
    Allocatable(EVENT, Sub(b, "event"))
  }

  ghost function FromMap(c: Codec, b: FlatMap): Event
    requires Readable(b)
  {
    DecHasType(c, EVENT, Sub(b, "event"));
    Dec(c, EVENT, Sub(b, "event"))
  }

  function NameOf(e: Event): string {
    assert HasKind(EVENT[NAME].kind, e[NAME]);
    e[NAME].scalar.s
  }

  /** The name is read from its key, and is empty without one. */
  lemma NameReading(c: Codec, b: FlatMap)
    requires Readable(b)
    ensures NameOf(FromMap(c, b)) == if "event.name" in b then b["event.name"] else ""
  {
    var s := Sub(b, "event");
    assert EVENT[NAME] == Text("name");
    assert Dec(c, EVENT, s)[NAME] == DecScalar(c, StringKind, s, "name");
    NameBelow(b);
  }

  lemma NameBelow(b: FlatMap)
    ensures "name" in Sub(b, "event") <==> "event.name" in b
    ensures "name" in Sub(b, "event") ==> Sub(b, "event")["name"] == b["event.name"]
  {
    assert Join("event", "name") == "event.name";
  }

  ghost predicate Found(c: Codec, ctx: Context)
    requires ctx.event.None? ==> Readable(ctx.baggage)
  {
    ctx.event.Some? || NameOf(FromMap(c, ctx.baggage)) != ""
  }

  /** The event value of the context, else the one its baggage spells. */
  ghost function EventOf(c: Codec, ctx: Context): Event
    requires ctx.event.None? ==> Readable(ctx.baggage)
  {
    if ctx.event.Some? then ctx.event.value else FromMap(c, ctx.baggage)
  }

  /** The baggage that starting a span leaves in the context. */
  ghost predicate Starts(c: Codec, ctx: Context, b: FlatMap) {
    && (ctx.event.None? ==> Readable(ctx.baggage))
    && if Found(c, ctx) && ToMap(c, EventOf(c, ctx)) != map[]
       then Carries(b, ToMap(c, EventOf(c, ctx)))
       else b == ctx.baggage
  }

  // ---- The two ends as they run ----

  method EventFromBaggage(c: Codec, b: FlatMap) returns (e: Event, ok: bool)
    requires Readable(b)
    ensures e == FromMap(c, b)
    ensures ok <==> Found(c, Context(None, b))
    ensures ok <==> NameOf(e) != ""
    ensures NameOf(e) == if "event.name" in b then b["event.name"] else ""
  {
    var m: FlatMap := map[];
    var members := b.Keys;
    while members != {}
      invariant members <= b.Keys
      invariant m == map k | k in b && k !in members :: b[k]
      decreases members
    {
      var k :| k in members;
      m := m[k := b[k]];
      members := members - {k};
    }
    assert m == b;
    NameReading(c, b);
    e := FlatMapCodec.FromFlatMap(c, EVENT, m);
    ok := NameOf(e) != "";
  }

  method EventFromContext(c: Codec, ctx: Context) returns (e: Event, ok: bool)
    requires ctx.event.None? ==> Readable(ctx.baggage)
    ensures e == EventOf(c, ctx) && (ok <==> Found(c, ctx))
    ensures ctx.event.Some? ==> ok && e == ctx.event.value
    ensures ctx.event.None? ==> (ok <==> "event.name" in ctx.baggage && ctx.baggage["event.name"] != "")
    ensures ctx.event.None? && ok ==> NameOf(e) == ctx.baggage["event.name"]
  {
    if ctx.event.None? {
      e, ok := EventFromBaggage(c, ctx.baggage);
    } else {
      e, ok := ctx.event.value, true;
    }
  }

  /** One attribute per entry of the map, and no other. */
  ghost predicate Reports(attrs: seq<(string, string)>, m: FlatMap) {
    |attrs| == |m| && forall k, v :: (k, v) in attrs <==> k in m && m[k] == v
  }

  /** Starting a span: one attribute per flat-map entry, and the event as baggage. */
  method Start(c: Codec, ctx: Context) returns (out: Context, attrs: seq<(string, string)>)
    requires ctx.event.None? ==> Readable(ctx.baggage)
    ensures out.event == ctx.event && Starts(c, ctx, out.baggage)
    ensures ctx.event.None? && ("event.name" !in ctx.baggage || ctx.baggage["event.name"] == "") ==>
      attrs == [] && out == ctx
    ensures ctx.event.Some? ==>
      var m := ToMap(c, ctx.event.value);
      Reports(attrs, m) && if m == map[] then out == ctx else Carries(out.baggage, m)
    ensures ctx.event.None? && "event.name" in ctx.baggage && ctx.baggage["event.name"] != "" ==>
      var m := ToMap(c, FromMap(c, ctx.baggage));
      Reports(attrs, m) && if m == map[] then out == ctx else Carries(out.baggage, m)
  {
    out, attrs := ctx, [];
    var e, ok := EventFromContext(c, ctx);
    if ok {
      EventWellFormed();
      var mapped := FlatMapCodec.ToFlatMap(c, EVENT, e);
      if |mapped| > 0 {
        var members;
        attrs, members := MakeMembers(mapped);
        out := Context(ctx.event, members);
      }
    }
  }

  method MakeMembers(mapped: FlatMap) returns (attrs: seq<(string, string)>, members: FlatMap)
    ensures Carries(members, mapped) && Reports(attrs, mapped)
    ensures |attrs| == |mapped| && forall k, v :: (k, v) in attrs <==> k in mapped && mapped[k] == v
  {
    attrs, members := [], map[];
    var todo := mapped.Keys;
    while todo != {}
      invariant todo <= mapped.Keys
      invariant |attrs| + |todo| == |mapped|
      invariant forall k, v :: (k, v) in attrs <==> k in mapped && k !in todo && mapped[k] == v
      invariant forall k :: k in mapped && k !in todo ==> BaggageKey(k) in members
      invariant forall bk :: bk in members ==>
        exists k :: k in mapped && BaggageKey(k) == bk && mapped[k] == members[bk]
      decreases todo
    {
      var k :| k in todo;
      attrs := attrs + [(k, mapped[k])];
      members := members[BaggageKey(k) := mapped[k]];
      todo := todo - {k};
    }
  }
}
