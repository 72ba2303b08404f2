/** Any number of hops: what each service finds of the event that the first one held. */
module Hops {
  import opened Options
  import opened Keys
  import opened Schema
  import opened Carried
  import opened EventSchema
  import opened FlatMapSpec
  import opened FlatMapProofs
  import opened FlatMapStability
  import opened FlatMapArbitrary
  import opened Propagation

  /** One hop: a service starts a span, and the next one receives only the baggage. */
  ghost predicate Hop(c: Codec, from: Context, to: Context) {
    to.event == None && Starts(c, from, to.baggage)
  }

  /** The context holds or spells an event with a name. */
  ghost predicate Travels(c: Codec, ctx: Context) {
    && (ctx.event.None? ==> Readable(ctx.baggage))
    && Found(c, ctx)
    && NameOf(EventOf(c, ctx)) != ""
  }

  lemma NameIsWritten(c: Codec, e: Event)
    requires NameOf(e) != ""
    ensures ToMap(c, e) != map[]
    ensures "name" in Enc(c, EVENT, e) && Enc(c, EVENT, e)["name"] == NameOf(e)
  {
    assert EVENT[NAME] == Text("name");
    assert HasKind(EVENT[NAME].kind, e[NAME]);
    EventWellFormed();
    FieldRegion(c, EVENT, e, NAME);
    JoinUnder("event", "name");
    assert Join("event", "name") in ToMap(c, e);
  }

  lemma NameIsRead(c: Codec, m: FlatMap)
    requires Allocatable(EVENT, m) && HasType(EVENT, Dec(c, EVENT, m))
    ensures "name" in m ==> NameOf(Dec(c, EVENT, m)) == m["name"]
  {
    assert EVENT[NAME] == Text("name");
    assert HasKind(EVENT[NAME].kind, Dec(c, EVENT, m)[NAME]);
  }

  /** The next service receives the level of the event as it was written, under names without brackets. */
  lemma HopCarries(c: Codec, from: Context, to: Context)
    requires Travels(c, from) && Hop(c, from, to)
    ensures Carries(Sub(to.baggage, "event"), Enc(c, EVENT, EventOf(c, from)))
  {
    var e := EventOf(c, from);
    NameIsWritten(c, e);
    PlainNames();
    ShiftCarries(to.baggage, "event", Enc(c, EVENT, e));
  }

  lemma PlainNames()
    ensures DotFree("event") && Plain("event") && DotFree("name") && Plain("name")
  {}

  /** What arrives of an event can be read, and has its name, whatever its map keys are. */
  lemma NameArrives(c: Codec, e: Event, m: FlatMap)
    requires c.Sound() && NameOf(e) != "" && Carries(m, Enc(c, EVENT, e))
    ensures Allocatable(EVENT, m) && HasType(EVENT, Dec(c, EVENT, m))
    ensures NameOf(Dec(c, EVENT, m)) == NameOf(e)
  {
    EventWellFormed();
    EventTagsPlain();
    ArrivedReads(c, EVENT, e, m);
    NameCarried(c, e, m);
    DecHasType(c, EVENT, m);
    NameIsRead(c, m);
  }

  lemma NameCarried(c: Codec, e: Event, m: FlatMap)
    requires NameOf(e) != "" && Carries(m, Enc(c, EVENT, e))
    ensures "name" in m && m["name"] == NameOf(e)
  {
    EventWellFormed();
    EventTagsPlain();
    WrittenHeads(c, EVENT, e);
    NameIsWritten(c, e);
    PlainNames();
    CarriesBelow(m, Enc(c, EVENT, e), "name");
  }

  /** A hop delivers the event in any case, and its normal form if and only if nothing was to be damaged. */
  lemma HopDeliversNormalFormIff(c: Codec, from: Context, to: Context)
    requires c.Sound() && Travels(c, from) && Hop(c, from, to)
    ensures Travels(c, to) && NameOf(EventOf(c, to)) == NameOf(EventOf(c, from))
    ensures EventOf(c, to) == Norm(c, EVENT, EventOf(c, from)) <==> Undamaged(EVENT, EventOf(c, from))
    ensures Undamaged(EVENT, EventOf(c, to)) && Clean(EVENT, EventOf(c, to))
    ensures ArrivedAs(c, EVENT, EventOf(c, from), EventOf(c, to))
  {
    var e, m := EventOf(c, from), Sub(to.baggage, "event");
    HopCarries(c, from, to);
    NameArrives(c, e, m);
    EventWellFormed();
    EventTagsPlain();
    ArrivesAsNormIff(c, EVENT, e, m);
    ArrivedIsUndamaged(c, e, m);
    DamageIsLocal(c, EVENT, e, m);
  }

  const META := 2

  /** An event with a bracket in a key of meta that is written and has no dot is one that a hop damages. */
  lemma BracketInMetaDamages(e: Event, k: string)
    requires e[META].Dict? && k in NonEmpty(e[META].entries) && DotFree(k) && !Plain(k)
    ensures !Undamaged(EVENT, e)
  {
    assert EVENT[META] == Field("meta", MapField);
    assert HasKind(EVENT[META].kind, e[META]);
    assert !UndamagedField(EVENT[META], e[META]);
  }

  lemma BracketInName()
    ensures DotFree("a]") && !Plain("a]")
  {
    var c := "a]"[1];
    assert c in "a]" && c == ']';
  }

  /** There is such an event, and it can travel. */
  lemma DamagedEvent() returns (e: Event)
    ensures NameOf(e) != "" && !Undamaged(EVENT, e)
  {
    var zeros := Zeros(EVENT);
    assert EVENT[META] == Field("meta", MapField) && EVENT[NAME] == Text("name");
    var vals := zeros[META := Dict(Some(map["a]" := "b"]))][NAME := Leaf(Str("subscribed"))];
    forall i | 0 <= i < |EVENT| ensures HasKind(EVENT[i].kind, vals[i]) {
      assert HasKind(EVENT[i].kind, zeros[i]);
    }
    e := vals;
    BracketInName();
    BracketInMetaDamages(e, "a]");
  }

  /** So the normal form of an event with such an entry never arrives. */
  lemma BracketedEntryIsLost(c: Codec, from: Context, to: Context, k: string)
    requires c.Sound() && Travels(c, from) && Hop(c, from, to)
    requires EventOf(c, from)[META].Dict? && k in NonEmpty(EventOf(c, from)[META].entries) && DotFree(k) && !Plain(k)
    ensures Travels(c, to) && EventOf(c, to) != Norm(c, EVENT, EventOf(c, from))
  {
    BracketInMetaDamages(EventOf(c, from), k);
    HopDeliversNormalFormIff(c, from, to);
  }

  lemma ArrivedIsUndamaged(c: Codec, e: Event, m: FlatMap)
    requires Carries(m, Enc(c, EVENT, e)) && Allocatable(EVENT, m)
    ensures HasType(EVENT, Dec(c, EVENT, m))
    ensures Undamaged(EVENT, Dec(c, EVENT, m)) && Clean(EVENT, Dec(c, EVENT, m))
  {
    DecHasType(c, EVENT, m);
    CarriedIsPlain(m, Enc(c, EVENT, e));
    PlainReadsUndamaged(c, EVENT, m);
  }

  /** The event as it is after n hops when nothing is damaged. */
  function AfterHops(c: Codec, e: Event, n: nat): Event {
    if n == 0 then e else if n == 1 then Norm(c, EVENT, e) else Norm(c, EVENT, Norm(c, EVENT, e))
  }

  /** The first service holds the event, and each of the others is one hop after the one before. */
  ghost predicate Journey(c: Codec, ctxs: seq<Context>, e: Event) {
    && ctxs != [] && ctxs[0].event == Some(e) && NameOf(e) != ""
    && forall j :: 0 < j < |ctxs| ==> Hop(c, ctxs[j - 1], ctxs[j])
  }

  /** Over any number of hops the event is found under its name, and its map keys have neither dot nor bracket. */
  lemma {:induction false} EventSurvivesHops(c: Codec, ctxs: seq<Context>, e: Event, i: nat)
    requires c.Sound() && Journey(c, ctxs, e) && i < |ctxs|
    ensures Travels(c, ctxs[i]) && NameOf(EventOf(c, ctxs[i])) == NameOf(e)
    ensures i > 0 ==> Undamaged(EVENT, EventOf(c, ctxs[i])) && Clean(EVENT, EventOf(c, ctxs[i]))
  {
    if i > 0 {
      EventSurvivesHops(c, ctxs, e, i - 1);
      HopDeliversNormalFormIff(c, ctxs[i - 1], ctxs[i]);
    }
  }

  /** From the second hop on the event no longer changes, whatever its map keys are. */
  lemma {:induction false} StableFromSecondHop(c: Codec, ctxs: seq<Context>, e: Event, i: nat)
    requires c.Sound() && Journey(c, ctxs, e) && 1 < i < |ctxs|
    ensures Travels(c, ctxs[1]) && Travels(c, ctxs[i])
    ensures EventOf(c, ctxs[i]) == Norm(c, EVENT, EventOf(c, ctxs[1]))
  {
    EventSurvivesHops(c, ctxs, e, 1);
    EventSurvivesHops(c, ctxs, e, i - 1);
    HopDeliversNormalFormIff(c, ctxs[i - 1], ctxs[i]);
    if i > 2 {
      StableFromSecondHop(c, ctxs, e, i - 1);
      EventWellFormed();
      CleanStableAfterOne(c, EVENT, EventOf(c, ctxs[1]));
    }
  }

  /**
   * At every hop the event is its normal form, taken once or twice, if and only if
   * every map key that is written and has no dot has no bracket either.
   */
  lemma HopsDeliverNormalFormIff(c: Codec, ctxs: seq<Context>, e: Event, i: nat)
    requires c.Sound() && Journey(c, ctxs, e) && 0 < i < |ctxs|
    ensures Travels(c, ctxs[i])
    ensures EventOf(c, ctxs[i]) == AfterHops(c, e, i) <==> Undamaged(EVENT, e)
    ensures Undamaged(EVENT, e) && Clean(EVENT, e) ==> EventOf(c, ctxs[i]) == Norm(c, EVENT, e)
  {
    EventSurvivesHops(c, ctxs, e, 0);
    EventSurvivesHops(c, ctxs, e, i);
    HopDeliversNormalFormIff(c, ctxs[0], ctxs[1]);
    if i > 1 {
      StableFromSecondHop(c, ctxs, e, i);
    }
    EventWellFormed();
    NormUndamagedIff(c, EVENT, e);
    NormUndamagedIff(c, EVENT, Norm(c, EVENT, e));
    if Clean(EVENT, e) {
      CleanStableAfterOne(c, EVENT, e);
    }
  }
}
