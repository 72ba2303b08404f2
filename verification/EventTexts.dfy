/** The flat map of an event as text, for fields of every kind. */
module EventTexts {
  import opened Options
  import opened Keys
  import opened Decimal
  import opened Schema
  import opened EventSchema
  import opened FlatMapSpec
  import opened FlatMapProofs
  import opened FlatMapTexts
  import FlatMapCodec

  // ---- A field of each kind, in any schema that has it ----

  function EventMap(c: Codec, fields: seq<Field>, vals: seq<Value>): FlatMap
    requires HasType(fields, vals)
  {
    Shift("event", Enc(c, fields, vals))
  }

  lemma StringText(c: Codec, fields: seq<Field>, vals: seq<Value>, i: nat, tag: string)
    requires WellFormed(fields) && HasType(fields, vals) && tag != "" && tag != "-"
    requires i < |fields| && fields[i] == Text(tag)
    ensures vals[i].Leaf? && vals[i].scalar.Str?
    ensures
      var m, k, s := EventMap(c, fields, vals), "event" + "." + tag, vals[i].scalar.s;
      (k in m <==> s != "") && (s != "" ==> m[k] == s)
  {
    assert HasKind(fields[i].kind, vals[i]);
    ScalarText(c, tag, StringKind, vals[i].scalar);
    FieldKeys(c, fields, vals, i, "event", fields[i], EncField(c, fields[i], vals[i]));
  }

  lemma BoolPtrText(c: Codec, fields: seq<Field>, vals: seq<Value>, i: nat, tag: string)
    requires WellFormed(fields) && HasType(fields, vals) && tag != "" && tag != "-"
    requires i < |fields| && fields[i] == Field(tag, ScalarField(BoolPtrKind))
    ensures vals[i].Leaf? && vals[i].scalar.BoolPtr?
    ensures
      var m, k, p := EventMap(c, fields, vals), "event" + "." + tag, vals[i].scalar.p;
      (k in m <==> p.Some?) && (p.Some? ==> m[k] == if p.value then "true" else "false")
  {
    assert HasKind(fields[i].kind, vals[i]);
    ScalarText(c, tag, BoolPtrKind, vals[i].scalar);
    FieldKeys(c, fields, vals, i, "event", fields[i], EncField(c, fields[i], vals[i]));
  }

  lemma MapEntryText(c: Codec, fields: seq<Field>, vals: seq<Value>, i: nat, tag: string, mk: string)
    requires WellFormed(fields) && HasType(fields, vals) && tag != "" && tag != "-"
    requires i < |fields| && fields[i] == Field(tag, MapField)
    ensures vals[i].Dict?
    ensures
      var m, k := EventMap(c, fields, vals), "event" + "." + (tag + "." + mk);
      var entries := if vals[i].entries.Some? then vals[i].entries.value else map[];
      (k in m <==> mk in entries && entries[mk] != "") && (k in m ==> m[k] == entries[mk])
  {
    assert HasKind(fields[i].kind, vals[i]);
    if vals[i].entries.Some? {
      MapText(c, tag, vals[i].entries.value, mk);
    } else {
      SilentFields(c, fields[i], vals[i]);
    }
    FieldKeysBelow(c, fields, vals, i, "event", fields[i], EncField(c, fields[i], vals[i]), mk);
  }

  /** The field j of the nested struct i: behind both tags stands what it writes by itself. */
  lemma NestedText(c: Codec, fields: seq<Field>, vals: seq<Value>, i: nat, tag: string, sub: seq<Field>, j: nat)
    requires WellFormed(fields) && HasType(fields, vals) && tag != "" && tag != "-"
    requires i < |fields| && fields[i] == Field(tag, StructField(sub))
    requires j < |sub| && Active(sub[j])
    ensures vals[i].Struct? && HasType(sub, vals[i].fields)
    ensures
      var m, t, own := EventMap(c, fields, vals), sub[j].tag, EncField(c, sub[j], vals[i].fields[j]);
      var k := "event" + "." + (tag + "." + t);
      (k in m <==> t in own) && (k in m ==> m[k] == own[t])
  {
    assert HasKind(fields[i].kind, vals[i]) && WellFormedField(fields[i]);
    FieldRegion(c, sub, vals[i].fields, j);
    StructText(c, tag, sub, vals[i].fields, sub[j].tag);
    FieldKeysBelow(c, fields, vals, i, "event", fields[i], EncField(c, fields[i], vals[i]), sub[j].tag);
  }

  lemma NestedFlagText(c: Codec, fields: seq<Field>, vals: seq<Value>, i: nat, tag: string, sub: seq<Field>, j: nat, t: string)
    requires WellFormed(fields) && HasType(fields, vals) && tag != "" && tag != "-" && t != "" && t != "-"
    requires i < |fields| && fields[i] == Field(tag, StructField(sub)) && j < |sub| && sub[j] == Flag(t)
    ensures vals[i].Struct? && |vals[i].fields| == |sub|
    ensures vals[i].fields[j].Leaf? && vals[i].fields[j].scalar.Boolean?
    ensures
      var m, k, b := EventMap(c, fields, vals), "event" + "." + (tag + "." + t), vals[i].fields[j].scalar.b;
      (k in m <==> b) && (b ==> m[k] == "true")
  {
    NestedText(c, fields, vals, i, tag, sub, j);
    assert HasKind(sub[j].kind, vals[i].fields[j]);
    ScalarText(c, t, BoolKind, vals[i].fields[j].scalar);
  }

  lemma NestedNumberText(c: Codec, fields: seq<Field>, vals: seq<Value>, i: nat, tag: string, sub: seq<Field>, j: nat, t: string)
    requires WellFormed(fields) && HasType(fields, vals) && tag != "" && tag != "-" && t != "" && t != "-"
    requires i < |fields| && fields[i] == Field(tag, StructField(sub)) && j < |sub| && sub[j] == Whole(t)
    ensures vals[i].Struct? && |vals[i].fields| == |sub|
    ensures vals[i].fields[j].Leaf? && vals[i].fields[j].scalar.Int64?
    ensures
      var m, k, n := EventMap(c, fields, vals), "event" + "." + (tag + "." + t), vals[i].fields[j].scalar.n;
      (k in m <==> n != 0) && (n != 0 ==> m[k] == FormatInt(n))
  {
    NestedText(c, fields, vals, i, tag, sub, j);
    assert HasKind(sub[j].kind, vals[i].fields[j]);
    ScalarText(c, t, Int64Kind, vals[i].fields[j].scalar);
  }

  /** The string s of element n: behind the tag, the decimal n and its own tag. */
  lemma ElementStringText(c: Codec, fields: seq<Field>, vals: seq<Value>, i: nat, tag: string, elem: seq<Field>, n: nat, j: nat, t: string)
    requires WellFormed(fields) && HasType(fields, vals) && tag != "" && tag != "-" && t != "" && t != "-"
    requires i < |fields| && fields[i] == Field(tag, SliceField(elem)) && j < |elem| && elem[j] == Text(t)
    requires vals[i].Slice? && vals[i].elems.Some? && n < |vals[i].elems.value|
    ensures
      var x := vals[i].elems.value[n];
      |x| == |elem| && x[j].Leaf? && x[j].scalar.Str?
    ensures
      var m, k := EventMap(c, fields, vals), "event" + "." + (tag + "." + (Itoa(n) + "." + t));
      var s := vals[i].elems.value[n][j].scalar.s;
      (k in m <==> s != "") && (s != "" ==> m[k] == s)
  {
    var elems := vals[i].elems.value;
    assert HasKind(fields[i].kind, vals[i]) && WellFormedField(fields[i]);
    assert HasKind(elem[j].kind, elems[n][j]);
    ScalarText(c, t, StringKind, elems[n][j].scalar);
    FieldRegion(c, elem, elems[n], j);
    var own := EncField(c, fields[i], vals[i]);
    ElementText(c, tag, elem, elems, n, t, own);
    FieldKeysBelow(c, fields, vals, i, "event", fields[i], own, Itoa(n) + "." + t);
  }

  // ---- The event ----

  const META := 2
  const IS_ANONYMOUS := 3
  const NETWORK_FIELD := 16
  const SCREEN_FIELD := 20
  const SUBSCRIPTIONS := 21

  /** The fields spoken of below, where they stand in a schema. */
  predicate HasFields(fields: seq<Field>) {
    && |fields| == 22
    && fields[NAME] == Text("name") && fields[META] == Field("meta", MapField)
    && fields[IS_ANONYMOUS] == Field("is_anonymous", ScalarField(BoolPtrKind))
    && fields[NETWORK_FIELD] == Field("network", StructField(NETWORK))
    && fields[SCREEN_FIELD] == Field("screen", StructField(SCREEN))
    && fields[SUBSCRIPTIONS] == Field("subscriptions", SliceField(SUBSCRIPTION))
  }

  lemma EventHasFields()
    ensures HasFields(EVENT) && WellFormed(EVENT)
  {
    EventWellFormed();
  }

  lemma NameText(c: Codec, fields: seq<Field>, vals: seq<Value>)
    requires HasFields(fields) && WellFormed(fields) && HasType(fields, vals)
    ensures vals[NAME].Leaf? && vals[NAME].scalar.Str?
    ensures
      var m, s := EventMap(c, fields, vals), vals[NAME].scalar.s;
      ("event.name" in m <==> s != "") && (s != "" ==> m["event.name"] == s)
  {
    StringText(c, fields, vals, NAME, "name");
    NameKey();
  }

  lemma AnonymousText(c: Codec, fields: seq<Field>, vals: seq<Value>)
    requires HasFields(fields) && WellFormed(fields) && HasType(fields, vals)
    ensures vals[IS_ANONYMOUS].Leaf? && vals[IS_ANONYMOUS].scalar.BoolPtr?
    ensures
      var m, p := EventMap(c, fields, vals), vals[IS_ANONYMOUS].scalar.p;
      && ("event.is_anonymous" in m <==> p.Some?)
      && (p == Some(true) ==> m["event.is_anonymous"] == "true")
      && (p == Some(false) ==> m["event.is_anonymous"] == "false")
  {
    BoolPtrText(c, fields, vals, IS_ANONYMOUS, "is_anonymous");
    AnonymousKey();
  }

  lemma MetaText(c: Codec, fields: seq<Field>, vals: seq<Value>, mk: string)
    requires HasFields(fields) && WellFormed(fields) && HasType(fields, vals)
    ensures vals[META].Dict?
    ensures
      var m, entries := EventMap(c, fields, vals), if vals[META].entries.Some? then vals[META].entries.value else map[];
      && ("event.meta." + mk in m <==> mk in entries && entries[mk] != "")
      && ("event.meta." + mk in m ==> m["event.meta." + mk] == entries[mk])
  {
    MapEntryText(c, fields, vals, META, "meta", mk);
    MetaKey(mk);
  }

  lemma WifiText(c: Codec, fields: seq<Field>, vals: seq<Value>)
    requires HasFields(fields) && WellFormed(fields) && HasType(fields, vals)
    ensures
      && vals[NETWORK_FIELD].Struct? && |vals[NETWORK_FIELD].fields| == 4
      && vals[NETWORK_FIELD].fields[2].Leaf? && vals[NETWORK_FIELD].fields[2].scalar.Boolean?
    ensures
      var m, wifi := EventMap(c, fields, vals), vals[NETWORK_FIELD].fields[2].scalar.b;
      ("event.network.wifi" in m <==> wifi) && (wifi ==> m["event.network.wifi"] == "true")
  {
    NestedFlagText(c, fields, vals, NETWORK_FIELD, "network", NETWORK, 2, "wifi");
    WifiKey();
  }

  lemma WidthText(c: Codec, fields: seq<Field>, vals: seq<Value>)
    requires HasFields(fields) && WellFormed(fields) && HasType(fields, vals)
    ensures
      && vals[SCREEN_FIELD].Struct? && |vals[SCREEN_FIELD].fields| == 3
      && vals[SCREEN_FIELD].fields[1].Leaf? && vals[SCREEN_FIELD].fields[1].scalar.Int64?
    ensures
      var m, n := EventMap(c, fields, vals), vals[SCREEN_FIELD].fields[1].scalar.n;
      && ("event.screen.width" in m <==> n != 0)
      && (n != 0 ==> m["event.screen.width"] == FormatInt(n))
      && (n == 5 ==> m["event.screen.width"] == "5")
  {
    NestedNumberText(c, fields, vals, SCREEN_FIELD, "screen", SCREEN, 1, "width");
    WidthKey();
    SomeTexts();
  }

  lemma SubscriptionText(c: Codec, fields: seq<Field>, vals: seq<Value>, n: nat)
    requires HasFields(fields) && WellFormed(fields) && HasType(fields, vals)
    requires vals[SUBSCRIPTIONS].Slice? && vals[SUBSCRIPTIONS].elems.Some? && n < |vals[SUBSCRIPTIONS].elems.value|
    ensures
      var x := vals[SUBSCRIPTIONS].elems.value[n];
      |x| == 8 && x[0].Leaf? && x[0].scalar.Str?
    ensures
      var m, k := EventMap(c, fields, vals), "event.subscriptions." + (Itoa(n) + ".id");
      var id := vals[SUBSCRIPTIONS].elems.value[n][0].scalar.s;
      (k in m <==> id != "") && (id != "" ==> m[k] == id)
    ensures
      var m, id := EventMap(c, fields, vals), vals[SUBSCRIPTIONS].elems.value[n][0].scalar.s;
      && (n == 0 ==> ("event.subscriptions.0.id" in m <==> id != "") && (id != "" ==> m["event.subscriptions.0.id"] == id))
      && (n == 10 ==> ("event.subscriptions.10.id" in m <==> id != "") && (id != "" ==> m["event.subscriptions.10.id"] == id))
  {
    ElementStringText(c, fields, vals, SUBSCRIPTIONS, "subscriptions", SUBSCRIPTION, n, 0, "id");
    SubscriptionKey(Itoa(n));
    SomeTexts();
  }

  lemma NameKey()
    ensures "event" + "." + "name" == "event.name"
  {}

  lemma AnonymousKey()
    ensures "event" + "." + "is_anonymous" == "event.is_anonymous"
  {}

  lemma WifiKey()
    ensures "event" + "." + ("network" + "." + "wifi") == "event.network.wifi"
  {}

  lemma WidthKey()
    ensures "event" + "." + ("screen" + "." + "width") == "event.screen.width"
  {}

  lemma MetaKey(mk: string)
    ensures "event" + "." + ("meta" + "." + mk) == "event.meta." + mk
  {}

  lemma SubscriptionKey(digits: string)
    ensures "event" + "." + ("subscriptions" + "." + (digits + "." + "id")) == "event.subscriptions." + (digits + ".id")
    ensures "event.subscriptions." + ("0" + ".id") == "event.subscriptions.0.id"
    ensures "event.subscriptions." + ("10" + ".id") == "event.subscriptions.10.id"
  {}

  /** The writer at work on the event schema, or any that has these fields: some of its entries, letter by letter. */
  method EventToFlatMap(c: Codec, fields: seq<Field>, vals: seq<Value>) returns (m: FlatMap)
    requires HasFields(fields) && WellFormed(fields) && HasType(fields, vals)
    ensures m == EventMap(c, fields, vals)
    ensures vals[NAME].Leaf? && vals[NAME].scalar.Str?
    ensures "event.name" in m <==> vals[NAME].scalar.s != ""
    ensures "event.name" in m ==> m["event.name"] == vals[NAME].scalar.s
    ensures
      var network := vals[NETWORK_FIELD];
      && network.Struct? && |network.fields| == 4 && network.fields[2].Leaf? && network.fields[2].scalar.Boolean?
      && (network.fields[2].scalar.b <==> "event.network.wifi" in m)
    ensures "event.network.wifi" in m ==> m["event.network.wifi"] == "true"
    ensures
      var subscriptions := vals[SUBSCRIPTIONS];
      subscriptions.Slice? && (subscriptions.elems.Some? && subscriptions.elems.value != [] ==>
        var first := subscriptions.elems.value[0];
        && |first| == 8 && first[0].Leaf? && first[0].scalar.Str?
        && ("event.subscriptions.0.id" in m <==> first[0].scalar.s != "")
        && ("event.subscriptions.0.id" in m ==> m["event.subscriptions.0.id"] == first[0].scalar.s))
  {
    m := FlatMapCodec.ToFlatMap(c, fields, vals);
    NameText(c, fields, vals);
    WifiText(c, fields, vals);
    assert HasKind(fields[SUBSCRIPTIONS].kind, vals[SUBSCRIPTIONS]);
    if vals[SUBSCRIPTIONS].elems.Some? && vals[SUBSCRIPTIONS].elems.value != [] {
      SubscriptionText(c, fields, vals, 0);
    }
  }
}
