/** The Event schema: every field of the event with its baggage tag, in declaration order. */
module EventSchema {
  import opened Keys
  import opened Schema

  function Text(tag: string): Field { Field(tag, ScalarField(StringKind)) }
  function Flag(tag: string): Field { Field(tag, ScalarField(BoolKind)) }
  function Whole(tag: string): Field { Field(tag, ScalarField(Int64Kind)) }
  function Number(tag: string): Field { Field(tag, ScalarField(FloatKind)) }
  function Nested(tag: string, fields: seq<Field>): Field { Field(tag, StructField(fields)) }

  const APP := [Text("name"), Text("version"), Text("build_id")]

  const CAMPAIGN := [Text("name"), Text("source"), Text("medium"), Text("term"), Text("content")]

  const DEVICE := [
    Text("id"), Text("manufacturer"), Text("model"), Text("name"), Text("type"), Text("version"),
    Text("advertising_id")]

  const LOCATION := [
    Text("city"), Text("country"), Text("region"), Number("latitude"), Number("longitude"), Number("speed")]

  const NETWORK := [Flag("bluetooth"), Flag("cellular"), Flag("wifi"), Text("carrier")]

  const OS := [Text("name"), Text("arch"), Text("version")]

  const PAGE := [Text("path"), Text("referrer"), Text("search"), Text("title"), Text("url")]

  const REFERRER := [Text("type"), Text("name"), Text("url"), Text("link")]

  const SCREEN := [Whole("density"), Whole("width"), Whole("height")]

  const SUBSCRIPTION := [
    Text("id"), Text("tenant_id"), Text("customer_id"), Text("product_id"), Text("price_id"), Text("usage"),
    Number("increment_by"), Field("metadata", MapField)]

  const NAME := 1

  const IDENTITY := [
    Text("id"), Text("name"), Field("meta", MapField), Field("is_anonymous", ScalarField(BoolPtrKind)),
    Text("user_id"), Text("organization_id"), Text("tenant_id")]

  const CLIENT := [
    Text("ip"), Text("user_agent"), Text("locale"), Text("timezone"), Field("timestamp", ScalarField(TimeKind))]

  const CONTEXT := [
    Nested("app", APP), Nested("campaign", CAMPAIGN), Nested("device", DEVICE),
    Nested("location", LOCATION), Nested("network", NETWORK), Nested("os", OS), Nested("page", PAGE),
    Nested("referrer", REFERRER), Nested("screen", SCREEN),
    Field("subscriptions", SliceField(SUBSCRIPTION))]

  const EVENT := IDENTITY + CLIENT + CONTEXT

  /** Tags without brackets, at every level. */
  ghost predicate PlainTags(fields: seq<Field>)
    decreases fields
  {
    forall i :: 0 <= i < |fields| ==>
      && Plain(fields[i].tag)
      && (fields[i].kind.StructField? ==> PlainTags(fields[i].kind.fields))
      && (fields[i].kind.SliceField? ==> PlainTags(fields[i].kind.elem))
  }

  ghost predicate DifferentTags(a: seq<Field>, b: seq<Field>) {
    forall i, j :: 0 <= i < |a| && 0 <= j < |b| ==> a[i].tag != b[j].tag
  }

  lemma AppendWellFormed(a: seq<Field>, b: seq<Field>)
    requires WellFormed(a) && WellFormed(b) && DifferentTags(a, b)
    ensures WellFormed(a + b)
  {}

  lemma AppendPlain(a: seq<Field>, b: seq<Field>)
    requires PlainTags(a) && PlainTags(b)
    ensures PlainTags(a + b)
  {}

  lemma AppWellFormed() ensures WellFormed(APP) {}
  lemma CampaignWellFormed() ensures WellFormed(CAMPAIGN) {}
  lemma DeviceTagsDiffer()
    ensures forall i, j :: 0 <= i < j < |DEVICE| ==> DEVICE[i].tag != DEVICE[j].tag
  {}

  lemma DeviceFieldsWellFormed()
    ensures forall i :: 0 <= i < |DEVICE| ==> WellFormedField(DEVICE[i])
  {}

  lemma DeviceWellFormed()
    ensures WellFormed(DEVICE)
  {
    DeviceTagsDiffer();
    DeviceFieldsWellFormed();
  }

  lemma LocationWellFormed() ensures WellFormed(LOCATION) {}
  lemma NetworkWellFormed() ensures WellFormed(NETWORK) {}
  lemma OsWellFormed() ensures WellFormed(OS) {}
  lemma PageWellFormed() ensures WellFormed(PAGE) {}
  lemma ReferrerWellFormed() ensures WellFormed(REFERRER) {}
  lemma ScreenWellFormed() ensures WellFormed(SCREEN) {}
  lemma SubscriptionFrontWellFormed() ensures WellFormed(SUBSCRIPTION[..4]) {}
  lemma SubscriptionBackWellFormed() ensures WellFormed(SUBSCRIPTION[4..]) {}

  lemma SubscriptionWellFormed()
    ensures WellFormed(SUBSCRIPTION)
  {
    SubscriptionFrontWellFormed();
    SubscriptionBackWellFormed();
    AppendWellFormed(SUBSCRIPTION[..4], SUBSCRIPTION[4..]);
    assert SUBSCRIPTION == SUBSCRIPTION[..4] + SUBSCRIPTION[4..];
  }

  lemma IdentityTagsDiffer()
    ensures forall i, j :: 0 <= i < j < |IDENTITY| ==> IDENTITY[i].tag != IDENTITY[j].tag
  {}

  lemma IdentityFieldsWellFormed()
    ensures forall i :: 0 <= i < |IDENTITY| ==> WellFormedField(IDENTITY[i])
  {}

  lemma IdentityWellFormed()
    ensures WellFormed(IDENTITY)
  {
    IdentityTagsDiffer();
    IdentityFieldsWellFormed();
  }

  lemma ClientWellFormed() ensures WellFormed(CLIENT) {}

  lemma ContextTagsDiffer()
    ensures forall i, j :: 0 <= i < j < |CONTEXT| ==> CONTEXT[i].tag != CONTEXT[j].tag
  {}

  lemma ContextFieldsWellFormed()
    ensures forall i :: 0 <= i < |CONTEXT| ==> WellFormedField(CONTEXT[i])
  {
    assert DotFree("app") && DotFree("campaign") && DotFree("device") && DotFree("location") && DotFree("network");
    assert DotFree("os") && DotFree("page") && DotFree("referrer") && DotFree("screen") && DotFree("subscriptions");
    AppWellFormed();
    CampaignWellFormed();
    DeviceWellFormed();
    LocationWellFormed();
    NetworkWellFormed();
    OsWellFormed();
    PageWellFormed();
    ReferrerWellFormed();
    ScreenWellFormed();
    SubscriptionWellFormed();
  }

  lemma ContextWellFormed()
    ensures WellFormed(CONTEXT)
  {
    ContextTagsDiffer();
    ContextFieldsWellFormed();
  }

  lemma AppPlain()
    ensures PlainTags(APP)
  {
    assert Plain("name") && Plain("version") && Plain("build_id");
  }

  lemma CampaignPlain()
    ensures PlainTags(CAMPAIGN)
  {
    assert Plain("name") && Plain("source") && Plain("medium") && Plain("term") && Plain("content");
  }

  lemma DevicePlain()
    ensures PlainTags(DEVICE)
  {
    assert Plain("id") && Plain("manufacturer") && Plain("model") && Plain("name") && Plain("type");
    assert Plain("version") && Plain("advertising_id");
  }

  lemma LocationPlain()
    ensures PlainTags(LOCATION)
  {
    assert Plain("city") && Plain("country") && Plain("region") && Plain("latitude");
    assert Plain("longitude") && Plain("speed");
  }

  lemma NetworkPlain()
    ensures PlainTags(NETWORK)
  {
    assert Plain("bluetooth") && Plain("cellular") && Plain("wifi") && Plain("carrier");
  }

  lemma OsPlain()
    ensures PlainTags(OS)
  {
    assert Plain("name") && Plain("arch") && Plain("version");
  }

  lemma PagePlain()
    ensures PlainTags(PAGE)
  {
    assert Plain("path") && Plain("referrer") && Plain("search") && Plain("title") && Plain("url");
  }

  lemma ReferrerPlain()
    ensures PlainTags(REFERRER)
  {
    assert Plain("type") && Plain("name") && Plain("url") && Plain("link");
  }

  lemma ScreenPlain()
    ensures PlainTags(SCREEN)
  {
    assert Plain("density") && Plain("width") && Plain("height");
  }

  lemma SubscriptionPlain()
    ensures PlainTags(SUBSCRIPTION)
  {
    assert Plain("id") && Plain("tenant_id") && Plain("customer_id") && Plain("product_id");
    assert Plain("price_id") && Plain("usage") && Plain("increment_by") && Plain("metadata");
  }

  lemma IdentityPlain()
    ensures PlainTags(IDENTITY)
  {
    assert Plain("id") && Plain("name") && Plain("meta") && Plain("is_anonymous");
    assert Plain("user_id") && Plain("organization_id") && Plain("tenant_id");
  }

  lemma ClientPlain()
    ensures PlainTags(CLIENT)
  {
    assert Plain("ip") && Plain("user_agent") && Plain("locale") && Plain("timezone");
    assert Plain("timestamp");
  }

  lemma ContextPlain()
    ensures PlainTags(CONTEXT)
  {
    assert Plain("app") && Plain("campaign") && Plain("device") && Plain("location");
    assert Plain("network") && Plain("os") && Plain("page") && Plain("referrer") && Plain("screen");
    assert Plain("subscriptions");
    AppPlain();
    CampaignPlain();
    DevicePlain();
    LocationPlain();
    NetworkPlain();
    OsPlain();
    PagePlain();
    ReferrerPlain();
    ScreenPlain();
    SubscriptionPlain();
  }

  lemma IdentityClientDiffer() ensures DifferentTags(IDENTITY, CLIENT) {}
  lemma IdentityContextDiffer() ensures DifferentTags(IDENTITY, CONTEXT) {}
  lemma ClientContextDiffer() ensures DifferentTags(CLIENT, CONTEXT) {}

  lemma DifferentFromBoth(a: seq<Field>, b: seq<Field>, d: seq<Field>)
    requires DifferentTags(a, d) && DifferentTags(b, d)
    ensures DifferentTags(a + b, d)
  {}

  /** The event schema meets the premise of every codec theorem. */
  lemma EventWellFormed()
    ensures WellFormed(EVENT)
  {
    IdentityWellFormed();
    ClientWellFormed();
    IdentityClientDiffer();
    AppendWellFormed(IDENTITY, CLIENT);
    ContextWellFormed();
    IdentityContextDiffer();
    ClientContextDiffer();
    DifferentFromBoth(IDENTITY, CLIENT, CONTEXT);
    AppendWellFormed(IDENTITY + CLIENT, CONTEXT);
  }

  lemma EventTagsPlain()
    ensures PlainTags(EVENT)
  {
    IdentityPlain();
    ClientPlain();
    ContextPlain();
    AppendPlain(IDENTITY, CLIENT);
    AppendPlain(IDENTITY + CLIENT, CONTEXT);
  }
}
