/**
 * Which maps can be read at all: one index asks for a slice longer than any int.
 * Memory is taken as unlimited below that.
 */
module Allocation {
  import opened Options
  import opened Keys
  import opened Decimal
  import opened Schema
  import opened EventSchema
  import opened FlatMapSpec
  import opened FlatMapProofs

  /** No slice at any level. */
  predicate NoSlices(fields: seq<Field>)
    decreases fields
  {
    forall i :: 0 <= i < |fields| ==> NoSlice(fields[i])
  }

  predicate NoSlice(f: Field)
    decreases f
  {
    !f.kind.SliceField? && (f.kind.StructField? ==> NoSlices(f.kind.fields))
  }

  lemma {:induction false} NoSlicesAllocatable(fields: seq<Field>, m: FlatMap)
    requires NoSlices(fields)
    ensures Allocatable(fields, m)
    decreases fields
  {
    forall i | 0 <= i < |fields| ensures AllocatableField(fields[i], m) {
      NoSliceAllocatable(fields[i], m);
    }
  }

  lemma {:induction false} NoSliceAllocatable(f: Field, m: FlatMap)
    requires NoSlice(f)
    ensures AllocatableField(f, m)
    decreases f
  {
    if f.kind.StructField? {
      NoSlicesAllocatable(f.kind.fields, Sub(m, f.tag));
    }
  }

  /** A key of a slice whose index is the largest int. */
  predicate Overflows(k: string) {
    IndexOf(k) == Some(INT64_MAX)
  }

  /** A slice of structs without slices can be allocated exactly when no key has that index. */
  lemma ElementsAllocatableIff(elem: seq<Field>, m: FlatMap)
    requires NoSlices(elem)
    ensures AllocatableElems(elem, m) <==> forall k :: k in m ==> !Overflows(k)
  {
    forall j: nat ensures Allocatable(elem, Sub(m, Itoa(j))) {
      NoSlicesAllocatable(elem, Sub(m, Itoa(j)));
    }
    LargestIndexIff(m);
  }

  lemma LargestIndexIff(m: FlatMap)
    ensures MaxIndex(m) < INT64_MAX <==> forall k :: k in m ==> !Overflows(k)
  {
    if MaxIndex(m) < INT64_MAX {
      forall k | k in m ensures !Overflows(k) {
        if Overflows(k) {
          NoLargerIndex(m, k);
        }
      }
    } else {
      var k := KeyOfIndex(m, MaxIndex(m));
      assert Overflows(k);
    }
  }

  lemma NoLargerIndex(m: FlatMap, k: string)
    requires k in m && IndexOf(k).Some?
    ensures IndexOf(k).value <= MaxIndex(m)
  {
    assert IndexOf(k).value in Indices(m);
  }

  lemma KeyOfIndex(m: FlatMap, i: int) returns (k: string)
    requires i in Indices(m)
    ensures k in m && IndexOf(k) == Some(i) && i <= INT64_MAX
  {
    k :| k in m && IndexOf(k).Some? && IndexOf(k).value == i;
  }

  lemma ContextHasOneSlice()
    ensures forall i :: 0 <= i < |CONTEXT| - 1 ==> NoSlice(CONTEXT[i])
    ensures NoSlices(SUBSCRIPTION)
  {}

  const SUBSCRIPTIONS := |EVENT| - 1

  lemma EventHasOneSlice()
    ensures forall i :: 0 <= i < SUBSCRIPTIONS ==> NoSlice(EVENT[i])
    ensures EVENT[SUBSCRIPTIONS] == Field("subscriptions", SliceField(SUBSCRIPTION))
  {
    ContextHasOneSlice();
    assert forall i :: 0 <= i < |IDENTITY| ==> NoSlice(IDENTITY[i]);
    assert forall i :: 0 <= i < |CLIENT| ==> NoSlice(CLIENT[i]);
  }

  /** An event can be read exactly when no subscription key has the largest int as its index. */
  lemma EventAllocatableIff(m: FlatMap)
    ensures Allocatable(EVENT, m) <==> forall k :: k in Sub(m, "subscriptions") ==> !Overflows(k)
  {
    EventHasOneSlice();
    ContextHasOneSlice();
    forall i | 0 <= i < SUBSCRIPTIONS ensures AllocatableField(EVENT[i], m) {
      NoSliceAllocatable(EVENT[i], m);
    }
    ElementsAllocatableIff(SUBSCRIPTION, Sub(m, "subscriptions"));
    assert AllocatableField(EVENT[SUBSCRIPTIONS], m) <==> AllocatableElems(SUBSCRIPTION, Sub(m, "subscriptions"));
  }

  /** One such key, and the event cannot be read. */
  lemma LargestIndexPanics(text: string)
    ensures !Allocatable(EVENT, map[Join("subscriptions", Join(Itoa(INT64_MAX), "id")) := text])
  {
    var r := Join(Itoa(INT64_MAX), "id");
    JoinUnder(Itoa(INT64_MAX), "id");
    IndexOfElementKey(r, INT64_MAX);
    var m := map[Join("subscriptions", r) := text];
    EventAllocatableIff(m);
    assert r in Sub(m, "subscriptions") && Overflows(r);
  }
}
