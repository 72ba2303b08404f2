/**
 * What is read from a map that travelled as baggage, for every schema: the
 * normal form exactly when no written map key without a dot has a bracket.
 */
module Carried {
  import opened Options
  import opened Keys
  import opened Decimal
  import opened BaggageKeys
  import opened Schema
  import opened EventSchema
  import opened FlatMapSpec
  import opened FlatMapProofs

  /** Every entry of m travels, under its baggage key; of entries that share one, any may win. */
  ghost predicate Carries(b: FlatMap, m: FlatMap) {
    && (forall k :: k in m ==> BaggageKey(k) in b)
    && (forall bk :: bk in b ==> exists k :: k in m && BaggageKey(k) == bk && m[k] == b[bk])
  }

  /** Which of two keys that merge arrives is not determined. */
  lemma MergeIsArbitrary(k: string, v1: string, v2: string)
    requires Plain(k)
    ensures
      var m := map[k := v1, k + "]" := v2];
      Carries(map[k := v1], m) && Carries(map[k := v2], m)
  {
    var m := map[k := v1, k + "]" := v2];
    PlainUnchanged(k);
    ClosingBracketLost(k);
    assert k != k + "]";
    assert k in m && m[k] == v1 && k + "]" in m && m[k + "]"] == v2;
  }

  // ---- One struct level of a map that travelled ----

  /** The name before the first dot. */
  function Head(k: string): string {
    if IndexDot(k) == -1 then k else k[..IndexDot(k)]
  }

  ghost predicate PlainHeads(m: FlatMap) {
    forall k :: k in m ==> Plain(Head(k))
  }

  lemma HeadUnder(k: string, t: string)
    requires DotFree(t) && (k == t || Under(k, t))
    ensures Head(k) == t
  {
    if k != t {
      IndexDotUnder(k, t);
    }
  }

  /** A key whose head has no bracket keeps its head; only what follows can change. */
  lemma HeadStays(k: string)
    requires Plain(Head(k))
    ensures DotFree(k) ==> BaggageKey(k) == k
    ensures !DotFree(k) ==> Under(k, Head(k)) && BaggageKey(k) == Join(Head(k), BaggageKey(Rest(k, Head(k))))
  {
    if DotFree(k) {
      PlainUnchanged(k);
    } else {
      BelowPlain(Head(k), Rest(k, Head(k)));
    }
  }

  /** The level of t in the map that arrived carries the level of t in the map that was sent. */
  lemma CarriesBelow(m: FlatMap, e: FlatMap, t: string)
    requires Carries(m, e) && PlainHeads(e) && DotFree(t) && Plain(t)
    ensures Carries(Sub(m, t), Sub(e, t))
    ensures (t in m <==> t in e) && (t in m ==> m[t] == e[t])
  {
    forall r | r in Sub(e, t) ensures BaggageKey(r) in Sub(m, t) {
      BelowPlain(t, r);
    }
    forall br | br in Sub(m, t)
      ensures exists r :: r in Sub(e, t) && BaggageKey(r) == br && Sub(e, t)[r] == Sub(m, t)[br]
    {
      var r := SenderBelow(m, e, t, br);
    }
    if t in e {
      PlainUnchanged(t);
    }
    if t in m {
      var k :| k in e && BaggageKey(k) == t && e[k] == m[t];
      HeadStays(k);
      if !DotFree(k) {
        DotsStay(k);
      }
    }
  }

  /** The key that a key below t was sent as. */
  lemma SenderBelow(m: FlatMap, e: FlatMap, t: string, br: string) returns (r: string)
    requires Carries(m, e) && PlainHeads(e) && DotFree(t) && Plain(t)
    requires br in Sub(m, t)
    ensures r in Sub(e, t) && BaggageKey(r) == br && Sub(e, t)[r] == Sub(m, t)[br]
  {
    var bk := Join(t, br);
    var k :| k in e && BaggageKey(k) == bk && e[k] == m[bk];
    JoinUnder(t, br);
    HeadStays(k);
    assert bk[|t|] == '.';
    assert !DotFree(k);
    r := Rest(k, Head(k));
    JoinUnder(Head(k), BaggageKey(r));
    UnderUnique(bk, t, Head(k));
    assert k == Join(t, r);
  }

  /** The same for a map that was written below a prefix. */
  lemma ShiftCarries(m: FlatMap, p: string, e: FlatMap)
    requires Carries(m, Shift(p, e)) && DotFree(p) && Plain(p)
    ensures Carries(Sub(m, p), e)
  {
    forall k | k in Shift(p, e) ensures Plain(Head(k)) {
      HeadUnder(k, p);
    }
    CarriesBelow(m, Shift(p, e), p);
    SubOfShift(p, e);
  }

  /** A map that carries nothing is empty. */
  lemma CarriesNothing(m: FlatMap)
    requires Carries(m, map[])
    ensures m == map[]
  {}

  /** The indices that the scan finds are not changed. */
  lemma CarriesIndices(m: FlatMap, e: FlatMap)
    requires Carries(m, e) && PlainHeads(e)
    ensures Indices(m) == Indices(e)
  {
    forall k | k in e ensures IndexOf(BaggageKey(k)) == IndexOf(k) {
      IndexStays(k);
    }
    assert forall k :: k in e && IndexOf(k).Some? ==> BaggageKey(k) in m;
    forall i ensures i in Indices(m) <==> i in Indices(e) {
      if i in Indices(m) {
        var bk :| bk in m && IndexOf(bk) == Some(i);
        var k :| k in e && BaggageKey(k) == bk;
      }
    }
  }

  lemma IndexStays(k: string)
    requires Plain(Head(k))
    ensures IndexOf(BaggageKey(k)) == IndexOf(k)
  {
    HeadStays(k);
    if !DotFree(k) {
      var h, r := Head(k), BaggageKey(Rest(k, Head(k)));
      JoinUnder(h, r);
      IndexDotUnder(BaggageKey(k), h);
      assert BaggageKey(k)[..|h|] == h;
    }
  }

  /** Of a string map, the entries without a dot arrive as sent when their keys have no bracket. */
  lemma UndottedArrives(m: FlatMap, e: FlatMap)
    requires Carries(m, e) && UndamagedEntries(e)
    ensures Undotted(m) == Undotted(e)
  {
    forall bk | bk in m && DotFree(bk) ensures bk in e && m[bk] == e[bk] {
      UndottedSent(m, e, bk);
    }
    forall k | k in e && DotFree(k) ensures k in m {
      PlainUnchanged(k);
    }
    var a, b := map k | k in m && DotFree(k) :: m[k], map k | k in e && DotFree(k) :: e[k];
    assert a == b;
  }

  lemma UndottedSent(m: FlatMap, e: FlatMap, bk: string)
    requires Carries(m, e) && UndamagedEntries(e)
    requires bk in m && DotFree(bk)
    ensures bk in e && m[bk] == e[bk]
  {
    var k :| k in e && BaggageKey(k) == bk && e[k] == m[bk];
    if !DotFree(k) {
      DotsStay(k);
    }
    PlainUnchanged(k);
  }

  // ---- Whole values ----

  lemma {:induction false} WrittenHeads(c: Codec, fields: seq<Field>, vals: seq<Value>)
    requires HasType(fields, vals) && WellFormed(fields) && PlainTags(fields)
    ensures PlainHeads(Enc(c, fields, vals))
    decreases |fields|
  {
    if fields != [] {
      var n := |fields| - 1;
      WrittenHeads(c, fields[..n], vals[..n]);
      forall k | k in EncField(c, fields[n], vals[n]) ensures Plain(Head(k)) {
        HeadUnder(k, fields[n].tag);
      }
    }
  }

  lemma ElementHeads(c: Codec, elem: seq<Field>, elems: seq<seq<Value>>)
    requires forall j :: 0 <= j < |elems| ==> HasType(elem, elems[j])
    ensures PlainHeads(EncElems(c, elem, elems))
  {
    forall k | k in EncElems(c, elem, elems) ensures Plain(Head(k)) {
      var j := ElementKey(c, elem, elems, k);
      PlainIndex(j);
      HeadUnder(k, Itoa(j));
    }
  }

  lemma PlainIndex(j: nat)
    ensures Plain(Itoa(j)) && DotFree(Itoa(j))
  {
    ItoaDistinct(j, j);
  }

  /** Every map key that is written and has no dot has no bracket either. */
  ghost predicate Undamaged(fields: seq<Field>, vals: seq<Value>)
    requires HasType(fields, vals)
    decreases fields, 0
  {
    forall i :: 0 <= i < |fields| ==> UndamagedField(fields[i], vals[i])
  }

  ghost predicate UndamagedField(f: Field, v: Value)
    requires HasKind(f.kind, v)
    decreases f, 0
  {
    Active(f) ==>
      match f.kind
      case StructField(fields) => Undamaged(fields, v.fields)
      case SliceField(elem) =>
        v.elems.Some? ==> UndamagedElements(elem, v.elems.value)
      case MapField => UndamagedEntries(NonEmpty(v.entries))
      case _ => true
  }

  ghost predicate UndamagedElements(elem: seq<Field>, elems: seq<seq<Value>>)
    requires forall j :: 0 <= j < |elems| ==> HasType(elem, elems[j])
    decreases elem, 1
  {
    forall j :: 0 <= j < |elems| ==> Undamaged(elem, elems[j])
  }

  ghost predicate UndamagedEntries(m: FlatMap) {
    forall k :: k in m && DotFree(k) ==> Plain(k)
  }

  /** What arrives can be read, and reads as the normal form when nothing was damaged. */
  lemma {:induction false} ArrivedReads(c: Codec, fields: seq<Field>, vals: seq<Value>, m: FlatMap)
    requires c.Sound() && WellFormed(fields) && PlainTags(fields) && HasType(fields, vals)
    requires Carries(m, Enc(c, fields, vals))
    ensures Allocatable(fields, m)
    ensures Undamaged(fields, vals) ==> Dec(c, fields, m) == Norm(c, fields, vals)
    decreases fields, 0
  {
    WrittenHeads(c, fields, vals);
    forall i | 0 <= i < |fields|
      ensures AllocatableField(fields[i], m)
      ensures UndamagedField(fields[i], vals[i]) ==> DecField(c, fields[i], m) == NormField(c, fields[i], vals[i])
    {
      if Active(fields[i]) {
        FieldRegion(c, fields, vals, i);
        CarriesBelow(m, Enc(c, fields, vals), fields[i].tag);
        FieldArrives(c, fields[i], vals[i], m);
      }
    }
  }

  /** A field arrived: its own key unchanged, and the level below it carried. */
  ghost predicate FieldCarried(c: Codec, f: Field, v: Value, m: FlatMap)
    requires HasKind(f.kind, v)
  {
    var e, t := EncField(c, f, v), f.tag;
    Carries(Sub(m, t), Sub(e, t)) && (t in m <==> t in e) && (t in m ==> m[t] == e[t])
  }

  lemma {:induction false} FieldArrives(c: Codec, f: Field, v: Value, m: FlatMap)
    requires c.Sound() && WellFormedField(f) && HasKind(f.kind, v) && FieldCarried(c, f, v, m) && Active(f)
    requires f.kind.StructField? ==> PlainTags(f.kind.fields)
    requires f.kind.SliceField? ==> PlainTags(f.kind.elem)
    ensures AllocatableField(f, m)
    ensures UndamagedField(f, v) ==> DecField(c, f, m) == NormField(c, f, v)
    decreases f, 0
  {
    match f.kind
    case ScalarField(k) => ReadOfPrint(c, k, v.scalar);
    case StructField(fields) =>
      SubOfShift(f.tag, Enc(c, fields, v.fields));
      ArrivedReads(c, fields, v.fields, Sub(m, f.tag));
    case SliceField(elem) =>
      if v.elems.Some? {
        SubOfShift(f.tag, EncElems(c, elem, v.elems.value));
        ElementsArrive(c, elem, v.elems.value, Sub(m, f.tag));
      } else {
        SubOfEmpty(f.tag);
        CarriesNothing(Sub(m, f.tag));
        NothingToRead(c, elem);
      }
    case MapField =>
      SubOfShift(f.tag, NonEmpty(v.entries));
      if UndamagedField(f, v) {
        UndottedArrives(Sub(m, f.tag), NonEmpty(v.entries));
      }
    case OtherField =>
  }

  lemma NothingToRead(c: Codec, elem: seq<Field>)
    ensures DecElems(c, elem, map[]) == None && AllocatableElems(elem, map[])
  {
    assert Indices(map[]) == {};
  }

  lemma {:induction false} ElementsArrive(c: Codec, elem: seq<Field>, elems: seq<seq<Value>>, m: FlatMap)
    requires c.Sound() && WellFormed(elem) && PlainTags(elem) && |elems| <= INT64_MAX
    requires forall j :: 0 <= j < |elems| ==> HasType(elem, elems[j])
    requires Carries(m, EncElems(c, elem, elems))
    ensures AllocatableElems(elem, m)
    ensures UndamagedElements(elem, elems) ==> DecElems(c, elem, m) == NormElems(c, elem, elems)
    decreases elem, 1
  {
    var n := Written(c, elem, elems);
    ArrivedMaxIndex(c, elem, elems, m);
    forall j: nat | j < n
      ensures Allocatable(elem, Sub(m, Itoa(j)))
      ensures Undamaged(elem, elems[j]) ==> Dec(c, elem, Sub(m, Itoa(j))) == Norm(c, elem, elems[j])
    {
      ElementCarried(c, elem, elems, m, j);
      ArrivedReads(c, elem, elems[j], Sub(m, Itoa(j)));
    }
    if UndamagedElements(elem, elems) {
      DecElemsAre(c, elem, m, seq(n, j requires 0 <= j < n => Norm(c, elem, elems[j])));
    }
  }

  lemma ArrivedMaxIndex(c: Codec, elem: seq<Field>, elems: seq<seq<Value>>, m: FlatMap)
    requires |elems| <= INT64_MAX && forall j :: 0 <= j < |elems| ==> HasType(elem, elems[j])
    requires Carries(m, EncElems(c, elem, elems))
    ensures MaxIndex(m) + 1 == Written(c, elem, elems)
  {
    ElementHeads(c, elem, elems);
    CarriesIndices(m, EncElems(c, elem, elems));
    MaxIndexIsLastWritten(c, elem, elems);
  }

  lemma ElementCarried(c: Codec, elem: seq<Field>, elems: seq<seq<Value>>, m: FlatMap, j: nat)
    requires j < |elems| && forall k :: 0 <= k < |elems| ==> HasType(elem, elems[k])
    requires Carries(m, EncElems(c, elem, elems))
    ensures Carries(Sub(m, Itoa(j)), Enc(c, elem, elems[j]))
  {
    ElementHeads(c, elem, elems);
    PlainIndex(j);
    ElementRegion(c, elem, elems, j);
    CarriesBelow(m, EncElems(c, elem, elems), Itoa(j));
  }

  // ---- What arrives of a damaged value ----

  /** The entries of a string map that arrive: under their new names, those that have no dot then. */
  ghost predicate EntriesArrive(sent: FlatMap, got: FlatMap) {
    && (forall k :: k in sent && DotFree(BaggageKey(k)) ==> BaggageKey(k) in got)
    && (forall bk :: bk in got ==> DotFree(bk) && exists k :: k in sent && BaggageKey(k) == bk && sent[k] == got[bk])
  }

  /** Got is the normal form of the value sent, at every level, except in the string maps that were damaged. */
  ghost predicate ArrivedAs(c: Codec, fields: seq<Field>, vals: seq<Value>, got: seq<Value>)
    requires HasType(fields, vals)
    decreases fields, 0
  {
    |got| == |fields| && forall i :: 0 <= i < |fields| ==> FieldArrivedAs(c, fields[i], vals[i], got[i])
  }

  ghost predicate FieldArrivedAs(c: Codec, f: Field, v: Value, got: Value)
    requires HasKind(f.kind, v)
    decreases f, 0
  {
    if !Active(f) then got == ZeroValue(f.kind) else
      match f.kind
      case StructField(fields) => got.Struct? && ArrivedAs(c, fields, v.fields, got.fields)
      case SliceField(elem) =>
        got.Slice? && ElementsArrivedAs(c, elem, if v.elems.Some? then v.elems.value else [], got.elems)
      case MapField =>
        var sent := NonEmpty(v.entries);
        && got.Dict? && got.entries != Some(map[])
        && EntriesArrive(sent, if got.entries.Some? then got.entries.value else map[])
        && (UndamagedEntries(sent) ==> got == NormField(c, f, v))
      case _ => got == NormField(c, f, v)
  }

  /** No slot is lost to damage: the slice ends after the last element that wrote a key, and is nil when none did. */
  ghost predicate ElementsArrivedAs(c: Codec, elem: seq<Field>, elems: seq<seq<Value>>, got: Option<seq<seq<Value>>>)
    requires forall j :: 0 <= j < |elems| ==> HasType(elem, elems[j])
    decreases elem, 1
  {
    var n := Written(c, elem, elems);
    && (got.None? <==> n == 0)
    && (got.Some? ==> |got.value| == n && forall j :: 0 <= j < n ==> ArrivedAs(c, elem, elems[j], got.value[j]))
  }

  /** For every schema and value, whatever its map keys: damage stays inside the string maps that it hits. */
  lemma {:induction false} DamageIsLocal(c: Codec, fields: seq<Field>, vals: seq<Value>, m: FlatMap)
    requires c.Sound() && WellFormed(fields) && PlainTags(fields) && HasType(fields, vals)
    requires Carries(m, Enc(c, fields, vals))
    ensures ArrivedAs(c, fields, vals, Dec(c, fields, m))
    decreases fields, 0
  {
    WrittenHeads(c, fields, vals);
    forall i | 0 <= i < |fields| ensures FieldArrivedAs(c, fields[i], vals[i], DecField(c, fields[i], m)) {
      if Active(fields[i]) {
        FieldRegion(c, fields, vals, i);
        CarriesBelow(m, Enc(c, fields, vals), fields[i].tag);
        FieldDamageIsLocal(c, fields[i], vals[i], m);
      }
    }
  }

  lemma {:induction false} FieldDamageIsLocal(c: Codec, f: Field, v: Value, m: FlatMap)
    requires c.Sound() && WellFormedField(f) && HasKind(f.kind, v) && FieldCarried(c, f, v, m) && Active(f)
    requires f.kind.StructField? ==> PlainTags(f.kind.fields)
    requires f.kind.SliceField? ==> PlainTags(f.kind.elem)
    ensures FieldArrivedAs(c, f, v, DecField(c, f, m))
    decreases f, 0
  {
    match f.kind
    case StructField(fields) =>
      SubOfShift(f.tag, Enc(c, fields, v.fields));
      DamageIsLocal(c, fields, v.fields, Sub(m, f.tag));
    case SliceField(elem) =>
      var elems := if v.elems.Some? then v.elems.value else [];
      SubOfShift(f.tag, EncElems(c, elem, elems));
      SubOfEmpty(f.tag);
      ElementDamageIsLocal(c, elem, elems, Sub(m, f.tag));
    case MapField =>
      FieldArrives(c, f, v, m);
      SubOfShift(f.tag, NonEmpty(v.entries));
      UndottedEntriesArrive(Sub(m, f.tag), NonEmpty(v.entries));
    case _ => FieldArrives(c, f, v, m);
  }

  lemma UndottedEntriesArrive(m: FlatMap, e: FlatMap)
    requires Carries(m, e)
    ensures Undotted(m) != Some(map[])
    ensures EntriesArrive(e, if Undotted(m).Some? then Undotted(m).value else map[])
  {
    var kept := map k | k in m && DotFree(k) :: m[k];
    assert (if Undotted(m).Some? then Undotted(m).value else map[]) == kept;
  }

  lemma {:induction false} ElementDamageIsLocal(c: Codec, elem: seq<Field>, elems: seq<seq<Value>>, m: FlatMap)
    requires c.Sound() && WellFormed(elem) && PlainTags(elem) && |elems| <= INT64_MAX
    requires forall j :: 0 <= j < |elems| ==> HasType(elem, elems[j])
    requires Carries(m, EncElems(c, elem, elems))
    ensures ElementsArrivedAs(c, elem, elems, DecElems(c, elem, m))
    decreases elem, 1
  {
    ArrivedMaxIndex(c, elem, elems, m);
    forall j: nat | j < Written(c, elem, elems)
      ensures ArrivedAs(c, elem, elems[j], Dec(c, elem, Sub(m, Itoa(j))))
    {
      ElementCarried(c, elem, elems, m, j);
      DamageIsLocal(c, elem, elems[j], Sub(m, Itoa(j)));
    }
  }

  // ---- What cannot arrive ----

  ghost predicate AllPlain(m: FlatMap) {
    forall k :: k in m ==> Plain(k)
  }

  /** Reading names without brackets gives no map key with one. */
  lemma {:induction false} PlainReadsUndamaged(c: Codec, fields: seq<Field>, m: FlatMap)
    requires HasType(fields, Dec(c, fields, m)) && AllPlain(m)
    ensures Undamaged(fields, Dec(c, fields, m))
    decreases fields, 0
  {
    forall i | 0 <= i < |fields| ensures UndamagedField(fields[i], DecField(c, fields[i], m)) {
      PlainFieldReadsUndamaged(c, fields[i], m);
    }
  }

  lemma PlainBelow(m: FlatMap, t: string)
    requires AllPlain(m)
    ensures AllPlain(Sub(m, t))
  {
    forall r | r in Sub(m, t) ensures Plain(r) {
      assert Plain(Join(t, r));
      assert forall c :: c in r ==> c in Join(t, r);
    }
  }

  lemma PlainEntriesRead(m: FlatMap)
    requires AllPlain(m)
    ensures AllPlain(NonEmpty(Undotted(m)))
  {}

  lemma {:induction false} PlainFieldReadsUndamaged(c: Codec, f: Field, m: FlatMap)
    requires HasKind(f.kind, DecField(c, f, m)) && AllPlain(m)
    ensures UndamagedField(f, DecField(c, f, m))
    decreases f, 0
  {
    PlainBelow(m, f.tag);
    if Active(f) {
      match f.kind
      case StructField(fields) => PlainReadsUndamaged(c, fields, Sub(m, f.tag));
      case SliceField(elem) =>
        PlainElementsReadUndamaged(c, elem, Sub(m, f.tag));
      case MapField => PlainEntriesRead(Sub(m, f.tag));
      case _ =>
    }
  }

  lemma {:induction false} PlainElementsReadUndamaged(c: Codec, elem: seq<Field>, m: FlatMap)
    requires AllPlain(m)
    requires
      var r := DecElems(c, elem, m);
      r.Some? ==> forall j :: 0 <= j < |r.value| ==> HasType(elem, r.value[j])
    ensures
      var r := DecElems(c, elem, m);
      r.Some? ==> UndamagedElements(elem, r.value)
    decreases elem, 1
  {
    var r := DecElems(c, elem, m);
    if r.Some? {
      forall j: nat | j < |r.value| ensures Undamaged(elem, r.value[j]) {
        assert r.value[j] == Dec(c, elem, Sub(m, Itoa(j)));
        PlainBelow(m, Itoa(j));
        PlainReadsUndamaged(c, elem, Sub(m, Itoa(j)));
      }
    }
  }

  /** What writes nothing holds no map key that could be damaged. */
  lemma {:induction false} UnwrittenUndamaged(c: Codec, fields: seq<Field>, vals: seq<Value>)
    requires WellFormed(fields) && HasType(fields, vals) && Enc(c, fields, vals) == map[]
    ensures Undamaged(fields, vals)
    decreases fields, 0
  {
    forall i | 0 <= i < |fields| ensures UndamagedField(fields[i], vals[i]) {
      if Active(fields[i]) {
        FieldRegion(c, fields, vals, i);
        SubOfEmpty(fields[i].tag);
        UnwrittenFieldUndamaged(c, fields[i], vals[i]);
      }
    }
  }

  lemma {:induction false} UnwrittenFieldUndamaged(c: Codec, f: Field, v: Value)
    requires WellFormedField(f) && HasKind(f.kind, v) && Active(f) && Sub(EncField(c, f, v), f.tag) == map[]
    ensures UndamagedField(f, v)
    decreases f, 0
  {
    match f.kind
    case StructField(fields) =>
      SubOfShift(f.tag, Enc(c, fields, v.fields));
      UnwrittenUndamaged(c, fields, v.fields);
    case SliceField(elem) =>
      if v.elems.Some? {
        var elems := v.elems.value;
        SubOfShift(f.tag, EncElems(c, elem, elems));
        forall j: nat | j < |elems| ensures Undamaged(elem, elems[j]) {
          ElementRegion(c, elem, elems, j);
          SubOfEmpty(Itoa(j));
          UnwrittenUndamaged(c, elem, elems[j]);
        }
      }
    case MapField => SubOfShift(f.tag, NonEmpty(v.entries));
    case _ =>
  }

  /** The normal form has exactly the map keys without a dot that were written. */
  lemma {:induction false} NormUndamagedIff(c: Codec, fields: seq<Field>, vals: seq<Value>)
    requires WellFormed(fields) && HasType(fields, vals)
    ensures Undamaged(fields, Norm(c, fields, vals)) <==> Undamaged(fields, vals)
    decreases fields, 0
  {
    forall i | 0 <= i < |fields|
      ensures UndamagedField(fields[i], NormField(c, fields[i], vals[i])) <==> UndamagedField(fields[i], vals[i])
    {
      NormFieldUndamagedIff(c, fields[i], vals[i]);
    }
  }

  lemma {:induction false} NormFieldUndamagedIff(c: Codec, f: Field, v: Value)
    requires WellFormedField(f) && HasKind(f.kind, v)
    ensures UndamagedField(f, NormField(c, f, v)) <==> UndamagedField(f, v)
    decreases f, 0
  {
    if Active(f) {
      match f.kind
      case StructField(fields) => NormUndamagedIff(c, fields, v.fields);
      case SliceField(elem) =>
        if v.elems.Some? {
          NormElementsUndamagedIff(c, elem, v.elems.value);
        }
      case MapField =>
        var written := NonEmpty(v.entries);
        assert forall k :: k in NonEmpty(Undotted(written)) <==> k in written && DotFree(k);
      case _ =>
    }
  }

  lemma {:induction false} NormElementsUndamagedIff(c: Codec, elem: seq<Field>, elems: seq<seq<Value>>)
    requires WellFormed(elem) && forall j :: 0 <= j < |elems| ==> HasType(elem, elems[j])
    ensures
      var r := NormElems(c, elem, elems);
      (r.Some? ==> UndamagedElements(elem, r.value)) <==> UndamagedElements(elem, elems)
    decreases elem, 1
  {
    var n := Written(c, elem, elems);
    forall j: nat | n <= j < |elems| ensures Undamaged(elem, elems[j]) {
      UnwrittenUndamaged(c, elem, elems[j]);
    }
    forall j: nat | j < n ensures Undamaged(elem, Norm(c, elem, elems[j])) <==> Undamaged(elem, elems[j]) {
      NormUndamagedIff(c, elem, elems[j]);
    }
    if n > 0 {
      SameUndamaged(elem, seq(n, j requires 0 <= j < n => Norm(c, elem, elems[j])), elems);
    }
  }

  /** Two slices that agree in this, where the longer one goes on undamaged. */
  lemma SameUndamaged(elem: seq<Field>, xs: seq<seq<Value>>, ys: seq<seq<Value>>)
    requires |xs| <= |ys|
    requires forall j :: 0 <= j < |xs| ==> HasType(elem, xs[j])
    requires forall j :: 0 <= j < |ys| ==> HasType(elem, ys[j])
    requires forall j :: 0 <= j < |xs| ==> (Undamaged(elem, xs[j]) <==> Undamaged(elem, ys[j]))
    requires forall j :: |xs| <= j < |ys| ==> Undamaged(elem, ys[j])
    ensures UndamagedElements(elem, xs) <==> UndamagedElements(elem, ys)
  {
    if UndamagedElements(elem, ys) {
      forall j | 0 <= j < |xs| ensures Undamaged(elem, xs[j]) {
        assert Undamaged(elem, ys[j]);
      }
    }
  }

  lemma CarriedIsPlain(m: FlatMap, e: FlatMap)
    requires Carries(m, e)
    ensures AllPlain(m)
  {
    forall bk | bk in m ensures Plain(bk) {
      var k :| k in e && BaggageKey(k) == bk;
      BaggageKeyIsPlain(k);
    }
  }

  /** A map with names as baggage has them reads as the normal form only if nothing was to be damaged. */
  lemma NormalFormNeedsUndamaged(c: Codec, fields: seq<Field>, vals: seq<Value>, m: FlatMap, e: FlatMap)
    requires WellFormed(fields) && HasType(fields, vals) && Carries(m, e)
    requires Dec(c, fields, m) == Norm(c, fields, vals)
    ensures Undamaged(fields, vals)
  {
    CarriedIsPlain(m, e);
    PlainReadsUndamaged(c, fields, m);
    NormUndamagedIff(c, fields, vals);
  }

  /** For every schema: what arrives reads as the normal form if and only if no written map key without a dot has a bracket. */
  lemma ArrivesAsNormIff(c: Codec, fields: seq<Field>, vals: seq<Value>, m: FlatMap)
    requires c.Sound() && WellFormed(fields) && PlainTags(fields) && HasType(fields, vals)
    requires Carries(m, Enc(c, fields, vals))
    ensures Dec(c, fields, m) == Norm(c, fields, vals) <==> Undamaged(fields, vals)
  {
    ArrivedReads(c, fields, vals, m);
    if Dec(c, fields, m) == Norm(c, fields, vals) {
      NormalFormNeedsUndamaged(c, fields, vals, m, Enc(c, fields, vals));
    }
  }
}
