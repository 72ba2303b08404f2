/**
 * Repeated trips: which values a trip leaves alone, why the second trip is the
 * last one that can change anything, and what a trip does to an arbitrary map.
 */
module FlatMapStability {
  import opened Options
  import opened Keys
  import opened Decimal
  import opened Schema
  import opened FlatMapSpec
  import opened FlatMapProofs

  // ---- Values that survive unchanged ----

  /** The values a trip leaves alone, field by field. */
  predicate Canonical(c: Codec, fields: seq<Field>, vals: seq<Value>)
    requires HasType(fields, vals)
    decreases fields
  {
    forall i :: 0 <= i < |fields| ==> CanonicalField(c, fields[i], vals[i])
  }

  predicate CanonicalField(c: Codec, f: Field, v: Value)
    requires HasKind(f.kind, v)
    decreases f
  {
    if !Active(f) then v == ZeroValue(f.kind) else
      match f.kind
      case ScalarField(_) => v.scalar.Float? ==> v.scalar.f == CanonicalFloat(v.scalar.f)
      case StructField(fields) => Canonical(c, fields, v.fields)
      case SliceField(elem) =>
        v.elems.Some? ==>
          var elems := v.elems.value;
          && elems != []
          && Enc(c, elem, elems[|elems| - 1]) != map[]
          && forall j :: 0 <= j < |elems| ==> Canonical(c, elem, elems[j])
      case MapField =>
        v.entries.Some? ==>
          && v.entries.value != map[]
          && forall k :: k in v.entries.value ==> DotFree(k) && v.entries.value[k] != ""
      case OtherField => v == Other(0)
  }

  lemma {:induction false} NormIdentityIff(c: Codec, fields: seq<Field>, vals: seq<Value>)
    requires HasType(fields, vals)
    ensures Norm(c, fields, vals) == vals <==> Canonical(c, fields, vals)
    decreases fields
  {
    forall i | 0 <= i < |fields|
      ensures NormField(c, fields[i], vals[i]) == vals[i] <==> CanonicalField(c, fields[i], vals[i])
    {
      FieldIdentityIff(c, fields[i], vals[i]);
    }
    assert Norm(c, fields, vals) == vals
      <==> forall i :: 0 <= i < |fields| ==> NormField(c, fields[i], vals[i]) == vals[i];
  }

  lemma {:induction false} FieldIdentityIff(c: Codec, f: Field, v: Value)
    requires HasKind(f.kind, v)
    ensures NormField(c, f, v) == v <==> CanonicalField(c, f, v)
    decreases f
  {
    if Active(f) {
      match f.kind
      case StructField(fields) => NormIdentityIff(c, fields, v.fields);
      case SliceField(elem) =>
        if v.elems.Some? {
          var elems := v.elems.value;
          forall j | 0 <= j < |elems|
            ensures Norm(c, elem, elems[j]) == elems[j] <==> Canonical(c, elem, elems[j])
          {
            NormIdentityIff(c, elem, elems[j]);
          }
          ElementsIdentity(c, elem, elems);
        }
      case MapField =>
        if v.entries.Some? {
          EntriesIdentity(v.entries.value);
        }
      case _ =>
    }
  }

  lemma ElementsIdentity(c: Codec, elem: seq<Field>, elems: seq<seq<Value>>)
    requires forall j :: 0 <= j < |elems| ==> HasType(elem, elems[j])
    ensures NormElems(c, elem, elems) == Some(elems)
      <==> && elems != []
           && Enc(c, elem, elems[|elems| - 1]) != map[]
           && forall j :: 0 <= j < |elems| ==> Norm(c, elem, elems[j]) == elems[j]
  {
    var n := Written(c, elem, elems);
    if n > 0 {
      var vs := seq(n, j requires 0 <= j < n => Norm(c, elem, elems[j]));
      assert NormElems(c, elem, elems) == Some(vs);
      assert vs == elems <==> n == |elems| && forall j :: 0 <= j < |elems| ==> vs[j] == elems[j];
    }
  }

  lemma EntriesIdentity(m: FlatMap)
    ensures Undotted(NonEmpty(Some(m))) == Some(m)
      <==> m != map[] && forall k :: k in m ==> DotFree(k) && m[k] != ""
  {
    var written := NonEmpty(Some(m));
    var kept := map k | k in written && DotFree(k) :: written[k];
    assert Undotted(NonEmpty(Some(m))) == if kept == map[] then None else Some(kept);
    if kept == m {
      assert forall k :: k in m ==> k in kept;
    }
  }

  /** The round trip is the identity exactly on canonical values. */
  lemma RoundTripIdentityIff(c: Codec, fields: seq<Field>, vals: seq<Value>)
    requires c.Sound() && WellFormed(fields) && HasType(fields, vals)
    ensures Dec(c, fields, Enc(c, fields, vals)) == vals <==> Canonical(c, fields, vals)
  {
    RoundTrip(c, fields, vals);
    NormIdentityIff(c, fields, vals);
  }

  // ---- Stability of repeated trips ----

  /** No map writes an entry whose key has a dot. */
  predicate Clean(fields: seq<Field>, vals: seq<Value>)
    requires HasType(fields, vals)
    decreases fields
  {
    forall i :: 0 <= i < |fields| ==> CleanField(fields[i], vals[i])
  }

  predicate CleanField(f: Field, v: Value)
    requires HasKind(f.kind, v)
    decreases f
  {
    Active(f) ==>
      match f.kind
      case StructField(fields) => Clean(fields, v.fields)
      case SliceField(elem) =>
        v.elems.Some? ==> forall j :: 0 <= j < |v.elems.value| ==> Clean(elem, v.elems.value[j])
      case MapField => forall k :: k in NonEmpty(v.entries) ==> DotFree(k)
      case _ => true
  }

  /** Without dotted keys, the normal form writes exactly what the value wrote. */
  lemma {:induction false} CleanNormWritesSame(c: Codec, fields: seq<Field>, vals: seq<Value>)
    requires c.Sound() && HasType(fields, vals) && Clean(fields, vals)
    ensures Enc(c, fields, Norm(c, fields, vals)) == Enc(c, fields, vals)
    decreases fields, 0, 0
  {
    if fields != [] {
      var n := |fields| - 1;
      CleanNormWritesSame(c, fields[..n], vals[..n]);
      CleanNormFieldWritesSame(c, fields[n], vals[n]);
      assert Norm(c, fields, vals)[..n] == Norm(c, fields[..n], vals[..n]);
    }
  }

  lemma {:induction false} CleanNormFieldWritesSame(c: Codec, f: Field, v: Value)
    requires c.Sound() && HasKind(f.kind, v) && CleanField(f, v)
    ensures EncField(c, f, NormField(c, f, v)) == EncField(c, f, v)
    decreases f, 0, 0
  {
    if Active(f) {
      match f.kind
      case ScalarField(_) =>
      case StructField(fields) => CleanNormWritesSame(c, fields, v.fields);
      case SliceField(elem) =>
        if v.elems.Some? {
          CleanElementsWriteSame(c, elem, v.elems.value);
          SliceWritesSame(c, f, v);
        }
      case MapField => MapWritesSame(c, f, v);
      case OtherField =>
    }
  }

  lemma SliceWritesSame(c: Codec, f: Field, v: Value)
    requires Active(f) && f.kind.SliceField? && HasKind(f.kind, v) && v.elems.Some?
    requires match NormElems(c, f.kind.elem, v.elems.value)
             case Some(normed) => EncElems(c, f.kind.elem, normed) == EncElems(c, f.kind.elem, v.elems.value)
             case None => EncElems(c, f.kind.elem, v.elems.value) == map[]
    ensures EncField(c, f, NormField(c, f, v)) == EncField(c, f, v)
  {
    ShiftEmpty(f.tag);
  }

  lemma MapWritesSame(c: Codec, f: Field, v: Value)
    requires Active(f) && f.kind.MapField? && HasKind(f.kind, v) && CleanField(f, v)
    ensures EncField(c, f, NormField(c, f, v)) == EncField(c, f, v)
  {
    UndottedWritesSame(NonEmpty(v.entries));
  }

  lemma UndottedWritesSame(m: FlatMap)
    requires forall k :: k in m ==> DotFree(k) && m[k] != ""
    ensures NonEmpty(Undotted(m)) == m
  {
    var kept := map k | k in m && DotFree(k) :: m[k];
    assert kept == m;
  }

  lemma {:induction false} CleanElementsWriteSame(c: Codec, elem: seq<Field>, elems: seq<seq<Value>>)
    requires c.Sound()
    requires forall j :: 0 <= j < |elems| ==> HasType(elem, elems[j]) && Clean(elem, elems[j])
    ensures match NormElems(c, elem, elems)
            case Some(normed) => EncElems(c, elem, normed) == EncElems(c, elem, elems)
            case None => EncElems(c, elem, elems) == map[]
    decreases elem, 1, 0
  {
    var n := Written(c, elem, elems);
    UnwrittenTail(c, elem, elems, n);
    if n > 0 {
      var normed := seq(n, j requires 0 <= j < n => Norm(c, elem, elems[j]));
      forall j | 0 <= j < n ensures Enc(c, elem, normed[j]) == Enc(c, elem, elems[..n][j]) {
        CleanNormWritesSame(c, elem, elems[j]);
      }
      SameElementsWriteSame(c, elem, normed, elems[..n]);
    }
  }

  lemma {:induction false} SameElementsWriteSame(c: Codec, elem: seq<Field>, xs: seq<seq<Value>>, ys: seq<seq<Value>>)
    requires |xs| == |ys|
    requires forall j :: 0 <= j < |xs| ==> HasType(elem, xs[j]) && HasType(elem, ys[j])
    requires forall j :: 0 <= j < |xs| ==> Enc(c, elem, xs[j]) == Enc(c, elem, ys[j])
    ensures EncElems(c, elem, xs) == EncElems(c, elem, ys)
    decreases |xs|
  {
    if xs != [] {
      var n := |xs| - 1;
      assert forall j :: 0 <= j < n ==> xs[..n][j] == xs[j] && ys[..n][j] == ys[j];
      SameElementsWriteSame(c, elem, xs[..n], ys[..n]);
      LastElementWritesSame(c, elem, xs, ys);
    } else {
      assert ys == [];
    }
  }

  lemma LastElementWritesSame(c: Codec, elem: seq<Field>, xs: seq<seq<Value>>, ys: seq<seq<Value>>)
    requires |xs| == |ys| > 0
    requires forall j :: 0 <= j < |xs| ==> HasType(elem, xs[j]) && HasType(elem, ys[j])
    requires
      var n := |xs| - 1;
      EncElems(c, elem, xs[..n]) == EncElems(c, elem, ys[..n]) && Enc(c, elem, xs[n]) == Enc(c, elem, ys[n])
    ensures EncElems(c, elem, xs) == EncElems(c, elem, ys)
  {}

  /** The elements that a trip cuts off wrote nothing. */
  lemma {:induction false} UnwrittenTail(c: Codec, elem: seq<Field>, elems: seq<seq<Value>>, n: nat)
    requires n <= |elems|
    requires forall j :: 0 <= j < |elems| ==> HasType(elem, elems[j])
    requires forall j :: n <= j < |elems| ==> Enc(c, elem, elems[j]) == map[]
    ensures EncElems(c, elem, elems[..n]) == EncElems(c, elem, elems)
    decreases |elems|
  {
    if n == |elems| {
      assert elems[..n] == elems;
    } else {
      var init := elems[..|elems| - 1];
      UnwrittenLast(c, elem, elems);
      UnwrittenTail(c, elem, init, n);
      assert init[..n] == elems[..n];
    }
  }

  lemma UnwrittenLast(c: Codec, elem: seq<Field>, elems: seq<seq<Value>>)
    requires elems != []
    requires forall j :: 0 <= j < |elems| ==> HasType(elem, elems[j])
    requires Enc(c, elem, elems[|elems| - 1]) == map[]
    ensures EncElems(c, elem, elems[..|elems| - 1]) == EncElems(c, elem, elems)
  {
    ShiftEmpty(Itoa(|elems| - 1));
  }

  /** A normal form has no dotted key left. */
  lemma {:induction false} NormIsClean(c: Codec, fields: seq<Field>, vals: seq<Value>)
    requires HasType(fields, vals)
    ensures Clean(fields, Norm(c, fields, vals))
    decreases fields, 0
  {
    forall i | 0 <= i < |fields| ensures CleanField(fields[i], NormField(c, fields[i], vals[i])) {
      NormFieldIsClean(c, fields[i], vals[i]);
    }
  }

  lemma {:induction false} NormFieldIsClean(c: Codec, f: Field, v: Value)
    requires HasKind(f.kind, v)
    ensures CleanField(f, NormField(c, f, v))
    decreases f, 0
  {
    if Active(f) {
      match f.kind
      case StructField(fields) => NormIsClean(c, fields, v.fields);
      case SliceField(elem) =>
        if v.elems.Some? {
          forall j | 0 <= j < |v.elems.value| ensures Clean(elem, Norm(c, elem, v.elems.value[j])) {
            NormIsClean(c, elem, v.elems.value[j]);
          }
        }
      case _ =>
    }
  }

  /** Without dotted keys the first trip already reaches a fixed point. */
  lemma CleanStableAfterOne(c: Codec, fields: seq<Field>, vals: seq<Value>)
    requires c.Sound() && WellFormed(fields) && HasType(fields, vals) && Clean(fields, vals)
    ensures Norm(c, fields, Norm(c, fields, vals)) == Norm(c, fields, vals)
  {
    CleanNormWritesSame(c, fields, vals);
    RoundTrip(c, fields, vals);
    RoundTrip(c, fields, Norm(c, fields, vals));
  }

  /** Any value is stable from its second trip on. */
  lemma StableAfterTwo(c: Codec, fields: seq<Field>, vals: seq<Value>)
    requires c.Sound() && WellFormed(fields) && HasType(fields, vals)
    ensures
      var twice := Norm(c, fields, Norm(c, fields, vals));
      Norm(c, fields, twice) == twice
  {
    NormIsClean(c, fields, vals);
    CleanStableAfterOne(c, fields, Norm(c, fields, vals));
  }

  /** What a struct writes whose only field is a string map. */
  lemma OneMapWrites(c: Codec, f: Field, entries: Option<FlatMap>)
    requires Active(f) && f.kind == MapField
    ensures HasType([f], [Dict(entries)])
    ensures Enc(c, [f], [Dict(entries)]) == map[] <==> NonEmpty(entries) == map[]
    ensures Norm(c, [f], [Dict(entries)]) == [Dict(Undotted(NonEmpty(entries)))]
  {
    assert [f][..0] == [] && [Dict(entries)][..0] == [];
    assert Enc(c, [f], [Dict(entries)]) == map[] + Shift(f.tag, NonEmpty(entries));
    PlusNothing(Shift(f.tag, NonEmpty(entries)));
    ShiftNothingIff(f.tag, NonEmpty(entries));
  }

  lemma ShiftNothingIff(p: string, m: FlatMap)
    ensures Shift(p, m) == map[] <==> m == map[]
  {
    ShiftEmpty(p);
    if r :| r in m {
      JoinUnder(p, r);
      assert Join(p, r) in Shift(p, m);
    }
  }

  /**
   * One trip is not always enough: a last element that wrote only entries with
   * dotted keys keeps its place for one trip, and loses it on the next.
   */
  lemma DottedTailNeedsTwo(c: Codec, f: Field, m: FlatMap)
    requires Active(f) && f.kind == MapField
    requires NonEmpty(Some(m)) != map[] && forall k :: k in m ==> !DotFree(k)
    ensures HasType([f], [Dict(Some(m))]) && HasType([f], [Dict(None)])
    ensures NormElems(c, [f], [[Dict(Some(m))]]) == Some([[Dict(None)]])
    ensures NormElems(c, [f], [[Dict(None)]]) == None
  {
    OneMapWrites(c, f, Some(m));
    OneMapWrites(c, f, None);
    assert Undotted(NonEmpty(Some(m))) == None;
    LoneElement(c, [f], [Dict(Some(m))]);
    LoneElement(c, [f], [Dict(None)]);
  }

  lemma LoneElement(c: Codec, elem: seq<Field>, vals: seq<Value>)
    requires HasType(elem, vals)
    ensures NormElems(c, elem, [vals]) == if Enc(c, elem, vals) == map[] then None else Some([Norm(c, elem, vals)])
  {
    assert [vals][..0] == [];
    var n := Written(c, elem, [vals]);
    if n == 1 {
      assert seq(n, j requires 0 <= j < n => Norm(c, elem, [vals][j])) == [Norm(c, elem, vals)];
    }
  }
}
