/**
 * Theorems about the flat-map codec, for every well-formed schema: the round
 * trip is the normal form, nothing is written twice, and a second trip through
 * any map changes nothing.
 */
module FlatMapProofs {
  import opened Options
  import opened Keys
  import opened Decimal
  import opened Schema
  import opened FlatMapSpec

  // ---- Each field owns its key and the keys below it ----

  lemma FieldForeign(c: Codec, f: Field, v: Value, t: string)
    requires HasKind(f.kind, v) && WellFormedField(f)
    requires DotFree(t) && (Active(f) ==> f.tag != t)
    ensures t !in EncField(c, f, v) && Sub(EncField(c, f, v), t) == map[]
  {
    if Active(f) {
      match f.kind
      case StructField(fields) => SubOfOtherShift(f.tag, t, Enc(c, fields, v.fields));
      case SliceField(elem) =>
        if v.elems.Some? {
          SubOfOtherShift(f.tag, t, EncElems(c, elem, v.elems.value));
        }
      case MapField => SubOfOtherShift(f.tag, t, NonEmpty(v.entries));
      case _ =>
    }
  }

  lemma {:induction false} FieldsForeign(c: Codec, fields: seq<Field>, vals: seq<Value>, t: string)
    requires HasType(fields, vals) && WellFormed(fields)
    requires DotFree(t)
    requires forall i :: 0 <= i < |fields| && Active(fields[i]) ==> fields[i].tag != t
    ensures t !in Enc(c, fields, vals) && Sub(Enc(c, fields, vals), t) == map[]
    decreases |fields|
  {
    if fields != [] {
      var n := |fields| - 1;
      FieldsForeign(c, fields[..n], vals[..n], t);
      FieldForeign(c, fields[n], vals[n], t);
      SubOfSum(Enc(c, fields[..n], vals[..n]), EncField(c, fields[n], vals[n]), t);
    }
  }

  /** Below an active tag, the map of a struct is the map of that field alone. */
  lemma {:induction false} FieldRegion(c: Codec, fields: seq<Field>, vals: seq<Value>, i: nat)
    requires HasType(fields, vals) && WellFormed(fields)
    requires i < |fields| && Active(fields[i])
    ensures
      var m, e, t := Enc(c, fields, vals), EncField(c, fields[i], vals[i]), fields[i].tag;
      && Sub(m, t) == Sub(e, t)
      && (t in m <==> t in e)
      && (t in m ==> m[t] == e[t])
    decreases |fields|
  {
    var n := |fields| - 1;
    var t := fields[i].tag;
    var a, b := Enc(c, fields[..n], vals[..n]), EncField(c, fields[n], vals[n]);
    assert Enc(c, fields, vals) == a + b;
    if i == n {
      FieldsForeign(c, fields[..n], vals[..n], t);
      SumForeignLeft(a, b, t);
    } else {
      FieldRegion(c, fields[..n], vals[..n], i);
      FieldForeign(c, fields[n], vals[n], t);
      SumForeignRight(a, b, t);
    }
  }

  // ---- Each slice element owns the keys below its printed index ----

  lemma {:induction false} ElementRegion(c: Codec, elem: seq<Field>, elems: seq<seq<Value>>, j: nat)
    requires forall k :: 0 <= k < |elems| ==> HasType(elem, elems[k])
    ensures Sub(EncElems(c, elem, elems), Itoa(j))
         == if j < |elems| then Enc(c, elem, elems[j]) else map[]
    decreases |elems|
  {
    if elems == [] {
      SubOfEmpty(Itoa(j));
    } else {
      var n := |elems| - 1;
      ElementRegion(c, elem, elems[..n], j);
      LastElementRegion(c, elem, elems, j);
      if j == n {
        PlusNothing(Enc(c, elem, elems[n]));
      } else if j < n {
        assert elems[..n][j] == elems[j];
      }
    }
  }

  lemma LastElementRegion(c: Codec, elem: seq<Field>, elems: seq<seq<Value>>, j: nat)
    requires elems != [] && forall k :: 0 <= k < |elems| ==> HasType(elem, elems[k])
    ensures
      var n := |elems| - 1;
      var before := Sub(EncElems(c, elem, elems[..n]), Itoa(j));
      Sub(EncElems(c, elem, elems), Itoa(j)) == if j == n then before + Enc(c, elem, elems[n]) else before
  {
    var n := |elems| - 1;
    ItoaDistinct(n, j);
    SubOfGrown(EncElems(c, elem, elems[..n]), Itoa(n), Enc(c, elem, elems[n]), Itoa(j));
  }

  lemma ItoaDistinct(n: nat, j: nat)
    ensures DotFree(Itoa(n)) && DotFree(Itoa(j))
    ensures n != j ==> Itoa(n) != Itoa(j)
  {
    if n != j && Itoa(n) == Itoa(j) {
      ItoaInjective(n, j);
    }
  }

  lemma {:induction false} ElementKey(c: Codec, elem: seq<Field>, elems: seq<seq<Value>>, k: string) returns (j: nat)
    requires forall j :: 0 <= j < |elems| ==> HasType(elem, elems[j])
    requires k in EncElems(c, elem, elems)
    ensures j < |elems| && Under(k, Itoa(j)) && Rest(k, Itoa(j)) in Enc(c, elem, elems[j])
    decreases |elems|
  {
    var n := |elems| - 1;
    if k in EncElems(c, elem, elems[..n]) {
      j := ElementKey(c, elem, elems[..n], k);
    } else {
      j := n;
    }
  }

  lemma IndexOfElementKey(k: string, j: nat)
    requires j <= INT64_MAX && Under(k, Itoa(j))
    ensures IndexOf(k) == Some(j)
  {
    ItoaDistinct(j, j);
    IndexDotUnder(k, Itoa(j));
    ParseOfFormat(j);
  }

  lemma WrittenIndices(c: Codec, elem: seq<Field>, elems: seq<seq<Value>>)
    requires |elems| <= INT64_MAX
    requires forall j :: 0 <= j < |elems| ==> HasType(elem, elems[j])
    ensures forall i :: i in Indices(EncElems(c, elem, elems)) ==> 0 <= i < Written(c, elem, elems)
  {
    var m := EncElems(c, elem, elems);
    forall k | k in m ensures IndexOf(k).Some? && 0 <= IndexOf(k).value < Written(c, elem, elems) {
      var j := ElementKey(c, elem, elems, k);
      IndexOfElementKey(k, j);
      assert Enc(c, elem, elems[j]) != map[];
    }
  }

  lemma ElementIndex(c: Codec, elem: seq<Field>, elems: seq<seq<Value>>, j: nat)
    requires forall j :: 0 <= j < |elems| ==> HasType(elem, elems[j])
    requires j < |elems| && j <= INT64_MAX && Enc(c, elem, elems[j]) != map[]
    ensures j in Indices(EncElems(c, elem, elems))
  {
    ElementRegion(c, elem, elems, j);
    var r :| r in Enc(c, elem, elems[j]);
    JoinUnder(Itoa(j), r);
    IndexOfElementKey(Join(Itoa(j), r), j);
    assert r in Sub(EncElems(c, elem, elems), Itoa(j));
  }

  /** The index scan finds the last element that wrote a key. */
  lemma MaxIndexIsLastWritten(c: Codec, elem: seq<Field>, elems: seq<seq<Value>>)
    requires |elems| <= INT64_MAX
    requires forall j :: 0 <= j < |elems| ==> HasType(elem, elems[j])
    ensures MaxIndex(EncElems(c, elem, elems)) + 1 == Written(c, elem, elems)
  {
    WrittenIndices(c, elem, elems);
    var n := Written(c, elem, elems);
    if n > 0 {
      ElementIndex(c, elem, elems, n - 1);
    }
    MaxOfIs(Indices(EncElems(c, elem, elems)), n);
  }

  lemma MaxOfIs(s: set<int>, n: nat)
    requires forall i :: i in s ==> 0 <= i < n
    requires n > 0 ==> n - 1 in s
    ensures MaxOf(s) + 1 == n
  {}

  // ---- The round trip ----

  lemma ReadOfPrint(c: Codec, k: ScalarKind, s: Scalar)
    requires c.Sound() && ScalarHasKind(k, s)
    ensures match Print(c, s)
            case Some(text) => Read(c, k, text) == NormScalar(s)
            case None => ZeroScalar(k) == NormScalar(s)
  {
    if s.Int64? {
      ParseOfFormat(s.n);
    }
  }

  /** Reading back what a struct wrote gives its normal form, for every schema and value. */
  lemma {:induction false} RoundTrip(c: Codec, fields: seq<Field>, vals: seq<Value>)
    requires c.Sound() && WellFormed(fields) && HasType(fields, vals)
    ensures Dec(c, fields, Enc(c, fields, vals)) == Norm(c, fields, vals)
    decreases fields, 0
  {
    forall i | 0 <= i < |fields|
      ensures DecField(c, fields[i], Enc(c, fields, vals)) == NormField(c, fields[i], vals[i])
    {
      if Active(fields[i]) {
        FieldRegion(c, fields, vals, i);
        FieldRoundTrip(c, fields[i], vals[i]);
      }
    }
  }

  lemma {:induction false} FieldRoundTrip(c: Codec, f: Field, v: Value)
    requires c.Sound() && WellFormedField(f) && HasKind(f.kind, v)
    ensures DecField(c, f, EncField(c, f, v)) == NormField(c, f, v)
    decreases f, 0
  {
    if Active(f) {
      match f.kind
      case ScalarField(k) => ReadOfPrint(c, k, v.scalar);
      case StructField(fields) =>
        SubOfShift(f.tag, Enc(c, fields, v.fields));
        RoundTrip(c, fields, v.fields);
      case SliceField(elem) =>
        if v.elems.Some? {
          SubOfShift(f.tag, EncElems(c, elem, v.elems.value));
          ElementsRoundTrip(c, elem, v.elems.value);
        } else {
          assert Sub(map[], f.tag) == map[];
        }
      case MapField => SubOfShift(f.tag, NonEmpty(v.entries));
      case OtherField =>
    }
  }

  lemma {:induction false} ElementsRoundTrip(c: Codec, elem: seq<Field>, elems: seq<seq<Value>>)
    requires c.Sound() && WellFormed(elem) && |elems| <= INT64_MAX
    requires forall j :: 0 <= j < |elems| ==> HasType(elem, elems[j])
    ensures DecElems(c, elem, EncElems(c, elem, elems)) == NormElems(c, elem, elems)
    decreases elem, 1
  {
    var m, n := EncElems(c, elem, elems), Written(c, elem, elems);
    MaxIndexIsLastWritten(c, elem, elems);
    var vs := seq(n, j requires 0 <= j < n => Norm(c, elem, elems[j]));
    forall j | 0 <= j < n ensures Dec(c, elem, Sub(m, Itoa(j))) == vs[j] {
      ElementRegion(c, elem, elems, j);
      RoundTrip(c, elem, elems[j]);
    }
    DecElemsAre(c, elem, m, vs);
  }

  lemma DecElemsAre(c: Codec, elem: seq<Field>, m: FlatMap, vs: seq<seq<Value>>)
    requires MaxIndex(m) + 1 == |vs|
    requires forall j :: 0 <= j < |vs| ==> Dec(c, elem, Sub(m, Itoa(j))) == vs[j]
    ensures DecElems(c, elem, m) == if vs == [] then None else Some(vs)
  {
    var n := |vs|;
    assert n > 0 ==> seq(n, j requires 0 <= j < n => Dec(c, elem, Sub(m, Itoa(j)))) == vs;
  }
}
