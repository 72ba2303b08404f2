/**
 * What holds of maps that no value wrote, with sparse, signed or zero-padded
 * indices, and how many entries a value writes.
 */
module FlatMapArbitrary {
  import opened Keys
  import opened Decimal
  import opened Schema
  import opened FlatMapSpec
  import opened FlatMapProofs
  import opened FlatMapStability

  // ---- Reading any map gives a typed value without dotted keys ----

  lemma {:induction false} DecHasType(c: Codec, fields: seq<Field>, m: FlatMap)
    requires Allocatable(fields, m)
    ensures HasType(fields, Dec(c, fields, m)) && Clean(fields, Dec(c, fields, m))
    decreases fields, 0
  {
    forall i | 0 <= i < |fields|
      ensures HasKind(fields[i].kind, DecField(c, fields[i], m))
      ensures CleanField(fields[i], DecField(c, fields[i], m))
    {
      DecFieldHasKind(c, fields[i], m);
    }
  }

  lemma {:induction false} DecFieldHasKind(c: Codec, f: Field, m: FlatMap)
    requires AllocatableField(f, m)
    ensures HasKind(f.kind, DecField(c, f, m)) && CleanField(f, DecField(c, f, m))
    decreases f, 0
  {
    if Active(f) {
      match f.kind
      case StructField(fields) => DecHasType(c, fields, Sub(m, f.tag));
      case SliceField(elem) => DecElemsHaveType(c, elem, Sub(m, f.tag));
      case _ =>
    }
  }

  lemma {:induction false} DecElemsHaveType(c: Codec, elem: seq<Field>, m: FlatMap)
    requires AllocatableElems(elem, m)
    ensures
      var r := DecElems(c, elem, m);
      r.Some? ==>
        && |r.value| <= INT64_MAX
        && forall j :: 0 <= j < |r.value| ==> HasType(elem, r.value[j]) && Clean(elem, r.value[j])
    decreases elem, 1
  {
    forall j: nat | j <= MaxIndex(m)
      ensures HasType(elem, Dec(c, elem, Sub(m, Itoa(j)))) && Clean(elem, Dec(c, elem, Sub(m, Itoa(j))))
    {
      DecHasType(c, elem, Sub(m, Itoa(j)));
    }
  }

  /** Reading a map and writing the result never adds a key. */
  lemma {:induction false} NoNewKeys(c: Codec, fields: seq<Field>, m: FlatMap, k: string)
    requires Allocatable(fields, m) && HasType(fields, Dec(c, fields, m))
    requires k in Enc(c, fields, Dec(c, fields, m))
    ensures k in m
    decreases fields, 0, 0
  {
    var n := |fields| - 1;
    var init := Dec(c, fields, m)[..n];
    assert init == Dec(c, fields[..n], m);
    if k in Enc(c, fields[..n], init) {
      NoNewKeys(c, fields[..n], m, k);
    } else {
      NoNewFieldKeys(c, fields[n], m, k);
    }
  }

  lemma {:induction false} NoNewFieldKeys(c: Codec, f: Field, m: FlatMap, k: string)
    requires AllocatableField(f, m) && HasKind(f.kind, DecField(c, f, m))
    requires k in EncField(c, f, DecField(c, f, m))
    ensures k in m
    decreases f, 0, 0
  {
    var s := Sub(m, f.tag);
    match f.kind
    case ScalarField(_) =>
    case StructField(fields) =>
      NoNewKeys(c, fields, s, Rest(k, f.tag));
    case SliceField(elem) =>
      NoNewElementKeys(c, elem, s, Rest(k, f.tag));
    case MapField =>
      assert Rest(k, f.tag) in s;
  }

  lemma {:induction false} NoNewElementKeys(c: Codec, elem: seq<Field>, s: FlatMap, k: string)
    requires AllocatableElems(elem, s) && DecElems(c, elem, s).Some?
    requires forall j :: 0 <= j < |DecElems(c, elem, s).value| ==> HasType(elem, DecElems(c, elem, s).value[j])
    requires k in EncElems(c, elem, DecElems(c, elem, s).value)
    ensures k in s
    decreases elem, 1, 0
  {
    var j := ElementKey(c, elem, DecElems(c, elem, s).value, k);
    NoNewKeys(c, elem, Sub(s, Itoa(j)), Rest(k, Itoa(j)));
  }

  /** Reading below a prefix looks at the keys below it and at no other key. */
  lemma OnlyOwnKeysMatter(c: Codec, fields: seq<Field>, p: string, m1: FlatMap, m2: FlatMap)
    requires forall k :: Under(k, p) ==> (k in m1 <==> k in m2) && (k in m1 ==> m1[k] == m2[k])
    ensures Dec(c, fields, Sub(m1, p)) == Dec(c, fields, Sub(m2, p))
  {
    forall r ensures Under(Join(p, r), p) {
      JoinUnder(p, r);
    }
    assert Sub(m1, p) == Sub(m2, p);
  }

  /** An element never reads a key of another element: "1" reads none of "10". */
  lemma ElementsAreSeparate(c: Codec, elem: seq<Field>, m: FlatMap, i: nat, j: nat, k: string, text: string)
    requires i != j && Under(k, Itoa(j))
    ensures Dec(c, elem, Sub(m[k := text], Itoa(i))) == Dec(c, elem, Sub(m, Itoa(i)))
  {
    ItoaDistinct(i, j);
    forall k' | Under(k', Itoa(i)) ensures k' != k {
      if k' == k {
        UnderUnique(k, Itoa(i), Itoa(j));
      }
    }
    OnlyOwnKeysMatter(c, elem, Itoa(i), m[k := text], m);
  }

  /** Reading and writing is a retraction of arbitrary maps: doing it twice is doing it once. */
  lemma Retraction(c: Codec, fields: seq<Field>, m: FlatMap)
    requires c.Sound() && WellFormed(fields) && Allocatable(fields, m)
    ensures HasType(fields, Dec(c, fields, m))
    ensures
      var once := Enc(c, fields, Dec(c, fields, m));
      && once.Keys <= m.Keys
      && HasType(fields, Dec(c, fields, once))
      && Enc(c, fields, Dec(c, fields, once)) == once
  {
    DecHasType(c, fields, m);
    var v := Dec(c, fields, m);
    RoundTrip(c, fields, v);
    CleanNormWritesSame(c, fields, v);
    forall k | k in Enc(c, fields, v) ensures k in m {
      NoNewKeys(c, fields, m, k);
    }
  }

  // ---- What a value wrote can be read: no index overflows ----

  lemma {:induction false} WrittenIsAllocatable(c: Codec, fields: seq<Field>, vals: seq<Value>)
    requires WellFormed(fields) && HasType(fields, vals)
    ensures Allocatable(fields, Enc(c, fields, vals))
    decreases fields, 0
  {
    forall i | 0 <= i < |fields| ensures AllocatableField(fields[i], Enc(c, fields, vals)) {
      if Active(fields[i]) {
        FieldRegion(c, fields, vals, i);
        WrittenFieldIsAllocatable(c, fields[i], vals[i]);
      }
    }
  }

  lemma {:induction false} WrittenFieldIsAllocatable(c: Codec, f: Field, v: Value)
    requires WellFormedField(f) && HasKind(f.kind, v)
    ensures AllocatableField(f, EncField(c, f, v))
    decreases f, 0
  {
    if Active(f) {
      match f.kind
      case StructField(fields) =>
        SubOfShift(f.tag, Enc(c, fields, v.fields));
        WrittenIsAllocatable(c, fields, v.fields);
      case SliceField(elem) =>
        var elems := if v.elems.Some? then v.elems.value else [];
        SubOfShift(f.tag, EncElems(c, elem, elems));
        ShiftEmpty(f.tag);
        WrittenElementsAreAllocatable(c, elem, elems);
      case _ =>
    }
  }

  lemma {:induction false} WrittenElementsAreAllocatable(c: Codec, elem: seq<Field>, elems: seq<seq<Value>>)
    requires WellFormed(elem) && |elems| <= INT64_MAX
    requires forall j :: 0 <= j < |elems| ==> HasType(elem, elems[j])
    ensures AllocatableElems(elem, EncElems(c, elem, elems))
    decreases elem, 1
  {
    MaxIndexIsLastWritten(c, elem, elems);
    forall j: nat | j < Written(c, elem, elems)
      ensures Allocatable(elem, Sub(EncElems(c, elem, elems), Itoa(j)))
    {
      ElementRegion(c, elem, elems, j);
      WrittenIsAllocatable(c, elem, elems[j]);
    }
  }

  // ---- Write-once ----

  /** The number of texts a value writes, counted leaf by leaf. */
  function Leaves(c: Codec, fields: seq<Field>, vals: seq<Value>): nat
    requires HasType(fields, vals)
    decreases fields, 0
  {
    if fields == [] then 0
    else
      var n := |fields| - 1;
      Leaves(c, fields[..n], vals[..n]) + FieldLeaves(c, fields[n], vals[n])
  }

  function FieldLeaves(c: Codec, f: Field, v: Value): nat
    requires HasKind(f.kind, v)
    decreases f, 0
  {
    if !Active(f) then 0 else
      match f.kind
      case ScalarField(_) => if Print(c, v.scalar).Some? then 1 else 0
      case StructField(fields) => Leaves(c, fields, v.fields)
      case SliceField(elem) => if v.elems.Some? then ElementLeaves(c, elem, v.elems.value) else 0
      case MapField => |NonEmpty(v.entries)|
      case OtherField => 0
  }

  function ElementLeaves(c: Codec, elem: seq<Field>, elems: seq<seq<Value>>): nat
    requires forall j :: 0 <= j < |elems| ==> HasType(elem, elems[j])
    decreases elem, 1 + |elems|
  {
    if elems == [] then 0
    else
      var n := |elems| - 1;
      ElementLeaves(c, elem, elems[..n]) + Leaves(c, elem, elems[n])
  }

  lemma SizeOfSum(a: FlatMap, b: FlatMap)
    requires a.Keys !! b.Keys
    ensures |a + b| == |a| + |b|
  {
    assert (a + b).Keys == a.Keys + b.Keys;
  }

  lemma EmptySubDisjoint(a: FlatMap, t: string, b: FlatMap)
    requires Sub(a, t) == map[]
    ensures a.Keys !! Shift(t, b).Keys
  {
    forall k | k in Shift(t, b) ensures k !in a {
      assert Rest(k, t) !in Sub(a, t);
    }
  }

  /** The map has one entry per leaf: no two leaves write the same key. */
  lemma {:induction false} WriteOnce(c: Codec, fields: seq<Field>, vals: seq<Value>)
    requires WellFormed(fields) && HasType(fields, vals)
    ensures |Enc(c, fields, vals)| == Leaves(c, fields, vals)
    decreases fields, 0
  {
    if fields != [] {
      var n := |fields| - 1;
      var a, b := Enc(c, fields[..n], vals[..n]), EncField(c, fields[n], vals[n]);
      FieldsDisjoint(c, fields, vals);
      SizeOfSum(a, b);
      WriteOnce(c, fields[..n], vals[..n]);
      WriteOnceField(c, fields[n], vals[n]);
    }
  }

  lemma FieldsDisjoint(c: Codec, fields: seq<Field>, vals: seq<Value>)
    requires WellFormed(fields) && HasType(fields, vals) && fields != []
    ensures Enc(c, fields[..|fields| - 1], vals[..|fields| - 1]).Keys
         !! EncField(c, fields[|fields| - 1], vals[|fields| - 1]).Keys
  {
    var n := |fields| - 1;
    var f := fields[n];
    var a, b := Enc(c, fields[..n], vals[..n]), EncField(c, f, vals[n]);
    if Active(f) {
      FieldsForeign(c, fields[..n], vals[..n], f.tag);
      forall k | k in b ensures k !in a {
        if k != f.tag {
          assert k == Join(f.tag, Rest(k, f.tag));
          assert Rest(k, f.tag) !in Sub(a, f.tag);
        }
      }
    }
  }

  lemma {:induction false} WriteOnceField(c: Codec, f: Field, v: Value)
    requires WellFormedField(f) && HasKind(f.kind, v)
    ensures |EncField(c, f, v)| == FieldLeaves(c, f, v)
    decreases f, 0
  {
    if Active(f) {
      match f.kind
      case StructField(fields) =>
        WriteOnce(c, fields, v.fields);
        ShiftSize(f.tag, Enc(c, fields, v.fields));
      case SliceField(elem) =>
        if v.elems.Some? {
          WriteOnceElements(c, elem, v.elems.value);
          ShiftSize(f.tag, EncElems(c, elem, v.elems.value));
        }
      case MapField => ShiftSize(f.tag, NonEmpty(v.entries));
      case _ =>
    }
  }

  lemma {:induction false} WriteOnceElements(c: Codec, elem: seq<Field>, elems: seq<seq<Value>>)
    requires WellFormed(elem) && forall j :: 0 <= j < |elems| ==> HasType(elem, elems[j])
    ensures |EncElems(c, elem, elems)| == ElementLeaves(c, elem, elems)
    decreases elem, 1 + |elems|
  {
    if elems != [] {
      var n := |elems| - 1;
      LastElementSize(c, elem, elems);
      var init, last := |EncElems(c, elem, elems[..n])|, |Enc(c, elem, elems[n])|;
      assert init == ElementLeaves(c, elem, elems[..n]) by {
        WriteOnceElements(c, elem, elems[..n]);
      }
      assert last == Leaves(c, elem, elems[n]) by {
        WriteOnce(c, elem, elems[n]);
      }
    }
  }

  lemma LastElementSize(c: Codec, elem: seq<Field>, elems: seq<seq<Value>>)
    requires elems != [] && forall j :: 0 <= j < |elems| ==> HasType(elem, elems[j])
    ensures |EncElems(c, elem, elems)|
         == |EncElems(c, elem, elems[..|elems| - 1])| + |Enc(c, elem, elems[|elems| - 1])|
  {
    var n := |elems| - 1;
    var a, b := EncElems(c, elem, elems[..n]), Enc(c, elem, elems[n]);
    ElementRegion(c, elem, elems[..n], n);
    EmptySubDisjoint(a, Itoa(n), b);
    SizeOfSum(a, Shift(Itoa(n), b));
    ShiftSize(Itoa(n), b);
  }
}
