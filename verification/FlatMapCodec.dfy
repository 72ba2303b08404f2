/**
 * The codec as it runs: recursive walks that write into a shared map and fill
 * freshly zeroed structs in place, iterating over maps in any order.
 */
module FlatMapCodec {
  import opened Options
  import opened Keys
  import opened Decimal
  import opened Schema
  import opened FlatMapSpec
  import opened FlatMapProofs
  import opened FlatMapArbitrary

  /** A Go map shared by reference, with a count of the assignments made to it. */
  class Output {
    var m: FlatMap
    ghost var writes: nat

    constructor ()
      ensures m == map[] && writes == 0
    {
      m := map[];
      writes := 0;
    }

    method Set(k: string, v: string)
      modifies this
      ensures m == old(m)[k := v] && writes == old(writes) + 1
    {
      m := m[k := v];
      writes := writes + 1;
    }
  }

  // ---- Writing ----

  method FlattenValue(c: Codec, fields: seq<Field>, vals: seq<Value>, prefix: string, out: Output)
    requires HasType(fields, vals)
    modifies out
    ensures out.m == old(out.m) + Shift(prefix, Enc(c, fields, vals))
    ensures out.writes == old(out.writes) + Leaves(c, fields, vals)
    decreases fields, 0
  {
    ghost var before := out.m;
    ShiftEmpty(prefix);
    for i := 0 to |fields|
      invariant out.m == before + Shift(prefix, Enc(c, fields[..i], vals[..i]))
      invariant out.writes == old(out.writes) + Leaves(c, fields[..i], vals[..i])
    {
      FlattenField(c, fields[i], vals[i], prefix, out);
      NextField(c, fields, vals, i, prefix, before);
    }
    assert fields[..|fields|] == fields && vals[..|fields|] == vals;
  }

  lemma NextField(c: Codec, fields: seq<Field>, vals: seq<Value>, i: nat, prefix: string, before: FlatMap)
    requires HasType(fields, vals) && i < |fields|
    ensures before + Shift(prefix, Enc(c, fields[..i + 1], vals[..i + 1]))
         == before + Shift(prefix, Enc(c, fields[..i], vals[..i])) + FieldAt(c, fields[i], vals[i], prefix)
    ensures Leaves(c, fields[..i + 1], vals[..i + 1])
         == Leaves(c, fields[..i], vals[..i]) + FieldLeaves(c, fields[i], vals[i])
  {
    assert fields[..i + 1][..i] == fields[..i] && vals[..i + 1][..i] == vals[..i];
    GrowBelow(before, prefix, Enc(c, fields[..i], vals[..i]), EncField(c, fields[i], vals[i]));
    FieldBelow(c, fields[i], vals[i], prefix);
  }

  method FlattenField(c: Codec, f: Field, v: Value, prefix: string, out: Output)
    requires HasKind(f.kind, v)
    modifies out
    ensures out.m == old(out.m) + FieldAt(c, f, v, prefix)
    ensures out.writes == old(out.writes) + FieldLeaves(c, f, v)
    decreases f, 0
  {
    if f.tag == "" || f.tag == "-" {
      return;
    }
    var key := prefix + "." + f.tag;
    match f.kind {
      case ScalarField(_) =>
        FlattenScalar(c, v.scalar, key, out);
      case StructField(fields) =>
        FlattenValue(c, fields, v.fields, key, out);
      case SliceField(elem) =>
        if v.elems.Some? {
          FlattenElements(c, elem, v.elems.value, key, out);
        }
      case MapField =>
        if v.entries.Some? {
          FlattenEntries(v.entries.value, key, out);
        }
      case OtherField =>
    }
  }

  /** What a field writes below a prefix, kind by kind, in terms of its own key. */
  function FieldAt(c: Codec, f: Field, v: Value, prefix: string): FlatMap
    requires HasKind(f.kind, v)
  {
    var key := Join(prefix, f.tag);
    if !Active(f) then map[] else
      match f.kind
      case ScalarField(_) => ScalarAt(c, v.scalar, key)
      case StructField(fields) => Shift(key, Enc(c, fields, v.fields))
      case SliceField(elem) => if v.elems.Some? then Shift(key, EncElems(c, elem, v.elems.value)) else map[]
      case MapField => if v.entries.Some? then Shift(key, NonEmpty(v.entries)) else map[]
      case OtherField => map[]
  }

  function ScalarAt(c: Codec, s: Scalar, key: string): FlatMap {
    match Print(c, s) case Some(text) => map[key := text] case None => map[]
  }

  lemma FieldBelow(c: Codec, f: Field, v: Value, prefix: string)
    requires HasKind(f.kind, v)
    ensures Shift(prefix, EncField(c, f, v)) == FieldAt(c, f, v, prefix)
  {
    ShiftEmpty(prefix);
    if Active(f) {
      match f.kind
      case ScalarField(_) =>
        if Print(c, v.scalar).Some? {
          ShiftOne(prefix, f.tag, Print(c, v.scalar).value);
        }
      case StructField(fields) => ShiftOfJoin(prefix, f.tag, Enc(c, fields, v.fields));
      case SliceField(elem) =>
        if v.elems.Some? {
          ShiftOfJoin(prefix, f.tag, EncElems(c, elem, v.elems.value));
        }
      case MapField =>
        ShiftOfJoin(prefix, f.tag, NonEmpty(v.entries));
        ShiftEmpty(Join(prefix, f.tag));
      case OtherField =>
    }
  }

  method FlattenScalar(c: Codec, s: Scalar, key: string, out: Output)
    modifies out
    ensures out.m == old(out.m) + ScalarAt(c, s, key)
    ensures out.writes == old(out.writes) + if Print(c, s).Some? then 1 else 0
  {
    match s {
      case Str(t) =>
        if t != "" {
          out.Set(key, t);
        }
      case Boolean(b) =>
        if b {
          out.Set(key, "true");
        }
      case Int64(n) =>
        if n != 0 {
          out.Set(key, FormatInt(n));
        }
      case Float(f) =>
        if !IsZeroFloat(f) {
          out.Set(key, c.formatFloat(f));
        }
      case BoolPtr(p) =>
        if p.Some? {
          out.Set(key, FormatBool(p.value));
        }
      case Time(t) =>
        if t != 0 {
          out.Set(key, c.formatTime(t));
        }
    }
  }

  method FlattenElements(c: Codec, elem: seq<Field>, elems: seq<seq<Value>>, key: string, out: Output)
    requires forall j :: 0 <= j < |elems| ==> HasType(elem, elems[j])
    modifies out
    ensures out.m == old(out.m) + Shift(key, EncElems(c, elem, elems))
    ensures out.writes == old(out.writes) + ElementLeaves(c, elem, elems)
    decreases elem, 1
  {
    ghost var before := out.m;
    ShiftEmpty(key);
    for j := 0 to |elems|
      invariant out.m == before + Shift(key, EncElems(c, elem, elems[..j]))
      invariant out.writes == old(out.writes) + ElementLeaves(c, elem, elems[..j])
    {
      var elemPrefix := key + "." + Itoa(j);
      FlattenValue(c, elem, elems[j], elemPrefix, out);
      NextElement(c, elem, elems, j, key, before);
    }
    assert elems[..|elems|] == elems;
  }

  lemma NextElement(c: Codec, elem: seq<Field>, elems: seq<seq<Value>>, j: nat, key: string, before: FlatMap)
    requires forall k :: 0 <= k < |elems| ==> HasType(elem, elems[k])
    requires j < |elems|
    ensures before + Shift(key, EncElems(c, elem, elems[..j + 1]))
         == before + Shift(key, EncElems(c, elem, elems[..j])) + Shift(Join(key, Itoa(j)), Enc(c, elem, elems[j]))
    ensures ElementLeaves(c, elem, elems[..j + 1])
         == ElementLeaves(c, elem, elems[..j]) + Leaves(c, elem, elems[j])
  {
    assert elems[..j + 1][..j] == elems[..j];
    GrowBelow(before, key, EncElems(c, elem, elems[..j]), Shift(Itoa(j), Enc(c, elem, elems[j])));
    ShiftOfJoin(key, Itoa(j), Enc(c, elem, elems[j]));
  }

  /** The entries of a map, in whatever order the iterator yields them. */
  method FlattenEntries(entries: FlatMap, key: string, out: Output)
    modifies out
    ensures out.m == old(out.m) + Shift(key, NonEmpty(Some(entries)))
    ensures out.writes == old(out.writes) + |NonEmpty(Some(entries))|
  {
    var todo := entries.Keys;
    ghost var before := out.m;
    ShiftEmpty(key);
    NoneAndAllDone(entries);
    while todo != {}
      invariant todo <= entries.Keys
      invariant out.m == before + Shift(key, EntriesDone(entries, todo))
      invariant out.writes == old(out.writes) + |EntriesDone(entries, todo)|
      decreases todo
    {
      var mk :| mk in todo;
      FlattenEntry(entries, todo, mk, key, out, before);
      todo := todo - {mk};
    }
  }

  lemma NoneAndAllDone(entries: FlatMap)
    ensures EntriesDone(entries, entries.Keys) == map[]
    ensures EntriesDone(entries, {}) == NonEmpty(Some(entries))
  {}

  method FlattenEntry(entries: FlatMap, ghost todo: set<string>, mk: string, key: string, out: Output, ghost before: FlatMap)
    requires todo <= entries.Keys && mk in todo
    requires out.m == before + Shift(key, EntriesDone(entries, todo))
    modifies out
    ensures out.m == before + Shift(key, EntriesDone(entries, todo - {mk}))
    ensures out.writes - |EntriesDone(entries, todo - {mk})| == old(out.writes) - |EntriesDone(entries, todo)|
  {
    var mv := entries[mk];
    NextEntry(entries, todo, mk);
    if mv != "" {
      PutBelow(before, key, EntriesDone(entries, todo), mk, mv);
      out.Set(key + "." + mk, mv);
    }
  }

  /** The entries with a value whose turn has come. */
  function EntriesDone(entries: FlatMap, todo: set<string>): FlatMap {
    map k | k in entries && k !in todo && entries[k] != "" :: entries[k]
  }

  lemma NextEntry(entries: FlatMap, todo: set<string>, mk: string)
    requires todo <= entries.Keys && mk in todo
    ensures
      var now, next := EntriesDone(entries, todo), EntriesDone(entries, todo - {mk});
      if entries[mk] == "" then next == now
      else next == now[mk := entries[mk]] && |next| == |now| + 1
  {
    var now, next := EntriesDone(entries, todo), EntriesDone(entries, todo - {mk});
    if entries[mk] != "" {
      assert next.Keys == now.Keys + {mk};
    }
  }

  /** The whole writer: the result is below the prefix and holds one entry per assignment. */
  method ToFlatMap(c: Codec, schema: seq<Field>, vals: seq<Value>) returns (m: FlatMap)
    requires WellFormed(schema) && HasType(schema, vals)
    ensures m == Shift("event", Enc(c, schema, vals))
    ensures |m| == Leaves(c, schema, vals)
  {
    var out := new Output();
    FlattenValue(c, schema, vals, "event", out);
    m := out.m;
    ShiftSize("event", Enc(c, schema, vals));
    WriteOnce(c, schema, vals);
    assert m == Shift("event", Enc(c, schema, vals));
  }

  // ---- Reading ----

  /** Fills a freshly zeroed struct, field by field, from the keys below the prefix. */
  method UnflattenValue(c: Codec, fields: seq<Field>, v: array<Value>, prefix: string, m: FlatMap)
    requires v[..] == Zeros(fields)
    requires Allocatable(fields, Sub(m, prefix))
    modifies v
    ensures v[..] == Dec(c, fields, Sub(m, prefix))
    decreases fields, 0
  {
    for i := 0 to |fields|
      invariant v.Length == |fields|
      invariant forall k :: 0 <= k < i ==> v[k] == DecField(c, fields[k], Sub(m, prefix))
      invariant forall k :: i <= k < |fields| ==> v[k] == ZeroValue(fields[k].kind)
    {
      UnflattenField(c, fields[i], v, i, prefix, m);
      FieldFromBelow(c, fields[i], prefix, m);
    }
  }

  /** What a field is read as, kind by kind, in terms of its own key. */
  ghost function FieldFrom(c: Codec, f: Field, prefix: string, m: FlatMap): Value {
    var key := Join(prefix, f.tag);
    if !Active(f) then ZeroValue(f.kind) else
      match f.kind
      case ScalarField(k) => DecScalar(c, k, m, key)
      case StructField(fields) => Struct(Dec(c, fields, Sub(m, key)))
      case SliceField(elem) => Slice(DecElems(c, elem, Sub(m, key)))
      case MapField => Dict(Undotted(Sub(m, key)))
      case OtherField => Other(0)
  }

  lemma FieldFromBelow(c: Codec, f: Field, prefix: string, m: FlatMap)
    ensures FieldFrom(c, f, prefix, m) == DecField(c, f, Sub(m, prefix))
  {
    match f.kind
    case ScalarField(k) => ScalarFromBelow(c, k, m, prefix, f.tag);
    case _ => SubOfJoin(m, prefix, f.tag);
  }

  lemma ScalarFromBelow(c: Codec, k: ScalarKind, m: FlatMap, p: string, t: string)
    ensures DecScalar(c, k, m, Join(p, t)) == DecScalar(c, k, Sub(m, p), t)
  {
    assert t in Sub(m, p) <==> Join(p, t) in m;
  }

  method UnflattenField(c: Codec, f: Field, v: array<Value>, i: nat, prefix: string, m: FlatMap)
    requires i < v.Length && v[i] == ZeroValue(f.kind)
    requires AllocatableField(f, Sub(m, prefix))
    modifies v
    ensures v[i] == FieldFrom(c, f, prefix, m)
    ensures forall k :: 0 <= k < v.Length && k != i ==> v[k] == old(v[k])
    decreases f, 0
  {
    if f.tag == "" || f.tag == "-" {
      return;
    }
    var key := prefix + "." + f.tag;
    SubOfJoin(m, prefix, f.tag);
    match f.kind {
      case ScalarField(k) =>
        if key in m {
          v[i] := Leaf(Read(c, k, m[key]));
        }
      case StructField(fields) =>
        var sub := NewZeroed(fields);
        UnflattenValue(c, fields, sub, key, m);
        v[i] := Struct(sub[..]);
      case SliceField(elem) =>
        UnflattenSlice(c, elem, v, i, key, m);
      case MapField =>
        UnflattenEntries(v, i, key, m);
      case OtherField =>
    }
  }

  method NewZeroed(fields: seq<Field>) returns (v: array<Value>)
    ensures fresh(v) && v[..] == Zeros(fields)
  {
    var zeros := Zeros(fields);
    v := new Value[|fields|](j requires 0 <= j < |zeros| => zeros[j]);
  }

  method UnflattenSlice(c: Codec, elem: seq<Field>, v: array<Value>, i: nat, key: string, m: FlatMap)
    requires i < v.Length && v[i] == Slice(None)
    requires AllocatableElems(elem, Sub(m, key))
    modifies v
    ensures v[i] == Slice(DecElems(c, elem, Sub(m, key)))
    ensures forall k :: 0 <= k < v.Length && k != i ==> v[k] == old(v[k])
    decreases elem, 3
  {
    var maxIdx := ScanIndices(m, key);
    if maxIdx >= 0 {
      var slice := UnflattenElements(c, elem, maxIdx + 1, key, m);
      v[i] := Slice(Some(slice));
      DecElemsAre(c, elem, Sub(m, key), slice);
    } else {
      DecElemsAre(c, elem, Sub(m, key), []);
    }
  }

  /** The largest index below the key, whichever order the keys come in. */
  method ScanIndices(m: FlatMap, key: string) returns (maxIdx: int)
    ensures maxIdx == MaxIndex(Sub(m, key))
  {
    var slicePrefix := key + ".";
    var todo := m.Keys;
    ghost var seen: set<int> := {};
    maxIdx := -1;
    while todo != {}
      invariant todo <= m.Keys
      invariant forall n :: n in seen <==>
        exists k :: k in m && k !in todo && Under(k, key) && IndexOf(Rest(k, key)) == Some(n)
      invariant -1 <= maxIdx && (maxIdx == -1 || maxIdx in seen)
      invariant forall n :: n in seen ==> n <= maxIdx
      decreases todo
    {
      var k :| k in todo;
      todo := todo - {k};
      if !(slicePrefix <= k) {
        continue;
      }
      assert Under(k, key);
      var rest := k[|slicePrefix|..];
      assert rest == Rest(k, key);
      var dotIdx := IndexDot(rest);
      if dotIdx == -1 {
        continue;
      }
      var idx := ParseInt64(rest[..dotIdx]);
      if idx.None? {
        continue;
      }
      seen := seen + {idx.value};
      if idx.value > maxIdx {
        maxIdx := idx.value;
      }
    }
    SeenAll(m, key, seen);
  }

  lemma SeenAll(m: FlatMap, key: string, seen: set<int>)
    requires forall n :: n in seen <==>
      exists k :: k in m && Under(k, key) && IndexOf(Rest(k, key)) == Some(n)
    ensures seen == Indices(Sub(m, key))
  {
    forall n | n in seen ensures n in Indices(Sub(m, key)) {
      var k :| k in m && Under(k, key) && IndexOf(Rest(k, key)) == Some(n);
      assert Rest(k, key) in Sub(m, key);
    }
    forall r | r in Sub(m, key) && IndexOf(r).Some? ensures IndexOf(r).value in seen {
      JoinUnder(key, r);
    }
  }

  method UnflattenElements(c: Codec, elem: seq<Field>, n: nat, key: string, m: FlatMap) returns (elems: seq<seq<Value>>)
    requires AllocatableElems(elem, Sub(m, key)) && n == MaxIndex(Sub(m, key)) + 1
    ensures |elems| == n
    ensures forall j :: 0 <= j < n ==> elems[j] == Dec(c, elem, Sub(Sub(m, key), Itoa(j)))
    decreases elem, 2
  {
    ghost var below := Sub(m, key);
    elems := seq(n, _ => Zeros(elem));
    for j := 0 to n
      invariant |elems| == n
      invariant forall k :: 0 <= k < j ==> elems[k] == Dec(c, elem, Sub(below, Itoa(k)))
    {
      var v := UnflattenElement(c, elem, j, key, m);
      elems := elems[j := v];
    }
  }

  method UnflattenElement(c: Codec, elem: seq<Field>, j: nat, key: string, m: FlatMap) returns (vals: seq<Value>)
    requires Allocatable(elem, Sub(Sub(m, key), Itoa(j)))
    ensures vals == Dec(c, elem, Sub(Sub(m, key), Itoa(j)))
    decreases elem, 1
  {
    var elemPrefix := key + "." + Itoa(j);
    SubOfJoin(m, key, Itoa(j));
    var v := NewZeroed(elem);
    UnflattenValue(c, elem, v, elemPrefix, m);
    vals := v[..];
  }

  /** The undotted entries below the key; the map is only made when there is one. */
  method UnflattenEntries(v: array<Value>, i: nat, key: string, m: FlatMap)
    requires i < v.Length && v[i] == Dict(None)
    modifies v
    ensures v[i] == Dict(Undotted(Sub(m, key)))
    ensures forall k :: 0 <= k < v.Length && k != i ==> v[k] == old(v[k])
  {
    var todo := m.Keys;
    while todo != {}
      invariant todo <= m.Keys
      invariant forall k :: 0 <= k < v.Length && k != i ==> v[k] == old(v[k])
      invariant v[i].Dict? && ReadSoFar(v[i].entries, key, m, todo)
      decreases todo
    {
      var k :| k in todo;
      UnflattenEntry(v, i, key, k, m, todo);
      todo := todo - {k};
    }
    ReadAll(v[i].entries, key, m);
  }

  /** One key of the loop over the map. */
  method UnflattenEntry(v: array<Value>, i: nat, key: string, k: string, m: FlatMap, ghost todo: set<string>)
    requires i < v.Length && v[i].Dict? && k in m && k in todo
    requires ReadSoFar(v[i].entries, key, m, todo)
    modifies v
    ensures v[i].Dict? && ReadSoFar(v[i].entries, key, m, todo - {k})
    ensures forall n :: 0 <= n < v.Length && n != i ==> v[n] == old(v[n])
  {
    var mapPrefix := key + ".";
    if !(mapPrefix <= k) {
      return;
    }
    var mapKey := k[|mapPrefix|..];
    assert k == Join(key, mapKey);
    if '.' in mapKey {
      return;
    }
    if v[i].entries.None? {
      v[i] := Dict(Some(map[]));
    }
    v[i] := Dict(Some(v[i].entries.value[mapKey := m[k]]));
  }

  /** The entries collected from the keys that are no longer to do. */
  ghost predicate ReadSoFar(entries: Option<FlatMap>, key: string, m: FlatMap, todo: set<string>) {
    var made := if entries.Some? then entries.value else map[];
    && (entries.Some? ==> made != map[])
    && (forall r {:trigger r in made} :: r in made <==> Join(key, r) in m && Join(key, r) !in todo && DotFree(r))
    && (forall r {:trigger made[r]} :: r in made ==> made[r] == m[Join(key, r)])
  }

  lemma ReadAll(entries: Option<FlatMap>, key: string, m: FlatMap)
    requires ReadSoFar(entries, key, m, {})
    ensures entries == Undotted(Sub(m, key))
  {
    var made := if entries.Some? then entries.value else map[];
    var s := Sub(m, key);
    assert made == map r | r in s && DotFree(r) :: s[r];
  }

  /** The whole reader, starting from the zero value. */
  method FromFlatMap(c: Codec, schema: seq<Field>, m: FlatMap) returns (vals: seq<Value>)
    requires Allocatable(schema, Sub(m, "event"))
    ensures vals == Dec(c, schema, Sub(m, "event"))
    ensures HasType(schema, vals)
  {
    var v := NewZeroed(schema);
    UnflattenValue(c, schema, v, "event", m);
    vals := v[..];
    DecHasType(c, schema, Sub(m, "event"));
  }
}
