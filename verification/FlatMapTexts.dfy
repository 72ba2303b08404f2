/**
 * The flat map as text: under which keys a field of each kind is written and with
 * which texts, and what it is read as from the texts under its keys.
 */
module FlatMapTexts {
  import opened Options
  import opened Keys
  import opened Decimal
  import opened Schema
  import opened FlatMapSpec
  import opened FlatMapProofs

  // ---- What a field writes ----

  /** A scalar is written under its tag, unless it is the zero value, and under no other key. */
  lemma ScalarText(c: Codec, tag: string, k: ScalarKind, s: Scalar)
    requires tag != "" && tag != "-" && ScalarHasKind(k, s)
    ensures EncField(c, Field(tag, ScalarField(k)), Leaf(s)) ==
      match s
      case Str(t) => if t == "" then map[] else map[tag := t]
      case Boolean(b) => if b then map[tag := "true"] else map[]
      case Int64(n) => if n == 0 then map[] else map[tag := FormatInt(n)]
      case Float(f) => if f == 0 || f == 0x8000_0000_0000_0000 then map[] else map[tag := c.formatFloat(f)]
      case BoolPtr(None) => map[]
      case BoolPtr(Some(b)) => map[tag := if b then "true" else "false"]
      case Time(t) => if t == 0 then map[] else map[tag := c.formatTime(t)]
  {}

  /** What a nested struct writes stands behind its tag and a dot. */
  lemma StructText(c: Codec, tag: string, fields: seq<Field>, vals: seq<Value>, r: string)
    requires tag != "" && tag != "-" && HasType(fields, vals)
    ensures
      var m, sub := EncField(c, Field(tag, StructField(fields)), Struct(vals)), Enc(c, fields, vals);
      (tag + "." + r in m <==> r in sub) && (r in sub ==> m[tag + "." + r] == sub[r])
  {
    ShiftText(tag, Enc(c, fields, vals), r);
  }

  lemma ShiftText(p: string, m: FlatMap, r: string)
    ensures p + "." + r in Shift(p, m) <==> r in m
    ensures r in m ==> Shift(p, m)[p + "." + r] == m[r]
  {
    JoinUnder(p, r);
  }

  /** What element j writes stands behind the tag, the decimal j and a dot. */
  lemma ElementText(c: Codec, tag: string, elem: seq<Field>, elems: seq<seq<Value>>, j: nat, r: string, m: FlatMap)
    requires tag != "" && tag != "-" && HasKind(SliceField(elem), Slice(Some(elems)))
    requires m == EncField(c, Field(tag, SliceField(elem)), Slice(Some(elems)))
    ensures tag + "." + (Itoa(j) + "." + r) in m <==> j < |elems| && r in Enc(c, elem, elems[j])
    ensures tag + "." + (Itoa(j) + "." + r) in m ==>
      m[tag + "." + (Itoa(j) + "." + r)] == Enc(c, elem, elems[j])[r]
  {
    var k := Itoa(j) + "." + r;
    ShiftText(tag, EncElems(c, elem, elems), k);
    ElementKeys(c, elem, elems, j, r);
    assert m == Shift(tag, EncElems(c, elem, elems));
  }

  lemma ElementKeys(c: Codec, elem: seq<Field>, elems: seq<seq<Value>>, j: nat, r: string)
    requires forall n :: 0 <= n < |elems| ==> HasType(elem, elems[n])
    ensures
      var m, k := EncElems(c, elem, elems), Itoa(j) + "." + r;
      && (k in m <==> j < |elems| && r in Enc(c, elem, elems[j]))
      && (k in m ==> m[k] == Enc(c, elem, elems[j])[r])
  {
    ElementRegion(c, elem, elems, j);
    SubText(EncElems(c, elem, elems), Itoa(j), r);
  }

  lemma SubText(m: FlatMap, p: string, r: string)
    ensures r in Sub(m, p) <==> p + "." + r in m
    ensures r in Sub(m, p) ==> Sub(m, p)[r] == m[p + "." + r]
  {
    assert Join(p, r) == p + "." + r;
  }

  /** An entry of a string map stands behind the tag and a dot, unless its value is empty. */
  lemma MapText(c: Codec, tag: string, entries: FlatMap, k: string)
    requires tag != "" && tag != "-"
    ensures
      var m := EncField(c, Field(tag, MapField), Dict(Some(entries)));
      && (tag + "." + k in m <==> k in entries && entries[k] != "")
      && (tag + "." + k in m ==> m[tag + "." + k] == entries[k])
  {
    ShiftText(tag, NonEmpty(Some(entries)), k);
  }

  /** Nil slices and maps, fields without a tag or with a dash, and other kinds write nothing. */
  lemma SilentFields(c: Codec, f: Field, v: Value)
    requires HasKind(f.kind, v)
    requires f.tag == "" || f.tag == "-" || f.kind.OtherField? || v == Slice(None) || v == Dict(None)
    ensures EncField(c, f, v) == map[]
  {
    ShiftEmpty(f.tag);
  }

  /** A whole struct writes what its fields write, and no other key. */
  lemma {:induction false} OnlyFieldKeys(c: Codec, fields: seq<Field>, vals: seq<Value>, k: string) returns (i: nat)
    requires HasType(fields, vals) && k in Enc(c, fields, vals)
    ensures i < |fields| && k in EncField(c, fields[i], vals[i])
    ensures fields[i].tag != "" && (k == fields[i].tag || fields[i].tag + "." <= k)
    decreases |fields|
  {
    var n := |fields| - 1;
    if k in Enc(c, fields[..n], vals[..n]) {
      i := OnlyFieldKeys(c, fields[..n], vals[..n], k);
    } else {
      i := n;
      if !fields[n].kind.ScalarField? {
        assert k == Join(fields[n].tag, Rest(k, fields[n].tag));
      }
    }
  }

  /** Behind a prefix, the key of field i holds what the field itself writes there, and so do the keys below it. */
  lemma FieldKeys(c: Codec, fields: seq<Field>, vals: seq<Value>, i: nat, p: string, f: Field, own: FlatMap)
    requires WellFormed(fields) && HasType(fields, vals) && i < |fields| && f == fields[i] && Active(f)
    requires own == EncField(c, f, vals[i])
    ensures
      var m, k := Shift(p, Enc(c, fields, vals)), p + "." + f.tag;
      (k in m <==> f.tag in own) && (k in m ==> m[k] == own[f.tag])
  {
    FieldRegion(c, fields, vals, i);
    ShiftText(p, Enc(c, fields, vals), f.tag);
  }

  lemma FieldKeysBelow(c: Codec, fields: seq<Field>, vals: seq<Value>, i: nat, p: string, f: Field, own: FlatMap, r: string)
    requires WellFormed(fields) && HasType(fields, vals) && i < |fields| && f == fields[i] && Active(f)
    requires own == EncField(c, f, vals[i])
    ensures
      var m, k := Shift(p, Enc(c, fields, vals)), p + "." + (f.tag + "." + r);
      (k in m <==> f.tag + "." + r in own) && (k in m ==> m[k] == own[f.tag + "." + r])
  {
    FieldRegion(c, fields, vals, i);
    SubText(Enc(c, fields, vals), f.tag, r);
    SubText(own, f.tag, r);
    ShiftText(p, Enc(c, fields, vals), f.tag + "." + r);
  }

  // ---- What a field reads ----

  /** A scalar is read from its tag; a missing or unparsable text leaves the zero value. */
  lemma ScalarReading(c: Codec, tag: string, k: ScalarKind, m: FlatMap)
    requires tag != "" && tag != "-"
    ensures DecField(c, Field(tag, ScalarField(k)), m) == Leaf(
      match k
      case StringKind => Str(if tag in m then m[tag] else "")
      case BoolKind => Boolean(tag in m && m[tag] in {"1", "t", "T", "TRUE", "true", "True"})
      case Int64Kind => Int64(if tag in m && ParseInt64(m[tag]).Some? then ParseInt64(m[tag]).value else 0)
      case FloatKind => Float(if tag in m && c.parseFloat(m[tag]).Some? then c.parseFloat(m[tag]).value else 0)
      case BoolPtrKind =>
        BoolPtr(if tag in m && m[tag] in {"1", "t", "T", "TRUE", "true", "True"} then Some(true)
                else if tag in m && m[tag] in {"0", "f", "F", "FALSE", "false", "False"} then Some(false)
                else None)
      case TimeKind => Time(if tag in m && c.parseTime(m[tag]).Some? then c.parseTime(m[tag]).value else 0))
  {}

  /** A string map is read from the keys behind its tag and a dot that have no other dot; it is nil without any. */
  lemma MapReading(c: Codec, tag: string, m: FlatMap, k: string)
    requires tag != "" && tag != "-"
    ensures
      var r := DecField(c, Field(tag, MapField), m);
      && r.Dict? && r.entries != Some(map[])
      && (r.entries.Some? && k in r.entries.value <==> '.' !in k && tag + "." + k in m)
      && (r.entries.Some? && k in r.entries.value ==> r.entries.value[k] == m[tag + "." + k])
  {
    SubText(m, tag, k);
    UndottedText(Sub(m, tag), k);
  }

  lemma UndottedText(m: FlatMap, k: string)
    ensures Undotted(m) != Some(map[])
    ensures Undotted(m).Some? && k in Undotted(m).value <==> '.' !in k && k in m
    ensures Undotted(m).Some? && k in Undotted(m).value ==> Undotted(m).value[k] == m[k]
  {
    var kept := map x | x in m && DotFree(x) :: m[x];
    assert k in kept <==> DotFree(k) && k in m;
  }

  /** A key behind the tag with an index in decimal before the next dot makes the slice that long. */
  lemma SliceReaches(c: Codec, tag: string, elem: seq<Field>, m: FlatMap, x: string, r: string)
    requires tag != "" && tag != "-" && '.' !in x && ParseInt64(x).Some? && ParseInt64(x).value >= 0
    requires tag + "." + (x + "." + r) in m
    ensures
      var s := DecField(c, Field(tag, SliceField(elem)), m);
      s.Slice? && s.elems.Some? && ParseInt64(x).value < |s.elems.value|
  {
    KeyIndex(x, r);
    SubText(m, tag, x + "." + r);
    NoIndexAbove(Sub(m, tag), Join(x, r));
    SliceLength(c, tag, elem, m);
  }

  lemma SliceLength(c: Codec, tag: string, elem: seq<Field>, m: FlatMap)
    requires tag != "" && tag != "-"
    ensures
      var s := DecField(c, Field(tag, SliceField(elem)), m);
      s.Slice? && if s.elems.Some? then |s.elems.value| == MaxIndex(Sub(m, tag)) + 1 > 0 else MaxIndex(Sub(m, tag)) == -1
  {}

  lemma KeyIndex(x: string, r: string)
    requires DotFree(x)
    ensures IndexOf(Join(x, r)) == ParseInt64(x)
  {
    JoinUnder(x, r);
    IndexDotUnder(Join(x, r), x);
  }

  lemma NoIndexAbove(m: FlatMap, k: string)
    requires k in m && IndexOf(k).Some?
    ensures IndexOf(k).value <= MaxIndex(m)
  {
    assert IndexOf(k).value in Indices(m);
  }

  /** And no other key does: the last element has a key behind the tag that names its index. */
  lemma SliceEnds(c: Codec, tag: string, elem: seq<Field>, m: FlatMap, elems: seq<seq<Value>>)
    returns (x: string, r: string)
    requires tag != "" && tag != "-" && DecField(c, Field(tag, SliceField(elem)), m) == Slice(Some(elems))
    ensures elems != [] && '.' !in x && ParseInt64(x) == Some(|elems| - 1) && tag + "." + (x + "." + r) in m
  {
    SliceLength(c, tag, elem, m);
    x, r := LargestKeyBelow(m, tag, |elems| - 1);
  }

  lemma LargestKeyBelow(m: FlatMap, tag: string, n: nat) returns (x: string, r: string)
    requires MaxIndex(Sub(m, tag)) == n
    ensures '.' !in x && ParseInt64(x) == Some(n) && tag + "." + (x + "." + r) in m
  {
    x, r := LargestKey(Sub(m, tag));
    SubText(m, tag, x + "." + r);
  }

  lemma LargestKey(m: FlatMap) returns (x: string, r: string)
    requires MaxIndex(m) >= 0
    ensures '.' !in x && ParseInt64(x) == Some(MaxIndex(m)) && x + "." + r in m
  {
    var k := KeyOfMax(m);
    x, r := CutAtDot(k);
    KeyIndex(x, r);
  }

  lemma CutAtDot(k: string) returns (x: string, r: string)
    requires !DotFree(k)
    ensures k == Join(x, r) && DotFree(x)
  {
    var d := IndexDot(k);
    x, r := k[..d], k[d + 1..];
  }

  lemma KeyOfMax(m: FlatMap) returns (k: string)
    requires MaxIndex(m) >= 0
    ensures k in m && IndexOf(k) == Some(MaxIndex(m))
  {
    assert MaxIndex(m) in Indices(m);
    k :| k in m && IndexOf(k).Some? && IndexOf(k).value == MaxIndex(m);
  }

  /** Element j is read from the keys behind the tag, the decimal j and a dot. */
  lemma ElementReading(c: Codec, tag: string, elem: seq<Field>, m: FlatMap, j: nat)
    requires tag != "" && tag != "-"
    requires
      var s := DecField(c, Field(tag, SliceField(elem)), m);
      s.Slice? && s.elems.Some? && j < |s.elems.value|
    ensures DecField(c, Field(tag, SliceField(elem)), m).elems.value[j] == Dec(c, elem, Sub(m, tag + "." + Itoa(j)))
  {
    SubOfJoin(m, tag, Itoa(j));
    assert Join(tag, Itoa(j)) == tag + "." + Itoa(j);
  }
}
