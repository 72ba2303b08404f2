/**
 * What the flat-map codec means, on keys relative to one struct level: the map a
 * value is written to, the value a map is read as, and the normal form that a
 * value has after one trip.
 */
module FlatMapSpec {
  import opened Options
  import opened Keys
  import opened Decimal
  import opened Schema

  function FormatBool(b: bool): string {
    if b then "true" else "false"
  }

  /** The spellings that strconv.ParseBool accepts. */
  function ParseBool(s: string): Option<bool> {
    if s in {"1", "t", "T", "TRUE", "true", "True"} then Some(true)
    else if s in {"0", "f", "F", "FALSE", "false", "False"} then Some(false)
    else None
  }

  /** The text written for a scalar field; zero values are omitted. */
  function Print(c: Codec, s: Scalar): Option<string> {
    match s
    case Str(t) => if t != "" then Some(t) else None
    case Boolean(b) => if b then Some("true") else None
    case Int64(n) => if n != 0 then Some(FormatInt(n)) else None
    case Float(f) => if !IsZeroFloat(f) then Some(c.formatFloat(f)) else None
    case BoolPtr(p) => if p.Some? then Some(FormatBool(p.value)) else None
    case Time(t) => if t != 0 then Some(c.formatTime(t)) else None
  }

  /** The scalar read from a text; an unparsable text leaves the zero value. */
  function Read(c: Codec, k: ScalarKind, text: string): (s: Scalar)
    ensures ScalarHasKind(k, s)
  {
    match k
    case StringKind => Str(text)
    case BoolKind => (match ParseBool(text) case Some(b) => Boolean(b) case None => ZeroScalar(k))
    case Int64Kind => (match ParseInt64(text) case Some(n) => Int64(n) case None => ZeroScalar(k))
    case FloatKind => (match c.parseFloat(text) case Some(f) => Float(f) case None => ZeroScalar(k))
    case BoolPtrKind => (match ParseBool(text) case Some(b) => BoolPtr(Some(b)) case None => ZeroScalar(k))
    case TimeKind => (match c.parseTime(text) case Some(t) => Time(t) case None => ZeroScalar(k))
  }

  /** The entries of a string map that are written: those with a value. */
  function NonEmpty(entries: Option<FlatMap>): FlatMap {
    match entries
    case None => map[]
    case Some(m) => map k | k in m && m[k] != "" :: m[k]
  }

  function Enc(c: Codec, fields: seq<Field>, vals: seq<Value>): FlatMap
    requires HasType(fields, vals)
    decreases fields, 0
  {
    if fields == [] then map[]
    else
      var n := |fields| - 1;
      Enc(c, fields[..n], vals[..n]) + EncField(c, fields[n], vals[n])
  }

  function EncField(c: Codec, f: Field, v: Value): FlatMap
    requires HasKind(f.kind, v)
    decreases f, 0
  {
    if !Active(f) then map[] else
      match f.kind
      case ScalarField(_) =>
        (match Print(c, v.scalar) case Some(text) => map[f.tag := text] case None => map[])
      case StructField(fields) => Shift(f.tag, Enc(c, fields, v.fields))
      case SliceField(elem) =>
        if v.elems.Some? then Shift(f.tag, EncElems(c, elem, v.elems.value)) else map[]
      case MapField => Shift(f.tag, NonEmpty(v.entries))
      case OtherField => map[]
  }

  function EncElems(c: Codec, elem: seq<Field>, elems: seq<seq<Value>>): FlatMap
    requires forall j :: 0 <= j < |elems| ==> HasType(elem, elems[j])
    decreases elem, 1 + |elems|
  {
    if elems == [] then map[]
    else
      var n := |elems| - 1;
      EncElems(c, elem, elems[..n]) + Shift(Itoa(n), Enc(c, elem, elems[n]))
  }

  /** The slice index a key speaks for: the parsed text before its first dot. */
  function IndexOf(k: string): Option<int> {
    var d := IndexDot(k);
    if d == -1 then None else ParseInt64(k[..d])
  }

  function Indices(m: FlatMap): set<int> {
    set k | k in m && IndexOf(k).Some? :: IndexOf(k).value
  }

  /** The largest member from -1 up; -1 when there is none. */
  ghost function MaxOf(s: set<int>): (n: int)
    ensures -1 <= n && (n == -1 || n in s)
    ensures forall i :: i in s ==> i <= n
  {
    if s == {} then -1
    else
      var i := AnyOf(s);
      var n := MaxOf(s - {i});
      assert forall k :: k in s ==> k == i || k in s - {i};
      if i > n then i else n
  }

  ghost function AnyOf<T>(s: set<T>): (i: T)
    requires s != {}
    ensures i in s
  {
    var i :| i in s;
    i
  }

  /** The largest slice index some key speaks for, or -1. */
  ghost function MaxIndex(m: FlatMap): int {
    MaxOf(Indices(m))
  }

  /** The entries of a string map that are read: those whose key has no dot. */
  function Undotted(m: FlatMap): Option<FlatMap> {
    var kept := map k | k in m && DotFree(k) :: m[k];
    if kept == map[] then None else Some(kept)
  }

  ghost function Dec(c: Codec, fields: seq<Field>, m: FlatMap): seq<Value>
    decreases fields, 0
  {
    seq(|fields|, i requires 0 <= i < |fields| => DecField(c, fields[i], m))
  }

  ghost function DecField(c: Codec, f: Field, m: FlatMap): Value
    decreases f, 0
  {
    if !Active(f) then ZeroValue(f.kind) else
      match f.kind
      case ScalarField(k) => DecScalar(c, k, m, f.tag)
      case StructField(fields) => Struct(Dec(c, fields, Sub(m, f.tag)))
      case SliceField(elem) => Slice(DecElems(c, elem, Sub(m, f.tag)))
      case MapField => Dict(Undotted(Sub(m, f.tag)))
      case OtherField => Other(0)
  }

  function DecScalar(c: Codec, k: ScalarKind, m: FlatMap, key: string): Value {
    Leaf(if key in m then Read(c, k, m[key]) else ZeroScalar(k))
  }

  ghost function DecElems(c: Codec, elem: seq<Field>, m: FlatMap): Option<seq<seq<Value>>>
    decreases elem, 1
  {
    var n := MaxIndex(m) + 1;
    if n == 0 then None else Some(seq(n, j requires 0 <= j < n => Dec(c, elem, Sub(m, Itoa(j)))))
  }

  /** No key asks for a slice longer than the largest int, where allocation panics. */
  ghost predicate Allocatable(fields: seq<Field>, m: FlatMap)
    decreases fields, 0
  {
    forall i :: 0 <= i < |fields| ==> AllocatableField(fields[i], m)
  }

  ghost predicate AllocatableField(f: Field, m: FlatMap)
    decreases f, 0
  {
    Active(f) ==>
      match f.kind
      case StructField(fields) => Allocatable(fields, Sub(m, f.tag))
      case SliceField(elem) => AllocatableElems(elem, Sub(m, f.tag))
      case _ => true
  }

  ghost predicate AllocatableElems(elem: seq<Field>, m: FlatMap)
    decreases elem, 1
  {
    && MaxIndex(m) < INT64_MAX
    && forall j: nat :: j <= MaxIndex(m) ==> Allocatable(elem, Sub(m, Itoa(j)))
  }

  function NormScalar(s: Scalar): Scalar {
    if s.Float? then Float(CanonicalFloat(s.f)) else s
  }

  /** How many elements survive a trip: up to the last one that wrote any key. */
  function Written(c: Codec, elem: seq<Field>, elems: seq<seq<Value>>): (n: nat)
    requires forall j :: 0 <= j < |elems| ==> HasType(elem, elems[j])
    ensures n <= |elems|
    ensures n > 0 ==> Enc(c, elem, elems[n - 1]) != map[]
    ensures forall j :: n <= j < |elems| ==> Enc(c, elem, elems[j]) == map[]
  {
    if elems == [] then 0
    else if Enc(c, elem, elems[|elems| - 1]) != map[] then |elems|
    else
      var shorter := elems[..|elems| - 1];
      assert forall j :: 0 <= j < |elems| - 1 ==> shorter[j] == elems[j];
      Written(c, elem, shorter)
  }

  function Norm(c: Codec, fields: seq<Field>, vals: seq<Value>): (r: seq<Value>)
    requires HasType(fields, vals)
    ensures HasType(fields, r)
    decreases fields, 0
  {
    seq(|fields|, i requires 0 <= i < |fields| => NormField(c, fields[i], vals[i]))
  }

  function NormField(c: Codec, f: Field, v: Value): (r: Value)
    requires HasKind(f.kind, v)
    ensures HasKind(f.kind, r)
    decreases f, 0
  {
    if !Active(f) then ZeroValue(f.kind) else
      match f.kind
      case ScalarField(_) => Leaf(NormScalar(v.scalar))
      case StructField(fields) => Struct(Norm(c, fields, v.fields))
      case SliceField(elem) =>
        Slice(if v.elems.Some? then NormElems(c, elem, v.elems.value) else None)
      case MapField => Dict(Undotted(NonEmpty(v.entries)))
      case OtherField => Other(0)
  }

  function NormElems(c: Codec, elem: seq<Field>, elems: seq<seq<Value>>): (r: Option<seq<seq<Value>>>)
    requires forall j :: 0 <= j < |elems| ==> HasType(elem, elems[j])
    ensures r.Some? ==> |r.value| <= |elems| && forall j :: 0 <= j < |r.value| ==> HasType(elem, r.value[j])
    decreases elem, 1
  {
    var n := Written(c, elem, elems);
    if n == 0 then None else Some(seq(n, j requires 0 <= j < n => Norm(c, elem, elems[j])))
  }
}
