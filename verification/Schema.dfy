/**
 * Reflected struct types and their values. A struct is its list of fields; each
 * field carries the baggage tag and one of the kinds the codec distinguishes.
 */
module Schema {
  import opened Options
  import opened Keys
  import opened Decimal

  /** The bit pattern of a float64. */
  type Bits = b: nat | b < 0x1_0000_0000_0000_0000

  const SIGN_BIT := 0x8000_0000_0000_0000
  const INFINITY_BITS := 0x7FF0_0000_0000_0000
  const QUIET_NAN: Bits := 0x7FF8_0000_0000_0001

  /** f == 0 in Go: true of both zeros. */
  predicate IsZeroFloat(b: Bits) {
    b % SIGN_BIT == 0
  }

  predicate IsNaN(b: Bits) {
    b % SIGN_BIT > INFINITY_BITS
  }

  /** The float that comes back: negative zero and NaN payloads are not carried. */
  function CanonicalFloat(b: Bits): Bits {
    if IsZeroFloat(b) then 0 else if IsNaN(b) then QUIET_NAN else b
  }

  /** Nanoseconds since year 1 in UTC, up to year 9999; 0 is the zero time. */
  type Instant = t: nat | t < 315_537_897_600_000_000_000

  /** The text formats of floats and times, which the model does not define. */
  datatype Codec = Codec(
    formatFloat: Bits -> string,
    parseFloat: string -> Option<Bits>,
    formatTime: Instant -> string,
    parseTime: string -> Option<Instant>)
  {
    /** Parsing inverts formatting; every NaN prints the same. */
    ghost predicate Sound() {
      && (forall b: Bits :: !IsZeroFloat(b) ==> parseFloat(formatFloat(b)) == Some(CanonicalFloat(b)))
      && (forall b: Bits :: IsNaN(b) ==> formatFloat(b) == formatFloat(QUIET_NAN))
      && (forall t: Instant :: t != 0 ==> parseTime(formatTime(t)) == Some(t))
    }
  }

  datatype ScalarKind = StringKind | BoolKind | Int64Kind | FloatKind | BoolPtrKind | TimeKind

  datatype Scalar =
    | Str(s: string)
    | Boolean(b: bool)
    | Int64(n: int)
    | Float(f: Bits)
    | BoolPtr(p: Option<bool>)
    | Time(t: Instant)

  /** OtherField stands for the kinds that neither direction touches. */
  datatype Kind =
    | ScalarField(scalar: ScalarKind)
    | StructField(fields: seq<Field>)
    | SliceField(elem: seq<Field>)
    | MapField
    | OtherField

  datatype Field = Field(tag: string, kind: Kind)

  /** None is the nil slice or the nil map. */
  datatype Value =
    | Leaf(scalar: Scalar)
    | Struct(fields: seq<Value>)
    | Slice(elems: Option<seq<seq<Value>>>)
    | Dict(entries: Option<FlatMap>)
    | Other(payload: int)

  /** A field takes part in the codec unless its tag is empty or a dash. */
  predicate Active(f: Field) {
    f.tag != "" && f.tag != "-"
  }

  predicate ScalarHasKind(k: ScalarKind, s: Scalar) {
    match k
    case StringKind => s.Str?
    case BoolKind => s.Boolean?
    case Int64Kind => s.Int64? && InInt64(s.n)
    case FloatKind => s.Float?
    case BoolPtrKind => s.BoolPtr?
    case TimeKind => s.Time?
  }

  predicate HasKind(k: Kind, v: Value)
    decreases k
  {
    match k
    case ScalarField(sk) => v.Leaf? && ScalarHasKind(sk, v.scalar)
    case StructField(fields) => v.Struct? && HasType(fields, v.fields)
    case SliceField(elem) =>
      && v.Slice?
      && (v.elems.Some? ==>
            && |v.elems.value| <= INT64_MAX
            && forall j :: 0 <= j < |v.elems.value| ==> HasType(elem, v.elems.value[j]))
    case MapField => v.Dict?
    case OtherField => v.Other?
  }

  predicate HasType(fields: seq<Field>, vals: seq<Value>)
    decreases fields
  {
    |vals| == |fields| && forall i :: 0 <= i < |fields| ==> HasKind(fields[i].kind, vals[i])
  }

  function ZeroScalar(k: ScalarKind): (s: Scalar)
    ensures ScalarHasKind(k, s)
  {
    match k
    case StringKind => Str("")
    case BoolKind => Boolean(false)
    case Int64Kind => Int64(0)
    case FloatKind => Float(0)
    case BoolPtrKind => BoolPtr(None)
    case TimeKind => Time(0)
  }

  function ZeroValue(k: Kind): (v: Value)
    ensures HasKind(k, v)
    decreases k
  {
    match k
    case ScalarField(sk) => Leaf(ZeroScalar(sk))
    case StructField(fields) => Struct(Zeros(fields))
    case SliceField(_) => Slice(None)
    case MapField => Dict(None)
    case OtherField => Other(0)
  }

  function Zeros(fields: seq<Field>): (vals: seq<Value>)
    ensures HasType(fields, vals)
    decreases fields
  {
    seq(|fields|, i requires 0 <= i < |fields| => ZeroValue(fields[i].kind))
  }

  /** Active tags are dot-free and pairwise different, at every level. */
  ghost predicate WellFormed(fields: seq<Field>)
    decreases fields
  {
    && (forall i :: 0 <= i < |fields| ==> WellFormedField(fields[i]))
    && (forall i, j :: 0 <= i < j < |fields| && Active(fields[i]) && Active(fields[j])
          ==> fields[i].tag != fields[j].tag)
  }

  ghost predicate WellFormedField(f: Field)
    decreases f
  {
    Active(f) ==>
      && DotFree(f.tag)
      && (f.kind.StructField? ==> WellFormed(f.kind.fields))
      && (f.kind.SliceField? ==> WellFormed(f.kind.elem))
  }
}
