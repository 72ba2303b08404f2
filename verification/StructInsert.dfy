/**
 * Struct rows for an asynchronous insert: the layout reflected from a struct
 * type, its cache shared by concurrent calls, and the query with its arguments.
 */
module StructInsert {
  import opened Options
  import opened InsertQuery

  datatype Field = Field(name: string, anonymous: bool, pkgPath: string, tag: string)

  /** A struct type; id tells types apart that look the same. */
  datatype Type = Type(id: nat, name: string, fields: seq<Field>)

  datatype Rejection = Embedded(field: string, owner: string) | Untagged(field: string, owner: string)

  datatype Layout = Layout(columns: seq<string>, indexes: seq<seq<nat>>)

  datatype Reflected = Accepted(layout: Layout) | Rejected(why: Rejection)

  predicate Exported(f: Field) {
    f.pkgPath == ""
  }

  predicate Offends(f: Field) {
    f.anonymous || (Exported(f) && f.tag == "")
  }

  predicate IsColumn(f: Field) {
    !f.anonymous && Exported(f) && f.tag != "" && f.tag != "-"
  }

  /** The layout of the first n fields, none of which offends. */
  function LayoutOf(fields: seq<Field>, n: nat): Layout
    requires n <= |fields|
  {
    if n == 0 then Layout([], [])
    else
      var l := LayoutOf(fields, n - 1);
      if IsColumn(fields[n - 1]) then Layout(l.columns + [fields[n - 1].tag], l.indexes + [[n - 1]]) else l
  }

  function FirstOffence(fields: seq<Field>, n: nat): (r: Option<nat>)
    requires n <= |fields|
    ensures r.Some? ==> r.value < n
  {
    if n == 0 then None
    else if FirstOffence(fields, n - 1).Some? then FirstOffence(fields, n - 1)
    else if Offends(fields[n - 1]) then Some(n - 1)
    else None
  }

  function Reason(t: Type, f: Field): Rejection {
    if f.anonymous then Embedded(f.name, t.name) else Untagged(f.name, t.name)
  }

  function Reflection(t: Type): Reflected {
    match FirstOffence(t.fields, |t.fields|)
    case Some(i) => Rejected(Reason(t, t.fields[i]))
    case None => Accepted(LayoutOf(t.fields, |t.fields|))
  }

  lemma {:induction false} FirstOffenceFound(fields: seq<Field>, n: nat)
    requires n <= |fields|
    ensures match FirstOffence(fields, n)
      case None => forall i :: 0 <= i < n ==> !Offends(fields[i])
      case Some(k) => k < n && Offends(fields[k]) && forall i :: 0 <= i < k ==> !Offends(fields[i])
  {
    if n > 0 {
      FirstOffenceFound(fields, n - 1);
    }
  }

  /** Column i names the field with index i; the fields are in order, and are exactly the tagged exported ones. */
  ghost predicate Names(fields: seq<Field>, n: nat, l: Layout)
    requires n <= |fields|
  {
    && |l.columns| == |l.indexes|
    && (forall i :: 0 <= i < |l.indexes| ==>
          && |l.indexes[i]| == 1 && l.indexes[i][0] < n
          && IsColumn(fields[l.indexes[i][0]]) && l.columns[i] == fields[l.indexes[i][0]].tag)
    && (forall i, j :: 0 <= i < j < |l.indexes| ==> l.indexes[i][0] < l.indexes[j][0])
    && (forall k: nat :: k < n && IsColumn(fields[k]) ==> [k] in l.indexes)
  }

  lemma {:induction false} LayoutNames(fields: seq<Field>, n: nat)
    requires n <= |fields|
    ensures Names(fields, n, LayoutOf(fields, n))
  {
    if n > 0 {
      LayoutNames(fields, n - 1);
    }
  }

  /** A type is accepted exactly when no field offends; a rejection names the first that does. */
  lemma ReflectionIff(t: Type)
    ensures Reflection(t).Accepted? <==> forall i :: 0 <= i < |t.fields| ==> !Offends(t.fields[i])
    ensures Reflection(t).Accepted? ==> Names(t.fields, |t.fields|, Reflection(t).layout)
    ensures Reflection(t).Rejected? ==>
      exists k :: 0 <= k < |t.fields| && Offends(t.fields[k]) && Reflection(t).why == Reason(t, t.fields[k])
             && forall i :: 0 <= i < k ==> !Offends(t.fields[i])
  {
    FirstOffenceFound(t.fields, |t.fields|);
    LayoutNames(t.fields, |t.fields|);
  }

  /** The same in terms of the fields: the tag of every exported field is a column, unless it is a dash. */
  lemma ReflectionMeans(t: Type)
    ensures Reflection(t).Accepted? <==>
      forall i :: 0 <= i < |t.fields| ==> !t.fields[i].anonymous && (t.fields[i].pkgPath != "" || t.fields[i].tag != "")
    ensures Reflection(t).Accepted? ==>
      var l := Reflection(t).layout;
      && |l.columns| == |l.indexes|
      && (forall i :: 0 <= i < |l.indexes| ==>
            && |l.indexes[i]| == 1 && l.indexes[i][0] < |t.fields|
            && t.fields[l.indexes[i][0]].pkgPath == "" && t.fields[l.indexes[i][0]].tag != "-"
            && l.columns[i] == t.fields[l.indexes[i][0]].tag)
      && (forall k: nat :: k < |t.fields| && t.fields[k].pkgPath == "" && t.fields[k].tag != "-" ==> [k] in l.indexes)
    ensures Reflection(t).Rejected? ==>
      exists k :: 0 <= k < |t.fields| && Reflection(t).why ==
        if t.fields[k].anonymous then Embedded(t.fields[k].name, t.name) else Untagged(t.fields[k].name, t.name)
  {
    ReflectionIff(t);
    assert forall i :: 0 <= i < |t.fields| ==>
      (Offends(t.fields[i]) <==> t.fields[i].anonymous || (t.fields[i].pkgPath == "" && t.fields[i].tag == ""));
    if Reflection(t).Accepted? {
      assert forall k: nat :: k < |t.fields| ==>
        (IsColumn(t.fields[k]) <==> t.fields[k].pkgPath == "" && t.fields[k].tag != "-");
    }
  }

  method Reflect(t: Type) returns (r: Reflected)
    ensures r == Reflection(t)
  {
    var columns: seq<string>, indexes: seq<seq<nat>> := [], [];
    for i := 0 to |t.fields|
      invariant FirstOffence(t.fields, i) == None
      invariant Layout(columns, indexes) == LayoutOf(t.fields, i)
    {
      var f := t.fields[i];
      if Offends(f) {
        OffenceStays(t.fields, i, |t.fields|);
      }
      if f.anonymous {
        return Rejected(Embedded(f.name, t.name));
      }
      if f.pkgPath != "" {
        continue;
      }
      if f.tag == "" {
        return Rejected(Untagged(f.name, t.name));
      }
      if f.tag == "-" {
        continue;
      }
      columns := columns + [f.tag];
      indexes := indexes + [[i]];
    }
    r := Accepted(Layout(columns, indexes));
  }

  lemma {:induction false} OffenceStays(fields: seq<Field>, i: nat, n: nat)
    requires i < n <= |fields| && FirstOffence(fields, i) == None && Offends(fields[i])
    ensures FirstOffence(fields, n) == Some(i)
  {
    if n > i + 1 {
      OffenceStays(fields, i, n - 1);
    }
  }

  // ---- The cache ----

  /** A stored layout; owner is the call that built it, so it tells pointers apart. */
  datatype Info = Info(layout: Layout, owner: nat)

  datatype Lookup = Known(info: Info) | Refused(why: Rejection)

  datatype Answer = Answer(call: nat, t: Type, lookup: Lookup)

  /** The cache, the calls that missed it and are computing, and what was answered so far. */
  datatype Shared = Shared(stored: map<Type, Info>, computing: map<nat, Type>, answers: seq<Answer>)

  /** A lookup is two atomic steps on the cache, Load and then LoadOrStore, with others in between. */
  datatype Step = Load(call: nat, t: Type) | Finish(call: nat)

  predicate Enabled(s: Shared, step: Step) {
    match step
    case Load(call, _) => call !in s.computing
    case Finish(call) => call in s.computing
  }

  function Next(s: Shared, step: Step): Shared
    requires Enabled(s, step)
  {
    match step
    case Load(call, t) =>
      if t in s.stored then s.(answers := s.answers + [Answer(call, t, Known(s.stored[t]))])
      else s.(computing := s.computing[call := t])
    case Finish(call) =>
      var t := s.computing[call];
      var left := s.computing - {call};
      match Reflection(t)
      case Rejected(why) => s.(computing := left, answers := s.answers + [Answer(call, t, Refused(why))])
      case Accepted(layout) =>
        var stored := Kept(s.stored, t, Info(layout, call));
        Shared(stored, left, s.answers + [Answer(call, t, Known(stored[t]))])
  }

  /** LoadOrStore: what is there stays. */
  function Kept(stored: map<Type, Info>, t: Type, info: Info): (r: map<Type, Info>)
    ensures t in r && forall u :: u in stored ==> u in r && r[u] == stored[u]
  {
    if t in stored then stored else stored[t := info]
  }

  ghost predicate IsRun(states: seq<Shared>, steps: seq<Step>) {
    && |states| == |steps| + 1
    && states[0] == Shared(map[], map[], [])
    && forall i :: 0 <= i < |steps| ==> Enabled(states[i], steps[i]) && states[i + 1] == Next(states[i], steps[i])
  }

  /** Every stored layout is what reflecting its type anew would give. */
  ghost predicate AllFresh(stored: map<Type, Info>) {
    forall t :: t in stored ==> Reflection(t) == Accepted(stored[t].layout)
  }

  ghost predicate Truthful(s: Shared, a: Answer) {
    match Reflection(a.t)
    case Accepted(layout) => a.t in s.stored && a.lookup == Known(s.stored[a.t]) && s.stored[a.t].layout == layout
    case Rejected(why) => a.t !in s.stored && a.lookup == Refused(why)
  }

  ghost predicate Inv(s: Shared) {
    AllFresh(s.stored) && forall i :: 0 <= i < |s.answers| ==> Truthful(s, s.answers[i])
  }

  lemma StepKeepsInv(s: Shared, step: Step)
    requires Inv(s) && Enabled(s, step)
    ensures Inv(Next(s, step)) && Grown(s.stored, Next(s, step).stored)
  {
    var t := Next(s, step);
    forall i | 0 <= i < |t.answers| ensures Truthful(t, t.answers[i]) {
      assert i < |s.answers| ==> t.answers[i] == s.answers[i] && Truthful(s, s.answers[i]);
    }
  }

  lemma {:induction false} RunKeepsInv(states: seq<Shared>, steps: seq<Step>, i: nat)
    requires IsRun(states, steps) && i < |states|
    ensures Inv(states[i])
  {
    if i > 0 {
      RunKeepsInv(states, steps, i - 1);
      StepKeepsInv(states[i - 1], steps[i - 1]);
    }
  }

  ghost predicate Grown(before: map<Type, Info>, after: map<Type, Info>) {
    forall t :: t in before ==> t in after && after[t] == before[t]
  }

  /** A layout once stored is never replaced. */
  lemma {:induction false} StoredStays(states: seq<Shared>, steps: seq<Step>, i: nat, j: nat)
    requires IsRun(states, steps) && i <= j < |states|
    ensures Grown(states[i].stored, states[j].stored)
    decreases j
  {
    if i < j {
      StoredStays(states, steps, i, j - 1);
      StepGrows(states[j - 1], steps[j - 1]);
      assert states[j] == Next(states[j - 1], steps[j - 1]);
      GrownTransitive(states[i].stored, states[j - 1].stored, states[j].stored);
    }
  }

  lemma StepGrows(s: Shared, step: Step)
    requires Enabled(s, step)
    ensures Grown(s.stored, Next(s, step).stored)
  {}

  lemma GrownTransitive(a: map<Type, Info>, b: map<Type, Info>, c: map<Type, Info>)
    requires Grown(a, b) && Grown(b, c)
    ensures Grown(a, c)
  {}

  /**
   * In every interleaving: each answer is what a fresh reflection gives, all
   * calls for one type get the very same layout, and no rejected type is stored.
   */
  lemma AnswersAgree(states: seq<Shared>, steps: seq<Step>, i: nat)
    requires IsRun(states, steps) && i < |states|
    ensures forall a :: a in states[i].answers ==>
      match Reflection(a.t)
      case Accepted(layout) => a.lookup.Known? && a.lookup.info.layout == layout
      case Rejected(why) => a.lookup == Refused(why)
    ensures forall a, b :: a in states[i].answers && b in states[i].answers && a.t == b.t ==> a.lookup == b.lookup
    ensures forall t :: Reflection(t).Rejected? ==> t !in states[i].stored
  {
    RunKeepsInv(states, steps, i);
    assert forall a :: a in states[i].answers ==> Truthful(states[i], a);
  }

  class StructCache {
    var stored: map<Type, Info>

    constructor ()
      ensures stored == map[]
    {
      stored := map[];
    }

    method LoadOrStore(t: Type, info: Info) returns (actual: Info)
      modifies this
      ensures stored == Kept(old(stored), t, info) && actual == stored[t]
    {
      if t !in stored {
        stored := stored[t := info];
      }
      actual := stored[t];
    }

    /** One lookup; later is the cache as the other calls leave it while this one computes. */
    method ReflectStructInfo(call: nat, t: Type, later: map<Type, Info>) returns (r: Lookup)
      requires AllFresh(stored) && AllFresh(later) && Grown(stored, later)
      modifies this
      ensures AllFresh(stored) && Grown(old(stored), stored)
      ensures r.Known? <==> Reflection(t).Accepted?
      ensures r.Known? ==> t in stored && r.info == stored[t] && Reflection(t) == Accepted(r.info.layout)
      ensures r.Refused? ==> Reflection(t) == Rejected(r.why) && t !in stored
      ensures stored == old(stored)
           || stored == later
           || (r.Known? && stored == Kept(later, t, Info(r.info.layout, call)))
    {
      if t in stored {
        return Known(stored[t]);
      }
      var reflected := Reflect(t);
      stored := later;
      if reflected.Rejected? {
        return Refused(reflected.why);
      }
      var actual := LoadOrStore(t, Info(reflected.layout, call));
      r := Known(actual);
    }
  }

  // ---- A row ----

  datatype Value<V> = NilPointer | Pointer(elem: Value<V>) | Struct(t: Type, values: seq<V>) | Other(kind: string)

  datatype Prepared<V> =
    | Insert(query: string, args: seq<V>)
    | NilRow
    | NotAStruct
    | BadLayout(why: Rejection)
    | NoColumns(owner: string)

  ghost predicate WellTyped<V>(value: Value<V>) {
    match value
    case Struct(t, values) => |values| == |t.fields|
    case Pointer(elem) => WellTyped(elem)
    case _ => true
  }

  method PrepareAsyncInsert<V>(cache: StructCache, call: nat, table: string, value: Value<V>, later: map<Type, Info>)
    returns (r: Prepared<V>)
    requires WellTyped(value)
    requires AllFresh(cache.stored) && AllFresh(later) && Grown(cache.stored, later)
    modifies cache
    ensures AllFresh(cache.stored) && Grown(old(cache.stored), cache.stored)
    ensures r.NilRow? <==> value.NilPointer?
    ensures r.NotAStruct? <==> value.Other? || (value.Pointer? && !value.elem.Struct?)
    ensures value.Struct? ==> Prepares(table, value.t, value.values, r)
    ensures value.Pointer? && value.elem.Struct? ==> Prepares(table, value.elem.t, value.elem.values, r)
  {
    var v := value;
    if v.NilPointer? {
      return NilRow;
    }
    if v.Pointer? {
      v := v.elem;
    }
    if !v.Struct? {
      return NotAStruct;
    }
    var lookup := cache.ReflectStructInfo(call, v.t, later);
    if lookup.Refused? {
      return BadLayout(lookup.why);
    }
    var info := lookup.info.layout;
    LayoutNames(v.t.fields, |v.t.fields|);
    if |info.columns| == 0 {
      return NoColumns(v.t.name);
    }
    var args := Arguments(info, v.t.fields, v.values);
    var query := BuildInsertQuery(table, info.columns);
    r := Insert(query, args);
  }

  /** What a row of a struct type becomes. */
  ghost predicate Prepares<V>(table: string, t: Type, values: seq<V>, r: Prepared<V>) {
    match Reflection(t)
    case Rejected(why) => r == BadLayout(why)
    case Accepted(layout) =>
      if layout.columns == [] then r == NoColumns(t.name)
      else r.Insert? && r.query == Query(table, layout.columns) && Supplies(layout, values, r.args)
  }

  ghost predicate Supplies<V>(l: Layout, values: seq<V>, args: seq<V>) {
    && |args| == |l.indexes|
    && forall i :: 0 <= i < |args| ==> |l.indexes[i]| == 1 && l.indexes[i][0] < |values| && args[i] == values[l.indexes[i][0]]
  }

  method Arguments<V>(l: Layout, ghost fields: seq<Field>, values: seq<V>) returns (args: seq<V>)
    requires |fields| == |values| && Names(fields, |fields|, l)
    ensures Supplies(l, values, args)
  {
    args := [];
    for i := 0 to |l.indexes|
      invariant |args| == i && forall k :: 0 <= k < i ==> args[k] == values[l.indexes[k][0]]
    {
      args := args + [values[l.indexes[i][0]]];
    }
  }

  /** One and the same field gives the column its name and the argument its value. */
  ghost predicate FromField<V>(t: Type, values: seq<V>, column: string, arg: V)
    requires |values| == |t.fields|
  {
    exists k :: 0 <= k < |t.fields| && IsColumn(t.fields[k]) && column == t.fields[k].tag && arg == values[k]
  }

  /** The columns of a type are the tags of its column fields, so they all stand for themselves when those do. */
  lemma ColumnsVerbatimIff(esc: Escapes, t: Type)
    requires Reflection(t).Accepted?
    ensures AllVerbatim(esc, Reflection(t).layout.columns)
       <==> forall k :: 0 <= k < |t.fields| && IsColumn(t.fields[k]) ==> Verbatim(esc, t.fields[k].tag)
  {
    var l := Reflection(t).layout;
    ReflectionIff(t);
    if AllVerbatim(esc, l.columns) {
      forall k | 0 <= k < |t.fields| && IsColumn(t.fields[k]) ensures Verbatim(esc, t.fields[k].tag) {
        var i :| 0 <= i < |l.indexes| && l.indexes[i] == [k];
        assert l.columns[i] == t.fields[k].tag;
      }
    }
  }

  /**
   * Column i of a prepared row is the tag of the field that supplies argument i;
   * and the query says so if and only if those tags stand for themselves.
   */
  lemma ColumnsMatchArguments<V>(esc: Escapes, table: string, t: Type, values: seq<V>, r: Prepared<V>)
    requires Lexical(esc) && '(' !in table
    requires |values| == |t.fields| && Prepares(table, t, values, r) && r.Insert?
    ensures
      var columns := Reflection(t).layout.columns;
      && |columns| == |r.args| && columns != []
      && (forall i :: 0 <= i < |columns| ==> FromField(t, values, columns[i], r.args[i]))
      && (Parse(esc, r.query) == Some(Statement(table, columns))
          <==> forall k :: 0 <= k < |t.fields| && IsColumn(t.fields[k]) ==> Verbatim(esc, t.fields[k].tag))
  {
    var l := Reflection(t).layout;
    ReflectionIff(t);
    ParseOfQueryIff(esc, table, l.columns);
    ColumnsVerbatimIff(esc, t);
    forall i | 0 <= i < |l.columns| ensures FromField(t, values, l.columns[i], r.args[i]) {
      var k := l.indexes[i][0];
      assert IsColumn(t.fields[k]) && l.columns[i] == t.fields[k].tag && r.args[i] == values[k];
    }
  }
}
