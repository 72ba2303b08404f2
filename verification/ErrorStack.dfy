/**
 * Error values whose entries share extension maps by reference, the envelope
 * they are serialized to, and chains of wrapped errors.
 */
module ErrorStack {
  import opened Options
  import opened Sequences

  /** An extension value: what matters is whether it is a string. */
  datatype Any = Text(s: string) | Other(id: int)

  const INTERNAL_ERROR := "INTERNAL_ERROR"
  const VALIDATION_FAILED := "VALIDATION_FAILED"
  const FALLBACK_MESSAGE := "Internal server error"

  /** A Go map from extension keys to values, shared by reference. */
  class Extensions {
    var m: map<string, Any>

    constructor (m: map<string, Any>)
      ensures this.m == m
    {
      this.m := m;
    }
  }

  /** A path segment: a string, or another value as its trimmed JSON text. */
  datatype Segment = Name(s: string) | Rendered(json: string)

  datatype Entry = Entry(message: string, path: seq<Segment>, extensions: Extensions?)

  /** What an entry says, with its extension map read out. */
  datatype EntryValue = EntryValue(message: string, path: seq<Segment>, extensions: map<string, Any>)

  ghost function View(e: Entry): EntryValue
    reads e.extensions
  {
    EntryValue(e.message, e.path, if e.extensions == null then map[] else e.extensions.m)
  }

  ghost function Maps(entries: seq<Entry>): set<Extensions> {
    set i | 0 <= i < |entries| && entries[i].extensions != null :: entries[i].extensions
  }

  ghost function Views(entries: seq<Entry>): (vs: seq<EntryValue>)
    reads Maps(entries)
    ensures |vs| == |entries|
    ensures forall i :: 0 <= i < |entries| ==> vs[i] == View(entries[i])
  {
    if entries == [] then []
    else
      var n := |entries| - 1;
      assert Maps(entries[..n]) <= Maps(entries) && (entries[n].extensions != null ==> entries[n].extensions in Maps(entries)) by {
        MapsNext(entries, n);
        assert entries[..n + 1] == entries;
      }
      Views(entries[..n]) + [View(entries[n])]
  }

  /** The code key holds a non-empty string. */
  predicate HasCode(m: map<string, Any>) {
    "code" in m && m["code"].Text? && m["code"].s != ""
  }

  function Normalized(v: EntryValue): (r: EntryValue)
    ensures HasCode(r.extensions)
    ensures HasCode(v.extensions) ==> r == v
    ensures r.message == v.message && r.path == v.path && r.extensions - {"code"} == v.extensions - {"code"}
  {
    if HasCode(v.extensions) then v else v.(extensions := v.extensions["code" := Text(INTERNAL_ERROR)])
  }

  const FALLBACK := EntryValue(FALLBACK_MESSAGE, [], map["code" := Text(INTERNAL_ERROR)])

  datatype EntryOption =
    | WithCode(code: string)
    | WithPath(path: seq<Segment>)
    | WithExtension(key: string, value: Any)

  /** What one option does to an entry. */
  function Configure(v: EntryValue, opt: EntryOption): EntryValue {
    match opt
    case WithCode(code) => v.(extensions := v.extensions["code" := Text(code)])
    case WithPath(path) => v.(path := path)
    case WithExtension(key, value) => v.(extensions := v.extensions[key := value])
  }

  function ConfigureAll(v: EntryValue, opts: seq<EntryOption>): EntryValue {
    if opts == [] then v else Configure(ConfigureAll(v, opts[..|opts| - 1]), opts[|opts| - 1])
  }

  /** Options never touch the message, and the last one that gives a path decides it. */
  lemma {:induction false} ConfiguredPath(v: EntryValue, opts: seq<EntryOption>)
    ensures ConfigureAll(v, opts).message == v.message
    ensures (forall i :: 0 <= i < |opts| ==> !opts[i].WithPath?) ==> ConfigureAll(v, opts).path == v.path
    ensures forall i :: 0 <= i < |opts| && opts[i].WithPath? && (forall j :: i < j < |opts| ==> !opts[j].WithPath?) ==>
      ConfigureAll(v, opts).path == opts[i].path
    decreases |opts|
  {
    if opts != [] {
      ConfiguredPath(v, opts[..|opts| - 1]);
    }
  }

  /** A key that no option sets keeps its value, or stays away. */
  lemma {:induction false} UnsetKeyStays(v: EntryValue, opts: seq<EntryOption>, key: string)
    requires forall i :: 0 <= i < |opts| ==> !(opts[i].WithCode? && key == "code")
    requires forall i :: 0 <= i < |opts| ==> !(opts[i].WithExtension? && opts[i].key == key)
    ensures key in ConfigureAll(v, opts).extensions <==> key in v.extensions
    ensures key in v.extensions ==> ConfigureAll(v, opts).extensions[key] == v.extensions[key]
    decreases |opts|
  {
    if opts != [] {
      UnsetKeyStays(v, opts[..|opts| - 1], key);
    }
  }

  /** Of the options that set a key, with the code under "code", the last one decides. */
  lemma {:induction false} LastSetterWins(v: EntryValue, opts: seq<EntryOption>, key: string, i: nat)
    requires i < |opts| && ((opts[i].WithCode? && key == "code") || (opts[i].WithExtension? && opts[i].key == key))
    requires forall j :: i < j < |opts| ==> !(opts[j].WithCode? && key == "code")
    requires forall j :: i < j < |opts| ==> !(opts[j].WithExtension? && opts[j].key == key)
    ensures key in ConfigureAll(v, opts).extensions
    ensures ConfigureAll(v, opts).extensions[key] == if opts[i].WithCode? then Text(opts[i].code) else opts[i].value
    decreases |opts|
  {
    if i < |opts| - 1 {
      LastSetterWins(v, opts[..|opts| - 1], key, i);
    }
  }

  /** A new entry without a code among its options is an internal error; with one, it has the code given last. */
  lemma NewEntryCode(message: string, opts: seq<EntryOption>)
    ensures
      var v := ConfigureAll(EntryValue(message, [], map["code" := Text(INTERNAL_ERROR)]), opts);
      (forall i :: 0 <= i < |opts| ==> !opts[i].WithCode? && !opts[i].WithExtension?) ==>
        v.extensions == map["code" := Text("INTERNAL_ERROR")]
    ensures
      var v := ConfigureAll(EntryValue(message, [], map["code" := Text(INTERNAL_ERROR)]), opts);
      opts != [] && opts[|opts| - 1].WithCode? ==>
        "code" in v.extensions && v.extensions["code"] == Text(opts[|opts| - 1].code)
  {
    var v := EntryValue(message, [], map["code" := Text(INTERNAL_ERROR)]);
    if forall i :: 0 <= i < |opts| ==> !opts[i].WithCode? && !opts[i].WithExtension? {
      forall key ensures key in ConfigureAll(v, opts).extensions <==> key in v.extensions
        ensures key in v.extensions ==> ConfigureAll(v, opts).extensions[key] == v.extensions[key]
      {
        UnsetKeyStays(v, opts, key);
      }
    }
    if opts != [] && opts[|opts| - 1].WithCode? {
      LastSetterWins(v, opts, "code", |opts| - 1);
    }
  }

  /** The envelope that reaches the client; an empty extensions map is omitted. */
  datatype Envelope = Envelope(errors: seq<EntryValue>, extensions: map<string, Any>)

  /** A Go error: nil, a plain one, a foreign wrapper, or an *Error, which may be a typed nil. */
  datatype GoError = NoError | Plain(text: string) | Foreign(text: string, inner: GoError) | Stack(err: Error?)

  class Error {
    var entries: seq<Entry>
    var extensions: Extensions?
    const cause: GoError
    ghost const rank: nat

    constructor (entries: seq<Entry>, cause: GoError)
      ensures this.entries == entries && extensions == null && this.cause == cause
      ensures rank == RankOf(cause) + 1
    {
      this.entries := entries;
      this.extensions := null;
      this.cause := cause;
      this.rank := RankOf(cause) + 1;
    }

    method Append(more: seq<Entry>)
      modifies this`entries
      ensures entries == old(entries) + more
    {
      entries := entries + more;
    }

    method SetExtension(key: string, value: Any)
      modifies this`extensions, extensions
      ensures extensions != null
      ensures extensions.m == (if old(extensions) == null then map[] else old(extensions.m))[key := value]
      ensures old(extensions) != null ==> extensions == old(extensions)
      ensures old(extensions) == null ==> fresh(extensions)
    {
      if extensions == null {
        extensions := new Extensions(map[]);
      }
      extensions.m := extensions.m[key := value];
    }

    /** Serialization changes no map that existed before, however the maps are shared. */
    method MarshalJSON() returns (envelope: Envelope)
      ensures envelope.errors == Serialized(Views(entries))
      ensures envelope.extensions == if extensions == null then map[] else extensions.m
    {
      var source := entries;
      if |source| == 0 {
        var ext := new Extensions(map["code" := Text(INTERNAL_ERROR)]);
        source := [Entry(FALLBACK_MESSAGE, [], ext)];
        assert Views(source) == [View(source[0])] && View(source[0]) == FALLBACK;
        assert Normalized(FALLBACK) == FALLBACK;
      }
      var errors := NormalizeAll(source);
      envelope := Envelope(errors, if extensions == null then map[] else extensions.m);
    }
  }

  method NormalizeAll(source: seq<Entry>) returns (errors: seq<EntryValue>)
    ensures errors == AllNormalized(Views(source))
  {
    ghost var said := Views(source);
    var normalized: seq<Entry> := [];
    for i := 0 to |source|
      invariant |normalized| == i
      invariant forall k :: 0 <= k < |source| ==> View(source[k]) == said[k]
      invariant forall k :: 0 <= k < i ==> View(normalized[k]) == Normalized(said[k])
    {
      var entry := NormalizeEntry(source[i]);
      normalized := normalized + [entry];
    }
    errors := ReadOut(normalized);
  }

  function AllNormalized(entries: seq<EntryValue>): seq<EntryValue> {
    seq(|entries|, i requires 0 <= i < |entries| => Normalized(entries[i]))
  }

  /** An entry without a code gets a map of its own; any other is passed on as it is. */
  method NormalizeEntry(entry: Entry) returns (r: Entry)
    ensures View(r) == Normalized(View(entry))
    ensures HasCode(View(entry).extensions) ==> r == entry
  {
    r := entry;
    var m := if entry.extensions == null then map[] else entry.extensions.m;
    if !HasCode(m) {
      var ext := new Extensions(m["code" := Text(INTERNAL_ERROR)]);
      r := entry.(extensions := ext);
    }
  }

  /** The entries as encoding/json sees them. */
  method ReadOut(entries: seq<Entry>) returns (values: seq<EntryValue>)
    ensures values == Views(entries)
  {
    values := [];
    for i := 0 to |entries|
      invariant values == Views(entries)[..i]
    {
      var e := entries[i];
      values := values + [EntryValue(e.message, e.path, if e.extensions == null then map[] else e.extensions.m)];
    }
  }

  ghost function RankOf(g: GoError): nat {
    match g
    case Stack(err) => if err == null then 0 else err.rank
    case Foreign(_, inner) => RankOf(inner) + 1
    case _ => 0
  }

  /** The errors array for given entries: never empty, each with a code, in order. */
  function Serialized(entries: seq<EntryValue>): seq<EntryValue> {
    if entries == [] then [FALLBACK] else AllNormalized(entries)
  }

  // ---- Constructors ----

  method ApplyOption(entry: Entry, opt: EntryOption) returns (r: Entry)
    requires entry.extensions != null
    modifies entry.extensions
    ensures r.extensions == entry.extensions
    ensures View(r) == Configure(old(View(entry)), opt)
  {
    r := entry;
    match opt {
      case WithCode(code) => r.extensions.m := r.extensions.m["code" := Text(code)];
      case WithPath(path) => r := r.(path := path);
      case WithExtension(key, value) => r.extensions.m := r.extensions.m[key := value];
    }
  }

  method NewEntry(message: string, opts: seq<EntryOption>) returns (entry: Entry)
    ensures entry.extensions != null && fresh(entry.extensions)
    ensures View(entry) == ConfigureAll(EntryValue(message, [], map["code" := Text(INTERNAL_ERROR)]), opts)
  {
    var ext := new Extensions(map["code" := Text(INTERNAL_ERROR)]);
    entry := Entry(message, [], ext);
    ghost var plain := View(entry);
    for i := 0 to |opts|
      invariant entry.extensions == ext && fresh(ext)
      invariant View(entry) == ConfigureAll(plain, opts[..i])
    {
      entry := ApplyOption(entry, opts[i]);
      assert opts[..i + 1][..i] == opts[..i];
    }
    assert opts[..|opts|] == opts;
  }

  method New(message: string, opts: seq<EntryOption>) returns (e: Error)
    ensures fresh(e) && e.cause == NoError && e.extensions == null
    ensures |e.entries| == 1 && fresh(Maps(e.entries))
    ensures Views(e.entries)
         == [ConfigureAll(EntryValue(message, [], map["code" := Text(INTERNAL_ERROR)]), opts)]
  {
    var entry := NewEntry(message, opts);
    e := new Error([entry], NoError);
  }

  /** The cause is kept but its text never enters the entries; nil stays nil. */
  method Wrap(cause: GoError, message: string, opts: seq<EntryOption>) returns (g: GoError)
    ensures cause == NoError ==> g == NoError
    ensures cause != NoError ==>
      && g.Stack? && g.err != null && fresh(g.err) && g.err.cause == cause
      && g.err.rank == RankOf(cause) + 1
      && (Printable(cause) ==> Printable(g) && Reaches(g, cause))
      && |g.err.entries| == 1
      && Views(g.err.entries)
         == [ConfigureAll(EntryValue(message, [], map["code" := Text(INTERNAL_ERROR)]), opts)]
  {
    if cause == NoError {
      return NoError;
    }
    var entry := NewEntry(message, opts);
    var e := new Error([entry], cause);
    g := Stack(e);
  }

  /** The code is forced in the callers' own maps, so every entry sharing one sees it. */
  method NewValidation(entries: seq<Entry>) returns (e: Error)
    modifies Maps(entries)
    ensures fresh(e) && e.cause == NoError
    ensures forall x :: x in Maps(entries) ==> x.m == old(x.m)["code" := Text(VALIDATION_FAILED)]
    ensures entries != [] ==>
      && |e.entries| == |entries|
      && forall i :: 0 <= i < |entries| ==>
           var before := old(View(entries[i]));
           View(e.entries[i]) == before.(extensions := before.extensions["code" := Text(VALIDATION_FAILED)])
    ensures entries == [] ==> Views(e.entries) == [FALLBACK]
  {
    var out: seq<Entry> := [];
    for i := 0 to |entries|
      invariant |out| == i
      invariant forall x :: x in Maps(entries[..i]) ==> x.m == old(x.m)["code" := Text(VALIDATION_FAILED)]
      invariant forall x :: x in Maps(entries) && x !in Maps(entries[..i]) ==> x.m == old(x.m)
      invariant forall k :: 0 <= k < i ==>
        && out[k].message == entries[k].message && out[k].path == entries[k].path
        && out[k].extensions != null
        && (if entries[k].extensions == null
            then fresh(out[k].extensions) && out[k].extensions.m == map["code" := Text(VALIDATION_FAILED)]
            else out[k].extensions == entries[k].extensions)
    {
      var entry := entries[i];
      MapsNext(entries, i);
      if entry.extensions == null {
        var ext := new Extensions(map[]);
        entry := entry.(extensions := ext);
      }
      entry.extensions.m := entry.extensions.m["code" := Text(VALIDATION_FAILED)];
      out := out + [entry];
    }
    assert entries[..|entries|] == entries;
    if |out| == 0 {
      var ext := new Extensions(map["code" := Text(INTERNAL_ERROR)]);
      out := out + [Entry(FALLBACK_MESSAGE, [], ext)];
    }
    e := new Error(out, NoError);
  }

  lemma MapsNext(entries: seq<Entry>, i: nat)
    requires i < |entries|
    ensures Maps(entries[..i + 1])
         == Maps(entries[..i]) + if entries[i].extensions == null then {} else {entries[i].extensions}
    ensures entries[i].extensions != null ==> entries[i].extensions in Maps(entries)
  {
    assert entries[..i + 1] == entries[..i] + [entries[i]];
  }

  // ---- Reading chains ----

  /** What errors.As finds: the outermost *Error on the unwrap chain. */
  function Outermost(g: GoError): Option<Error?> {
    match g
    case Stack(err) => Some(err)
    case Foreign(_, inner) => Outermost(inner)
    case _ => None
  }

  /** However many foreign errors wrap it, the error inside is the one found. */
  lemma {:induction false} FoundInside(texts: seq<string>, g: GoError)
    ensures Outermost(WrapForeign(texts, g)) == Outermost(g)
    decreases |texts|
  {
    if texts != [] {
      FoundInside(texts[1..], g);
    }
  }

  function WrapForeign(texts: seq<string>, g: GoError): GoError {
    if texts == [] then g else Foreign(texts[0], WrapForeign(texts[1..], g))
  }

  /** errors.As for *Error: the walk along the unwrap chain. */
  method FindError(g: GoError) returns (found: Option<Error?>)
    ensures found == Outermost(g)
  {
    var inner := g;
    while inner.Foreign?
      invariant Outermost(inner) == Outermost(g)
      decreases inner
    {
      inner := inner.inner;
    }
    found := if inner.Stack? then Some(inner.err) else None;
  }

  method EntriesOf(g: GoError) returns (entries: seq<Entry>)
    ensures g == NoError ==> entries == []
    ensures Outermost(g).Some? ==>
      entries == if Outermost(g).value == null then [] else Outermost(g).value.entries
    ensures g != NoError && Outermost(g).None? ==>
      Views(entries) == [EntryValue(g.text, [], map["code" := Text("INTERNAL_ERROR")])]
  {
    if g == NoError {
      return [];
    }
    var found := FindError(g);
    if found.Some? {
      return if found.value == null then [] else found.value.entries;
    }
    var ext := new Extensions(map["code" := Text(INTERNAL_ERROR)]);
    entries := [Entry(g.text, [], ext)];
  }

  function PathText(path: seq<Segment>): string {
    if path == [] then ""
    else
      var last := path[|path| - 1];
      var text := if last.Name? then last.s else last.json;
      if |path| == 1 then text else PathText(path[..|path| - 1]) + "." + text
  }

  function EntryText(v: EntryValue): string {
    v.message + if v.path == [] then "" else " (" + PathText(v.path) + ")"
  }

  function EntriesText(entries: seq<EntryValue>): string {
    if entries == [] then ""
    else
      var n := |entries| - 1;
      (if n == 0 then "" else EntriesText(entries[..n]) + "; ") + EntryText(entries[n])
  }

  /** One level of an error: the first entry's code, then every message with its path. */
  function Describe(entries: seq<EntryValue>): string {
    if entries == [] then INTERNAL_ERROR + ": " + FALLBACK_MESSAGE
    else (if HasCode(entries[0].extensions) then entries[0].extensions["code"].s + ": " else "") + EntriesText(entries)
  }

  // ---- What the texts are ----

  /** Two paths one after the other are joined by a dot. */
  lemma {:induction false} PathTextJoins(a: seq<Segment>, b: seq<Segment>)
    requires a != [] && b != []
    ensures PathText(a + b) == PathText(a) + ("." + PathText(b))
    decreases |b|
  {
    var n := |b| - 1;
    assert (a + b)[..|a + b| - 1] == a + b[..n] && (a + b)[|a + b| - 1] == b[n];
    if n == 0 {
      assert a + b[..0] == a;
    } else {
      PathTextJoins(a, b[..n]);
      Regroup(PathText(a), "." + PathText(b[..n]), ".");
    }
  }

  /** A name stands for itself, and any other segment for its rendering. */
  lemma SegmentText(segment: Segment)
    ensures PathText([segment]) == match segment case Name(s) => s case Rendered(json) => json
  {}

  /** Two lists of entries one after the other are joined by a semicolon and a space. */
  lemma {:induction false} EntriesTextJoins(a: seq<EntryValue>, b: seq<EntryValue>)
    requires a != [] && b != []
    ensures EntriesText(a + b) == EntriesText(a) + ("; " + EntriesText(b))
    decreases |b|
  {
    var n := |b| - 1;
    assert (a + b)[..|a + b| - 1] == a + b[..n] && (a + b)[|a + b| - 1] == b[n];
    if n == 0 {
      OneMoreEntry(a, b[n]);
      assert a + b[..0] == a && b == [b[n]];
      assert EntriesText(b) == EntryText(b[n]) by {
        assert "" + EntryText(b[n]) == EntryText(b[n]);
      }
    } else {
      EntriesTextJoins(a, b[..n]);
      LongerTexts(EntriesText(a), EntriesText(b[..n]), EntryText(b[n]));
    }
  }

  lemma OneMoreEntry(a: seq<EntryValue>, e: EntryValue)
    requires a != []
    ensures EntriesText(a + [e]) == EntriesText(a) + ("; " + EntryText(e))
  {
    assert (a + [e])[..|a|] == a;
    Regroup(EntriesText(a), "; ", EntryText(e));
  }

  lemma LongerTexts(a: string, b: string, c: string)
    ensures a + ("; " + b) + "; " + c == a + ("; " + (b + "; " + c))
  {}

  /** One entry is its message, with its path in parentheses when it has one. */
  lemma EntryTexts(message: string, path: seq<Segment>, extensions: map<string, Any>)
    ensures EntriesText([EntryValue(message, [], extensions)]) == message
    ensures path != [] ==> EntriesText([EntryValue(message, path, extensions)]) == message + (" (" + PathText(path) + ")")
  {
    assert message + "" == message;
  }

  /** A level begins with the code of its first entry, if that is a non-empty string, and never says nothing. */
  lemma DescribeTexts(entries: seq<EntryValue>)
    ensures entries == [] ==> Describe(entries) == "INTERNAL_ERROR: Internal server error"
    ensures entries != [] ==>
      var first := entries[0].extensions;
      Describe(entries) ==
        if "code" in first && first["code"].Text? && first["code"].s != ""
        then first["code"].s + ": " + EntriesText(entries) else EntriesText(entries)
  {
    FallbackText();
    assert "" + EntriesText(entries) == EntriesText(entries);
  }

  lemma FallbackText()
    ensures "INTERNAL_ERROR" + ": " + "Internal server error" == "INTERNAL_ERROR: Internal server error"
  {}

  /** The causes end: no typed nil on the way, and every error was built after its cause. */
  ghost predicate Printable(g: GoError)
    decreases RankOf(g)
  {
    match g
    case NoError => false
    case Stack(err) =>
      && err != null && RankOf(err.cause) < err.rank
      && (err.cause == NoError || Printable(err.cause))
    case _ => true
  }

  /** The errors on the chain, and the maps their entries refer to. */
  ghost function Levels(g: GoError): set<Error>
    requires Printable(g)
    decreases RankOf(g)
  {
    match g
    case Stack(err) => {err as Error} + if err.cause == NoError then {} else Levels(err.cause)
    case _ => {}
  }

  ghost function LevelMaps(g: GoError): set<Extensions>
    requires Printable(g)
    reads Levels(g)
    decreases RankOf(g)
  {
    match g
    case Stack(err) => Maps(err.entries) + if err.cause == NoError then {} else LevelMaps(err.cause)
    case _ => {}
  }

  ghost function ErrorText(g: GoError): string
    requires Printable(g)
    reads Levels(g), LevelMaps(g)
    decreases RankOf(g)
  {
    match g
    case Stack(err) =>
      Describe(Views(err.entries)) + if err.cause == NoError then "" else ": " + ErrorText(err.cause)
    case Foreign(text, _) => text
    case Plain(text) => text
    case NoError => ""
  }

  method ErrorString(g: GoError) returns (text: string)
    requires Printable(g)
    ensures text == ErrorText(g)
    decreases RankOf(g)
  {
    if !g.Stack? {
      return if g == NoError then "" else g.text;
    }
    text := LevelString(g.err);
    if g.err.cause != NoError {
      ghost var views := Views(g.err.entries);
      var cause := ErrorString(g.err.cause);
      assert forall i :: 0 <= i < |views| ==> views[i] == View(g.err.entries[i]);
      assert views == Views(g.err.entries);
      text := text + (": " + cause);
    }
    ErrorTextOfLevel(g.err);
  }

  lemma ErrorTextOfLevel(err: Error)
    requires Printable(Stack(err))
    ensures err.cause == NoError ==> ErrorText(Stack(err)) == Describe(Views(err.entries))
    ensures err.cause != NoError ==>
      ErrorText(Stack(err)) == Describe(Views(err.entries)) + (": " + ErrorText(err.cause))
  {}

  method LevelString(err: Error) returns (text: string)
    ensures text == Describe(Views(err.entries))
  {
    var entries := ReadOut(err.entries);
    text := DescribeEntries(entries);
    assert entries == Views(err.entries);
  }

  method DescribeEntries(entries: seq<EntryValue>) returns (b: string)
    ensures b == Describe(entries)
  {
    if |entries| == 0 {
      return INTERNAL_ERROR + ": " + FALLBACK_MESSAGE;
    }
    b := "";
    if HasCode(entries[0].extensions) {
      b := entries[0].extensions["code"].s + ": ";
    }
    var messages := DescribeMessages(entries);
    b := b + messages;
  }

  method DescribeMessages(entries: seq<EntryValue>) returns (b: string)
    ensures b == EntriesText(entries)
  {
    b := "";
    for i := 0 to |entries|
      invariant b == EntriesText(entries[..i])
    {
      NextEntryText(entries, i);
      if i > 0 {
        b := b + "; ";
      }
      var text := DescribeEntry(entries[i]);
      b := b + text;
    }
    assert entries[..|entries|] == entries;
  }

  lemma NextEntryText(entries: seq<EntryValue>, i: nat)
    requires i < |entries|
    ensures EntriesText(entries[..i + 1])
         == (if i == 0 then "" else EntriesText(entries[..i]) + "; ") + EntryText(entries[i])
  {
    assert entries[..i + 1][..i] == entries[..i];
  }

  method DescribeEntry(entry: EntryValue) returns (b: string)
    ensures b == EntryText(entry)
  {
    b := entry.message;
    if |entry.path| > 0 {
      var path := JoinPath(entry.path);
      b := b + (" (" + path + ")");
    }
  }

  method JoinPath(path: seq<Segment>) returns (b: string)
    ensures b == PathText(path)
  {
    b := "";
    for j := 0 to |path|
      invariant b == PathText(path[..j])
    {
      if j > 0 {
        b := b + ".";
      }
      b := b + if path[j].Name? then path[j].s else path[j].json;
      assert path[..j + 1][..j] == path[..j];
    }
    assert path[..|path|] == path;
  }

  /** Unwrapping g some number of times gives root. */
  ghost predicate Reaches(g: GoError, root: GoError)
    requires Printable(g)
    decreases RankOf(g)
  {
    g == root || (g.Stack? && g.err.cause != NoError && Reaches(g.err.cause, root))
  }

  predicate EndsWith(s: string, t: string) {
    |t| <= |s| && s[|s| - |t|..] == t
  }

  /** However deep the wrapping, the text ends with the root's and begins with the outermost level's. */
  lemma {:induction false} ChainText(g: GoError, root: GoError)
    requires Printable(g) && Printable(root) && Reaches(g, root)
    ensures EndsWith(ErrorText(g), ErrorText(root))
    ensures g.Stack? ==> Describe(Views(g.err.entries)) <= ErrorText(g) && Outermost(g) == Some(g.err)
    decreases RankOf(g)
  {
    if g != root {
      ChainText(g.err.cause, root);
      EndsWithin(Describe(Views(g.err.entries)), ErrorText(g.err.cause), ErrorText(root));
    }
  }

  lemma EndsWithin(outer: string, inner: string, root: string)
    requires EndsWith(inner, root)
    ensures EndsWith(outer + (": " + inner), root)
    ensures outer <= outer + (": " + inner)
  {
    var s := outer + (": " + inner);
    assert s[|s| - |root|..] == inner[|inner| - |root|..];
  }

  /** The envelope of any entries is never empty, keeps their order, and every entry has a code. */
  lemma SerializedIsValid(entries: seq<EntryValue>)
    ensures
      var errors := Serialized(entries);
      && errors != []
      && (forall i :: 0 <= i < |errors| ==> HasCode(errors[i].extensions))
      && (entries != [] ==> |errors| == |entries|)
      && (forall i :: 0 <= i < |entries| ==>
            && errors[i].message == entries[i].message && errors[i].path == entries[i].path
            && (HasCode(entries[i].extensions) ==> errors[i] == entries[i]))
      && Serialized(errors) == errors
  {
    var errors := Serialized(entries);
    assert forall i :: 0 <= i < |errors| ==> Normalized(errors[i]) == errors[i];
  }

  /** Entry by entry: a non-empty string code stays, with everything else; any other becomes the internal error's. */
  lemma SerializedCodes(entries: seq<EntryValue>, i: nat)
    requires i < |entries|
    ensures
      var before := entries[i];
      i < |Serialized(entries)| && Serialized(entries)[i] ==
        if "code" in before.extensions && before.extensions["code"].Text? && before.extensions["code"].s != ""
        then before
        else EntryValue(before.message, before.path, before.extensions["code" := Text("INTERNAL_ERROR")])
  {}

  lemma SerializedNothing()
    ensures Serialized([]) == [EntryValue("Internal server error", [], map["code" := Text("INTERNAL_ERROR")])]
  {}
}
