# Verified model of helix.go

A Dafny model of the parts of helix.go whose correctness depends on recursion,
schedules or order, with proofs over every input and every run.

* **Event flat map** (`Keys`, `Decimal`, `Schema`, `FlatMapSpec`, `FlatMapProofs`,
  `FlatMapStability`, `FlatMapArbitrary`, `FlatMapCodec`, `FlatMapTexts`, `EventSchema`,
  `EventTexts`, `Allocation`): the reflective printer and parser between a nested struct and dotted string keys,
  for every well-formed schema, with `Event` as an instance.
* **Propagation** (`Replacing`, `BaggageKeys`, `Carried`, `Propagation`, `Hops`): an
  event travelling from service to service as baggage.
* **HTTP failover** (`RoundRobin`, `Failover`): addresses with a wrapping cursor,
  the retry loop, and the account of every response obtained.
* **Service lifecycle** (`Lifecycle`, `ServiceObject`): goroutines under one lock
  as a transition system, and the object whose methods perform its steps.
* **Health** (`Gathering`, `Health`): concurrent checks folded in any order.
* **Errors** (`ErrorStack`): error values on the heap with shared extension maps.
* **PEM, struct inserts, span status** (`Pem`, `StructInsert`, `InsertQuery`,
  `SpanStatus`).

Where the source updates state, the model has classes, arrays and loops, each tied
by its contract to a function or a step of a transition system; the lemmas are
about those. Map iteration and goroutine scheduling are arbitrary choices.

## Premises

* The text formats of floats and times are parameters. `Codec.Sound` asks that
  parsing inverts formatting, up to the sign of zero and the payload of a NaN,
  which Go's own formats lose. Times are those of the years 1 to 9999; the source
  also accepts others, whose text its time format does not parse back.
* Memory is unlimited. The source panics when a slice index exceeds what can be
  allocated; here it does so only for the largest int, for which the length
  overflows. `Allocatable` excludes just that, and `EventAllocatableIff` says which
  maps it excludes for `Event`.
* A quoted name ends at its backtick; a doubled backtick is one, and a backslash
  escapes what follows. Which escapes there are is a parameter (`Lexical`): the
  database's own reader is not part of this model.
* `SpanStatus.RawSpan` is the span of the OpenTelemetry SDK, which is not part of
  this model: a status is set as section "Set Status" of the OpenTelemetry Trace API
  orders them, and nothing changes after the end.
* Baggage is an ideal map: every member is accepted and carried as it is.
* At most one `Start` is in flight where a theorem says so (`OneStartAtATime`);
  `OverlappingStartsMoveBack` shows why.

## What the code does not do as its comments say

* `integration/clickhouse/utils.go:91-96` promises a valid query for unusual
  column names. Backticks and backslashes are not escaped: `ParseOfQueryIff` has the
  exact condition, `OneValueForTwoColumns` and `TrailingBackslash` the inputs.
* `internal/telemetry/trace/status.go:3-15` promises that a recorded error is kept.
  `telemetry/trace/span.go:86-96` overrides one that was set only on the span
  below: `ErrorBelowIsLost`, `LayersAgreeIff`.
* `service/service.go:297-305` writes the state without looking at it, so that two
  overlapping calls of `Start` can undo a `Stop`: `StaysStoppedIff`,
  `OverlappingStartsMoveBack`.
* `service/service.go:432-438` reports no error when the only failing component
  returned an error without entries: `CheckOne`, `SilentErrorsGoUnreported`.
* `internal/telemetry/trace/tracer.go:131-134` speaks of keys in brackets, which
  the codec writes only for map keys that have them. Such keys change their name on
  the way (`UnchangedIff`), can merge (`MergeIsArbitrary`), and are what keeps an
  event from arriving as its normal form (`HopsDeliverNormalFormIff`, `DamagedEvent`).
* `integration/httpclient/httpclient.go:179` misses an endpoint in a window that
  crosses the wrap of the cursor, unless the count divides 2^64: `PermutationIff`,
  `LastTicketMisses`.

## Model

| member | source | states |
|---|---|---|
| FlatMapProofs.RoundTrip | event/flatmap.go:38-263 | For every well-formed schema and every value, reading what was written gives the explicit normal form: empty map values and dotted map keys dropped, slices cut after the last element that wrote a key, all else kept |
| FlatMapProofs.FieldRoundTrip | event/flatmap.go:138-263 | The same for one field read out of a larger map, whatever its kind |
| FlatMapProofs.FieldRegion | event/flatmap.go:58-132 | Below its own tag the map of a whole struct holds exactly what that field wrote: no field disturbs another |
| FlatMapProofs.ElementRegion | event/flatmap.go:110-117 | Below a printed index lie exactly the keys of that element, and nothing below an index past the end |
| FlatMapProofs.ElementKey | event/flatmap.go:110-117 | Every key of a slice belongs to one element and is a key that element wrote |
| FlatMapProofs.MaxIndexIsLastWritten | event/flatmap.go:207-230 | The largest index that the scan finds is that of the last element that wrote any key |
| FlatMapProofs.ElementsRoundTrip | event/flatmap.go:205-239 | A slice comes back as its elements up to the last that wrote a key, each in normal form; nil when none did |
| FlatMapStability.RoundTripIdentityIff | event/flatmap.go:38-263 | The round trip is the identity if and only if the value is canonical: no empty or dotted map entries, no empty map or slice, a last element that writes something |
| FlatMapStability.NormIdentityIff | event/flatmap.go:38-263 | The normal form leaves a value alone exactly when it is canonical, at every level of nesting |
| FlatMapStability.CleanNormWritesSame | event/flatmap.go:58-132 | Without dotted map keys the normal form writes the very same flat map |
| FlatMapStability.NormIsClean | event/flatmap.go:241-260 | A value that came back holds no dotted map key any more |
| FlatMapStability.CleanStableAfterOne | event/flatmap.go:38-263 | Without dotted map keys the first trip already reaches a fixed point |
| FlatMapStability.StableAfterTwo | event/flatmap.go:38-263 | Every value is unchanged from its second trip on |
| FlatMapStability.DottedTailNeedsTwo | event/flatmap.go:205-260 | A last element with only dotted metadata keeps its place for one trip and loses it on the second |
| FlatMapArbitrary.DecHasType | event/flatmap.go:138-263 | Reading any map, however malformed, gives a well-typed value without dotted map keys |
| FlatMapArbitrary.NoNewKeys | event/flatmap.go:38-263 | Reading any map and writing the result adds no key, including for sparse, signed or zero-padded indices |
| FlatMapArbitrary.Retraction | event/flatmap.go:38-263 | Reading and writing an arbitrary map twice is the same as doing it once, and only removes keys |
| FlatMapArbitrary.OnlyOwnKeysMatter | event/flatmap.go:138-263 | Reading depends only on the keys that start with the prefix and a dot |
| FlatMapArbitrary.ElementsAreSeparate | event/flatmap.go:205-239 | Changing a key of one element never changes what another element reads |
| FlatMapArbitrary.WrittenIsAllocatable | event/flatmap.go:230-231 | What a value wrote never asks for a slice longer than the largest int |
| Allocation.EventAllocatableIff | event/flatmap.go:220-231 | An event can be read if and only if no subscription key has the largest int as its index |
| Allocation.LargestIndexPanics | event/flatmap.go:220-231 | One such key is enough |
| FlatMapArbitrary.WriteOnce | event/flatmap.go:58-132 | No two leaves write the same key, whatever the map keys: the flat map has as many entries as leaves were written |
| FlatMapArbitrary.WriteOnceElements | event/flatmap.go:110-117 | The same over all elements of a slice |
| FlatMapCodec.Output.Set | event/flatmap.go:71-127 | One assignment to the shared map, counted |
| FlatMapCodec.FlattenValue | event/flatmap.go:58-132 | The recursive walk adds below its prefix exactly the map the value stands for, one assignment per leaf |
| FlatMapCodec.FlattenField | event/flatmap.go:59-131 | One field, by kind, adds exactly its part below its own key |
| FlatMapCodec.FlattenScalar | event/flatmap.go:71-105 | A scalar is written exactly when it is not its zero value |
| FlatMapCodec.FlattenElements | event/flatmap.go:110-117 | Every element is written below its printed index |
| FlatMapCodec.FlattenEntries | event/flatmap.go:119-129 | In every iteration order the entries with a value are written, each once |
| FlatMapCodec.ToFlatMap | event/flatmap.go:38-42 | The result lies below the prefix, is the map the event stands for, and has one entry per assignment made |
| FlatMapCodec.UnflattenValue | event/flatmap.go:138-263 | Fills a zeroed struct in place with exactly what the keys below the prefix say |
| FlatMapCodec.UnflattenField | event/flatmap.go:139-262 | Sets one field in place and leaves every other one alone |
| FlatMapCodec.ScanIndices | event/flatmap.go:205-228 | In every iteration order the scan finds the largest parsed index, or -1 |
| FlatMapCodec.UnflattenSlice | event/flatmap.go:205-239 | Sets a slice of all indices up to the largest, or leaves it nil |
| FlatMapCodec.UnflattenEntries | event/flatmap.go:241-260 | In every iteration order the undotted entries are collected; the map stays nil when there are none |
| FlatMapCodec.UnflattenEntry | event/flatmap.go:244-259 | One key of that loop: skipped, or added to a map made on first use |
| FlatMapCodec.FromFlatMap | event/flatmap.go:48-52 | The value read is a function of the keys below the prefix, independent of iteration order |
| FlatMapTexts.ScalarText | event/flatmap.go:71-105 | A scalar is written under its tag, with this text, exactly when it is not the zero value: a true flag as "true", a present flag as "true" or "false" |
| FlatMapTexts.StructText | event/flatmap.go:101-108 | What a nested struct writes stands behind its tag and a dot |
| FlatMapTexts.ElementText | event/flatmap.go:110-117 | What element j writes stands behind the tag, the decimal j and a dot, and nothing stands there for an index past the end |
| FlatMapTexts.MapText | event/flatmap.go:119-129 | An entry stands behind the tag and a dot exactly when its value is not empty |
| FlatMapTexts.SilentFields | event/flatmap.go:61-65 | Fields without a tag or with a dash, nil slices and maps, and other kinds write nothing |
| FlatMapTexts.OnlyFieldKeys | event/flatmap.go:58-132 | A struct writes no key but those of its fields |
| FlatMapTexts.FieldKeys | event/flatmap.go:67-68 | Behind a prefix and a dot stands each field's key, with what the field itself writes there |
| FlatMapTexts.ScalarReading | event/flatmap.go:151-200 | A scalar is read from its tag; a missing or unparsable text leaves the zero value; which texts are flags |
| FlatMapTexts.MapReading | event/flatmap.go:241-260 | A string map is read from the keys behind its tag that have no other dot, and is nil without any |
| FlatMapTexts.SliceReaches | event/flatmap.go:209-231 | A key with a parsable index behind the tag makes the slice that long |
| FlatMapTexts.SliceEnds | event/flatmap.go:225-231 | The last element of a slice has a key that names its index |
| FlatMapTexts.ElementReading | event/flatmap.go:232-235 | Element j is read from the keys behind the tag and the decimal j |
| EventTexts.NameText | event/flatmap.go:29-36 | The name of an event stands at "event.name", unless it is empty |
| EventTexts.AnonymousText | event/flatmap.go:93-99 | A present flag stands at "event.is_anonymous" as "true" or "false", and an absent one nowhere |
| EventTexts.MetaText | event/flatmap.go:119-129 | A meta entry stands behind "event.meta.", unless its value is empty |
| EventTexts.WifiText | event/flatmap.go:76-81 | "event.network.wifi" is there exactly when the flag is set, and says "true" |
| EventTexts.WidthText | event/flatmap.go:83-86 | A width other than 0 stands at "event.screen.width"; a width of 5 as "5" |
| EventTexts.SubscriptionText | event/flatmap.go:110-117 | The id of the first subscription stands at "event.subscriptions.0.id", of the eleventh at "event.subscriptions.10.id" |
| EventTexts.EventToFlatMap | event/flatmap.go:38-42 | The writer at work: these entries of the map that it returns, letter by letter |
| Decimal.ParseOfFormat | event/flatmap.go:85-166 | Parsing inverts formatting on the full int64 range |
| Decimal.ItoaInjective | event/flatmap.go:113-113 | Different indices print differently |
| Decimal.ItoaDigit | event/flatmap.go:113-113 | The character at distance i from the end is the digit of the i-th power of ten |
| Decimal.ItoaSize | event/flatmap.go:113-113 | As many characters as the number needs: no leading zero, except that 0 is "0" |
| Decimal.FormatIsCanonical | event/flatmap.go:85-86 | A printed int64 is "0", or starts with a digit from 1 to 9, behind a minus exactly when it is negative |
| Decimal.ParseSpelled | event/flatmap.go:164-169 | A sign or none, any zeros and a printed number are read as that number, unless it is outside the int64 range |
| Decimal.ParseOnlySpelled | event/flatmap.go:164-223 | No other text is accepted as a number |
| Keys.UnderUnique | event/flatmap.go:67-113 | Two dot-free names never own the same key |
| Keys.IndexDotUnder | event/flatmap.go:214-220 | Cutting at the first dot recovers the printed index |
| EventSchema.EventWellFormed | event/event.go:25-168 | The tags of Event and of every nested struct are non-empty, dot-free and distinct, so the theorems apply to it |
| EventSchema.EventTagsPlain | event/event.go:25-168 | No tag of Event holds a bracket |
| Propagation.EventFromBaggage | event/context.go:44-56 | The event spelled by the baggage, with the name at "event.name", and found exactly when that is not empty |
| Propagation.EventFromContext | event/context.go:22-29 | The event value of the context wins; without one, an event is found exactly when the baggage has a name |
| Propagation.MakeMembers | internal/telemetry/trace/tracer.go:45-50 | One attribute per entry and every entry carried under its baggage key, in any iteration order |
| Propagation.Start | internal/telemetry/trace/tracer.go:37-65 | An event value, or a named event in the baggage, becomes attributes and baggage; with neither, there are no attributes and the context stays as it was |
| BaggageKeys.UnchangedIff | internal/telemetry/trace/tracer.go:131-140 | The three replacements leave a key alone if and only if it has no bracket |
| BaggageKeys.BaggageKeyIsPlain | internal/telemetry/trace/tracer.go:135-140 | Their result never has a bracket |
| BaggageKeys.DotsStay | internal/telemetry/trace/tracer.go:135-140 | They never make a dot disappear |
| BaggageKeys.BelowPlain | internal/telemetry/trace/tracer.go:135-140 | Below a name without brackets they change only the rest of the key |
| BaggageKeys.ClosingBracketLost | internal/telemetry/trace/tracer.go:135-140 | A key with a closing bracket at its end gets the name of the key without it |
| Carried.MergeIsArbitrary | internal/telemetry/trace/tracer.go:45-50 | Of two such entries either may be the one that arrives |
| BaggageKeys.BracketedPathToDots | internal/telemetry/trace/tracer.go:131-140 | A bracketed path of any depth becomes the dotted path of the same segments |
| Carried.CarriesBelow | internal/telemetry/trace/tracer.go:45-50 | Each level of the map that arrives carries exactly the same level of the map that was sent |
| Carried.CarriesIndices | event/flatmap.go:209-228 | The slice indices found are those that were sent |
| Carried.ArrivedReads | event/flatmap.go:48-52 | For every schema and value, whatever its map keys: what arrives can be read |
| Carried.ArrivesAsNormIff | event/flatmap.go:48-52 | It reads as the normal form if and only if every written map key without a dot has no bracket either |
| Carried.DamageIsLocal | event/flatmap.go:48-52 | For every schema and value, whatever its map keys: every field arrives in normal form at every level, except string maps with a bracketed key; these arrive with the entries that have no dot under their new names |
| Hops.HopDeliversNormalFormIff | internal/telemetry/trace/tracer.go:37-65 | One hop always delivers an event of the same name, and its normal form if and only if no written map key without a dot has a bracket; otherwise all of it but the string maps with such keys |
| Hops.BracketedEntryIsLost | internal/telemetry/trace/tracer.go:37-65 | An event whose meta has a written dot-free key with a bracket never arrives as its normal form |
| Hops.DamagedEvent | internal/telemetry/trace/tracer.go:37-65 | There is such an event, and it has a name |
| Hops.EventSurvivesHops | event/context.go:22-56 | Over any number of hops the event is found under its name, whatever its map keys |
| Hops.StableFromSecondHop | event/context.go:22-56 | From the second hop on the event no longer changes, whatever its map keys |
| Hops.HopsDeliverNormalFormIff | event/context.go:22-56 | At every hop the event is its normal form, taken once or twice, if and only if no written map key without a dot has a bracket; without dots too, taken once is enough |
| RoundRobin.PermutationIff | integration/httpclient/httpclient.go:160-179 | With 64-bit wrap-around the window of addresses reaches every endpoint, and each once, if and only if it does not cross 2^64 or the count divides 2^64 |
| RoundRobin.IrregularWindowRepeats | integration/httpclient/httpclient.go:160-179 | A window that crosses 2^64 with any other count visits some endpoint twice and never visits another |
| RoundRobin.LastTicketMisses | integration/httpclient/httpclient.go:160-179 | With three endpoints, the call that holds the last ticket before the wrap never reaches one of them |
| RoundRobin.RegularWindowPermutes | integration/httpclient/httpclient.go:160-179 | Every other window visits each endpoint exactly once |
| RoundRobin.TicketsCountUp | integration/httpclient/httpclient.go:160-160 | Over any interleaving of calls before the wrap, tickets are the consecutive cursor values |
| RoundRobin.CallsKeepToTheirWindow | integration/httpclient/httpclient.go:160-179 | In every interleaving each call has one ticket of its own, and has sent to the addresses from that ticket on, in order and at most once per attempt |
| RoundRobin.NoEndpointTwice | integration/httpclient/httpclient.go:160-179 | In every interleaving a call whose window is regular sends to no endpoint twice; a call that used all its attempts did so if and only if its window is not |
| RoundRobin.CallIsRun | integration/httpclient/httpclient.go:160-181 | The steps of a call with any number of attempts are such a schedule: the cursor moves by one, and it sends to the window of its start |
| RoundRobin.FairUnderInterleaving | integration/httpclient/httpclient.go:160-179 | Over any interleaving before the wrap, tickets are distinct and the numbers of calls that try each endpoint first differ by at most one |
| Failover.Connection.Do | integration/httpclient/httpclient.go:145-215 | For every outcome sequence and cancellation point: which endpoints are tried in which order, what is returned and reported, the cursor moved, and every response obtained is returned open or drain-closed exactly once |
| Failover.Connection.DoSingle | integration/httpclient/httpclient.go:149-158 | The single-endpoint path keeps the same contract |
| Failover.Connection.DoMany | integration/httpclient/httpclient.go:160-215 | A call takes one ticket from the cursor and keeps the contract for the window that it opens |
| Failover.Connection.TryInTurn | integration/httpclient/httpclient.go:161-215 | The loop keeps it; at each loop head the only open response is the last retryable one |
| Failover.Connection.TriedIsWindow | integration/httpclient/httpclient.go:170-181 | The endpoints that a call tries are those at the addresses of the window its ticket opens |
| Failover.Connection.TryEndpoint | integration/httpclient/httpclient.go:179-202 | One round ends with the good response, or keeps the newest 5xx and closes the one before; a transport error never discards it |
| Failover.SinglePathIff | integration/httpclient/httpclient.go:149-177 | The fast path returns what the loop returns for one endpoint exactly when the context is live |
| Failover.LiveContract | integration/httpclient/httpclient.go:145-215 | With a live context: the first response below 500, else the last 5xx, else the last transport error, with at most one attempt per endpoint |
| Failover.ContractMeans | integration/httpclient/httpclient.go:145-215 | The whole contract in terms of the outcomes and the point where the context is done, with the number of attempts |
| Failover.FirstGood | integration/httpclient/httpclient.go:181-189 | The index found is the first whose answer is below 500, and none is missed |
| Failover.LastRetryable | integration/httpclient/httpclient.go:199-202 | The index found is the last 5xx answer, with only transport errors and good answers after it |
| Failover.Attempt | integration/httpclient/httpclient.go:118-140 | An attempt yields an open response or an error, never both |
| ErrorStack.NewEntry | errorstack/error.go:103-158 | The options apply in order on top of the default code, to a map of the entry's own |
| ErrorStack.ApplyOption | errorstack/error.go:103-135 | One option changes the entry it is given through its own map |
| ErrorStack.New | errorstack/error.go:142-158 | One entry with a map of its own, and no cause |
| ErrorStack.ConfiguredPath | errorstack/error.go:103-135 | Options never change the message, and the last one with a path decides it |
| ErrorStack.UnsetKeyStays | errorstack/error.go:103-135 | A key that no option sets keeps its value, or stays away |
| ErrorStack.LastSetterWins | errorstack/error.go:103-135 | Of the options that set a key, with the code under "code", the last one decides |
| ErrorStack.NewEntryCode | errorstack/error.go:142-158 | Without options that set something, the extensions are the code INTERNAL_ERROR alone; a code given last is the code |
| ErrorStack.NewValidation | errorstack/error.go:166-187 | The code is forced in the callers' own maps, and nothing else in them changes; never without an entry |
| ErrorStack.Wrap | errorstack/error.go:205-213 | nil stays nil; otherwise one entry that says nothing of the cause, which stays reachable |
| ErrorStack.Error.Append | errorstack/error.go:218-221 | The entries in order, with nothing else changed |
| ErrorStack.Error.SetExtension | errorstack/error.go:227-234 | The top-level extension set, in the map already there if there is one |
| ErrorStack.Error.MarshalJSON | errorstack/error.go:312-341 | The envelope of the entries as they are now; no map that existed before is changed, however maps are shared |
| ErrorStack.NormalizeEntry | errorstack/error.go:321-331 | An entry with a non-empty string code is passed on unchanged; any other gets a fresh map with the default code |
| ErrorStack.SerializedIsValid | errorstack/error.go:300-341 | The envelope is never empty, keeps order, messages and paths, leaves valid entries alone, gives every entry a code, and normalizing it again changes nothing |
| ErrorStack.SerializedCodes | errorstack/error.go:321-333 | Entry by entry: a non-empty string code stays with everything else, any other becomes INTERNAL_ERROR |
| ErrorStack.SerializedNothing | errorstack/error.go:313-319 | No entries at all are serialized as one internal server error |
| ErrorStack.EntriesOf | errorstack/error.go:349-367 | The entries of the outermost error on the unwrap chain, none for a typed nil, else one made from the text |
| ErrorStack.ErrorString | errorstack/error.go:248-298 | The loops write exactly the text that the specification gives for the whole chain |
| ErrorStack.DescribeTexts | errorstack/error.go:251-266 | A level begins with the code of its first entry if that is a non-empty string, and without entries says it is an internal server error |
| ErrorStack.EntriesTextJoins | errorstack/error.go:268-271 | Entries are joined by a semicolon and a space |
| ErrorStack.EntryTexts | errorstack/error.go:273-290 | An entry is its message, with its path in parentheses when it has one |
| ErrorStack.PathTextJoins | errorstack/error.go:277-281 | Path segments are joined by dots |
| ErrorStack.ChainText | errorstack/error.go:239-298 | However deep the wrapping, the text begins with the outermost level's and ends with the root's, and the outermost error is the one found |
| Lifecycle.StepKeepsInv | service/service.go:167-371 | Every step of every goroutine keeps the invariant that orders each Stop and counts each Close |
| Lifecycle.RunKeepsInv | service/service.go:167-371 | Every reachable state of every run has the invariant |
| Lifecycle.StopOrder | service/service.go:337-362 | In every schedule: server.Stop before any Close begins, every Close ended before the tracer, then the logger provider, then the sync, and no event twice |
| Lifecycle.CloseConservation | service/service.go:341-348 | Between Stops each dependency was closed exactly as often as a Stop passed the state check since it was attached |
| Lifecycle.DependenciesGrow | service/service.go:234-261 | Dependencies are only ever appended |
| Lifecycle.ServerKept | service/service.go:192-224 | A server once set is never replaced |
| Lifecycle.InFlightMeansCreated | service/service.go:269-308 | With one Start at a time, a Start in flight means the service is still only created |
| Lifecycle.StateNeverMovesBack | service/service.go:269-371 | With one Start at a time, the state never moves backwards over any run |
| Lifecycle.StaysStoppedIff | service/service.go:297-305 | A stopped service stays stopped in every continuation of the run if and only if no Start is still in flight |
| Lifecycle.OverlappingStartsMoveBack | service/service.go:297-305 | A run of two overlapping Starts in which a stopped service becomes started again |
| Lifecycle.ChildrenAreContributions | service/service.go:324-362 | During one Stop the collected entries are exactly the components' contributions, in order of collection |
| Lifecycle.StoppedOnlyWhenClean | service/service.go:364-370 | A Stop leaves the service Stopped if and only if no component contributed an entry, and otherwise Started |
| Lifecycle.OnlyStopStops | service/service.go:364-370 | No other step leads to Stopped |
| ServiceObject.ExecContinuesRun | service/service.go:167-371 | What the object does continues the run that led to it, so every theorem about runs applies to it |
| ServiceObject.ExecKeepsInv | service/service.go:167-371 | What the object does keeps the invariant |
| ServiceObject.ServiceObject.RequireState | service/service.go:167-182 | No error exactly in the expected state; otherwise the message of the actual one |
| ServiceObject.ServiceObject.Serve | service/service.go:192-224 | Performs the Serve step on the fields, with the error for each reason to change nothing |
| ServiceObject.ServiceObject.Attach | service/service.go:234-261 | Performs the Attach step on the fields, with the error for each reason to change nothing |
| ServiceObject.ServiceObject.BeginStart | service/service.go:269-295 | The first critical section of Start: an error exactly when no server is launched |
| ServiceObject.ServiceObject.SignalStart | service/service.go:297-303 | The second critical section writes Started without looking at the state |
| ServiceObject.ServiceObject.FailStart | service/service.go:304-307 | A failed server leaves the state as it is, and its error's entries stay out of the one reported |
| ServiceObject.ServiceObject.Stop | service/service.go:316-371 | From Started, in terms of what the components returned: no error and Stopped exactly when none of server, dependencies, tracer, provider and sync reported an entry; otherwise Started, and an error with all their entries behind a first one |
| ServiceObject.ServiceObject.StopUnderLock | service/service.go:316-371 | Over every schedule of the dependency goroutines: the steps performed are a legal run, and the entries come in the order of collection |
| ServiceObject.ServiceObject.CloseAllDependencies | service/service.go:341-348 | Each dependency begins and ends its Close once, in any interleaving, and its entries are collected once |
| ServiceObject.ServiceObject.DrainTelemetry | service/service.go:350-362 | Tracer, provider and sync in this order; a sync that fails because of a terminal adds no entry |
| Gathering.CollectOne | service/service.go:407-416 | One goroutine's entries join the multiset gathered, whatever ended before |
| Gathering.CollectEach | service/service.go:407-430 | When every goroutine has ended the multiset gathered is that of all entries |
| Gathering.AllOfConcatenates | service/service.go:407-416 | All entries are those of each component one after the other |
| Gathering.SilentIff | service/service.go:407-430 | Nothing is gathered exactly when every component is silent |
| Health.Tally.Check | service/service.go:407-416 | Keeps the larger status and appends the entries |
| Health.CheckAll | service/service.go:407-438 | For every completion order: the maximum of 200 and all statuses; a header and every component's entries as a multiset, or no error when there are none |
| Health.SummaryMeans | service/service.go:407-438 | A summary in terms of the reports: the status, when there is an error, and its entries |
| Health.ErrorIffFailed | service/service.go:432-438 | The result is an error exactly when some component's error has an entry, so it tells of every failure exactly when none failed or one of them speaks |
| Health.ReportOf | service/service.go:412-414 | An error is reported without entries if and only if the error found on its chain is a typed nil or has none |
| Health.CheckOne | service/service.go:407-438 | The failure of a lone component, of any status, is reported if and only if its error is not such a one; its status counts in any case |
| Health.SilentErrorsGoUnreported | errorstack/error.go:349-361 | An error made by hand without entries, and a typed nil, both go unreported |
| ErrorStack.FindError | errorstack/error.go:354-355 | The walk along the unwrap chain finds the outermost error |
| ErrorStack.FoundInside | errorstack/error.go:354-355 | However many foreign errors wrap it, the error inside is the one found |
| ServiceObject.ServiceObject.Status | service/service.go:385-439 | The largest status from 200 up among the server, if there is one, and every dependency; an error exactly when one of them has an entry, with all their entries behind a first one |
| Health.Client.Probe | integration/httpclient/integration.go:101-121 | A transport error or a status from 500 up is a 503 with one entry naming the endpoint, and any other a 200; the response obtained is closed once |
| Health.Client.Status | integration/httpclient/integration.go:44-92 | A custom status is used as it is; otherwise, in any order of completion, 503 exactly when an endpoint cannot be reached or answers from 500 up, and no error exactly with 200 |
| Health.ProbeSummary | integration/httpclient/integration.go:57-121 | Under the default probe: 503 and an error if and only if an endpoint fails, with one entry more than failing endpoints, or none |
| Health.ProbeNames | integration/httpclient/integration.go:101-121 | Behind the first entry every failing endpoint is named by its own entry, and no other is |
| Health.ServiceOverClients | service/service.go:385-439 | A service over such clients is unavailable if and only if some endpoint of some client fails, and its number of entries is the sum of theirs and one |
| Pem.NormalizeIsOnePass | integration/utils.go:14-23 | Three global replacements equal one left-to-right longest-match pass on every byte string |
| Pem.NormalizeIsCanonical | integration/utils.go:14-23 | The output has no backslash-n pair, exactly the inputs without one are unchanged, and a second run changes nothing |
| Pem.RecoversIff | integration/utils.go:9-23 | A text is recovered from any spelling of its newlines if and only if no backslash of its own runs into an escape |
| Pem.Recovers | integration/utils.go:9-23 | A text without backslashes is recovered from every mixture of the three escapes and raw newlines |
| Pem.EscapesAsBytes | integration/utils.go:19-21 | Each of the three escapes, as bytes, becomes one newline byte |
| StructInsert.ReflectionIff | integration/clickhouse/utils.go:58-84 | A type is accepted exactly when no field is embedded or exported without a tag; column i then names the field at index i, the fields are in order and complete; a rejection names the first offender |
| StructInsert.ReflectionMeans | integration/clickhouse/utils.go:63-84 | The same in terms of the fields: every exported field's tag is a column unless it is a dash, and what a rejection says |
| StructInsert.Reflect | integration/clickhouse/utils.go:63-84 | The loop computes that reflection |
| StructInsert.StepKeepsInv | integration/clickhouse/utils.go:58-88 | Each atomic step on the cache keeps stored layouts fresh, answers true and entries in place |
| StructInsert.StoredStays | integration/clickhouse/utils.go:86-87 | A layout once stored is never replaced |
| StructInsert.AnswersAgree | integration/clickhouse/utils.go:58-88 | In every interleaving of lookups each answer is what a fresh reflection gives, all callers of a type get the very same layout, and rejected types are never stored |
| StructInsert.StructCache.LoadOrStore | integration/clickhouse/utils.go:86-87 | What is stored stays and is what the caller gets |
| StructInsert.StructCache.ReflectStructInfo | integration/clickhouse/utils.go:58-88 | One lookup, with the other calls storing what they like in between, returns the layout now stored |
| InsertQuery.WriteColumns | integration/clickhouse/utils.go:103-111 | The loop writes the quoted columns with commas between |
| InsertQuery.WriteMarks | integration/clickhouse/utils.go:115-121 | The loop writes one mark per column |
| InsertQuery.BuildInsertQuery | integration/clickhouse/utils.go:97-126 | The query of a table and its columns |
| InsertQuery.ThreeColumns | integration/clickhouse/utils.go:91-126 | A query of three columns letter by letter |
| InsertQuery.NameIff | integration/clickhouse/utils.go:107-109 | A quoted column is read back if and only if it has no backtick and no backslash that escapes |
| InsertQuery.NeverCatchesUp | integration/clickhouse/utils.go:107-109 | A reader that has swallowed a quoting character never reads back the column, whatever follows |
| InsertQuery.ColumnsIff | integration/clickhouse/utils.go:103-111 | The same for a list of columns: all of them are read back if and only if each stands for itself |
| InsertQuery.ParseOfQueryIff | integration/clickhouse/utils.go:91-126 | With a table free of parentheses, the query reads back as that table and the columns if and only if every column stands for itself between backticks |
| InsertQuery.PlainIsVerbatim | integration/clickhouse/utils.go:91-96 | Columns without backticks and backslashes do, whatever the escapes are; no others do when every character is one |
| InsertQuery.OneColumnLooksLikeTwo | integration/clickhouse/utils.go:103-111 | One column with a quote, a comma and a quote inside writes the very text of two columns |
| InsertQuery.OneValueForTwoColumns | integration/clickhouse/utils.go:97-126 | The query of that column has two columns and one value, and is read as no statement |
| InsertQuery.TrailingBackslash | integration/clickhouse/utils.go:97-126 | A column that ends with a backslash escapes its closing quote, and its query is read as no statement |
| StructInsert.PrepareAsyncInsert | integration/clickhouse/utils.go:135-164 | Each error case, and otherwise the query with the argument of each index |
| StructInsert.ColumnsMatchArguments | integration/clickhouse/utils.go:135-164 | Column i is the tag of the field that supplies argument i; and the query reads back as these columns if and only if the tags stand for themselves between backticks |
| SpanStatus.StatusSpan.SetStatus | internal/telemetry/trace/status.go:60-66 | Remembers an error and passes the status on |
| SpanStatus.StatusSpan.End | internal/telemetry/trace/status.go:68-74 | Sends Ok first unless an error was set through it |
| SpanStatus.Span.RecordError | telemetry/trace/span.go:55-63 | A nil error or span changes nothing; otherwise both layers see the error |
| SpanStatus.Span.End | telemetry/trace/span.go:86-96 | Sends Ok first unless this layer recorded an error, then ends the span below |
| SpanStatus.Start | internal/telemetry/trace/status.go:44-49 | A span of the wrapped provider starts unset, with both layers free of errors |
| SpanStatus.BeforeEnd | telemetry/trace/span.go:55-96 | After any calls on either layer: what each layer remembers, the status, its description and the recorded events |
| SpanStatus.CallsMean | telemetry/trace/span.go:55-63 | Which calls record an error, set one below, or say Ok |
| SpanStatus.LastMessageIs | telemetry/trace/span.go:55-63 | The description is the message of the last call that set an error |
| SpanStatus.ErrorsConcatenate | telemetry/trace/span.go:55-63 | The recorded errors of calls one after the other |
| SpanStatus.PublicStatus | telemetry/trace/span.go:55-96 | Through public methods alone the final status is Error with the last message if a non-nil error was recorded, otherwise Ok; every recorded error is an event; later calls change nothing |
| SpanStatus.MixedStatus | telemetry/trace/span.go:86-96 | With calls on both layers and a public End: Error if and only if the public layer recorded an error and nobody said Ok |
| SpanStatus.WrapperStatus | internal/telemetry/trace/status.go:60-74 | Ended through the wrapper: Error if and only if an error was set on either layer and nobody said Ok |
| SpanStatus.WrapperNeverOverrides | internal/telemetry/trace/status.go:68-74 | The wrapper's own End never changes the status once an error was set through it |
| SpanStatus.LayersAgreeIff | telemetry/trace/span.go:76-96 | The two Ends agree exactly unless an error was set below only |
| SpanStatus.ErrorBelowIsLost | telemetry/trace/span.go:90-92 | An error set below only is overridden with Ok by the public End |
| SpanStatus.RawSpanStaysUnset | internal/telemetry/trace/status.go:3-15 | Without the wrapper, a span ended by other code stays Unset exactly when no status was set |

## Left out

- Sockets, HTTP transport, TLS, exporters, zap, and the database, Valkey, bucket and Temporal clients: library calls without logic of their own.
- The baggage library's limits, key validation and percent-encoding: baggage is an ideal map.
- `FlatMapCodec.FromFlatMap`: requires `Allocatable`, because for the largest int as an index the source panics instead of returning; panics for want of memory are not modelled.
- Float and time text formats: premises of `Codec.Sound`; times outside the years 1 to 9999, monotonic clocks and locations of times are not modelled.
- Signals, timers and deadlines: a signal arrives, or a context becomes done, at an arbitrary point.
- Waiting for locks: `Status` and `Stop` contend for the same lock, and nothing is claimed about deadlock or progress.
- `ServiceObject.ServiceObject.Stop`: one method performs all steps of a Stop, since no other call can take the lock in between; a `Start` whose server fails meanwhile is covered by `Lifecycle` alone.
- `service.New` and its once-only guard, and the global registration of providers: their properties are settled by reading one branch.
- `Failover.Attempt`: takes the outcome as a parameter; the request, its body and options, and the default headers are not modelled.
- Span attributes other than the endpoint reported.
- Aliasing of slice backing arrays, as in two appends to one entry list: entries are sequences, while extension maps are shared objects.
- `ErrorStack.Error.MarshalJSON`: yields the envelope as a value; byte-level JSON and `toJSON` of path segments are parameters.
- `errors.Join` and other multi-cause chains: the unwrap chain is linear.
- `ErrorStack.ErrorString`: asks that the chain ends and holds no typed nil (`Printable`), where the source would not return.
- Table names with a parenthesis, as in a quoted name: the reader of `InsertQuery` ends the table there, so nothing is claimed of them.
- Escapes of more than one character after the backslash, such as hexadecimal codes: `Lexical` has escapes of one character.
- `StructInsert`: the driver's own binding of arguments, and columns with the same tag twice, which the source accepts.
- Paths and codes of the service's error entries: an entry of `Lifecycle` is its message.
- Message texts with quoted parts: health entries of the HTTP client, and rejections of struct types, are structured values.
- `SetAttributes` and `AddEvent` of a span: they do not touch the status.
- An HTTP client without endpoints: the constructor refuses it, so `Failover.Connection` has at least one.
- Config sanitizing, provider detection, locales, REST and GraphQL routing and responses: settled by reading one branch or one short loop.
