# Field paths, leaf flattening, reduce and metric_to_log

A Dafny model of four parts of the Vector event pipeline.

**Lookup field paths** (`lookup.dfy`). A path is a sequence of segments,
`Field(name)` or `Index(n)`:

- `FromStr` parses a dotted path. Indices in brackets become separate flat segments. A double-quoted field keeps its quotes and may hold dots and spaces. The empty string is rejected.
- `FromRaw` wraps a whole string as one field and does no parsing.
- `Render` is `to_string`.
- The round trip `FromStr(Render(p)) == Ok(p)` is proved for every valid path, and `Render(FromStr(s)) == s` for every parseable string without leading-zero indices (`a[01]` renders back as `a[1]`).
- `LookupBuf` is the mutable buffer, with `push`, `pop`, `extend` and assignment by index.

**all_fields** (`all_fields.dfy`). `FieldsIter` is a class holding the stack of
map/array iterators and the path components of the frames below the top. `Next`
is proved against `LeavesOf`, the pre-order list of scalar leaves. Each call
yields the head of what is left, rendered, and the walk ends exactly when
nothing is left. `MakePath` is proved to equal `Render`.

**reduce** (`reduce.dfy`, `mergers.dfy`):

- `ReduceState` is a class: a map from field key to merger, and `staleSince`.
- `Reduce` is a class whose open buckets are a map from discriminant to `ReduceState` objects.
- Each bucket method is specified by a function on bucket values (`NewBucket`, `AddEventSpec`, `FlushFold`). The transform-level methods are specified by `Unexpired`, `PushOrNewSpec`, `AfterEvent` and `EmittedBy`.
- A flushed event is any result of draining the fields in some order (`IsFlushOf`). `FlushOrderIrrelevant` shows that for plain field names the order does not matter; `FlushOrderMatters` shows that it does once one key is a prefix of another (`a` holding a map, and `a.b`).
- Mergers are a closed datatype. What feeding one a sequence of values amounts to is proved per strategy.

**metric_to_log** (`metric_to_log.dfy`). The rewrite of a serialised metric
object into a log:

- each top-level key is inserted as one raw segment;
- `timestamp` is replaced by its conversion, or by "now";
- the host tag under `tags` moves to `host`.

The `*_examples.dfy` files restate selected assertions of the repository's
tests as lemmas, at the level the model supports; the ones left out are listed
under "Left out".

Logs and maps are `Value` trees (`values.dfy`). A map node is an entry list kept
strictly sorted by key, as in a `BTreeMap`. `Get`, `Insert` and `Remove` stand
in for the `LogEvent` path operations.

## Model

| member | source | states |
|---|---|---|
| `Lookup.NatToString` | src/event/lookup/lookup_view/test.rs:65-73 | an index is written in canonical decimal (digits only, no leading zero) |
| `Lookup.NatToStringInverse` | src/event/lookup/lookup_view/test.rs:65-73 | reading back the written index gives the number |
| `Lookup.DigitsToNatInverse` | src/event/lookup/lookup_view/test.rs:65-73 | a canonical numeral is exactly how its value is written |
| `Lookup.ParseField` | src/event/lookup/lookup_view/test.rs:85-93 | a parsed field name is bare or quoted, and name + rest is the input |
| `Lookup.ParseIndices` | src/event/lookup/lookup_view/test.rs:115-123 | a run of `[n]` becomes index segments only, and what is left does not start with `[` |
| `Lookup.ParseGroup` | src/event/lookup/lookup_view/test.rs:65-73 | one group is a valid field followed by indices, and consumes input |
| `Lookup.ParseSegments` | src/event/lookup/lookup_view/test.rs:75-83 | a successful parse is a valid path (non-empty, starts with a field, names bare or quoted) |
| `Lookup.FromStr` | src/event/lookup/lookup_view/test.rs:20-26 | fails with EmptyPath exactly on ""; success is a valid path that renders back to the input (no leading-zero indices) |
| `Lookup.FromRaw` | src/event/lookup/lookup_view/test.rs:28-35 | one field segment holding the whole string, rendering back to it |
| `Lookup.Render` | src/event/lookup/lookup_view/test.rs:95-101 | `to_string`: fields joined by `.`, each index as `[n]`; its contract is `ParseRender` (parsing the rendering gives the path back) and `ParseSegmentsText` (rendering a parse gives the string back) |
| `Lookup.ParseIndicesText` | src/event/lookup/lookup_view/test.rs:95-101 | the index run re-rendered, followed by the rest, is the input |
| `Lookup.ParseGroupText` | src/event/lookup/lookup_view/test.rs:95-101 | a parsed group re-rendered, followed by the rest, is the input |
| `Lookup.ParseSegmentsText` | src/event/lookup/lookup_view/test.rs:95-101 | rendering a parsed path gives the parsed string back |
| `Lookup.ParseFieldOf` | src/event/lookup/lookup_view/test.rs:85-93 | a valid name followed by `.`, `[` or nothing parses to that name |
| `Lookup.ParseIndicesOf` | src/event/lookup/lookup_view/test.rs:115-123 | rendered indices parse back to the same index segments |
| `Lookup.ParseGroupOf` | src/event/lookup/lookup_view/test.rs:65-73 | a rendered group parses back to itself |
| `Lookup.SplitGroup` | src/event/lookup/lookup_view/test.rs:4-18 | every valid path is a group followed by a shorter valid path or nothing |
| `Lookup.ParseSegmentsOf` | src/event/lookup/lookup_view/test.rs:178-196 | every valid path, rendered, parses back to itself |
| `Lookup.ParseRender` | src/event/lookup/lookup_view/test.rs:178-196 | `from_str(to_string(p)) == p` for every valid path |
| `Lookup.LookupBuf.constructor` | src/event/lookup/lookup_view/test.rs:37-44 | the buffer holds the given segments |
| `Lookup.LookupBuf.Push` | src/event/lookup/lookup_view/test.rs:46-54 | the segment is appended at the end, the rest unchanged |
| `Lookup.LookupBuf.Pop` | src/event/lookup/lookup_view/test.rs:56-63 | returns the last segment and drops it; an empty buffer gives None and stays empty |
| `Lookup.LookupBuf.Extend` | src/transforms/metric_to_log.rs:60-61 | the other path's segments are appended in order |
| `Lookup.LookupBuf.ToString` | src/event/lookup/lookup_view/test.rs:95-101 | `to_string` of the buffer; for a well-formed path, parsing the string gives the buffer's segments back |
| `Lookup.LookupBuf.Set` | src/event/lookup/lookup_view/test.rs:125-134 | assignment by index changes that segment only |
| `LookupExamples.QuotedNames` | src/event/lookup/lookup_view/test.rs:4-18 | the quoted names of the complex path, and `"flop fleep"`, are quoted field names |
| `LookupExamples.DecomposedValid` | src/event/lookup/lookup_view/test.rs:4-18 | the nine decomposed segments form a valid path |
| `LookupExamples.ComplexRenders` | src/event/lookup/lookup_view/test.rs:95-101 | the nine segments render to the complex path string |
| `LookupExamples.ComplexParses` | src/event/lookup/lookup_view/test.rs:103-123 | the complex path parses to exactly the nine segments, in order |
| `LookupExamples.ArrayPath` | src/event/lookup/lookup_view/test.rs:65-73 | `foo[0]` parses to field foo and index 0 |
| `LookupExamples.DottedFields` | src/event/lookup/lookup_view/test.rs:75-83 | `florp.flop` parses to two fields |
| `LookupExamples.QuotedField` | src/event/lookup/lookup_view/test.rs:85-93 | a quoted field keeps its quotes and its space, as one segment |
| `LookupExamples.ParsedVersusRaw` | src/event/lookup/lookup_view/test.rs:28-35 | a dotted string parses to two fields but is one field when taken raw |
| `LookupExamples.EmptyRejected` | src/event/lookup/lookup_view/test.rs:20-26 | the empty string does not parse |
| `LookupExamples.PushAndPop` | src/event/lookup/lookup_view/test.rs:46-63 | pushing `some_key` onto `some_key` gives two equal fields, and popping one key returns it |
| `Values.Find` | src/transforms/metric_to_log.rs:82-93 | the keyed lookup in a map node behind the log's get, insert and remove: a found value is stored under that key; None means the key is absent |
| `Values.KeyLessIrreflexive` | src/event/util/log/all_fields.rs:8-9 | the key order is irreflexive |
| `Values.KeyLessTransitive` | src/event/util/log/all_fields.rs:8-9 | the key order is transitive |
| `Values.KeyLessTotal` | src/event/util/log/all_fields.rs:8-9 | two different keys are ordered one way or the other |
| `Values.PutSorted` | src/transforms/metric_to_log.rs:81-83 | inserting a top-level key keeps a map node sorted |
| `Values.FindPut` | src/transforms/metric_to_log.rs:81-83 | after inserting k, k finds the new value and every other key finds what it did before |
| `Values.DeleteSorted` | src/transforms/metric_to_log.rs:85-86 | removing a key keeps a map node sorted |
| `Values.FindDelete` | src/transforms/metric_to_log.rs:85-86 | after removing k, k is absent and every other key is unchanged |
| `Values.Get` | src/transforms/metric_to_log.rs:85-93 | the value at a path, which the log's `remove` hands back; stated by `GetTopField` (a one-field path is the top-level lookup), `GetInsert`, `RemoveReturnsGet` and `GetAfterRemove` |
| `Values.Insert` | src/transforms/metric_to_log.rs:82-89 | the log's `insert` at a path; stated by `GetInsert`, `InsertOtherKey` and `InsertWellFormed` |
| `Values.Remove` | src/transforms/metric_to_log.rs:85-93 | the log's `remove` at a path, returning what was there; stated by `RemoveReturnsGet`, `GetAfterRemove` and `RemoveOtherKey` |
| `Values.GetInsert` | src/transforms/metric_to_log.rs:89 | a successful insert at a path is found at that path |
| `Values.InsertOtherKey` | src/transforms/metric_to_log.rs:89 | inserting under one top-level field leaves every path under another unchanged |
| `Values.InsertWellFormed` | src/transforms/metric_to_log.rs:81-83 | insertion keeps every map node of the tree sorted |
| `Values.RemoveReturnsGet` | src/transforms/metric_to_log.rs:91 | remove returns exactly the value found at the path |
| `Values.GetAfterRemove` | src/transforms/metric_to_log.rs:91 | after removing a field path nothing is found there |
| `Values.RemoveOtherKey` | src/transforms/metric_to_log.rs:85-86 | removing under one top-level field leaves every path under another unchanged |
| `AllFields.Rendered` | src/event/util/log/all_fields.rs:8-9 | each leaf becomes its rendered path and its value, one for one |
| `AllFields.RemPop` | src/event/util/log/all_fields.rs:93-94 | popping an exhausted frame keeps the stacks paired and loses no leaf still to come |
| `AllFields.AdvanceAccount` | src/event/util/log/all_fields.rs:93-104 | advancing the top iterator past a child moves exactly that child's leaves out of what remains |
| `AllFields.PushAccount` | src/event/util/log/all_fields.rs:49-60 | pushing a container frame with its component puts the container's leaves first in what remains |
| `AllFields.FieldsIter.constructor` | src/event/util/log/all_fields.rs:42-47 | one map frame, an empty path, and everything in the map's leaves still to come |
| `AllFields.FieldsIter.Push` | src/event/util/log/all_fields.rs:49-63 | a scalar is returned and nothing is pushed; a map or array pushes its frame and the component together and returns None |
| `AllFields.FieldsIter.Pop` | src/event/util/log/all_fields.rs:65-68 | stack and path each lose their last element |
| `AllFields.FieldsIter.MakePath` | src/event/util/log/all_fields.rs:70-83 | the path plus the component, rendered: `.` only before a field that follows another component, `[i]` for an index |
| `AllFields.JoinComponents` | src/event/util/log/all_fields.rs:71-82 | the loop over the chained components yields the rendered path |
| `AllFields.PushComponent` | src/event/util/log/all_fields.rs:74-81 | one component's text, and a `.` when the next component is a field, extends the rendered prefix |
| `AllFields.FieldsIter.NextChild` | src/event/util/log/all_fields.rs:91-111 | the top iterator yields its next child, whose leaves head its remaining leaves, or reports that it is exhausted |
| `AllFields.FieldsIter.Next` | src/event/util/log/all_fields.rs:89-114 | None exactly when no leaf remains (the stack is then empty); otherwise the first remaining leaf, rendered, is returned and removed |
| `AllFields.AllFields` | src/event/util/log/all_fields.rs:11-15 | the collected iterator is the rendered pre-order leaf list of the map |
| `AllFields.LeavesOfBelow` | src/event/util/log/all_fields.rs:49-63 | every leaf under a child is a scalar whose path extends the child's |
| `AllFields.YieldsScalars` | src/event/util/log/all_fields.rs:96-108 | only scalars are yielded, each with a non-empty path |
| `AllFields.FlatMapLeaves` | src/event/util/log/all_fields.rs:132-150 | on a flat map the yield is each key with its value, in key order |
| `AllFieldsExamples.SimpleFieldsSorted` | src/event/util/log/all_fields.rs:134-138 | the three fields sit in key order whatever the order they were written in |
| `AllFieldsExamples.KeysSimple` | src/event/util/log/all_fields.rs:132-150 | `field1`, `field2`, `field3` are yielded in that order with 4, 3, 5 |
| `AllFieldsExamples.ArrayLeaves` | src/event/util/log/all_fields.rs:160-162 | the array yields null, 3, the nested `x` and the nested `[0]`, in index order |
| `AllFieldsExamples.KeysNestedPaths` | src/event/util/log/all_fields.rs:152-172 | the nested example's six leaf paths, in pre-order |
| `AllFieldsExamples.KeysNested` | src/event/util/log/all_fields.rs:152-179 | the nested example yields `a.a`, `a.array[0]`, `a.array[1]`, `a.array[2].x`, `a.array[3][0]`, `a.b.c` with their values |
| `Mergers.Finalize` | src/transforms/reduce/mod.rs:132-137 | the value a merger writes into the flushed event (`insert_into`); stated per strategy by `DefaultMerger`, `GetValueMerger` and the `Feed` lemmas |
| `Mergers.DefaultMerger` | src/transforms/reduce/mod.rs:95 | a field without a strategy gives back its first value when nothing else is fed |
| `Mergers.GetValueMerger` | src/transforms/reduce/mod.rs:86-93 | fails exactly for sum or max on a non-integer and concat on a value that is neither string nor array; otherwise gives back the value (array: the value wrapped) |
| `Mergers.Add` | src/transforms/reduce/mod.rs:121-125 | a merger that takes a value stays the same kind of merger |
| `Mergers.FeedKeepFirst` | src/transforms/reduce/mod.rs:373-377 | the default for a non-numeric field keeps its first value whatever follows |
| `Mergers.FeedSum` | src/transforms/reduce/mod.rs:378 | summing adds the integers fed and skips other values |
| `Mergers.FeedMax` | src/transforms/reduce/mod.rs:459 | max is at least every integer fed and equals the start or one of them; non-integers are ignored |
| `Mergers.FeedCollect` | src/transforms/reduce/mod.rs:455-458 | array collects every value in arrival order |
| `Mergers.FeedConcatBytes` | src/transforms/reduce/mod.rs:451-454 | concat appends each string after a space and drops other values |
| `Mergers.FeedConcatArray` | src/transforms/reduce/mod.rs:623-626 | concat on an array appends the elements of arrays and other values whole |
| `Reduce.NewKey` | src/transforms/reduce/mod.rs:85 | a first event's key is the name parsed as a path, or the raw name if it does not parse; it has at least one segment and renders back to the name (no leading-zero indices) |
| `Reduce.AddKey` | src/transforms/reduce/mod.rs:104 | a later event's key is the raw name as one field segment (`r == [Field(k)]`), never parsed; `KeysAgreeOnPlainNames` and `KeysDifferOnDottedNames` compare it with `NewKey` |
| `Reduce.KeysAgreeOnPlainNames` | src/transforms/reduce/mod.rs:85-104 | the two keyings agree on a plain field name |
| `Reduce.KeysDifferOnDottedNames` | src/transforms/reduce/mod.rs:85-104 | on `a.b` the first event's keying gives two segments, a later event's one |
| `Reduce.ParsedKeys` | src/transforms/reduce/mod.rs:85 | each field's key is its name parsed, or taken raw when it does not parse |
| `Reduce.ReduceState.constructor` | src/transforms/reduce/mod.rs:79-100 | the bucket built from the first event, stamped now |
| `Reduce.ReduceState.AddEvent` | src/transforms/reduce/mod.rs:102-129 | every field of the event is folded into the bucket, and staleSince becomes now |
| `Reduce.ReduceState.Flush` | src/transforms/reduce/mod.rs:131-139 | the event is every merger's value inserted at its key, draining the keys in some order that lists each once; with single-field keys it is, whatever the order, a sorted map holding each merger's value under its name and nothing else |
| `Reduce.AddFieldsOtherKey` | src/transforms/reduce/mod.rs:102-129 | add_event leaves a key that no field of the event maps to as it was |
| `Reduce.AddFieldsOneKey` | src/transforms/reduce/mod.rs:103-126 | a key one field maps to ends as that one field's step makes it |
| `Reduce.StartFieldsOtherKey` | src/transforms/reduce/mod.rs:82-98 | new creates no key that no field maps to |
| `Reduce.StartFieldsOneKey` | src/transforms/reduce/mod.rs:82-98 | a key one field maps to holds that field's merger, or is absent when the strategy refused the value |
| `Reduce.NewFieldsPerKey` | src/transforms/reduce/mod.rs:79-100 | every key of a new bucket comes from a field, and a key from exactly one field holds that field's merger |
| `Reduce.AddFieldsByName` | src/transforms/reduce/mod.rs:103-127 | on a plain key add_event does exactly one step with the event's value, or nothing if it lacks the field |
| `Reduce.NewFieldsByName` | src/transforms/reduce/mod.rs:82-98 | on a plain key new starts the merger from the event's value |
| `Reduce.FieldStep` | src/transforms/reduce/mod.rs:121-125 | a later event feeds its value of the field to the existing merger |
| `Reduce.ReducedField` | src/transforms/reduce/mod.rs:102-129 | after the first event and the later ones, a field's merger is its start fed the later values in order |
| `Reduce.ReducedSingleFields` | src/transforms/reduce/mod.rs:85-104 | a bucket built from plain names keys every field by one field segment |
| `Reduce.FlushSingleFields` | src/transforms/reduce/mod.rs:131-139 | flushing single-field keys builds a sorted map holding each merger's value under its name and nothing else |
| `Reduce.FlushOrderIrrelevant` | src/transforms/reduce/mod.rs:133 | for single-field (plain-name) keys the HashMap's drain order does not change the flushed event |
| `Reduce.FlushOrderMatters` | src/transforms/reduce/mod.rs:133 | with the keys `a` (holding the map `{x: 1}`) and `a.b` (holding `2`), draining `a` first gives `{a: {b: 2, x: 1}}` and draining `a.b` first gives `{a: {x: 1}}`: the flushed event depends on the drain order |
| `Reduce.FlushedField` | src/transforms/reduce/mod.rs:134 | a flushed field holds its merger's value |
| `Reduce.StaleKeys` | src/transforms/reduce/mod.rs:176-181 | exactly the buckets whose elapsed time reaches expire_after |
| `Reduce.Unexpired` | src/transforms/reduce/mod.rs:182-187 | the stale buckets are removed and the rest kept unchanged |
| `Reduce.PushOrNewSpec` | src/transforms/reduce/mod.rs:196-205 | the discriminant gains a bucket and every other bucket is unchanged |
| `Reduce.DiscriminantOf` | src/transforms/reduce/mod.rs:220 | one slot per group_by path, holding the event's value there or None |
| `Reduce.MissingGroupByShares` | src/transforms/reduce/mod.rs:220 | events missing every group_by field get the same discriminant |
| `Reduce.BoundaryOf` | src/transforms/reduce/mod.rs:208-217 | an event starts a bucket exactly when starts_when holds, and ends one exactly when starts_when does not hold and ends_when does: starts_when is consulted first |
| `Reduce.AfterEvent` | src/transforms/reduce/mod.rs:222-240 | starts_when leaves a fresh bucket of the event, ends_when leaves none, otherwise the event is merged into its bucket or starts one; other buckets unchanged |
| `Reduce.EmittedBy` | src/transforms/reduce/mod.rs:222-237 | starts_when emits the old bucket if any; ends_when always emits one bucket stamped now: the event merged into the old bucket, or a fresh bucket of the event; otherwise nothing |
| `Reduce.Reduce.constructor` | src/transforms/reduce/mod.rs:164-172 | the configured settings, expire_after 30000 ms and flush_period 1000 ms by default, and no buckets |
| `Reduce.Reduce.New` | src/transforms/reduce/mod.rs:155-173 | fails exactly when both ends_when and starts_when are set, otherwise a fresh transform as configured |
| `Reduce.Reduce.StaleDiscriminants` | src/transforms/reduce/mod.rs:176-181 | lists every stale discriminant exactly once |
| `Reduce.Reduce.Detach` | src/transforms/reduce/mod.rs:183-185 | the bucket of a discriminant leaves the map, the other buckets are unchanged, and the object is shared with none of them |
| `Reduce.Reduce.Take` | src/transforms/reduce/mod.rs:183-185 | removes the bucket and returns its flush |
| `Reduce.Reduce.TakeAll` | src/transforms/reduce/mod.rs:182-187 | removes the listed buckets, emits one flush each in list order, keeps the others |
| `Reduce.Reduce.FlushInto` | src/transforms/reduce/mod.rs:175-188 | the stale buckets are removed and each emitted once, after the existing output; the rest are kept |
| `Reduce.Reduce.FlushAllInto` | src/transforms/reduce/mod.rs:190-194 | no bucket is left and every former bucket is emitted exactly once |
| `Reduce.Reduce.PushOrNew` | src/transforms/reduce/mod.rs:196-205 | an absent discriminant gets a new bucket, a present one takes the event; nothing else changes |
| `Reduce.Reduce.Join` | src/transforms/reduce/mod.rs:201-203 | the event is added to that bucket only |
| `Reduce.Reduce.Open` | src/transforms/reduce/mod.rs:198-200 | a new bucket for the discriminant, others unchanged |
| `Reduce.Reduce.StartBucket` | src/transforms/reduce/mod.rs:222-227 | any old bucket is emitted first and the event opens a new one; the event is not in the output |
| `Reduce.Reduce.CloseBucket` | src/transforms/reduce/mod.rs:228-235 | the bucket leaves the map holding the closing event merged in, or is a fresh bucket of the event |
| `Reduce.Reduce.EndBucket` | src/transforms/reduce/mod.rs:228-237 | exactly one event is emitted: the event merged into the old bucket or a fresh one, and no bucket remains there |
| `Reduce.Reduce.PlaceEvent` | src/transforms/reduce/mod.rs:222-240 | the three-way dispatch on the event's boundary |
| `Reduce.Reduce.TransformOne` | src/transforms/reduce/mod.rs:207-245 | the boundary's emission, then the staleness sweep over the resulting buckets, each stale bucket emitted once |
| `ReduceExamples.DefaultField` | src/transforms/reduce/mod.rs:95-125 | a field without strategy flushes as its default merger fed the later values |
| `ReduceExamples.StrategyField` | src/transforms/reduce/mod.rs:86-125 | a field with a strategy flushes as that strategy's merger fed the later values |
| `ReduceExamples.PairStrategyField` | src/transforms/reduce/mod.rs:392-460 | the same for a bucket of three events |
| `ReduceExamples.CounterBucketOne` | src/transforms/reduce/mod.rs:373-378 | counters 1, 3, 4 of request 1 flush as 8 |
| `ReduceExamples.FirstMessageKept` | src/transforms/reduce/mod.rs:373-377 | the bucket keeps the first event's message |
| `ReduceExamples.CounterBucketTwo` | src/transforms/reduce/mod.rs:380-389 | counters 2 and 5 of request 2 flush as 7 |
| `ReduceExamples.ExtraFieldTaken` | src/transforms/reduce/mod.rs:385-388 | a field first seen in a later event appears in the flush |
| `ReduceExamples.LateField` | src/transforms/reduce/mod.rs:107-119 | a field first seen in a later event starts its own merger |
| `ReduceExamples.MissingGroupBy` | src/transforms/reduce/mod.rs:485-528 | two events without request_id get the same discriminant |
| `ReduceExamples.InsideStep` | src/transforms/reduce/mod.rs:238-244 | an event that meets no condition joins or starts its bucket, emits nothing, and within the expiry window the sweep flushes nothing |
| `ReduceExamples.EndStep` | src/transforms/reduce/mod.rs:228-244 | an event meeting ends_when emits its bucket with the event merged in (or a fresh one) and leaves no bucket under its discriminant |
| `ReduceExamples.EndsWhenStream` | src/transforms/reduce/mod.rs:314-389 | for the five test events, nothing is emitted until event 4, which emits the bucket reduced from events 1, 3, 4; event 5 emits the bucket reduced from 2, 5; no bucket stays open; the second group value may be absent, as in the missing_group_by test |
| `ReduceExamples.JoinSole` | src/transforms/reduce/mod.rs:238-244 | with one bucket open, an event of its group that does not end it is merged into it and nothing is emitted |
| `ReduceExamples.EndSole` | src/transforms/reduce/mod.rs:228-244 | with one bucket open, an event of its group that ends it emits the bucket with the event merged in and leaves none open |
| `ReduceExamples.OneBucketStream` | src/transforms/reduce/mod.rs:392-460 | three events of one group, the last ending it: only the last emits, the bucket reduced from all three |
| `ReduceExamples.TwoBucketStream` | src/transforms/reduce/mod.rs:531-638 | six events in two groups: event 4 emits the bucket reduced from 1, 3, 4, event 6 the bucket reduced from 2, 5, 6, nothing else is emitted |
| `ReduceExamples.ConcatStrategy` | src/transforms/reduce/mod.rs:451-454 | concat gives `first foo second foo` and drops the number |
| `ReduceExamples.ArrayStrategy` | src/transforms/reduce/mod.rs:455-458 | array gives the three raw values in order |
| `ReduceExamples.MaxStrategy` | src/transforms/reduce/mod.rs:459 | max of 2, a string and 3 is 3 |
| `ReduceExamples.ArraysNest` | src/transforms/reduce/mod.rs:616-621 | array on array values nests them |
| `ReduceExamples.ArraysFlatten` | src/transforms/reduce/mod.rs:623-626 | concat on array values flattens them and appends the string |
| `MetricToLog.MetricToLog.constructor` | src/transforms/metric_to_log.rs:58-66 | the host tag is `tags` followed by the configured tag, or the host key; the timestamp key is `timestamp` |
| `MetricToLog.MetricToLog.Transform` | src/transforms/metric_to_log.rs:70-100 | a serialised object appends exactly its rewrite; anything else appends nothing |
| `MetricToLog.Rewrite` | src/transforms/metric_to_log.rs:77-96 | the object-to-log rewrite; stated by `CollectedObject`, `RewriteKeepsFields`, `RewriteTimestamp`, `RewriteHost` and `RewriteTags` |
| `MetricToLog.CollectedObject` | src/transforms/metric_to_log.rs:81-83 | inserting each top-level key as one raw segment rebuilds the object |
| `MetricToLog.StampIsTimestamp` | src/transforms/metric_to_log.rs:85-88 | always a timestamp: the converted one, or now when missing or unconvertible |
| `MetricToLog.RestampedTimestamp` | src/transforms/metric_to_log.rs:85-89 | the timestamp field holds the stamp computed from the old one |
| `MetricToLog.RestampedOthers` | src/transforms/metric_to_log.rs:85-89 | restamping changes no other field and keeps the log sorted |
| `MetricToLog.HostMovedHost` | src/transforms/metric_to_log.rs:91-93 | a present host tag value lands at `host`; an absent one leaves `host` as it was |
| `MetricToLog.HostMovedOthers` | src/transforms/metric_to_log.rs:91-93 | fields other than `tags` and `host` are unchanged |
| `MetricToLog.HostMovedOtherTags` | src/transforms/metric_to_log.rs:91-93 | the host tag leaves `tags`; every other tag stays |
| `MetricToLog.RewriteKeepsFields` | src/transforms/metric_to_log.rs:77-96 | every field besides timestamp, tags and host comes through unchanged |
| `MetricToLog.RewriteTimestamp` | src/transforms/metric_to_log.rs:85-89 | the log always holds a timestamp: the converted metric timestamp, or now |
| `MetricToLog.RewriteHost` | src/transforms/metric_to_log.rs:91-93 | `host` holds the host tag value when the metric has one, otherwise what the object had there |
| `MetricToLog.RewriteTags` | src/transforms/metric_to_log.rs:91-93 | after the rewrite the host tag is gone and other tags are kept |
| `MetricToLogExamples.TaggedMetric` | src/transforms/metric_to_log.rs:161-167 | a metric tagged with host and one other tag: host moved, other tag kept |
| `MetricToLogExamples.CounterTags` | src/transforms/metric_to_log.rs:140-171 | the counter's log has `host = localhost`, no `tags.host`, and `tags.some_tag = some_value` |
| `MetricToLogExamples.CounterTimestamp` | src/transforms/metric_to_log.rs:168 | the counter's log carries its own converted timestamp |
| `MetricToLogExamples.GaugeNoHost` | src/transforms/metric_to_log.rs:173-196 | a metric without tags gets no host field |
| `MetricToLogExamples.CounterOwnFields` | src/transforms/metric_to_log.rs:157-163 | the counter's log has `counter.value = 1.0`, `kind = absolute` and `name = counter` |
| `MetricToLogExamples.GaugeOwnFields` | src/transforms/metric_to_log.rs:189-193 | the gauge's log has `gauge.value = 1.0`, `kind = absolute` and `name = gauge` |

## Left out

- The async task loop of reduce (src/transforms/reduce/mod.rs:248-296), with its `tokio::select!`, interval timer and streams. One turn of it is a call to `TransformOne`, `FlushInto` or `FlushAllInto`.
- Clocks. `Instant::now()`, `elapsed()` and `Utc::now()` become an explicit `now: int` argument. One `now` serves a whole call, where the source reads the clock at each use.
- `flush_period` is stored but not used: the model has no timer.
- Conditions. `ends_when` and `starts_when` are total functions from an event's fields to bool. Building them from configuration (and any error from that) is not modelled.
- `Discriminant::from_log_event` and its hashing are not part of this model. A discriminant is the list of the event's values at the group_by paths, compared by equality.
- The iteration order of a `HashMap`. Flush order is left open (`IsFlushOf` quantifies over every order, and `FlushOrderMatters` shows the result can depend on it), and the stale keys and drained keys are returned as ghost enumerations.
- The merge_strategy module is not part of this model. Merger behaviour comes from the tests at src/transforms/reduce/mod.rs:314-638. Floating-point sums and maxima are not modelled: floats are opaque bit patterns, and sum and max take integers only. Limits such as the concat byte bound are not modelled.
- `LogEvent::into_iter` is modelled as walking the top-level fields in key order. This model does not flatten nested fields into dotted keys.
- Insert and remove on a `LogEvent` are `Insert` and `Remove` on the value tree. An insert the tree cannot take (a field under a scalar, an index beyond the end of an array) leaves the log unchanged and is not reported.
- `warn!`, `emit!` and the internal event metrics, and the configuration parsing, `inventory::submit!` and `typetag` registration.
- The serialisation `serde_json::to_value(&metric)` and the conversion `Conversion::Timestamp` in metric_to_log. The transform receives the serialised value (None when serialisation failed) and the conversion as a function. The serialised object is taken to be a sorted map, hence the `Sorted` requirement of the lemmas.
- `log_schema()` is not part of this model. Its host and timestamp keys are fixed at their defaults, `host` and `timestamp`.
- MetricToLog.RewriteTags: stated for a host tag of one segment under `tags` (`tags.<h>`). For a deeper configured host tag only `RewriteHost` and `RewriteKeepsFields` are proved.
- Lookup.FromStr: a string with a leading-zero index such as `a[01]` parses, but renders back as `a[1]`. The string round trip is therefore stated for strings without leading-zero indices. `ParseRender`, the path round trip, holds for every valid path.
- The Lookup parser itself is not part of this model; its grammar is taken from the assertions of the lookup tests. A bare name is a non-empty run of characters other than `.`, `[` and `"`. A quoted name is `"` plus non-quote characters plus `"`, quotes kept. An index is `[` digits `]`.
- Indexing, range slicing, `iter` and `into_iter` on a lookup are Dafny's own sequence operations on `seq<Segment>`. `ComplexParses` fixes the nine segments they act on.
- The lookup fixture directory walk and the serde round trip of lookups (src/event/lookup/lookup_view/test.rs:163-215): file I/O and a serialisation library.
- The `Serialize` implementation of `FieldsIter` (src/event/util/log/all_fields.rs:117-124): library serialisation.
- Machine integer widths: indices and counters are unbounded.
- The metric_to_log tests are restated field by field for the counter and the gauge (src/transforms/metric_to_log.rs:140-196). That `pairs(true)` lists exactly those pairs, in that order, is not restated: the model has no flattening of a log into dotted pairs.
- The set, distribution, histogram and summary tests of metric_to_log (src/transforms/metric_to_log.rs:198-384) are not restated. Their serialised shapes (sorted value lists, buckets, quantiles, float statistics) come from the metric serialiser, which is not part of this model; the general lemmas `RewriteKeepsFields`, `RewriteTimestamp`, `RewriteHost` and `RewriteTags` cover them as they cover any object.
- The reduce tests are restated in two layers. `EndsWhenStream`, `OneBucketStream` and `TwoBucketStream` derive, from the functions that specify `TransformOne`, which events share a bucket and which event flushes it. The per-bucket lemmas (`CounterBucketOne`, `CounterBucketTwo` and the rest) then state what any flush of that bucket holds. The streams assume all events arrive within the expiry window, so no stale flush interleaves; the tests' own timing is not modelled.
