# Frick, verified

A Dafny model of the parts of Frick that decide whether data keeps its meaning: the schema
linter, the schema validator and the packed-record codec; the canonical form of dynamic values and
the frames that carry them; client/server compatibility; the multi-app registry; the registration
lock; the request path of a stream read; and the reaction log.

`dafny verify dfyconfig.toml` checks everything.

## How it is laid out

| file | models |
|---|---|
| `Text`, `Sorting`, `Values` | strings by UTF-16 code unit, `sort_by` as the only possible stable sort, `stable_value` |
| `Schemas`, `Validation`, `ValidationErrors` | the schema tree, its lookups, `validate_schema` and what its errors say, `blob_ref_fields` |
| `Lint`, `LintRules`, `Findings` | the breaking-change linter loop by loop, what a clean comparison means, and when each finding is reported |
| `Assignments`, `Codec` | insertion-ordered maps under assignment, and `pack_*` / `unpack_*` |
| `Evolution`, `Composition`, `Handshake` | the linter, the validator, the codec and the handshake together, over whole histories |
| `WireTypes`, `Payloads`, `Frames` | serde's view of typed payloads as value trees, the payload types, frames |
| `Apps` | routing by longest base path, storage partitioned by app |
| `RegLock` | the lock store, the login gate, backoff over runs |
| `StreamPath`, `Reactions` | percent-encoded paths that can be read back, the reaction fold |

Loops over mutable state stay loops: the linter appends to a `Log` object, the lock store is a
class over a map of rows, validators and `blob_ref_fields` loop over growing sets and lists. Each is
proved against a specification function or a declarative predicate, and the theorems are about
those.

## Main results

- **Evolution.** Along any chain of validated schemas without a breaking finding between
  neighbours, a writer on one revision and a reader on another agree on every record that the older
  of the two can express: the reader sees the writer's input with keys as text and repeated keys
  materialised, whichever two revisions they run (`AnyWriterAnyReader`). This holds although the
  linter's own relation is not transitive (`LintIsNotTransitive`): the ends of such a chain compare
  clean exactly when no enum value was inserted between them (`EndsCompareExactly`).
- **Linter.** A finding is reported exactly when the two schemas differ in the way it says, at the
  place it says, for every rule, all eight collections and any two schemas (`FindingsExactly`). With
  unique ids, zero breaking findings is exactly a declarative evolution relation (`LintExact`); a
  schema compared with itself yields nothing at all (`SelfComparisonIsSilent`).
- **Validator.** It passes exactly the well-formed schemas and otherwise reports the first error
  (`ValidateSchema`), which is true of the definition it names (`ErrorIsTrue`).
- **Canonical form.** It is a reordering of the value whose keys ascend by UTF-16 code unit at every
  depth, and the only one wherever ties leave no choice (`CanonicalCharacterised`). Every reordering of a
  value has its canonical form exactly when entries whose keys compare equal agree, as they do when all
  keys are distinct text (`CanonicalExactly`), because UTF-16 order is a strict total order. Distinct keys that are no text do not suffice
  (`IntegerKeysTie`).
- **Frames.** Every frame comes back from its encoding however its structs are reordered and
  whatever unknown entries are added at any depth, unchanged exactly when no optional field holds an
  explicit nil (`FrameRoundTrip`).
- **Registry.** The first match in resolve order is the unique longest segment-boundary match, and
  registration order never matters (`ResolveByPath`, `RoutingIgnoresOrder`). Stored indexes are
  partitioned by app exactly when no app id is another followed by the separator
  (`PartitionedExactly`).
- **Registration lock.** After every run, a login is admitted exactly when no enabling stands, the
  window has passed since the last enabling, touch or passing login, or the standing verifier comes
  after the wait (`AdmittedExactly`). Over every run, the n-th wrong verifier since a reset comes at least
  2^(n-3) - 1 seconds after the third, and 4095 + 3600(n-15) seconds once n passes 15
  (`BackoffBound`); the advertised wait is exact (`RetryAfterIsExact`).
- **Paths and reactions.** A stream path determines the request (`PathInjective`); the reaction
  aggregate is what the log last said, in order (`AggregateReactions`).

## Where the code and its documentation differ

The model follows the code.

- The linter's comment on enums says mid-list insertions matter because they shift ordinals
  (`crates/frick-schema/src/lint.rs:681-683`), but reordering existing values shifts ordinals too and
  is not reported: `EnumEvolutionIsNotTransitive`, with the exact condition in `EnumComposesExactly`.
  Nor is it counted how often a value occurs: `RepetitionsAreNotCounted`, `AlwaysPermutedExactly`.
- The lock's header says the window is refreshed by password logins that pass the gate and by the
  management routes (`crates/frick-server/src/auth_reglock.rs:16-23`). An admitted login refreshes it
  exactly when the lock was enabled and not lapsed (`LoginRefreshesExactly`), and of the management
  routes only `enable` does (`ManagementRefreshes`); so a lapsed lock stays lapsed under every run of
  logins, `disable` and `status` (`LapsedStaysLapsed`).
- Reacting users are documented as being in first-add order (`apps/web/src/demo-realtime.tsx:31`); a
  retraction loses the place, so the order is that of the first add since the last retraction
  (`RetractionLosesThePlace`). The two agree for a user exactly when they never took the reaction back
  (`KeepsFirstPlaceExactly`).

Things the documentation does not mention:

- An optional untyped field that holds an explicit nil comes back from the wire absent:
  `NilDetailsAreDropped`.
- Validation accepts a schema whose own revision is below its own `minimumClientRevision`, so a
  client built from it is rejected by a server running it: `ValidSchemasMayRejectThemselves`; the exact
  condition is `SelfCompatibleExactly`.
- `scoped_index_name` takes it that index names never contain the separator
  (`crates/frick-server/src/apps.rs:281-290`), which nothing in the registry enforces. With it stored
  names are injective (`ScopedNamesInjective`); without it two registered apps can share a stored index
  (`RegisteredAppsMayCollide`), and the exact condition on the app ids is `PartitionedExactly`.

## Modelling choices

- Lower-casing and verifier hashing are parameters (`lower`, `hash`): nothing proved depends on
  what they compute.
- Integers are unbounded except where the code saturates or wraps; there 64-bit arithmetic is
  written out (`RegLock.Saturate`, `RegLock.Wrap`). Results about the lock take clock readings from the epoch to an
  hour before 64-bit overflow, and a login at the very last reading only with a window that fits 64 bits.
- A `Value` string is its text, or raw bytes when those are not UTF-8. Floats are their bits.
- A lint finding carries severity, rule and path; its message is left out.
- Each gate call, and each store call, is one atomic step.

## Model

| member | source | states |
|---|---|---|
| `Text.Utf16RoundTrip` | crates/frick-protocol/src/value.rs:50-54 | UTF-16 encoding is undone by decoding, so it is injective on strings |
| `Text.Less16StrictTotalOrder` | crates/frick-protocol/src/value.rs:50-54 | the key comparator is a strict total order: distinct strings never compare equal |
| `Text.OrdersAgreeExactly` | crates/frick-protocol/src/value.rs:37-39 | code-unit order and plain order agree on two strings exactly when they do not first differ in a supplementary character facing one of U+E000 to U+FFFF |
| `Text.SupplementarySortsFirst` | crates/frick-protocol/src/value.rs:37-39 | a pair of keys that the two orders arrange differently |
| `Text.NatTextRoundTrip` | crates/frick-mcp/src/server.rs:223-223 | a printed number reads back |
| `Text.IntTextIsDecimal` | crates/frick-protocol/src/codec.rs:183-209 | a printed integer is the one decimal numeral of its value: an optional minus sign, digits without a leading zero |
| `Sorting.SortIsStable` | crates/frick-protocol/src/value.rs:50-54 | the reference sort is in order, a permutation, and keeps equal elements in their order |
| `Sorting.StableSortUnique` | crates/frick-protocol/src/value.rs:50-54 | a stable sort has one possible result, so the reference sort is the library's |
| `Sorting.SortIgnoresOrder` | crates/frick-protocol/src/value.rs:50-54 | when only equal elements compare equal, every starting order sorts to the same list |
| `Values.CanonicalExactly` | crates/frick-protocol/src/value.rs:41-58 | every reordering of a value has its canonical form exactly when, at every depth, entries whose keys compare equal have one canonical form |
| `Values.CanonicalForm` | crates/frick-protocol/src/value.rs:41-58 | on such values, equal canonical forms exactly when the values differ by recursive reordering |
| `Values.TextKeysAgree` | crates/frick-protocol/src/value.rs:35-40 | values whose maps all have distinct text keys are such values |
| `Values.EqualStableReordered` | crates/frick-protocol/src/value.rs:41-58 | equal canonical forms imply reordering, with no condition at all |
| `Values.TiedEntriesKeepTheirOrder` | crates/frick-protocol/src/value.rs:50-54 | swapping any two entries that tie and differ, in a map of any size, changes the canonical form |
| `Values.IntegerKeysTie` | crates/frick-protocol/src/value.rs:51-52 | distinct integer keys tie: two maps that differ by a swap and in their canonical forms |
| `Values.StableIdempotent` | crates/frick-protocol/src/value.rs:41-58 | canonicalising twice is canonicalising once |
| `Values.StableAscends` | crates/frick-protocol/src/value.rs:41-58 | at every depth the keys of the canonical form ascend: text keys by UTF-16 code unit, with every other key as the empty text |
| `Values.AscendingStays` | crates/frick-protocol/src/value.rs:41-58 | a value whose keys already ascend is its own canonical form |
| `Values.CanonicalCharacterised` | crates/frick-protocol/src/value.rs:41-58 | the canonical form is a reordering with ascending keys; where tied entries agree it is the only one |
| `Schemas.LookupsFindFirst` | crates/frick-protocol/src/schema.rs:551-573 | lookups return the first definition with the id or name |
| `Schemas.LookupsInverse` | crates/frick-protocol/src/schema.rs:440-516 | on unique definitions, lookup by id and by name are inverse and find exactly the declared ones |
| `Validation.ValidateSchema` | crates/frick-protocol/src/schema.rs:209-317 | passes exactly the well-formed schemas; any other gets the first error in checking order |
| `Validation.ValidationExact` | crates/frick-protocol/src/schema.rs:209-317 | the verdict is empty exactly on well-formed schemas: unique ids and case-folded names, closed references, declared enums, known sensitivities, sound identity |
| `Validation.FirstIsEarliest` | crates/frick-protocol/src/schema.rs:352-416 | a reported error belongs to the earliest failing element |
| `Validation.ValidateTypeSet` | crates/frick-protocol/src/schema.rs:352-365 | the loop over seen ids and names reports the first repetition |
| `Validation.TypeSetExact` | crates/frick-protocol/src/schema.rs:352-365 | it passes exactly when ids and lower-cased names are unique |
| `Validation.ValidateFields` | crates/frick-protocol/src/schema.rs:367-416 | the loop over fields reports the first defect |
| `Validation.FieldsExact` | crates/frick-protocol/src/schema.rs:367-416 | it passes exactly the well-formed field lists |
| `Validation.ValidateFieldBody` | crates/frick-protocol/src/schema.rs:385-413 | references, enum values and sensitivity are checked in that order |
| `Validation.ValidateIndexes` | crates/frick-protocol/src/schema.rs:418-436 | repeated indexes first, then the first indexed name that is no field |
| `Validation.IndexesExact` | crates/frick-protocol/src/schema.rs:418-436 | it passes exactly when indexes are unique and name declared fields |
| `Validation.ValidateTypeSets` | crates/frick-protocol/src/schema.rs:224-249 | the eight collections are checked in order |
| `Validation.ValidateMembers` | crates/frick-protocol/src/schema.rs:251-316 | the members of every definition are checked in order |
| `Validation.ValidateObjects` | crates/frick-protocol/src/schema.rs:260-263 | the first object with a bad field or index, and its first error |
| `Validation.ValidateStreams` | crates/frick-protocol/src/schema.rs:265-275 | the first stream with a bad key field or an undeclared event |
| `Validation.ValidatePlain` | crates/frick-protocol/src/schema.rs:277-301 | the first event, blob or job with a bad field |
| `Validation.ValidateKeyed` | crates/frick-protocol/src/schema.rs:281-293 | the first presence or signal with a bad key field or field |
| `Validation.ValidateProjections` | crates/frick-protocol/src/schema.rs:303-314 | the first projection with an unknown source, a bad field or index |
| `Validation.TypeSetsExact` | crates/frick-protocol/src/schema.rs:224-249 | no error exactly when all eight collections are unique |
| `Validation.MembersExact` | crates/frick-protocol/src/schema.rs:251-316 | no error exactly when every definition's members are well formed |
| `Validation.BlobRefFields` | crates/frick-protocol/src/schema.rs:530-549 | lists every declared blob reference in declaration order, once |
| `Validation.PositionsComplete` | crates/frick-protocol/src/schema.rs:530-549 | the positions listed are exactly those of blob references, strictly increasing |
| `Validation.EveryRefIsAccountedFor` | crates/frick-protocol/src/schema.rs:530-549 | in a valid schema a non-empty reference is a listed blob reference or names an object |
| `Validation.BlobRefsDistinct` | crates/frick-protocol/src/schema.rs:530-549 | distinct positions give distinct references |
| `Validation.BlobRefsExactly` | crates/frick-protocol/src/schema.rs:530-549 | a field is listed exactly when it is a reference that names a declared blob |
| `ValidationErrors.ErrorIsTrue` | crates/frick-protocol/src/schema.rs:209-436 | a reported error names a defect the schema has, in the definition it names: the repeated id, the dangling reference, the empty enum, the unknown source |
| `ValidationErrors.TypeSetTells` | crates/frick-protocol/src/schema.rs:352-365 | a reported repetition is an id or a lower-cased name that two definitions share |
| `ValidationErrors.FieldsTell` | crates/frick-protocol/src/schema.rs:367-416 | a reported field has the defect, under the reported owner |
| `ValidationErrors.IndexesTell` | crates/frick-protocol/src/schema.rs:418-436 | a reported index repeats, or holds a name that no field has |
| `Lint.TableById` | crates/frick-schema/src/lint.rs:317-319 | the id table holds, for each id, the last definition that has it |
| `Lint.LastByIdIsLast` | crates/frick-schema/src/lint.rs:317-319 | that is the definition after which no other has the id |
| `Lint.DiffTypeSet` | crates/frick-schema/src/lint.rs:310-359 | appends removals, then additions, then renames, each in list order |
| `Lint.DiffFields` | crates/frick-schema/src/lint.rs:545-653 | appends removed, added, then changed fields |
| `Lint.DiffPair` | crates/frick-schema/src/lint.rs:589-652 | appends what changed between two fields with one id, in rule order |
| `Lint.DiffEnumValues` | crates/frick-schema/src/lint.rs:655-709 | appends removed values, then new ones |
| `Lint.ReportEnumAdded` | crates/frick-schema/src/lint.rs:681-708 | the moving cursor classifies a new value as trailing exactly when its index is at least the previous length |
| `Lint.DiffIndexes` | crates/frick-schema/src/lint.rs:711-728 | appends indexes whose id is gone |
| `Lint.DedupPreservingOrder` | crates/frick-schema/src/lint.rs:783-791 | keeps the first occurrence of each value |
| `Lint.DedupKeepsFirst` | crates/frick-schema/src/lint.rs:783-791 | each value once, in the order of first occurrences |
| `Lint.DiffEvents` | crates/frick-schema/src/lint.rs:414-437 | appends stream events removed and added, each name once |
| `Lint.DiffObjects` | crates/frick-schema/src/lint.rs:369-387 | diffs fields and indexes of objects paired by first equal id |
| `Lint.DiffStreams` | crates/frick-schema/src/lint.rs:403-439 | diffs key fields and event names of paired streams |
| `Lint.DiffKeyed` | crates/frick-schema/src/lint.rs:441-483 | diffs key fields and fields of paired presences or signals |
| `Lint.DiffPlain` | crates/frick-schema/src/lint.rs:485-506 | diffs the fields of paired events, blobs or jobs |
| `Lint.DiffProjections` | crates/frick-schema/src/lint.rs:508-541 | diffs source, fields and indexes of paired projections |
| `Lint.DiffIdentity` | crates/frick-schema/src/lint.rs:206-241 | appends a changed id, a lowered revision, a raised minimum |
| `Lint.DiffTypeSets` | crates/frick-schema/src/lint.rs:243-292 | diffs the eight collections in order |
| `Lint.DiffMembers` | crates/frick-schema/src/lint.rs:294-303 | diffs the kept definitions of the eight collections in order |
| `Lint.LintSchemaChange` | crates/frick-schema/src/lint.rs:203-306 | returns all findings in order, and as the breaking count the number of positions that hold a breaking one |
| `Findings.FindingsExactly` | crates/frick-schema/src/lint.rs:203-306 | any finding is among those of any two schemas exactly when they differ in the way it says, at the path it gives, over every rule and all eight collections |
| `Findings.ObjectRemovedExactly` | crates/frick-schema/src/lint.rs:310-335 | `object.removed` at `objects[n]` is reported exactly when an object named `n` lost its id |
| `Findings.TypeFindingsExactly` | crates/frick-schema/src/lint.rs:310-359 | removed, added and renamed: an id gone, an id new, an id under another name |
| `Findings.FieldFindingsExactly` | crates/frick-schema/src/lint.rs:545-653 | removed, added as required or optional, and changed fields, each exactly when so |
| `Findings.PairFindingsExactly` | crates/frick-schema/src/lint.rs:589-652 | name, kind, flag either way, reference and enum values of two fields with one id |
| `Findings.EnumFindingsExactly` | crates/frick-schema/src/lint.rs:655-709 | a value gone; a new one at or past the previous length; a new one before it |
| `Findings.IndexFindingsExactly` | crates/frick-schema/src/lint.rs:711-728 | an index is reported exactly when its id is gone |
| `Findings.EventFindingsExactly` | crates/frick-schema/src/lint.rs:414-437 | a stream event is reported exactly when its name is gone or new |
| `Findings.IdentityFindingsExactly` | crates/frick-schema/src/lint.rs:206-241 | a changed id, a lowered revision, a raised minimum, each exactly when so |
| `Findings.CollectionFindingsExactly` | crates/frick-schema/src/lint.rs:243-292 | the definitions of all eight collections |
| `Findings.MemberFindingsExactly` | crates/frick-schema/src/lint.rs:294-303 | the members of definitions paired by first equal id, in all eight collections |
| `LintRules.LintExact` | crates/frick-schema/src/lint.rs:203-306 | with unique ids, no breaking finding exactly when every definition keeps id and name with an evolved body, the schema id is kept and the revision does not fall |
| `LintRules.SelfComparisonIsSilent` | crates/frick-schema/src/lint.rs:203-306 | a schema against itself yields no finding |
| `LintRules.TypesExact` | crates/frick-schema/src/lint.rs:310-367 | last-wins tables and first-match pairing together are clean exactly when the collection evolved |
| `LintRules.FieldsExact` | crates/frick-schema/src/lint.rs:545-653 | a field diff is clean exactly when fields are kept, pairwise equal in name, kind, flag and reference, and no new field is required |
| `LintRules.PairExact` | crates/frick-schema/src/lint.rs:589-652 | a kept field is clean exactly when name and body evolved |
| `LintRules.EnumExact` | crates/frick-schema/src/lint.rs:655-709 | an enum diff is clean exactly when nothing was dropped and nothing new sits among the first entries |
| `LintRules.EnumEvolvesIsPermutation` | crates/frick-schema/src/lint.rs:655-709 | in a new list without repetitions: clean exactly when its first entries are a permutation of the old list |
| `LintRules.AlwaysPermutedExactly` | crates/frick-schema/src/lint.rs:655-709 | every clean predecessor of a list is a permutation of its first entries exactly when the list has no repetition, or nothing but one value |
| `LintRules.RepetitionsAreNotCounted` | crates/frick-schema/src/lint.rs:655-709 | a clean pair of lists in which values occur differently often |
| `LintRules.EnumEvolutionIsNotTransitive` | crates/frick-schema/src/lint.rs:681-708 | two clean steps whose composition inserts |
| `Composition.EnumComposesExactly` | crates/frick-schema/src/lint.rs:681-708 | two clean steps of a list compose exactly when no value is inserted between their ends |
| `LintRules.IndexesExact` | crates/frick-schema/src/lint.rs:711-728 | clean exactly when every index id is kept |
| `LintRules.EventsExact` | crates/frick-schema/src/lint.rs:414-437 | clean exactly when every event name is kept |
| `LintRules.ProjectionsExact` | crates/frick-schema/src/lint.rs:508-541 | clean exactly when projections keep their source, fields and indexes |
| `LintRules.ObjectsExact` | crates/frick-schema/src/lint.rs:369-387 | clean exactly when objects keep id and name, fields and indexes |
| `LintRules.StreamsExact` | crates/frick-schema/src/lint.rs:403-439 | clean exactly when streams keep id and name, key fields and events |
| `LintRules.KeyedExact` | crates/frick-schema/src/lint.rs:441-483 | clean exactly when presences or signals keep id and name, key fields and fields |
| `LintRules.PlainExact` | crates/frick-schema/src/lint.rs:485-506 | clean exactly when events, blobs or jobs keep id and name, and fields |
| `LintRules.IdentityExact` | crates/frick-schema/src/lint.rs:206-241 | clean exactly when the schema id is kept and the revision does not fall |
| `LintRules.CountZeroIsClean` | crates/frick-schema/src/lint.rs:138-147 | the count is zero exactly when no finding is breaking |
| `Assignments.PutAllMaterialises` | crates/frick-protocol/src/codec.rs:222-238 | replaying assignments keeps each key's first position and last value |
| `Assignments.MaterialisedUnique` | crates/frick-protocol/src/codec.rs:222-238 | that description admits one map only |
| `Codec.UnpackFieldsInto` | crates/frick-protocol/src/codec.rs:222-238 | the overwrite-or-push loop names every pair and replays it onto the base, or stops at the first unknown id |
| `Codec.NameFieldsAligned` | crates/frick-protocol/src/codec.rs:222-238 | naming packed pairs succeeds exactly when ids and names belong to one declared field pair by pair |
| `Codec.NamingFailsFirst` | crates/frick-protocol/src/codec.rs:222-238 | unpacking stops at the first id that no field has, and names it |
| `Codec.PackSucceeds` | crates/frick-protocol/src/codec.rs:183-209 | packing succeeds exactly on scalars and on maps all of whose keys name declared fields, and then lines up with the input |
| `Codec.KeyNameExactly` | crates/frick-protocol/src/codec.rs:183-209 | a text key names its text, an integer key its decimal numeral, any other key nothing |
| `Codec.NumeralKeysPackAlike` | crates/frick-protocol/src/codec.rs:183-209 | writing an integer key as its numeral changes nothing |
| `Codec.PackFailsFirst` | crates/frick-protocol/src/codec.rs:183-209 | a map fails at its first entry that names no field; nil, text, bytes, arrays and extensions are no objects |
| `Codec.PackedObjectIs` | crates/frick-protocol/src/codec.rs:64-76 | a packed object is the id of the object of that name, the record id and the packed fields |
| `Codec.PackedKeyedIs` | crates/frick-protocol/src/codec.rs:124-162 | the same for presences and signals |
| `Codec.PackedEventIs` | crates/frick-protocol/src/codec.rs:92-106 | and for stream events, with stream, sequence and event id in place |
| `Codec.FieldsRoundTrip` | crates/frick-protocol/src/codec.rs:183-238 | unpacking what was packed replays the input's assignments |
| `Codec.MaterialiseMeaning` | crates/frick-protocol/src/codec.rs:211-238 | what a reader sees: base keys first, each key at its first position with its last value |
| `Codec.IdSlot` | crates/frick-protocol/src/codec.rs:80-90 | an object shows `id` first, a declared `id` overwrites that slot, and there is no second one |
| `Codec.PlainMapsSurvive` | crates/frick-protocol/src/codec.rs:183-238 | maps with distinct text keys come back unchanged |
| `Codec.ReverseRoundTrip` | crates/frick-protocol/src/codec.rs:183-238 | packing what was unpacked collapses repeated ids to first position and last value |
| `Codec.ObjectRoundTrip` | crates/frick-protocol/src/codec.rs:64-90 | an object comes back under its name and id with its fields as assigned |
| `Codec.KeyedRoundTrip` | crates/frick-protocol/src/codec.rs:124-174 | a presence or signal comes back under its name and key |
| `Codec.StreamEventRoundTrip` | crates/frick-protocol/src/codec.rs:92-122 | a stream event comes back with its stream, sequence and ids |
| `Codec.KeyedReverse` | crates/frick-protocol/src/codec.rs:124-174 | pack after unpack is the identity on distinct ids and collapses repeated ones |
| `Codec.StreamEventReverse` | crates/frick-protocol/src/codec.rs:92-122 | the same for stream events |
| `Evolution.ObjectsKeepReaders` | crates/frick-protocol/src/codec.rs:80-90 | evolved objects: whatever unpacked before unpacks to the same record |
| `Evolution.ObjectsKeepWriters` | crates/frick-protocol/src/codec.rs:64-76 | evolved objects: whatever packed before packs to the same tuple |
| `Evolution.KeyedKeepReaders` | crates/frick-protocol/src/codec.rs:138-174 | the same for presences and signals read |
| `Evolution.KeyedKeepWriters` | crates/frick-protocol/src/codec.rs:124-162 | and written |
| `Evolution.EventsKeepReaders` | crates/frick-protocol/src/codec.rs:108-122 | the same for stream events read |
| `Evolution.EventsKeepWriters` | crates/frick-protocol/src/codec.rs:92-106 | and written |
| `Evolution.ReadersKeepWorking` | crates/frick-schema/src/lint.rs:203-306 | between validated schemas with no breaking finding, whatever unpacked before unpacks to the same result |
| `Evolution.WritersKeepWorking` | crates/frick-schema/src/lint.rs:203-306 | and whatever packed before packs to the same tuple |
| `Evolution.HistoryKeepsReaders` | crates/frick-protocol/src/codec.rs:80-238 | the same across any number of revisions, for readers |
| `Evolution.HistoryKeepsWriters` | crates/frick-protocol/src/codec.rs:64-209 | and for writers |
| `Evolution.RoundTrip` | crates/frick-protocol/src/codec.rs:64-238 | under a validated schema a reader sees exactly the delivered content |
| `Evolution.AnyWriterAnyReader` | crates/frick-protocol/src/codec.rs:64-238 | a writer and a reader on any two revisions of a clean history agree |
| `Composition.HistoryKeepsFields` | crates/frick-schema/src/lint.rs:545-709 | a field once declared, in any of the eight collections and in keys, keeps id, name, kind, flag, target and enum values along a clean history, under a definition of the same name |
| `Composition.HistoryKeeps` | crates/frick-schema/src/lint.rs:203-306 | a clean history keeps every definition, field, enum value, index, stream event and projection source |
| `Composition.EndsCompareExactly` | crates/frick-schema/src/lint.rs:203-306 | the ends of a clean history compare clean exactly when no enum value was inserted between them, anywhere in the schema |
| `Composition.EvolvesIsKeepingWithoutInsertion` | crates/frick-schema/src/lint.rs:655-709 | evolution is keeping everything and inserting no enum value |
| `Composition.KeepingComposes` | crates/frick-schema/src/lint.rs:545-709 | keeping everything is transitive |
| `Evolution.LintIsNotTransitive` | crates/frick-schema/src/lint.rs:655-709 | a clean history of three validated schemas whose ends do not compare clean |
| `Evolution.BreakingEndsStillRead` | crates/frick-schema/src/lint.rs:655-709 | across that history a record is still read as written |
| `Handshake.ReasonMeaning` | crates/frick-protocol/src/compatibility.rs:38-101 | compatible for two reasons only; which side has to move for each of the others |
| `Handshake.FirstReasonWins` | crates/frick-protocol/src/compatibility.rs:38-101 | of the reasons that apply the first is given: schema id, client too old, server too old, hash; only the first three refuse, and both revisions are reported as they are |
| `Handshake.SelfCompatibleExactly` | crates/frick-protocol/src/compatibility.rs:38-101 | a schema accepts itself exactly when its revision meets both of its minimums |
| `Handshake.ValidSchemasMayRejectThemselves` | crates/frick-protocol/src/schema.rs:325-350 | every valid schema has a valid sibling that rejects itself |
| `Handshake.StepKeepsClients` | crates/frick-protocol/src/compatibility.rs:38-101 | a revision keeps every accepted client exactly when the minimum was not raised |
| `Handshake.RaiseIsReported` | crates/frick-schema/src/lint.rs:230-241 | a raised minimum always shows among the findings |
| `Handshake.HistoryKeepsClients` | crates/frick-protocol/src/compatibility.rs:38-101 | along revisions with no breaking finding and no raised minimum, an accepted client stays accepted |
| `WireTypes.DecodeEncode` | crates/frick-protocol/src/value.rs:26-33 | decoding an encoded payload gives it back with explicit optional nils made absent |
| `WireTypes.RoundTrip` | crates/frick-protocol/src/frame.rs:105-318 | it comes back unchanged exactly when no optional field holds an explicit nil |
| `WireTypes.DecodeSound` | crates/frick-protocol/src/frame.rs:105-318 | whatever decodes is well typed and holds no optional nil |
| `WireTypes.ReadWriteRead` | crates/frick-protocol/src/frame.rs:105-318 | re-encoding what was decoded and decoding it again changes nothing |
| `WireTypes.DecodeTolerant` | crates/frick-protocol/src/frame.rs:487-492 | reordered struct entries and unknown entries at any depth never change what is decoded, nor whether it decodes |
| `WireTypes.CanonicalIsVariant` | crates/frick-protocol/src/value.rs:41-58 | the canonical form of a fully typed payload is one of the tolerated variants |
| `Payloads.KindOf` | crates/frick-protocol/src/frame.rs:57-92 | exactly 0 to 22 are kinds, and each number names the kind that has it |
| `Payloads.KindsInOrder` | crates/frick-protocol/src/frame.rs:57-92 | kinds are numbered from zero in declaration order, and no other number is a kind |
| `Payloads.SchemaTyped` | crates/frick-protocol/src/schema.rs:60-199 | a schema payload holds nothing untyped |
| `Frames.KindRoundTrip` | crates/frick-protocol/src/frame.rs:348-378 | every kind is recovered from its number |
| `Frames.FrameRoundTrip` | crates/frick-protocol/src/frame.rs:380-474 | a frame survives the wire in every variant, unchanged exactly when no optional field holds an explicit nil |
| `Frames.FrameReadWriteRead` | crates/frick-protocol/src/frame.rs:380-474 | a decoded frame is well typed and re-encoding loses nothing |
| `Frames.FrameEncodingInjective` | crates/frick-protocol/src/frame.rs:380-416 | such frames have distinct encodings |
| `Frames.FrickFrames` | crates/frick-protocol/src/frame.rs:380-474 | the protocol's own frames come back; the keys of schema frames ascend at every depth |
| `Frames.PingFrame` | crates/frick-protocol/src/frame.rs:380-416 | the tree of a ping: kind 15 and `sentAt` |
| `Frames.PongFrame` | crates/frick-protocol/src/frame.rs:380-416 | the tree of a pong: kind 16, `sentAt` and `receivedAt`, in that order |
| `Frames.AckFrame` | crates/frick-protocol/src/frame.rs:380-416 | the tree of an ack: kind 6, `requestId`, and `cursor` and `version` only where present |
| `Frames.NilDetailsAreDropped` | crates/frick-protocol/src/errors.rs:36-50 | an error envelope whose `details` is nil does not come back as sent |
| `Apps.NewRegistry` | crates/frick-server/src/apps.rs:150-188 | builds exactly from acceptable apps, longest base path first, and otherwise names the first offender |
| `Apps.SortedIndices` | crates/frick-server/src/apps.rs:178-187 | the sorted index lists every app once, longest base path first |
| `Apps.ResolveByPath` | crates/frick-server/src/apps.rs:241-267 | finds the app with the longest segment-boundary match and the rest of the path, or nothing exactly when nothing matches |
| `Apps.RoutingIgnoresOrder` | crates/frick-server/src/apps.rs:241-267 | any permutation of the apps routes every path the same way, to one app only |
| `Apps.ScopedNamesInjective` | crates/frick-server/src/apps.rs:292-298 | on a multi-app server app id and index name are both recovered from the stored name, if index names avoid the separator |
| `Apps.SharedNameExactly` | crates/frick-server/src/apps.rs:292-298 | two stored names are equal exactly when both parts are, or one app id is the other, the separator and the start of the other's index name |
| `Apps.PartitionedExactly` | crates/frick-server/src/apps.rs:292-298 | on a built multi-app registry no two apps ever share a stored index exactly when no app id is another followed by the separator |
| `Apps.RegisteredAppsMayCollide` | crates/frick-server/src/apps.rs:150-188 | registration accepts two apps that do share one |
| `Apps.RoutedAppsNeverShareAnIndex` | crates/frick-server/src/apps.rs:241-298 | requests routed to different apps never share a stored index |
| `Apps.SingleAppIsUnscoped` | crates/frick-server/src/apps.rs:274-298 | a single-app server stores raw names under the default app |
| `RegLock.SecondsUntilIsLeast` | crates/frick-server/src/auth_reglock.rs:353-357 | the least whole number of seconds that reaches the deadline |
| `RegLock.LockoutWaitSeconds` | crates/frick-store/src/stores/reglock.rs:39-49 | between 0 and an hour, and 0 exactly below the threshold |
| `RegLock.LockStore.constructor` | crates/frick-store/src/stores/reglock.rs:78-80 | a store starts without rows |
| `RegLock.LockStore.Enable` | crates/frick-store/src/stores/reglock.rs:85-120 | stores a fresh, enabled row with counters reset and changes no other |
| `RegLock.LockStore.Disable` | crates/frick-store/src/stores/reglock.rs:124-144 | resets and disables an enabled row, says whether it did, and changes no other |
| `RegLock.LockStore.Verify` | crates/frick-store/src/stores/reglock.rs:167-180 | true exactly when there is a row with this verifier's hash |
| `RegLock.LockStore.RegisterFailure` | crates/frick-store/src/stores/reglock.rs:185-216 | counts the failure, sets the lockout, returns the row |
| `RegLock.LockStore.RegisterSuccess` | crates/frick-store/src/stores/reglock.rs:221-242 | resets counters and stamps activity |
| `RegLock.LockStore.TouchActivity` | crates/frick-store/src/stores/reglock.rs:247-261 | stamps activity only |
| `RegLock.LockStore.Status` | crates/frick-server/src/auth_reglock.rs:167-192 | says whether the lock is enabled and changes nothing |
| `RegLock.LockStore.CheckRegistrationLock` | crates/frick-server/src/auth_reglock.rs:209-305 | answers this user and moves their row as the gate that `AdmittedExactly`, `RefusedExactly` and `FailuresExactly` describe, and touches no other row |
| `RegLock.AdmittedExactly` | crates/frick-server/src/auth_reglock.rs:209-305 | after any run, a login is admitted exactly when no enabling stands, the full window has passed since the last enabling, touch or passing login, or its verifier is the standing one and the last failure's wait is over |
| `RegLock.EveryRunIsStamped` | crates/frick-server/src/auth_reglock.rs:229-320 | over every run the row's activity is the last enabling, touch or passing login |
| `RegLock.LapsedInNumbers` | crates/frick-server/src/auth_reglock.rs:229-241 | the window has lapsed exactly when that many seconds have passed; 64-bit saturation never shows |
| `RegLock.NoVerifierNoEntry` | crates/frick-server/src/auth_reglock.rs:229-270 | while a lock stands and its window is open, nobody is admitted without a verifier |
| `RegLock.RefusedExactly` | crates/frick-server/src/auth_reglock.rs:244-305 | which refusal: the wait first, then a missing verifier, then a wrong one, with the standing salt and the failures so far |
| `RegLock.FailuresExactly` | crates/frick-server/src/auth_reglock.rs:272-305 | what counts as a failure: a wrong verifier that was looked at; the right one starts the count afresh |
| `RegLock.RowIsStanding` | crates/frick-store/src/stores/reglock.rs:85-144 | over every run the row is enabled exactly while an enabling stands, with that verifier's hash and salt |
| `RegLock.GateAdmits` | crates/frick-server/src/auth_reglock.rs:209-305 | the admitting cases on one row |
| `RegLock.StepKeepsRecords` | crates/frick-server/src/auth_reglock.rs:209-320 | every login, enable, disable and touch keeps the row in step with the failures since the last reset |
| `RegLock.EveryRunIsSpaced` | crates/frick-server/src/auth_reglock.rs:209-320 | over every run those failures are spaced by the lockouts |
| `RegLock.BackoffBound` | crates/frick-server/src/auth_reglock.rs:24-27 | the n-th failure since a reset is at least 2^(n-3)-1 seconds after the third, then 3600 more for each one past 15 |
| `RegLock.GuessesBeforeLapse` | crates/frick-server/src/auth_reglock.rs:229-305 | from a reset on, wrong verifiers evaluated before the window lapses all fit into it with their waits |
| `RegLock.WeekOfGuesses` | crates/frick-server/src/auth_reglock.rs:24-27 | with the default window of a week that is 181 at most, however long the run goes on without the right verifier, a touch or a reset |
| `RegLock.RetryAfterIsExact` | crates/frick-server/src/auth_reglock.rs:244-305 | in every reachable state the advertised wait is the least whole number of seconds that clears the lockout |
| `RegLock.WaitingAdmits` | crates/frick-server/src/auth_reglock.rs:244-282 | after waiting that long the right verifier is admitted |
| `RegLock.LoginRefreshesExactly` | crates/frick-server/src/auth_reglock.rs:229-282 | an admitted login refreshes the window exactly when the lock was enabled and not lapsed |
| `RegLock.ManagementRefreshes` | crates/frick-server/src/auth_reglock.rs:85-192 | of the other events, enabling and token refresh stamp activity; disabling and status do not |
| `RegLock.LapsedStaysLapsed` | crates/frick-server/src/auth_reglock.rs:229-241 | a lapsed row stays lapsed under every run without a touch or enabling, disabling included, and admits every login unchanged |
| `RegLock.UsersAreIndependent` | crates/frick-store/src/stores/reglock.rs:85-261 | however users' events interleave, each row depends on that user's events only |
| `StreamPath.UrlEncodeComponent` | crates/frick-mcp/src/server.rs:693-711 | the loop percent-encodes byte by byte |
| `StreamPath.DecodeEncode` | crates/frick-mcp/src/server.rs:693-711 | decoding undoes encoding on every byte string |
| `StreamPath.EncodeHasNoDelimiter` | crates/frick-mcp/src/server.rs:693-711 | no path or query delimiter is emitted |
| `StreamPath.EncodeByteExactly` | crates/frick-mcp/src/server.rs:693-711 | letters, digits and the nine marks stay, and nothing else; any other byte becomes a percent sign and two upper-case hexadecimal digits |
| `StreamPath.ClampIsNearest` | crates/frick-mcp/src/server.rs:221-221 | the limit sent is the one from 1 to 100 closest to what was asked for |
| `StreamPath.ClampMonotone` | crates/frick-mcp/src/server.rs:221-221 | a larger limit never becomes a smaller one |
| `StreamPath.PathText` | crates/frick-mcp/src/server.rs:221-233 | the text of the path, delimiter by delimiter, with the cursor only where there is one |
| `StreamPath.PathRoundTrip` | crates/frick-mcp/src/server.rs:221-233 | stream, key, clamped limit and cursor are read back from the path |
| `StreamPath.PathInjective` | crates/frick-mcp/src/server.rs:221-233 | two reads share a path exactly when they ask for the same thing |
| `Reactions.ApplyEvent` | apps/web/src/demo-realtime.tsx:234-245 | one event applied to the map of sets; `IsAddExactly` and `IsRetractExactly` say which events do something |
| `Reactions.IsAddExactly` | apps/web/src/demo-realtime.tsx:234-245 | an add is an event about this message by this user whose emoji is not empty and has no leading dash |
| `Reactions.IsRetractExactly` | apps/web/src/demo-realtime.tsx:234-245 | a retraction is the same with a dash before the emoji |
| `Reactions.OthersDoNotMatter` | apps/web/src/demo-realtime.tsx:234-245 | leaving out events about other messages and of other kinds changes nothing |
| `Reactions.AggregateReactions` | apps/web/src/demo-realtime.tsx:228-253 | a user is listed under an emoji exactly when their last add or retraction is an add; emoji and users appear once, users in order of their first add since their last retraction |
| `Reactions.SinceMeansLastIsAdd` | apps/web/src/demo-realtime.tsx:234-245 | the tracked add stands exactly when the last operation is an add |
| `Reactions.SinceIsAddedAt` | apps/web/src/demo-realtime.tsx:234-245 | the tracked index is the first add since the last retraction |
| `Reactions.ApplyRight` | apps/web/src/demo-realtime.tsx:234-245 | every event keeps the map of sets in step with the log |
| `Reactions.KeepsFirstPlaceExactly` | apps/web/src/demo-realtime.tsx:31-31 | a listed user stands for their first add ever exactly when they never took it back |
| `Reactions.FirstAddOrder` | apps/web/src/demo-realtime.tsx:31-31 | where nobody took a reaction back, users are in first-add order |
| `Reactions.RetractionLosesThePlace` | apps/web/src/demo-realtime.tsx:228-253 | a log whose first user to add is listed second |

## Left out

- MessagePack bytes: everything is about value trees; integer widths and string headers are not modelled.
- Other shapes serde accepts: struct maps keyed by integers or byte strings, structs sent as positional arrays, byte strings where text is expected. The model refuses them.
- Call frames: kinds 21 and 22 are there, their payload types are parameters (`crates/frick-protocol/src/calls.rs` adds tables only).
- Finding messages, and the single-schema lint (`lint_schema`), which repeats part of what validation decides.
- `Raises`: a finding is recognised by its rule name, not by its text.
- Error texts of the codec, the validator and the handshake; errors are constructors with their subjects.
- `find_by_schema_id`, `get` and `descriptors` of the registry, and `resolve_object_merge_policy`: plain lookups.
- Verifier hashing (SHA-256, constant-time comparison) and the KDF parameters of a challenge.
- Store failures, `updated_at`, and interleavings inside one gate call; a count of failures beyond 64 bits.
- Argument parsing of the stream tool (`string_arg`, `integer_arg`) and the HTTP request itself.
- Code generation, CLI, HTTP handlers, sessions, UI, and the capability and policy helpers: little to prove beyond concatenation and set membership.
