# Schema compatibility analysis of schema-evolution-monitor, in Dafny

schema-evolution-monitor keeps versions of the JSON schemas that services
publish, and warns when a new version breaks the old one. This project
models the parts of it that decide what "breaks" means. It proves what
they promise.

- **Registry comparator and registration** (`schema_registry.dfy`, module
  `RegistryService`). `compareSchemasForBreakingChanges` of the registry
  service compares the top-level `properties` and `required` of two schema
  documents. It emits `FIELD_REMOVED`, `FIELD_ADDED`, `TYPE_CHANGED` and
  `REQUIRED_ADDED` records. `SchemaRegistry.registerSchema` validates the
  four request fields, finds the latest stored version of the same
  (name, service), compares against it and stores the new row. The store
  is a `seq` of rows inside the `SchemaRegistry` class.
- **Shared change records** (`changes.dfy`, module `Changes`). This holds
  the change kinds, the fixed table of breaking kinds, the `changes` object
  (class `ChangeSet`) that a comparison appends to, and the summary built
  at the end.
- **Generic recursive diff** (`schema_diff.dfy`, module `SchemaDiff`). The
  second `compareSchemasForBreakingChanges` walks two raw JSON values key by
  key. It compares `typeof`, recurses into nested objects with dotted
  paths, and compares arrays by the `typeof` of their first elements.
  `generateHumanReadableDiff` renders the report as text.
- **Payload validator** (`validator.dfy`, `validator_facts.dfy`, modules
  `Validator` and `ValidatorFacts`). `validateDataAgainstSchema` walks a map
  of field constraints (`type`, `required`, `properties`, `items`, `enum`)
  and pushes errors into one shared list. The class `ErrorList` is that
  list; its methods are the loops of the source.
- **Test-local comparator** (`local_comparison.dfy`, module
  `LocalComparison`). The comparison test suite defines its own reduced
  `compareSchemas`: removed, added and newly-required fields, with no type
  check. The module models it, its three test scenarios, and how it
  relates to the registry comparator.
- **JSON values** (`json.dfy`, module `Json`). Parsed JSON is a datatype.
  An object's field list is in `Object.keys` order: integer-like keys
  first, in ascending order, then the others in insertion order. The module also gives the
  JavaScript operators the core uses: `typeof`, truthiness, `===`, property
  reads, `Object.keys`, `String(v)` and the `path ? path.key : key` join.

Each imperative operation is a method with loops or a class with
`modifies` clauses. Each is proved against a function that specifies its
result or its new state, such as `ensures changes.State() ==
RecordedAll(old(changes.State()), DiffObjects(oldObj, newObj, path))`. The
lemmas then state what the source promises about those functions.

A JavaScript throw is modelled explicitly wherever the core can throw on
its own inputs. In the validator a throw is a `Run` whose `threw` flag is
set, and `Validation` is `None`. Both schema comparators return `None`
when they throw: on a null document, on `key in props` when `props` is a
truthy non-object, on `.type` of a null or missing entry, on `forEach` of
a truthy non-array `required`, and on `includes` of an old `required`
that is neither an array nor a string (`ComparisonThrows`,
`LocalThrows`). The loop methods return a `threw` flag and keep what was
pushed before the throw. Registration turns a throwing comparison into
the `Err(ComparisonThrew)` result, since `registerSchema` rethrows.

## Where the code and the documentation disagree

The model follows the code in every case below.

- The comment above `compareObjects` says it compares object schemas
  recursively (`backend/src/services/schemaRegistry.js:27`). It never
  calls itself: it looks only at the top-level `properties` and
  `required`, so its records have bare-key paths
  (`RegistryService.RemovedFieldsMembers`, `RegistryService.ReportParts`).
- The generic diff compares `typeof` only. Changing the declared `type`
  of a field from `"string"` to `"number"` changes a string to a string,
  so it is not reported (`SchemaDiff.TypeValueRewriteUnreported`).
- In the generic diff, a swap from object to array produces no record.
  A swap from array to object does produce records: the code recurses
  into the pair, because it only checks that the new side is a non-array
  object (`SchemaDiff.SharedKeyOutcome`).
- `typeof null` is `"object"`. So the validator walks a `null` value whose
  rule declares `properties` as an object, and reading its first field
  throws. The model returns `None` for such a run
  (`ValidatorFacts.NullNestedThrows`). It does the same for an `enum`
  that is neither an array nor a string, and for a `null` constraint
  entry.
- Comparing a registry schema with itself gives an empty report only when
  every property's `.type` is a primitive. Two objects parsed separately
  are never `===` (`RegistryService.CompareWithItselfIsEmpty` requires it).

## Model

| member | source | states |
|---|---|---|
| Json.TypeOf | integrations/streamsynth/validator.js:23 | `typeof` is "object" exactly for null, arrays and objects, and "undefined" exactly for a missing value |
| Json.KindOf | integrations/streamsynth/validator.js:23 | the runtime kind is "array" exactly for arrays, "object" exactly for null and objects, and `typeof` otherwise |
| Json.ObjectKeys | integrations/streamsynth/validator.js:8 | `Object.keys` fails exactly on null |
| Json.JoinPath | backend/src/services/schemaDiff.js:28 | the child path is the bare key at the root, and otherwise the parent path, a dot and the key |
| Json.Member | backend/src/services/schemaDiff.js:58 | reading a key of an object gives its own first binding; reading an index of an array gives an element, and `length` gives the element count |
| Json.OwnKeys | backend/src/services/schemaDiff.js:27 | `Object.keys` of an object lists its keys in order; of an array, one key per element |
| Changes.BreakingKinds | backend/src/services/schemaRegistry.js:16-25 | a kind is breaking if and only if it is not `FIELD_ADDED` or `ARRAY_TYPE_CHANGED`: exactly the four listed kinds are |
| Changes.RecordAllSplits | backend/src/services/schemaRegistry.js:30-101 | recording a stream appends exactly its breaking records to `breaking` and its other records to `nonBreaking`, in order; the flag is raised if and only if a breaking record was recorded |
| Changes.SummarizeSingle | backend/src/services/schemaRegistry.js:108-114 | a one-record stream gives a report with that record on the side its kind decides, counts 1 and 0, and the flag set exactly when it is breaking |
| Changes.ClassifiedReportConsistent | backend/src/services/schemaRegistry.js:108-114 | for every stream the report is consistent (flag if and only if `breaking` is non-empty, counts equal lengths) and holds the breaking and non-breaking sub-sequences |
| Changes.CountBreakingOf | backend/src/services/schemaRegistry.js:40-45 | a breaking kind keeps its count in `breaking`; another kind has none there |
| Changes.CountNonBreakingOf | backend/src/services/schemaRegistry.js:43-45 | a non-breaking kind keeps its count in `nonBreaking`; a breaking kind has none there |
| Changes.ClassifiedInto | backend/src/services/schemaRegistry.js:40-45 | every recorded record lands on the side its kind decides |
| Changes.InBreakingOf | backend/src/services/schemaRegistry.js:40-45 | nothing lands in either list that was not recorded |
| Changes.ChangeSet.constructor | backend/src/services/schemaRegistry.js:8-13 | a new `changes` object has empty lists and the flag down |
| Changes.ChangeSet.Record | backend/src/services/schemaRegistry.js:40-45 | one classify-and-push step updates the lists and flag as `Recorded` says |
| Changes.ChangeSet.PushBreaking | backend/src/services/schemaRegistry.js:41-42 | pushing a breaking record directly is the same as classifying it |
| Changes.ChangeSet.PushNonBreaking | backend/src/services/schemaRegistry.js:60 | pushing a non-breaking record directly is the same as classifying it |
| Changes.ChangeSet.ToReport | backend/src/services/schemaRegistry.js:108-114 | the returned object is the summary of the current lists and flag |
| RegistryService.PropsOf | backend/src/services/schemaRegistry.js:30 | `properties \|\| {}` is truthy: the document's own `properties` when that is truthy, and an empty object otherwise |
| RegistryService.RequiredListOf | backend/src/services/schemaRegistry.js:83-84 | `required \|\| []` is truthy: the document's own `required` when that is truthy, and an empty array otherwise |
| RegistryService.FirstThrow | backend/src/services/schemaRegistry.js:50-61 | the position where the added-or-modified loop stops: no key before it throws, and the key at it throws, unless it is the number of keys |
| RegistryService.FirstThrowIff | backend/src/services/schemaRegistry.js:50-61 | the added-or-modified loop stops early if and only if there is a key and the old properties are not an object, or a shared key's entry is null or missing on either side |
| RegistryService.PassStopsIff | backend/src/services/schemaRegistry.js:30-101 | on two non-null documents, one of the three loops throws if and only if `ComparisonThrows` holds |
| RegistryService.PassStream | backend/src/services/schemaRegistry.js:30-101 | a run in which no loop throws pushes the whole stream: removals, then additions and type changes, then required additions |
| RegistryService.PassAgrees | backend/src/services/schemaRegistry.js:28-102 | a run throws if and only if `ComparisonThrows` holds, and otherwise pushes exactly `ComparisonStream` |
| RegistryService.CompareSchemas | backend/src/services/schemaRegistry.js:7-115 | the comparison has no result exactly on the inputs that throw; otherwise it is the consistent summary of the recorded stream |
| RegistryService.RecordRemovedField | backend/src/services/schemaRegistry.js:31-46 | on object properties, one iteration of the removed-fields loop records a `FIELD_REMOVED` exactly when the key is not `in` the new properties |
| RegistryService.RecordRemovedFields | backend/src/services/schemaRegistry.js:30-47 | the removed-fields loop throws, before any push, exactly when there is an old key and the new properties are not an object; otherwise it records the removed-fields stream |
| RegistryService.RecordAddedOrChangedField | backend/src/services/schemaRegistry.js:51-79 | one iteration of the added-or-modified loop throws exactly when `ThrowsAt` holds; otherwise it records what `AddedOrChangedField` gives |
| RegistryService.RecordAddedOrChangedFields | backend/src/services/schemaRegistry.js:50-80 | the added-or-modified loop records the records of the keys before the first throwing key, and throws exactly when such a key exists |
| RegistryService.RecordRequiredAddedField | backend/src/services/schemaRegistry.js:86-100 | one iteration of the required loop records a `REQUIRED_ADDED` exactly when the old list does not include the entry |
| RegistryService.RecordRequiredAddedFields | backend/src/services/schemaRegistry.js:83-101 | the required loop throws, before any push, exactly when the new `required` is not an array, or is non-empty while the old one has no `includes`; otherwise it records the required-added stream |
| RegistryService.CompareObjects | backend/src/services/schemaRegistry.js:28-102 | the three loops leave the records the run pushes before it stops, and report a throw exactly when the run throws |
| RegistryService.CompareSchemasForBreakingChanges | backend/src/services/schemaRegistry.js:7-115 | the result is `None` exactly when the comparison throws, and otherwise the summarised report, which is consistent |
| RegistryService.RemovedFieldsMembers | backend/src/services/schemaRegistry.js:30-47 | the removed-fields loop emits only `FIELD_REMOVED` records |
| RegistryService.RemovedFieldsCount | backend/src/services/schemaRegistry.js:30-47 | the number of `FIELD_REMOVED` records at a bare key is its number of occurrences among the old keys if it is absent from the new ones, else 0 |
| RegistryService.AddedOrChangedMembers | backend/src/services/schemaRegistry.js:50-80 | the second loop emits only `FIELD_ADDED` at a new key and `TYPE_CHANGED` at a shared key, with bare-key paths |
| RegistryService.AddedOrChangedCount | backend/src/services/schemaRegistry.js:50-80 | `FIELD_ADDED` counts for a key are its new-key occurrences when it is not an old key; `TYPE_CHANGED` counts are its occurrences when the two `.type` values are not `===` |
| RegistryService.RequiredAddedMembers | backend/src/services/schemaRegistry.js:86-100 | every required-loop record is the `REQUIRED_ADDED` record of an entry of the new list that the old list does not include |
| RegistryService.RequiredAddedIncludes | backend/src/services/schemaRegistry.js:86-100 | every entry of the new list that the old list does not include has its `REQUIRED_ADDED` record in the stream |
| RegistryService.RequiredAddedStepCount | backend/src/services/schemaRegistry.js:87-92 | when the entry renders as `p` only if it is the string `p`, it adds a record at path `p` exactly when it is that string and the old list does not include it |
| RegistryService.RequiredAddedCount | backend/src/services/schemaRegistry.js:86-100 | when no other entry renders as `p`, the records at `p` are one per listing of `p` in the new list, duplicates included, or none when the old list includes it |
| RegistryService.PhasedClassification | backend/src/services/schemaRegistry.js:40-42 | the breaking list is the removals, then the type changes, then the required additions; the non-breaking list is the additions |
| RegistryService.ReportParts | backend/src/services/schemaRegistry.js:105-114 | the report is consistent, `breaking` is removed + type-changed + required-added, and `nonBreaking` is the added fields, all at bare-key paths |
| RegistryService.ReportShape | backend/src/services/schemaRegistry.js:105-114 | every breaking record is a removal, a type change or a required addition, in that order; every non-breaking one is an addition |
| RegistryService.RemovedReported | backend/src/services/schemaRegistry.js:30-47 | the report's `FIELD_REMOVED` count at a key is the key's old occurrences when it is absent from the new properties, else 0 |
| RegistryService.AddedReported | backend/src/services/schemaRegistry.js:53-60 | the report's `FIELD_ADDED` count at a key is its new occurrences when it is absent from the old properties, else 0; additions never reach `breaking` |
| RegistryService.TypeChangeReported | backend/src/services/schemaRegistry.js:61-79 | a shared key has `TYPE_CHANGED` records if and only if its two `.type` values are not `===` |
| RegistryService.RequiredAddedReported | backend/src/services/schemaRegistry.js:83-101 | when no other entry renders as the name, the report's `REQUIRED_ADDED` count for it is its occurrences in the new list, or 0 when the old list includes it |
| RegistryService.FieldReportedOnce | backend/src/services/schemaRegistry.js:30-80 | with distinct keys on both sides, each removed, added or retyped key is reported exactly once, and no other key is |
| RegistryService.TypeChangesFromSecondLoop | backend/src/services/schemaRegistry.js:61-79 | every type-change record comes from the added-or-modified loop |
| RegistryService.TypeChangeDetails | backend/src/services/schemaRegistry.js:63-71 | a type-change record names a shared key and carries both `.type` values as its detail, and they are not `===` |
| RegistryService.KeptFieldsNotReported | backend/src/services/schemaRegistry.js:30-80 | if every old field survives with a `===` type, there are no removals and no type changes |
| RegistryService.LostFieldReported | backend/src/services/schemaRegistry.js:30-80 | an old field that is gone or retyped yields a removal or a type change |
| RegistryService.KeepsFieldsIff | backend/src/services/schemaRegistry.js:30-80 | no removals and no type changes if and only if every old key is still `in` the new properties and every shared key keeps a `===` type |
| RegistryService.KeepsRequirementsIff | backend/src/services/schemaRegistry.js:83-101 | no required additions if and only if the old list includes every entry of the new one |
| RegistryService.NoBreakingChangesIff | backend/src/services/schemaRegistry.js:7-115 | the report has no breaking change if and only if the old fields survive with `===` types and no new requirement appears |
| RegistryService.CompareWithItselfIsEmpty | backend/src/services/schemaRegistry.js:7-115 | a document that does not throw, whose `.type` values and `required` entries are primitives, compared with itself gives the empty report |
| RegistryService.RemovedFieldLoop | backend/src/services/schemaRegistry.js:30-47 | the removed-fields loop over a field list extended by one new key, against the list without it, reports that key only |
| RegistryService.AddedFieldLoop | backend/src/services/schemaRegistry.js:50-80 | the added-or-modified loop over a field list extended by one new key reports that key only, as added |
| RegistryService.AddThenRemoveField | backend/src/services/schemaRegistry.js:30-60 | adding one field gives exactly one non-breaking `FIELD_ADDED`; comparing in the other direction gives exactly one breaking `FIELD_REMOVED` |
| RegistryService.FirstFalsy | backend/src/services/schemaRegistry.js:168-173 | no field is reported if and only if all are truthy; a reported field is one of the list and falsy |
| RegistryService.FirstFalsyIsUnique | backend/src/services/schemaRegistry.js:169-173 | the reported field is the first falsy one in list order |
| RegistryService.MissingField | backend/src/services/schemaRegistry.js:167-174 | validation passes if and only if name, version, content and service_name are all truthy |
| RegistryService.ValidateSchemaData | backend/src/services/schemaRegistry.js:167-174 | the loop rejects with the first falsy field, and passes if and only if all four are truthy |
| RegistryService.FindByNameAndService | backend/src/models/schema.js:31-42 | the lookup returns exactly the stored rows with that name and service |
| RegistryService.MostRecentFirst | backend/src/models/schema.js:36 | the lookup lists rows most recent first |
| RegistryService.LatestFound | backend/src/services/schemaRegistry.js:139-141 | the first row of a non-empty lookup is the last matching row stored: no later row matches |
| RegistryService.SchemaRegistry.constructor | backend/src/services/schemaRegistry.js:118-121 | a new registry has an empty, valid store |
| RegistryService.SchemaRegistry.Create | backend/src/models/schema.js:44-63 | a duplicate (name, version, service) fails and leaves the store alone; otherwise exactly one row with the next id is appended and returned |
| RegistryService.SchemaRegistry.RegisterSchema | backend/src/services/schemaRegistry.js:124-164 | the result is the registration outcome; the store grows by the new row exactly on success and stays valid |
| RegistryService.RegistrationFailsIff | backend/src/services/schemaRegistry.js:124-164 | registration fails if and only if a field is missing, the comparison with the latest stored version throws, or the (name, version, service) is already stored; a missing field is reported first, naming the first falsy field |
| RegistryService.RegistrationKeepsStoreValid | backend/src/db/index.js:33 | a successful registration keeps the (name, version, service) triples unique and gives the new row the next id |
| RegistryService.FirstVersionIff | backend/src/services/schemaRegistry.js:135-158 | `isFirstVersion` holds if and only if no row of the same (name, service) is stored, and if and only if `previousVersion` is null |
| RegistryService.PreviousVersionIsLatest | backend/src/services/schemaRegistry.js:139-148 | a later version is compared with the most recently stored row of its (name, service), that comparison does not throw, and the result reports that row's version and the comparison |
| RegistryService.RegisterTwiceFails | backend/src/db/index.js:33 | registering the same request again after a success fails: with the thrown comparison when the document compared with itself throws, and otherwise with the store's uniqueness error |
| SchemaDiff.RecordRemoved | backend/src/services/schemaDiff.js:27-44 | the removed-fields loop records the keys that are not `in` the new object |
| SchemaDiff.RecordFields | backend/src/services/schemaDiff.js:47-81 | the added-or-modified loop records what `DiffFields` gives for every key of the new object |
| SchemaDiff.CompareField | backend/src/services/schemaDiff.js:48-80 | one iteration records an addition, a type change, the nested comparison or the array comparison |
| SchemaDiff.CompareArrays | backend/src/services/schemaDiff.js:85-103 | `compareArrays` records what `DiffArrays` gives |
| SchemaDiff.CompareObjects | backend/src/services/schemaDiff.js:25-82 | `compareObjects` records the removed-fields stream, then the added-or-modified stream |
| SchemaDiff.RecordStringField | backend/src/services/schemaDiff.js:47-72 | one iteration at a string root records an addition for an index the old root lacks, or a type change where the old value there is not a string |
| SchemaDiff.RecordStringFields | backend/src/services/schemaDiff.js:47-81 | the added-or-modified loop over the indices of a string root records what `StringFields` gives |
| SchemaDiff.CompareSchemasForBreakingChanges | backend/src/services/schemaDiff.js:4-116 | the comparison is `None` exactly when the source throws (a null root, or `in` on a primitive root with keys to test); otherwise the report summarises the root stream, is consistent, and on two object roots is `Diff` |
| SchemaDiff.PrimitiveRoots | backend/src/services/schemaDiff.js:27-50 | two non-null primitive roots throw exactly when one of them is a non-empty string, and otherwise give no record |
| SchemaDiff.StringFieldsShape | backend/src/services/schemaDiff.js:47-72 | every record at a string root names one of its indices, and is an addition where the old root lacks it or a type change where the old value is not a string |
| SchemaDiff.RootStreamKinds | backend/src/services/schemaDiff.js:25-103 | whatever the roots, a comparison that does not throw writes only the four kinds the diff emits |
| SchemaDiff.ClassifiedKinds | backend/src/services/schemaDiff.js:13-22 | records of those four kinds are split by the breaking table: removals and type changes breaking, additions and array type changes not |
| SchemaDiff.RootReportKinds | backend/src/services/schemaDiff.js:4-116 | for any roots that do not throw, the report is consistent, `breaking` holds only removals and type changes, and `nonBreaking` only additions and array type changes |
| SchemaDiff.CompareWithItselfIsEmpty | backend/src/services/schemaDiff.js:4-116 | comparing a value with itself throws exactly when it is null or a non-empty string, and otherwise gives the empty report; two object or array roots give the empty `Diff` |
| SchemaDiff.DiffObjectsSelf | backend/src/services/schemaDiff.js:25-82 | an object compared with itself at any path emits nothing |
| SchemaDiff.DiffObjectsShape | backend/src/services/schemaDiff.js:25-103 | every record has one of the four kinds the diff emits, and its path is at or below the path of the walk |
| SchemaDiff.DiffReportKinds | backend/src/services/schemaDiff.js:13-22 | the report is consistent, `breaking` holds only removals and type changes, and `nonBreaking` only additions and array type changes |
| SchemaDiff.KeyChangesReported | backend/src/services/schemaDiff.js:27-72 | a removed top-level key gives a breaking `FIELD_REMOVED` and raises the flag; an added one gives a non-breaking `FIELD_ADDED`; a shared one with a different `typeof` gives a breaking `TYPE_CHANGED` with both values' types |
| SchemaDiff.SharedKeyOutcome | backend/src/services/schemaDiff.js:58-80 | for a shared key: a `typeof` change gives one record and no recursion; object to array and null to or from object give nothing; array to object recurses; equal primitive kinds give nothing; two arrays compare first elements; two objects recurse at the dotted path |
| SchemaDiff.FieldIncluded | backend/src/services/schemaDiff.js:47-81 | every record of one key's iteration is in the object's records |
| SchemaDiff.SingletonNested | backend/src/services/schemaDiff.js:73-76 | a nested object under one key is compared at the path `key`, with nothing else emitted |
| SchemaDiff.SingletonPrimitiveUnchanged | backend/src/services/schemaDiff.js:58-80 | a primitive value replaced by another of the same `typeof` emits nothing |
| SchemaDiff.TypeValueRewriteUnreported | backend/src/services/schemaDiff.js:58-80 | rewriting a declared `type` from "string" to "number" gives an empty report |
| SchemaDiff.GenerateHumanReadableDiff | backend/src/services/schemaDiff.js:119-134 | the loop builds the text `HumanReadableDiff` specifies |
| SchemaDiff.HeaderLayout | backend/src/services/schemaDiff.js:122-129 | the header is one line; it starts with the breaking-count prefix when the flag is set, and is "No breaking changes detected" otherwise |
| SchemaDiff.FooterLayout | backend/src/services/schemaDiff.js:131 | the footer is exactly one more line |
| SchemaDiff.BreakingLinesCount | backend/src/services/schemaDiff.js:124-126 | one line is added per breaking record |
| SchemaDiff.HumanReadableDiffLayout | backend/src/services/schemaDiff.js:119-134 | the text starts with the header that the flag selects, has one line per breaking record only when the flag is set, and always ends with the non-breaking count line |
| Validator.ErrorList.constructor | integrations/streamsynth/validator.js:3 | the error list starts empty |
| Validator.ErrorList.Push | integrations/streamsynth/validator.js:13-16 | pushing appends one error |
| Validator.ErrorList.ValidateObject | integrations/streamsynth/validator.js:6-65 | `validateObject` leaves the errors and the throw outcome that `ObjectRun` specifies |
| Validator.ErrorList.ValidateKeys | integrations/streamsynth/validator.js:8-64 | the loop over the declared keys runs every iteration until one throws |
| Validator.ErrorList.ValidateKey | integrations/streamsynth/validator.js:8-64 | one iteration of the key loop |
| Validator.ErrorList.ValidateField | integrations/streamsynth/validator.js:9-12 | a null constraint or null object throws; otherwise the constraint is applied at the child path |
| Validator.ErrorList.ValidateRule | integrations/streamsynth/validator.js:12-21 | a required value that is undefined or null pushes the missing-field error and stops; an undefined value is skipped |
| Validator.ErrorList.ValidatePresent | integrations/streamsynth/validator.js:21-63 | a present value gets the type check, then the nested or array checks, then the enum check |
| Validator.ErrorList.ValidateType | integrations/streamsynth/validator.js:22-30 | the type check pushes a mismatch exactly when a declared `type` is truthy and differs from the runtime kind |
| Validator.ErrorList.ValidateShape | integrations/streamsynth/validator.js:33-54 | the nested-object check, then the array check |
| Validator.ErrorList.ValidateNested | integrations/streamsynth/validator.js:33-35 | recursion is decided by the runtime kind "object" and a truthy `properties` |
| Validator.ErrorList.ValidateElements | integrations/streamsynth/validator.js:38-54 | an array value with truthy `items` gets the element loop |
| Validator.ErrorList.ValidateItems | integrations/streamsynth/validator.js:39-53 | the element loop runs every iteration until one throws |
| Validator.ErrorList.ValidateIndex | integrations/streamsynth/validator.js:39-53 | one iteration of the element loop |
| Validator.ErrorList.ValidateItem | integrations/streamsynth/validator.js:40-52 | an element whose kind differs from a truthy `items.type` gets an error at `key[i]`; object elements recurse at that path |
| Validator.ErrorList.ValidateEnum | integrations/streamsynth/validator.js:57-62 | a value not included in a declared `enum` array gets one error |
| Validator.ValidateDataAgainstSchema | integrations/streamsynth/validator.js:2-74 | the result is `Validation(data, schema)`, and `valid` holds exactly when there are no errors |
| ValidatorFacts.ObjectExtends | integrations/streamsynth/validator.js:6-65 | a walk only appends to the errors, and every error it adds has a path longer than the walk's own (at the root, any path) |
| ValidatorFacts.ErrorsOnlyGrow | integrations/streamsynth/validator.js:3 | the errors before a walk are a prefix of the errors after it |
| ValidatorFacts.FieldOwnErrors | integrations/streamsynth/validator.js:21-62 | the errors at a present field's own path are exactly its type error followed by its enum error, independently of each other |
| ValidatorFacts.ItemOwnErrors | integrations/streamsynth/validator.js:40-47 | the only error at an element's own path is the item mismatch, exactly when its kind differs from a truthy `items.type` |
| ValidatorFacts.FieldVisited | integrations/streamsynth/validator.js:8 | every declared key of a walk that does not throw is checked, and its errors are in the result |
| ValidatorFacts.RequiredMissingField | integrations/streamsynth/validator.js:12-18 | a required field that is undefined or null gets exactly one missing-field error at its path and no other check |
| ValidatorFacts.AbsentOptionalField | integrations/streamsynth/validator.js:21 | an undefined field that is not required gets no error |
| ValidatorFacts.RequiredMissingReported | integrations/streamsynth/validator.js:12-18 | the missing-field error is in the result of the whole walk |
| ValidatorFacts.TypeMismatchField | integrations/streamsynth/validator.js:25-30 | a present value whose kind differs from a truthy declared `type` gets the type-mismatch error first |
| ValidatorFacts.TypeMismatchReported | integrations/streamsynth/validator.js:25-30 | the type-mismatch error is in the result of the whole walk |
| ValidatorFacts.ItemMismatchReported | integrations/streamsynth/validator.js:42-47 | each mismatching element is reported at `key[i]` by the element loop |
| ValidatorFacts.OnlyDeclaredKeysInspected | integrations/streamsynth/validator.js:8 | two instances that agree on every declared key are validated alike |
| ValidatorFacts.ExtraFieldsIgnored | integrations/streamsynth/validator.js:8 | adding undeclared fields to an instance changes nothing |
| ValidatorFacts.MissingIdAndWrongAge | integrations/streamsynth/validator.js:12-30 | a payload missing a required `id` and holding a string `age` declared a number gives exactly those two errors, in schema order |
| ValidatorFacts.NullNestedThrows | integrations/streamsynth/validator.js:33-34 | a null value under a rule with `properties` makes the validator throw |
| ValidatorFacts.NestedPath | integrations/streamsynth/validator.js:33-35 | a nested mismatch is reported at `address.city` |
| LocalComparison.CompareSchemas | tests/schemaComparison.test.js:6-52 | the comparator has no result exactly on the inputs `LocalThrows` names; otherwise the returned `changes` object is the recorded local stream |
| LocalComparison.PushRemovedField | tests/schemaComparison.test.js:15-22 | on object properties, one iteration pushes a breaking `FIELD_REMOVED` exactly when the key is not `in` the new properties |
| LocalComparison.PushRemovedFields | tests/schemaComparison.test.js:14-23 | the first loop throws, before any push, exactly when there is an old key and the new properties are not an object; otherwise it pushes the removed-fields stream |
| LocalComparison.PushAddedField | tests/schemaComparison.test.js:27-33 | on object properties, one iteration pushes a non-breaking `FIELD_ADDED` exactly when the key is not `in` the old properties |
| LocalComparison.PushAddedFields | tests/schemaComparison.test.js:26-34 | the second loop throws, before any push, exactly when there is a new key and the old properties are not an object; otherwise it pushes the additions |
| LocalComparison.PushRequiredAddedField | tests/schemaComparison.test.js:41-48 | one iteration pushes a breaking `REQUIRED_ADDED` exactly when the old list does not include the entry |
| LocalComparison.PushRequiredAddedFields | tests/schemaComparison.test.js:37-49 | the third loop throws, before any push, on a non-array new list or on an old list with no `includes`; otherwise it pushes the required-added stream |
| LocalComparison.AddedFieldsMembers | tests/schemaComparison.test.js:26-34 | every addition is a `FIELD_ADDED` at a bare key that is new and was not old |
| LocalComparison.AddedFieldsCount | tests/schemaComparison.test.js:26-34 | the number of additions at a key is its new occurrences when it is not an old key, else 0 |
| LocalComparison.LocalParts | tests/schemaComparison.test.js:6-52 | `breaking` is the removals followed by the required additions, `nonBreaking` is the additions, and the flag is set if and only if `breaking` is non-empty |
| LocalComparison.LocalKinds | tests/schemaComparison.test.js:13-49 | no `TYPE_CHANGED` is ever emitted; breaking records are removals or required additions, non-breaking ones are additions; additions never set the flag |
| LocalComparison.LocalPaths | tests/schemaComparison.test.js:16-45 | every path is a bare key or field name with no prefix |
| LocalComparison.LocalCounts | tests/schemaComparison.test.js:13-49 | the counts of removals and additions per key, in terms of the two key lists, and, when no other entry renders as the key, of required additions in terms of the two required lists |
| LocalComparison.ThrowsLikeRegistry | tests/schemaComparison.test.js:6-52 | the registry comparator throws wherever this one does, and on non-null documents it throws exactly when this one does or a shared key's entry is null or missing |
| LocalComparison.AddedFieldsAgree | tests/schemaComparison.test.js:26-34 | the additions are exactly the registry comparator's `FIELD_ADDED` records |
| LocalComparison.AgreesWithRegistry | tests/schemaComparison.test.js:6-52 | the local comparator's non-breaking list equals the registry's, and its breaking list is the registry's without the type changes |
| LocalComparison.NoTypeChangesAgree | tests/schemaComparison.test.js:26-34 | when every shared field keeps a `===` type, the added-or-changed loop of the registry emits only the additions |
| LocalComparison.SameAsRegistryWithoutTypeChanges | tests/schemaComparison.test.js:6-52 | when every shared field keeps a `===` type, both comparators give the same lists and flag |
| LocalComparison.WellShapedDoesNotThrow | tests/schemaComparison.test.js:14-40 | documents whose `properties` are objects and whose `required` lists are arrays never make the comparator throw |
| LocalComparison.RemovedEmailIsBreaking | tests/schemaComparison.test.js:56-78 | removing `email` from {id, name, email} gives exactly one breaking `FIELD_REMOVED` at `email` and sets the flag; the comparator does not throw on it |
| LocalComparison.AddedPhoneIsNonBreaking | tests/schemaComparison.test.js:80-102 | adding `phone` to {id, name} gives exactly one non-breaking `FIELD_ADDED` at `phone` and leaves the flag down; the comparator does not throw on it |
| LocalComparison.RequiredEmailIsBreaking | tests/schemaComparison.test.js:104-129 | requiring `email` with unchanged properties gives exactly one breaking `REQUIRED_ADDED` at `email`; the comparator does not throw on it |

## Left out

- The React frontend, the Express routes, the server start-up and configuration, the SQLite driver, and the `pipelinepulse` and `streamsynth` integrations other than the validator are not part of this model.
- `getImpactedServices`, `getSchemasByService` and `getAllSchemas` only delegate to SQL queries, and the `cachedSchemas` field is never used. They are not modelled.
- The request fields are JSON values matched by structural equality. The `schemas` columns are TEXT, so SQLite would match a numeric name or version `1` with "1" and read the version back as a string; that coercion is not modelled.
- The store is a sequence of rows in insertion order. A row's id stands for its `created_at`, so two rows created in the same second are ordered by insertion. The database's own ordering of such ties is not modelled.
- RegistryService.SchemaRegistry.Create: fails only on the uniqueness constraint of (name, version, service_name). The returned row keeps the four stored fields and the id; the extra request fields that `{ id, ...schemaData }` would carry are dropped. Other database failures, and the empty list that `findByNameAndService` returns when its query fails, are not modelled.
- `registerSchema` is asynchronous and logs before it rethrows. The model is sequential and leaves out the console.
- `JSON.stringify` of the content on store and `JSON.parse` on read are taken as an exact round trip. Stored content is kept as the parsed value.
- A thrown TypeError is modelled as a `None` comparison, a `threw` flag or an `Err(ComparisonThrew)` registration. Its message and stack are not modelled.
- RegistryService.RequiredAddedRecord: the source's record has the raw entry as its path (`path: field`), so for `required: [1]` the path is the number 1. The model's paths are strings, so it keeps `String(entry)`, "1" here, as the template literal of the description renders it.
- RegistryService.RequiredAddedStepCount: because of that string path, it requires that the entry renders as `p` only if it is the string `p`. In the source a record's path is `===` to `p` exactly when the entry is the string `p`, with no hypothesis.
- RegistryService.RequiredAddedCount: counts the `REQUIRED_ADDED` records at a name only when no other entry of the new `required` renders as that name under `String(v)` (a number `1` next to a string "1", say). Where two entries collide the count would add both; `RequiredAddedMembers` still states the record of every entry.
- RegistryService.RequiredAddedReported: the same hypothesis, for the report's count.
- LocalComparison.LocalCounts: the same hypothesis, for the local comparator's required additions.
- The `in` operator also finds inherited keys such as `toString`. The model checks own keys only.
- Objects and arrays of two separately parsed documents are never `===`. The model's strict equality is false on them, and `includes` on an `enum` compares primitives only.
- Numbers are integers. Only their kind matters to the comparators, and the validator's enum check and messages never need a fraction.
- Message and description strings are built as the source builds them. `String(v)` of an object is modelled as "[object Object]", and of a negative number by its sign and digits.
- The validator's call site in the stream processor passes the whole schema document instead of its `properties` map. That call site is not modelled.
