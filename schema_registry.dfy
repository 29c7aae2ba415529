/** The registry service: its one-level comparator of two schema documents
    and the registration workflow that stores a new version after comparing
    it with the most recent stored version of the same (name, service). */
module RegistryService {
  import opened Json
  import opened Changes

  // ---------------------------------------------------------------------
  // Reading a schema document
  // ---------------------------------------------------------------------

  /** `doc.properties || {}` on a document that is not null. */
  function PropsOf(doc: Json): (p: Json)
    requires !doc.JNull?
    ensures Truthy(Some(p))
    ensures Truthy(Property(doc, "properties")) ==> Some(p) == Property(doc, "properties")
    ensures !Truthy(Property(doc, "properties")) ==> p == JObj([])
  {
    var p := Property(doc, "properties");
    if Truthy(p) then p.value else JObj([])
  }

  /** `doc.required || []` on a document that is not null. */
  function RequiredListOf(doc: Json): (r: Json)
    requires !doc.JNull?
    ensures Truthy(Some(r))
    ensures Truthy(Property(doc, "required")) ==> Some(r) == Property(doc, "required")
    ensures !Truthy(Property(doc, "required")) ==> r == JArr([])
  {
    var r := Property(doc, "required");
    if Truthy(r) then r.value else JArr([])
  }

  /** `Object.keys(props)`: the keys of an object, the indices of an array
      or a string, nothing for a number or `true`. */
  function KeysOf(props: Json): seq<string>
    requires !props.JNull?
  {
    ObjectKeys(props).value
  }

  /** `props[key].type`: undefined when the entry is missing or has no
      `type`. (The comparator throws on a null or missing entry instead,
      see `EntryThrows`.) */
  function EntryType(props: Json, key: string): Value
    requires !props.JNull?
  {
    var entry := Property(props, key);
    if entry.Some? then Member(entry.value, "type") else None
  }

  /** Reading `props[key].type` throws: the entry is null or undefined. */
  predicate EntryThrows(props: Json, key: string)
    requires !props.JNull?
  {
    var entry := Property(props, key);
    entry.None? || entry.value.JNull?
  }

  /** `oldRequired.includes(field)`: SameValueZero membership in an array,
      a search for `String(field)` in a string. No other value has an
      `includes` (see `RequiredThrows`). */
  predicate AlreadyRequired(oldRequired: Json, field: Json)
  {
    match oldRequired
    case JArr(elems) => Includes(elems, field)
    case JStr(s) => IsSubstring(JsonString(field), s)
    case _ => false
  }

  /** The newly-required loop throws: `newRequired.forEach` on a value that
      is not an array, or `oldRequired.includes` on a value that has none. */
  predicate RequiredThrows(oldRequired: Json, newRequired: Json)
  {
    !newRequired.JArr? || (newRequired.elems != [] && !(oldRequired.JArr? || oldRequired.JStr?))
  }

  /** The entries `newRequired.forEach` visits; none when it throws. */
  function RequiredEntries(newRequired: Json): seq<Json>
  {
    if newRequired.JArr? then newRequired.elems else []
  }

  // ---------------------------------------------------------------------
  // The records the comparison emits, in emission order
  // ---------------------------------------------------------------------

  function RemovedRecord(path: string, key: string): Change
  {
    Change(FieldRemoved, JoinPath(path, key), "Field '" + key + "' was removed", NoDetail)
  }

  function AddedRecord(path: string, key: string): Change
  {
    Change(FieldAdded, JoinPath(path, key), "Field '" + key + "' was added", NoDetail)
  }

  function TypeChangedRecord(path: string, key: string, oldType: Value, newType: Value): Change
  {
    Change(TypeChanged, JoinPath(path, key),
           "Type changed from '" + JsString(oldType) + "' to '" + JsString(newType) + "'",
           TypeDetail(oldType, newType))
  }

  /** The path of the record is the entry itself; the model keeps its
      string form. */
  function RequiredAddedRecord(field: Json): Change
  {
    Change(RequiredAdded, JsonString(field), "Field '" + JsonString(field) + "' is now required", NoDetail)
  }

  // ---------------------------------------------------------------------
  // What each loop emits when it runs to the end
  // ---------------------------------------------------------------------

  /** What the first loop emits for one key of the old properties. */
  function RemovedStep(newProps: Json, path: string, key: string): seq<Change>
  {
    if Has(newProps, key) then [] else [RemovedRecord(path, key)]
  }

  /** First loop: every key of the old properties that is not `in` the new ones. */
  function RemovedFields(oldKeys: seq<string>, newProps: Json, path: string): seq<Change>
  {
    if oldKeys == [] then []
    else
      var key := oldKeys[|oldKeys| - 1];
      RemovedFields(oldKeys[..|oldKeys| - 1], newProps, path) + RemovedStep(newProps, path, key)
  }

  /** What the second loop emits for one key of the new properties. */
  function AddedOrChangedField(oldProps: Json, newProps: Json, path: string, key: string): seq<Change>
    requires !oldProps.JNull? && !newProps.JNull?
  {
    if !Has(oldProps, key) then [AddedRecord(path, key)]
    else
      var oldType, newType := EntryType(oldProps, key), EntryType(newProps, key);
      if !StrictEquals(oldType, newType) then [TypeChangedRecord(path, key, oldType, newType)] else []
  }

  /** Second loop: added keys, and shared keys whose `type` differs. */
  function AddedOrChangedFields(oldProps: Json, newKeys: seq<string>, newProps: Json, path: string): seq<Change>
    requires !oldProps.JNull? && !newProps.JNull?
  {
    if newKeys == [] then []
    else
      AddedOrChangedFields(oldProps, newKeys[..|newKeys| - 1], newProps, path)
        + AddedOrChangedField(oldProps, newProps, path, newKeys[|newKeys| - 1])
  }

  /** What the third loop emits for one entry of the new `required` list. */
  function RequiredAddedStep(oldRequired: Json, field: Json): seq<Change>
  {
    if AlreadyRequired(oldRequired, field) then [] else [RequiredAddedRecord(field)]
  }

  /** Third loop: every entry of the new `required` list the old one does not include. */
  function RequiredAddedFields(oldRequired: Json, newEntries: seq<Json>): seq<Change>
  {
    if newEntries == [] then []
    else
      var field := newEntries[|newEntries| - 1];
      RequiredAddedFields(oldRequired, newEntries[..|newEntries| - 1])
        + RequiredAddedStep(oldRequired, field)
  }

  /** One more key of the first loop appends that key's step. */
  lemma RemovedFieldsSnoc(oldKeys: seq<string>, i: nat, newProps: Json, path: string)
    requires i < |oldKeys|
    ensures RemovedFields(oldKeys[..i + 1], newProps, path)
      == RemovedFields(oldKeys[..i], newProps, path) + RemovedStep(newProps, path, oldKeys[i])
  {
    PrefixStep(oldKeys, i);
  }

  /** One more key of the second loop appends that key's records. */
  lemma AddedOrChangedSnoc(oldProps: Json, newKeys: seq<string>, j: nat, newProps: Json, path: string)
    requires !oldProps.JNull? && !newProps.JNull?
    requires j < |newKeys|
    ensures AddedOrChangedFields(oldProps, newKeys[..j + 1], newProps, path)
      == AddedOrChangedFields(oldProps, newKeys[..j], newProps, path) + AddedOrChangedField(oldProps, newProps, path, newKeys[j])
  {
    PrefixStep(newKeys, j);
  }

  /** One more entry of the third loop appends that entry's step. */
  lemma RequiredAddedSnoc(oldRequired: Json, entries: seq<Json>, n: nat)
    requires n < |entries|
    ensures RequiredAddedFields(oldRequired, entries[..n + 1])
      == RequiredAddedFields(oldRequired, entries[..n]) + RequiredAddedStep(oldRequired, entries[n])
  {
    PrefixStep(entries, n);
  }

  /** Everything one `compareObjects(old, new, path)` call emits when no
      step throws, in order. */
  function ComparisonStream(oldDoc: Json, newDoc: Json, path: string): seq<Change>
    requires !oldDoc.JNull? && !newDoc.JNull?
  {
    var oldProps, newProps := PropsOf(oldDoc), PropsOf(newDoc);
    RemovedFields(KeysOf(oldProps), newProps, path)
      + AddedOrChangedFields(oldProps, KeysOf(newProps), newProps, path)
      + RequiredAddedFields(RequiredListOf(oldDoc), RequiredEntries(RequiredListOf(newDoc)))
  }

  /** The report built from that stream. */
  function ReportOf(oldDoc: Json, newDoc: Json): Report
    requires !oldDoc.JNull? && !newDoc.JNull?
  {
    Summarize(RecordedAll(EmptyLog, ComparisonStream(oldDoc, newDoc, "")))
  }

  // ---------------------------------------------------------------------
  // Where the comparison throws
  // ---------------------------------------------------------------------

  /** The inputs on which `compareObjects` throws a TypeError: reading
      `properties` of null; `key in props` on a value that is not an
      object, evaluated as soon as the other side lists a key; reading
      `.type` of a null or missing entry of a shared key; and the two
      `required` calls. */
  predicate ComparisonThrows(oldDoc: Json, newDoc: Json)
  {
    oldDoc.JNull? || newDoc.JNull? ||
    var oldProps, newProps := PropsOf(oldDoc), PropsOf(newDoc);
    || (KeysOf(oldProps) != [] && !IsObject(newProps))
    || (KeysOf(newProps) != [] && !IsObject(oldProps))
    || (exists k :: k in KeysOf(newProps) && Has(oldProps, k) && (EntryThrows(oldProps, k) || EntryThrows(newProps, k)))
    || RequiredThrows(RequiredListOf(oldDoc), RequiredListOf(newDoc))
  }

  /** One pass of the second loop throws at `key`. */
  predicate ThrowsAt(oldProps: Json, newProps: Json, key: string)
    requires !oldProps.JNull? && !newProps.JNull?
  {
    !IsObject(oldProps) || (Has(oldProps, key) && (EntryThrows(oldProps, key) || EntryThrows(newProps, key)))
  }

  /** The position of the first key at which the second loop throws, or
      the number of keys if it runs to the end. */
  function FirstThrow(oldProps: Json, keys: seq<string>, newProps: Json): (i: nat)
    requires !oldProps.JNull? && !newProps.JNull?
    ensures i <= |keys|
    ensures forall j :: 0 <= j < i ==> !ThrowsAt(oldProps, newProps, keys[j])
    ensures i < |keys| ==> ThrowsAt(oldProps, newProps, keys[i])
  {
    if keys == [] || ThrowsAt(oldProps, newProps, keys[0]) then 0
    else 1 + FirstThrow(oldProps, keys[1..], newProps)
  }

  /** The records pushed before a run stops, and whether it stopped on a throw. */
  datatype Pass = Pass(pushed: seq<Change>, threw: bool)

  /** `compareObjects(old, new, path)` as it runs: the loops in order, each
      stopping at its throw. */
  function ComparisonPass(oldDoc: Json, newDoc: Json, path: string): Pass
  {
    if oldDoc.JNull? || newDoc.JNull? then Pass([], true)
    else
      var oldProps, newProps := PropsOf(oldDoc), PropsOf(newDoc);
      var oldKeys, newKeys := KeysOf(oldProps), KeysOf(newProps);
      if oldKeys != [] && !IsObject(newProps) then Pass([], true)
      else
        var removed := RemovedFields(oldKeys, newProps, path);
        var i := FirstThrow(oldProps, newKeys, newProps);
        var addedOrChanged := AddedOrChangedFields(oldProps, newKeys[..i], newProps, path);
        var oldRequired, newRequired := RequiredListOf(oldDoc), RequiredListOf(newDoc);
        if i < |newKeys| || RequiredThrows(oldRequired, newRequired) then Pass(removed + addedOrChanged, true)
        else Pass(removed + addedOrChanged + RequiredAddedFields(oldRequired, newRequired.elems), false)
  }

  /** The second loop stops early exactly when the old properties are not
      an object and there is a key, or a shared key's entry is null or
      missing on either side. */
  lemma FirstThrowIff(oldProps: Json, keys: seq<string>, newProps: Json)
    requires !oldProps.JNull? && !newProps.JNull?
    ensures FirstThrow(oldProps, keys, newProps) < |keys| <==>
      (keys != [] && !IsObject(oldProps)) ||
      (exists k :: k in keys && Has(oldProps, k) && (EntryThrows(oldProps, k) || EntryThrows(newProps, k)))
  {
    var i := FirstThrow(oldProps, keys, newProps);
    if i < |keys| {
      assert keys[i] in keys;
    }
    if exists k :: k in keys && Has(oldProps, k) && (EntryThrows(oldProps, k) || EntryThrows(newProps, k)) {
      var k :| k in keys && Has(oldProps, k) && (EntryThrows(oldProps, k) || EntryThrows(newProps, k));
      var m :| 0 <= m < |keys| && keys[m] == k;
      assert ThrowsAt(oldProps, newProps, keys[m]);
    }
    if keys != [] && !IsObject(oldProps) {
      assert ThrowsAt(oldProps, newProps, keys[0]);
    }
  }

  /** A run of the second loop that has reached key `j` without a throw
      stops at `j` exactly when that key throws. */
  lemma FirstThrowStep(oldProps: Json, keys: seq<string>, newProps: Json, j: nat)
    requires !oldProps.JNull? && !newProps.JNull?
    requires j < |keys| && j <= FirstThrow(oldProps, keys, newProps)
    ensures ThrowsAt(oldProps, newProps, keys[j]) ==> FirstThrow(oldProps, keys, newProps) == j
    ensures !ThrowsAt(oldProps, newProps, keys[j]) ==> j < FirstThrow(oldProps, keys, newProps)
  {
  }

  /** Where a run on two documents that are not null stops early. */
  predicate PassStops(oldDoc: Json, newDoc: Json)
    requires !oldDoc.JNull? && !newDoc.JNull?
  {
    var oldProps, newProps := PropsOf(oldDoc), PropsOf(newDoc);
    var newKeys := KeysOf(newProps);
    || (KeysOf(oldProps) != [] && !IsObject(newProps))
    || FirstThrow(oldProps, newKeys, newProps) < |newKeys|
    || RequiredThrows(RequiredListOf(oldDoc), RequiredListOf(newDoc))
  }

  lemma PassStopsIff(oldDoc: Json, newDoc: Json)
    requires !oldDoc.JNull? && !newDoc.JNull?
    ensures PassStops(oldDoc, newDoc) <==> ComparisonThrows(oldDoc, newDoc)
  {
    var oldProps, newProps := PropsOf(oldDoc), PropsOf(newDoc);
    FirstThrowIff(oldProps, KeysOf(newProps), newProps);
  }

  /** A run that does not stop early pushes the whole stream. */
  lemma PassStream(oldDoc: Json, newDoc: Json, path: string)
    requires !oldDoc.JNull? && !newDoc.JNull? && !PassStops(oldDoc, newDoc)
    ensures ComparisonPass(oldDoc, newDoc, path) == Pass(ComparisonStream(oldDoc, newDoc, path), false)
  {
    var oldProps, newProps := PropsOf(oldDoc), PropsOf(newDoc);
    var oldKeys, newKeys := KeysOf(oldProps), KeysOf(newProps);
    var oldRequired, newRequired := RequiredListOf(oldDoc), RequiredListOf(newDoc);
    var i := FirstThrow(oldProps, newKeys, newProps);
    assert newKeys[..i] == newKeys;
    var removed := RemovedFields(oldKeys, newProps, path);
    var addedOrChanged := AddedOrChangedFields(oldProps, newKeys, newProps, path);
    var requiredAdded := RequiredAddedFields(oldRequired, newRequired.elems);
    assert ComparisonPass(oldDoc, newDoc, path) == Pass(removed + addedOrChanged + requiredAdded, false);
    assert ComparisonStream(oldDoc, newDoc, path) == removed + addedOrChanged + requiredAdded;
  }

  /** A run throws exactly on the inputs `ComparisonThrows` names, and
      otherwise pushes the whole stream. */
  lemma PassAgrees(oldDoc: Json, newDoc: Json, path: string)
    ensures ComparisonPass(oldDoc, newDoc, path).threw <==> ComparisonThrows(oldDoc, newDoc)
    ensures !ComparisonThrows(oldDoc, newDoc) ==> ComparisonPass(oldDoc, newDoc, path).pushed == ComparisonStream(oldDoc, newDoc, path)
  {
    if !oldDoc.JNull? && !newDoc.JNull? {
      PassStopsIff(oldDoc, newDoc);
      if !PassStops(oldDoc, newDoc) {
        PassStream(oldDoc, newDoc, path);
      }
    }
  }

  /** The report `compareSchemasForBreakingChanges(old, new)` returns, or
      `None` when it throws. */
  function CompareSchemas(oldDoc: Json, newDoc: Json): (r: Option<Report>)
    ensures r.None? <==> ComparisonThrows(oldDoc, newDoc)
    ensures r.Some? ==> r.value == ReportOf(oldDoc, newDoc) && Consistent(r.value)
  {
    var pass := ComparisonPass(oldDoc, newDoc, "");
    PassAgrees(oldDoc, newDoc, "");
    if pass.threw then None
    else
      ClassifiedReportConsistent(pass.pushed);
      Some(Summarize(RecordedAll(EmptyLog, pass.pushed)))
  }

  // ---------------------------------------------------------------------
  // The comparator as the source runs it
  // ---------------------------------------------------------------------

  /** `compareObjects`: three loops that push into the shared `changes`;
      `threw` reports the TypeError that ends the run early. */
  method CompareObjects(changes: ChangeSet, oldDoc: Json, newDoc: Json, path: string) returns (threw: bool)
    modifies changes
    ensures changes.State() == RecordedAll(old(changes.State()), ComparisonPass(oldDoc, newDoc, path).pushed)
    ensures threw == ComparisonPass(oldDoc, newDoc, path).threw
  {
    if oldDoc.JNull? || newDoc.JNull? {
      return true;
    }
    var oldProps, newProps := PropsOf(oldDoc), PropsOf(newDoc);
    var oldKeys, newKeys := KeysOf(oldProps), KeysOf(newProps);
    ghost var start := changes.State();
    ghost var pass := ComparisonPass(oldDoc, newDoc, path);
    threw := RecordRemovedFields(changes, oldKeys, newProps, path);
    if threw {
      assert pass == Pass([], true);
      return;
    }
    ghost var removed := RemovedFields(oldKeys, newProps, path);
    ghost var i := FirstThrow(oldProps, newKeys, newProps);
    ghost var addedOrChanged := AddedOrChangedFields(oldProps, newKeys[..i], newProps, path);
    threw := RecordAddedOrChangedFields(changes, oldProps, newKeys, newProps, path);
    RecordAllAppend(start, removed, addedOrChanged);
    if threw {
      assert pass == Pass(removed + addedOrChanged, true);
      return;
    }
    var oldRequired, newRequired := RequiredListOf(oldDoc), RequiredListOf(newDoc);
    threw := RecordRequiredAddedFields(changes, oldRequired, newRequired);
    if threw {
      assert pass == Pass(removed + addedOrChanged, true);
    } else {
      ghost var requiredAdded := RequiredAddedFields(oldRequired, newRequired.elems);
      RecordAllAppend(start, removed + addedOrChanged, requiredAdded);
      assert pass == Pass(removed + addedOrChanged + requiredAdded, false);
    }
  }

  /** One pass of the removed-fields loop of `compareObjects`, once the new
      properties are known to be an object. */
  method RecordRemovedField(changes: ChangeSet, newProps: Json, path: string, key: string)
    requires IsObject(newProps)
    modifies changes
    ensures changes.State() == RecordedAll(old(changes.State()), RemovedStep(newProps, path, key))
  {
    if !Has(newProps, key) {
      changes.Record(RemovedRecord(path, key));
      RecordedAllOne(old(changes.State()), RemovedRecord(path, key));
    }
  }

  /** The removed-fields loop of `compareObjects`: `key in newProps`
      throws on its first key when the new properties are not an object. */
  method RecordRemovedFields(changes: ChangeSet, oldKeys: seq<string>, newProps: Json, path: string) returns (threw: bool)
    modifies changes
    ensures threw == (oldKeys != [] && !IsObject(newProps))
    ensures changes.State() == RecordedAll(old(changes.State()), if threw then [] else RemovedFields(oldKeys, newProps, path))
  {
    if oldKeys != [] && !IsObject(newProps) {
      // the first `key in newProps` throws, before any push
      return true;
    }
    ghost var start := changes.State();
    var i := 0;
    while i < |oldKeys|
      invariant 0 <= i <= |oldKeys|
      invariant changes.State() == RecordedAll(start, RemovedFields(oldKeys[..i], newProps, path))
    {
      ghost var done := RemovedFields(oldKeys[..i], newProps, path);
      RemovedFieldsSnoc(oldKeys, i, newProps, path);
      RecordRemovedField(changes, newProps, path, oldKeys[i]);
      RecordAllAppend(start, done, RemovedStep(newProps, path, oldKeys[i]));
      i := i + 1;
    }
    PrefixAll(oldKeys);
    threw := false;
  }

  /** One pass of the added-or-modified loop of `compareObjects`. */
  method RecordAddedOrChangedField(changes: ChangeSet, oldProps: Json, newProps: Json, path: string, key: string) returns (threw: bool)
    requires !oldProps.JNull? && !newProps.JNull?
    modifies changes
    ensures threw == ThrowsAt(oldProps, newProps, key)
    ensures changes.State() == RecordedAll(old(changes.State()),
      if threw then [] else AddedOrChangedField(oldProps, newProps, path, key))
  {
    if !IsObject(oldProps) {
      return true;
    }
    if !Has(oldProps, key) {
      BreakingKinds(FieldAdded);
      changes.PushNonBreaking(AddedRecord(path, key));
      RecordedAllOne(old(changes.State()), AddedRecord(path, key));
      return false;
    }
    if EntryThrows(oldProps, key) || EntryThrows(newProps, key) {
      return true;
    }
    threw := false;
    var oldType, newType := EntryType(oldProps, key), EntryType(newProps, key);
    if !StrictEquals(oldType, newType) {
      changes.Record(TypeChangedRecord(path, key, oldType, newType));
      RecordedAllOne(old(changes.State()), TypeChangedRecord(path, key, oldType, newType));
    }
  }

  /** The added-or-modified loop of `compareObjects`: it stops at the first
      key that throws, keeping what the earlier keys pushed. */
  method RecordAddedOrChangedFields(changes: ChangeSet, oldProps: Json, newKeys: seq<string>, newProps: Json, path: string)
    returns (threw: bool)
    requires !oldProps.JNull? && !newProps.JNull?
    modifies changes
    ensures threw == (FirstThrow(oldProps, newKeys, newProps) < |newKeys|)
    ensures changes.State() == RecordedAll(old(changes.State()),
      AddedOrChangedFields(oldProps, newKeys[..FirstThrow(oldProps, newKeys, newProps)], newProps, path))
  {
    ghost var start := changes.State();
    var j := 0;
    while j < |newKeys|
      invariant 0 <= j <= |newKeys|
      invariant j <= FirstThrow(oldProps, newKeys, newProps)
      invariant changes.State() == RecordedAll(start, AddedOrChangedFields(oldProps, newKeys[..j], newProps, path))
    {
      ghost var done := AddedOrChangedFields(oldProps, newKeys[..j], newProps, path);
      AddedOrChangedSnoc(oldProps, newKeys, j, newProps, path);
      FirstThrowStep(oldProps, newKeys, newProps, j);
      threw := RecordAddedOrChangedField(changes, oldProps, newProps, path, newKeys[j]);
      if threw {
        return;
      }
      RecordAllAppend(start, done, AddedOrChangedField(oldProps, newProps, path, newKeys[j]));
      j := j + 1;
    }
    PrefixAll(newKeys);
    threw := false;
  }

  /** One pass of the newly-required loop of `compareObjects`, on a list
      that has an `includes`. */
  method RecordRequiredAddedField(changes: ChangeSet, oldRequired: Json, field: Json)
    modifies changes
    ensures changes.State() == RecordedAll(old(changes.State()), RequiredAddedStep(oldRequired, field))
  {
    if !AlreadyRequired(oldRequired, field) {
      changes.Record(RequiredAddedRecord(field));
      RecordedAllOne(old(changes.State()), RequiredAddedRecord(field));
    }
  }

  /** The newly-required loop of `compareObjects`. */
  method RecordRequiredAddedFields(changes: ChangeSet, oldRequired: Json, newRequired: Json) returns (threw: bool)
    modifies changes
    ensures threw == RequiredThrows(oldRequired, newRequired)
    ensures changes.State() == RecordedAll(old(changes.State()),
      if threw then [] else RequiredAddedFields(oldRequired, newRequired.elems))
  {
    if RequiredThrows(oldRequired, newRequired) {
      // `forEach` on a non-array, or the first `oldRequired.includes` call
      // on a list that has none, throws before any push
      return true;
    }
    var entries := newRequired.elems;
    ghost var start := changes.State();
    var n := 0;
    while n < |entries|
      invariant 0 <= n <= |entries|
      invariant changes.State() == RecordedAll(start, RequiredAddedFields(oldRequired, entries[..n]))
    {
      ghost var done := RequiredAddedFields(oldRequired, entries[..n]);
      RequiredAddedSnoc(oldRequired, entries, n);
      RecordRequiredAddedField(changes, oldRequired, entries[n]);
      RecordAllAppend(start, done, RequiredAddedStep(oldRequired, entries[n]));
      n := n + 1;
    }
    PrefixAll(entries);
    threw := false;
  }

  /** `compareSchemasForBreakingChanges(oldSchema, newSchema)`; `None`
      when it throws. */
  method CompareSchemasForBreakingChanges(oldDoc: Json, newDoc: Json) returns (r: Option<Report>)
    ensures r == CompareSchemas(oldDoc, newDoc)
    ensures r.None? <==> ComparisonThrows(oldDoc, newDoc)
    ensures r.Some? ==> Consistent(r.value)
  {
    var changes := new ChangeSet();
    var threw := CompareObjects(changes, oldDoc, newDoc, "");
    if threw {
      return None;
    }
    var report := changes.ToReport();
    r := Some(report);
  }

  // ---------------------------------------------------------------------
  // What each loop emits
  // ---------------------------------------------------------------------

  lemma {:induction false} RemovedFieldsMembers(oldKeys: seq<string>, newProps: Json, path: string)
    ensures forall c :: c in RemovedFields(oldKeys, newProps, path) ==> c.kind == FieldRemoved
  {
    if oldKeys != [] {
      RemovedFieldsMembers(oldKeys[..|oldKeys| - 1], newProps, path);
    }
  }

  /** At the root, a removed key is reported once per time it is listed. */
  lemma {:induction false} RemovedFieldsCount(oldKeys: seq<string>, newProps: Json, k: string)
    ensures Count(RemovedFields(oldKeys, newProps, ""), FieldRemoved, k)
         == if Has(newProps, k) then 0 else multiset(oldKeys)[k]
  {
    if oldKeys != [] {
      var init := oldKeys[..|oldKeys| - 1];
      var key := oldKeys[|oldKeys| - 1];
      var step := RemovedStep(newProps, "", key);
      RemovedFieldsCount(init, newProps, k);
      MultisetLast(oldKeys, k);
      assert Count(step, FieldRemoved, k) == if Has(newProps, key) || key != k then 0 else 1 by {
        if !Has(newProps, key) {
          CountOne(RemovedRecord("", key), FieldRemoved, k);
        }
      }
      CountAppend(RemovedFields(init, newProps, ""), step, FieldRemoved, k);
    }
  }

  /** With every listed key still `in` the new properties, nothing is reported removed. */
  lemma {:induction false} RemovedFieldsNone(oldKeys: seq<string>, newProps: Json, path: string)
    requires forall k :: k in oldKeys ==> Has(newProps, k)
    ensures RemovedFields(oldKeys, newProps, path) == []
  {
    if oldKeys != [] {
      RemovedFieldsNone(oldKeys[..|oldKeys| - 1], newProps, path);
    }
  }

  /** At the root, the second loop emits an added record for a key that is
      not `in` the old properties and a type-changed record, with both
      types, for a shared key whose `type` is not `===`. */
  lemma {:induction false} AddedOrChangedMembers(oldProps: Json, newKeys: seq<string>, newProps: Json)
    requires !oldProps.JNull? && !newProps.JNull?
    ensures forall c :: c in AddedOrChangedFields(oldProps, newKeys, newProps, "") ==>
      c.path in newKeys &&
      ((c.kind == FieldAdded && !Has(oldProps, c.path)) ||
       (c.kind == TypeChanged && Has(oldProps, c.path) &&
        c.detail == TypeDetail(EntryType(oldProps, c.path), EntryType(newProps, c.path)) &&
        !StrictEquals(c.detail.oldType, c.detail.newType)))
  {
    if newKeys != [] {
      AddedOrChangedMembers(oldProps, newKeys[..|newKeys| - 1], newProps);
    }
  }

  lemma AddedOrChangedFieldCount(oldProps: Json, newProps: Json, key: string, k: string)
    requires !oldProps.JNull? && !newProps.JNull?
    ensures Count(AddedOrChangedField(oldProps, newProps, "", key), FieldAdded, k)
         == if key == k && !Has(oldProps, k) then 1 else 0
    ensures Count(AddedOrChangedField(oldProps, newProps, "", key), TypeChanged, k)
         == if key == k && Has(oldProps, k) && !StrictEquals(EntryType(oldProps, k), EntryType(newProps, k))
            then 1 else 0
  {
    var step := AddedOrChangedField(oldProps, newProps, "", key);
    if step != [] {
      assert step[..0] == [];
    }
  }

  lemma {:induction false} AddedOrChangedCount(oldProps: Json, newKeys: seq<string>, newProps: Json, k: string)
    requires !oldProps.JNull? && !newProps.JNull?
    ensures Count(AddedOrChangedFields(oldProps, newKeys, newProps, ""), FieldAdded, k)
         == if Has(oldProps, k) then 0 else multiset(newKeys)[k]
    ensures Count(AddedOrChangedFields(oldProps, newKeys, newProps, ""), TypeChanged, k)
         == if Has(oldProps, k) && !StrictEquals(EntryType(oldProps, k), EntryType(newProps, k))
            then multiset(newKeys)[k] else 0
  {
    if newKeys != [] {
      var init := newKeys[..|newKeys| - 1];
      var key := newKeys[|newKeys| - 1];
      AddedOrChangedCount(oldProps, init, newProps, k);
      MultisetLast(newKeys, k);
      var done := AddedOrChangedFields(oldProps, init, newProps, "");
      var step := AddedOrChangedField(oldProps, newProps, "", key);
      assert AddedOrChangedFields(oldProps, newKeys, newProps, "") == done + step;
      AddedOrChangedFieldCount(oldProps, newProps, key, k);
      CountAppend(done, step, FieldAdded, k);
      CountAppend(done, step, TypeChanged, k);
    }
  }

  /** Keys all `in` the old properties with a `===` type emit nothing. */
  lemma {:induction false} AddedOrChangedNone(oldProps: Json, newKeys: seq<string>, newProps: Json, path: string)
    requires !oldProps.JNull? && !newProps.JNull?
    requires forall k :: k in newKeys ==>
      Has(oldProps, k) && StrictEquals(EntryType(oldProps, k), EntryType(newProps, k))
    ensures AddedOrChangedFields(oldProps, newKeys, newProps, path) == []
  {
    if newKeys != [] {
      AddedOrChangedNone(oldProps, newKeys[..|newKeys| - 1], newProps, path);
    }
  }

  /** Every record of the third loop is the record of an entry of the new
      list that the old one does not include. */
  lemma {:induction false} RequiredAddedMembers(oldRequired: Json, newEntries: seq<Json>)
    ensures forall c :: c in RequiredAddedFields(oldRequired, newEntries) ==>
      c.kind == RequiredAdded &&
      exists f :: f in newEntries && !AlreadyRequired(oldRequired, f) && c == RequiredAddedRecord(f)
  {
    if newEntries != [] {
      var init := newEntries[..|newEntries| - 1];
      var field := newEntries[|newEntries| - 1];
      RequiredAddedMembers(oldRequired, init);
      forall c | c in RequiredAddedFields(oldRequired, newEntries)
        ensures exists f :: f in newEntries && !AlreadyRequired(oldRequired, f) && c == RequiredAddedRecord(f)
      {
        if c in RequiredAddedFields(oldRequired, init) {
          var f :| f in init && !AlreadyRequired(oldRequired, f) && c == RequiredAddedRecord(f);
          assert f in newEntries;
        } else {
          assert field in newEntries;
        }
      }
    }
  }

  /** Every entry of the new list that the old one does not include has its record. */
  lemma {:induction false} RequiredAddedIncludes(oldRequired: Json, newEntries: seq<Json>, f: Json)
    requires f in newEntries && !AlreadyRequired(oldRequired, f)
    ensures RequiredAddedRecord(f) in RequiredAddedFields(oldRequired, newEntries)
  {
    var init := newEntries[..|newEntries| - 1];
    InInitOrLast(newEntries, f);
    if f != newEntries[|newEntries| - 1] {
      RequiredAddedIncludes(oldRequired, init, f);
    }
  }

  /** One entry adds a record at `p` only when it is the string `p` and the
      old list does not include it. */
  lemma RequiredAddedStepCount(oldRequired: Json, field: Json, p: string)
    requires JsonString(field) == p ==> field == JStr(p)
    ensures Count(RequiredAddedStep(oldRequired, field), RequiredAdded, p)
         == if field == JStr(p) && !AlreadyRequired(oldRequired, JStr(p)) then 1 else 0
  {
    if !AlreadyRequired(oldRequired, field) {
      CountOne(RequiredAddedRecord(field), RequiredAdded, p);
    }
  }

  /** When no entry other than the string `p` itself renders as `p`, the
      records at path `p` are one per listing of `p`, unless the old list
      includes it. */
  lemma {:induction false} RequiredAddedCount(oldRequired: Json, newEntries: seq<Json>, p: string)
    requires forall e :: e in newEntries && JsonString(e) == p ==> e == JStr(p)
    ensures Count(RequiredAddedFields(oldRequired, newEntries), RequiredAdded, p)
         == if AlreadyRequired(oldRequired, JStr(p)) then 0 else multiset(newEntries)[JStr(p)]
  {
    if newEntries != [] {
      var init := newEntries[..|newEntries| - 1];
      var field := newEntries[|newEntries| - 1];
      var step := RequiredAddedStep(oldRequired, field);
      forall e | e in init && JsonString(e) == p
        ensures e == JStr(p)
      {
        assert e in newEntries;
      }
      RequiredAddedCount(oldRequired, init, p);
      MultisetLast(newEntries, JStr(p));
      assert JsonString(field) == p ==> field == JStr(p) by {
        assert field in newEntries;
      }
      RequiredAddedStepCount(oldRequired, field, p);
      CountAppend(RequiredAddedFields(oldRequired, init), step, RequiredAdded, p);
    }
  }

  // ---------------------------------------------------------------------
  // Properties of the comparator's report
  // ---------------------------------------------------------------------

  /** The classification of a stream made of the three phases, whatever their records. */
  lemma PhasedClassification(removed: seq<Change>, addedOrChanged: seq<Change>, requiredAdded: seq<Change>)
    requires forall c :: c in removed ==> c.kind == FieldRemoved
    requires forall c :: c in addedOrChanged ==> c.kind == FieldAdded || c.kind == TypeChanged
    requires forall c :: c in requiredAdded ==> c.kind == RequiredAdded
    ensures BreakingOf(removed + addedOrChanged + requiredAdded)
         == removed + OfKind(addedOrChanged, TypeChanged) + requiredAdded
    ensures NonBreakingOf(removed + addedOrChanged + requiredAdded) == OfKind(addedOrChanged, FieldAdded)
  {
    BreakingKinds(FieldRemoved);
    BreakingKinds(RequiredAdded);
    AllBreaking(removed);
    AllBreaking(requiredAdded);
    AddedOrChangedSplit(addedOrChanged);
    BreakingOfAppend(removed, addedOrChanged);
    BreakingOfAppend(removed + addedOrChanged, requiredAdded);
  }

  /** A list made of removals, then type changes, then newly-required
      fields, splits back into those three by kind. */
  lemma PhasedKinds(removed: seq<Change>, changed: seq<Change>, requiredAdded: seq<Change>)
    requires forall c :: c in removed ==> c.kind == FieldRemoved
    requires forall c :: c in changed ==> c.kind == TypeChanged
    requires forall c :: c in requiredAdded ==> c.kind == RequiredAdded
    ensures var all := removed + changed + requiredAdded;
      && OfKind(all, FieldRemoved) == removed
      && OfKind(all, TypeChanged) == changed
      && OfKind(all, RequiredAdded) == requiredAdded
  {
    OfKindAppend(removed, changed, FieldRemoved);
    OfKindAppend(removed, changed, TypeChanged);
    OfKindAppend(removed, changed, RequiredAdded);
    assert OfKind(removed + changed + requiredAdded, FieldRemoved) == removed by {
      OfKindAll(removed, FieldRemoved);
      OfKindNone(changed, FieldRemoved);
      OfKindNone(requiredAdded, FieldRemoved);
      OfKindAppend(removed + changed, requiredAdded, FieldRemoved);
    }
    assert OfKind(removed + changed + requiredAdded, TypeChanged) == changed by {
      OfKindNone(removed, TypeChanged);
      OfKindAll(changed, TypeChanged);
      OfKindNone(requiredAdded, TypeChanged);
      OfKindAppend(removed + changed, requiredAdded, TypeChanged);
    }
    assert OfKind(removed + changed + requiredAdded, RequiredAdded) == requiredAdded by {
      OfKindNone(removed, RequiredAdded);
      OfKindNone(changed, RequiredAdded);
      OfKindAll(requiredAdded, RequiredAdded);
      OfKindAppend(removed + changed, requiredAdded, RequiredAdded);
    }
  }

  lemma OfKindMembers(cs: seq<Change>, kind: ChangeKind)
    ensures forall c :: c in OfKind(cs, kind) ==> c.kind == kind && c in cs
  {
    if cs != [] {
      OfKindMembers(cs[..|cs| - 1], kind);
    }
  }

  /** The report's breaking and non-breaking lists, by phase. */
  lemma ReportParts(oldDoc: Json, newDoc: Json)
    requires !oldDoc.JNull? && !newDoc.JNull?
    ensures var oldProps, newProps := PropsOf(oldDoc), PropsOf(newDoc);
      var r := ReportOf(oldDoc, newDoc);
      && Consistent(r)
      && r.breaking == RemovedFields(KeysOf(oldProps), newProps, "")
                       + OfKind(AddedOrChangedFields(oldProps, KeysOf(newProps), newProps, ""), TypeChanged)
                       + RequiredAddedFields(RequiredListOf(oldDoc), RequiredEntries(RequiredListOf(newDoc)))
      && r.nonBreaking == OfKind(AddedOrChangedFields(oldProps, KeysOf(newProps), newProps, ""), FieldAdded)
  {
    var oldProps, newProps := PropsOf(oldDoc), PropsOf(newDoc);
    var removed := RemovedFields(KeysOf(oldProps), newProps, "");
    var addedOrChanged := AddedOrChangedFields(oldProps, KeysOf(newProps), newProps, "");
    var requiredAdded := RequiredAddedFields(RequiredListOf(oldDoc), RequiredEntries(RequiredListOf(newDoc)));
    var stream := removed + addedOrChanged + requiredAdded;
    var r := ReportOf(oldDoc, newDoc);
    assert Consistent(r) && r.breaking == BreakingOf(stream) && r.nonBreaking == NonBreakingOf(stream) by {
      assert ComparisonStream(oldDoc, newDoc, "") == stream;
      ClassifiedReportConsistent(stream);
    }
    assert BreakingOf(stream) == removed + OfKind(addedOrChanged, TypeChanged) + requiredAdded
        && NonBreakingOf(stream) == OfKind(addedOrChanged, FieldAdded) by {
      RemovedFieldsMembers(KeysOf(oldProps), newProps, "");
      AddedOrChangedMembers(oldProps, KeysOf(newProps), newProps);
      RequiredAddedMembers(RequiredListOf(oldDoc), RequiredEntries(RequiredListOf(newDoc)));
      PhasedClassification(removed, addedOrChanged, requiredAdded);
    }
  }

  /** Every breaking record of the report is a removal, a type change or a
      newly-required field, listed in that order; every non-breaking one is
      an added field; and the flag is set exactly when a breaking record exists. */
  lemma ReportShape(oldDoc: Json, newDoc: Json)
    requires !oldDoc.JNull? && !newDoc.JNull?
    ensures var r := ReportOf(oldDoc, newDoc);
      && Consistent(r)
      && r.breaking == OfKind(r.breaking, FieldRemoved) + OfKind(r.breaking, TypeChanged) + OfKind(r.breaking, RequiredAdded)
      && r.nonBreaking == OfKind(r.nonBreaking, FieldAdded)
  {
    var oldProps, newProps := PropsOf(oldDoc), PropsOf(newDoc);
    var removed := RemovedFields(KeysOf(oldProps), newProps, "");
    var addedOrChanged := AddedOrChangedFields(oldProps, KeysOf(newProps), newProps, "");
    var requiredAdded := RequiredAddedFields(RequiredListOf(oldDoc), RequiredEntries(RequiredListOf(newDoc)));
    ReportParts(oldDoc, newDoc);
    RemovedFieldsMembers(KeysOf(oldProps), newProps, "");
    RequiredAddedMembers(RequiredListOf(oldDoc), RequiredEntries(RequiredListOf(newDoc)));
    OfKindMembers(addedOrChanged, TypeChanged);
    OfKindMembers(addedOrChanged, FieldAdded);
    PhasedKinds(removed, OfKind(addedOrChanged, TypeChanged), requiredAdded);
    OfKindAll(OfKind(addedOrChanged, FieldAdded), FieldAdded);
  }

  lemma {:induction false} RequiredAddedNone(oldRequired: Json, newEntries: seq<Json>)
    requires forall f :: f in newEntries ==> AlreadyRequired(oldRequired, f)
    ensures RequiredAddedFields(oldRequired, newEntries) == []
  {
    if newEntries != [] {
      RequiredAddedNone(oldRequired, newEntries[..|newEntries| - 1]);
    }
  }

  lemma CountOfThree(a: seq<Change>, b: seq<Change>, c: seq<Change>, kind: ChangeKind, path: string)
    ensures Count(a + b + c, kind, path) == Count(a, kind, path) + Count(b, kind, path) + Count(c, kind, path)
  {
    CountAppend(a + b, c, kind, path);
    CountAppend(a, b, kind, path);
  }

  /** Only the first part of a three-part log holds records of `kind`. */
  lemma CountOfFirst(a: seq<Change>, b: seq<Change>, c: seq<Change>, kind: ChangeKind, path: string)
    requires forall x :: x in b ==> x.kind != kind
    requires forall x :: x in c ==> x.kind != kind
    ensures Count(a + b + c, kind, path) == Count(a, kind, path)
  {
    CountOfThree(a, b, c, kind, path);
    CountNoKind(b, kind, path);
    CountNoKind(c, kind, path);
  }

  /** Only the middle part of a three-part log holds records of `kind`. */
  lemma CountOfSecond(a: seq<Change>, b: seq<Change>, c: seq<Change>, kind: ChangeKind, path: string)
    requires forall x :: x in a ==> x.kind != kind
    requires forall x :: x in c ==> x.kind != kind
    ensures Count(a + b + c, kind, path) == Count(b, kind, path)
  {
    CountOfThree(a, b, c, kind, path);
    CountNoKind(a, kind, path);
    CountNoKind(c, kind, path);
  }

  /** Only the last part of a three-part log holds records of `kind`. */
  lemma CountOfLast(a: seq<Change>, b: seq<Change>, c: seq<Change>, kind: ChangeKind, path: string)
    requires forall x :: x in a ==> x.kind != kind
    requires forall x :: x in b ==> x.kind != kind
    ensures Count(a + b + c, kind, path) == Count(c, kind, path)
  {
    CountOfThree(a, b, c, kind, path);
    CountNoKind(a, kind, path);
    CountNoKind(b, kind, path);
  }

  lemma RemovedReported(oldDoc: Json, newDoc: Json, k: string)
    requires !oldDoc.JNull? && !newDoc.JNull?
    ensures Count(ReportOf(oldDoc, newDoc).breaking, FieldRemoved, k)
         == if Has(PropsOf(newDoc), k) then 0 else multiset(KeysOf(PropsOf(oldDoc)))[k]
  {
    var oldProps, newProps := PropsOf(oldDoc), PropsOf(newDoc);
    var removed := RemovedFields(KeysOf(oldProps), newProps, "");
    var changed := OfKind(AddedOrChangedFields(oldProps, KeysOf(newProps), newProps, ""), TypeChanged);
    var requiredAdded := RequiredAddedFields(RequiredListOf(oldDoc), RequiredEntries(RequiredListOf(newDoc)));
    ReportParts(oldDoc, newDoc);
    OfKindMembers(AddedOrChangedFields(oldProps, KeysOf(newProps), newProps, ""), TypeChanged);
    RequiredAddedMembers(RequiredListOf(oldDoc), RequiredEntries(RequiredListOf(newDoc)));
    CountOfFirst(removed, changed, requiredAdded, FieldRemoved, k);
    RemovedFieldsCount(KeysOf(oldProps), newProps, k);
  }

  lemma TypeChangeReported(oldDoc: Json, newDoc: Json, k: string)
    requires !oldDoc.JNull? && !newDoc.JNull?
    ensures var oldProps, newProps := PropsOf(oldDoc), PropsOf(newDoc);
      Count(ReportOf(oldDoc, newDoc).breaking, TypeChanged, k)
      == if Has(oldProps, k) && !StrictEquals(EntryType(oldProps, k), EntryType(newProps, k))
         then multiset(KeysOf(newProps))[k] else 0
  {
    var oldProps, newProps := PropsOf(oldDoc), PropsOf(newDoc);
    var removed := RemovedFields(KeysOf(oldProps), newProps, "");
    var addedOrChanged := AddedOrChangedFields(oldProps, KeysOf(newProps), newProps, "");
    var changed := OfKind(addedOrChanged, TypeChanged);
    var requiredAdded := RequiredAddedFields(RequiredListOf(oldDoc), RequiredEntries(RequiredListOf(newDoc)));
    ReportParts(oldDoc, newDoc);
    RemovedFieldsMembers(KeysOf(oldProps), newProps, "");
    RequiredAddedMembers(RequiredListOf(oldDoc), RequiredEntries(RequiredListOf(newDoc)));
    CountOfSecond(removed, changed, requiredAdded, TypeChanged, k);
    CountOfKind(addedOrChanged, TypeChanged, k);
    AddedOrChangedCount(oldProps, KeysOf(newProps), newProps, k);
  }

  /** For a field name `f` that no other entry of the new list renders
      as, the `REQUIRED_ADDED` records at `f` are one per listing of `f`,
      unless the old list includes it. */
  lemma RequiredAddedReported(oldDoc: Json, newDoc: Json, f: string)
    requires !oldDoc.JNull? && !newDoc.JNull?
    requires forall e :: e in RequiredEntries(RequiredListOf(newDoc)) && JsonString(e) == f ==> e == JStr(f)
    ensures Count(ReportOf(oldDoc, newDoc).breaking, RequiredAdded, f)
         == if AlreadyRequired(RequiredListOf(oldDoc), JStr(f)) then 0
            else multiset(RequiredEntries(RequiredListOf(newDoc)))[JStr(f)]
  {
    var oldProps, newProps := PropsOf(oldDoc), PropsOf(newDoc);
    var removed := RemovedFields(KeysOf(oldProps), newProps, "");
    var changed := OfKind(AddedOrChangedFields(oldProps, KeysOf(newProps), newProps, ""), TypeChanged);
    var requiredAdded := RequiredAddedFields(RequiredListOf(oldDoc), RequiredEntries(RequiredListOf(newDoc)));
    ReportParts(oldDoc, newDoc);
    RemovedFieldsMembers(KeysOf(oldProps), newProps, "");
    OfKindMembers(AddedOrChangedFields(oldProps, KeysOf(newProps), newProps, ""), TypeChanged);
    CountOfLast(removed, changed, requiredAdded, RequiredAdded, f);
    RequiredAddedCount(RequiredListOf(oldDoc), RequiredEntries(RequiredListOf(newDoc)), f);
  }

  lemma AddedReported(oldDoc: Json, newDoc: Json, k: string)
    requires !oldDoc.JNull? && !newDoc.JNull?
    ensures Count(ReportOf(oldDoc, newDoc).nonBreaking, FieldAdded, k)
         == if Has(PropsOf(oldDoc), k) then 0 else multiset(KeysOf(PropsOf(newDoc)))[k]
  {
    var oldProps, newProps := PropsOf(oldDoc), PropsOf(newDoc);
    ReportParts(oldDoc, newDoc);
    CountOfKind(AddedOrChangedFields(oldProps, KeysOf(newProps), newProps, ""), FieldAdded, k);
    AddedOrChangedCount(oldProps, KeysOf(newProps), newProps, k);
  }

  /** When `Object.keys` lists no key twice on either side (every parsed
      JSON object), each key is reported at most once per kind: removed
      exactly when it is listed on the old side and not `in` the new
      properties, added exactly when it is listed on the new side and not
      `in` the old ones, and type-changed exactly when it is listed on the
      new side, `in` the old ones, and the `type` values are not `===`. */
  lemma FieldReportedOnce(oldDoc: Json, newDoc: Json, k: string)
    requires !oldDoc.JNull? && !newDoc.JNull?
    requires Distinct(KeysOf(PropsOf(oldDoc))) && Distinct(KeysOf(PropsOf(newDoc)))
    ensures var oldProps, newProps := PropsOf(oldDoc), PropsOf(newDoc);
      var r := ReportOf(oldDoc, newDoc);
      && Count(r.breaking, FieldRemoved, k) == (if k in KeysOf(oldProps) && !Has(newProps, k) then 1 else 0)
      && Count(r.nonBreaking, FieldAdded, k) == (if k in KeysOf(newProps) && !Has(oldProps, k) then 1 else 0)
      && Count(r.breaking, TypeChanged, k)
         == (if k in KeysOf(newProps) && Has(oldProps, k) &&
                !StrictEquals(EntryType(oldProps, k), EntryType(newProps, k))
             then 1 else 0)
  {
    RemovedReported(oldDoc, newDoc, k);
    AddedReported(oldDoc, newDoc, k);
    TypeChangeReported(oldDoc, newDoc, k);
    DistinctOnce(KeysOf(PropsOf(oldDoc)), k);
    DistinctOnce(KeysOf(PropsOf(newDoc)), k);
  }

  /** The type changes of the report are the second loop's. */
  lemma TypeChangesFromSecondLoop(oldDoc: Json, newDoc: Json)
    requires !oldDoc.JNull? && !newDoc.JNull?
    ensures forall c :: c in ReportOf(oldDoc, newDoc).breaking && c.kind == TypeChanged ==>
      c in AddedOrChangedFields(PropsOf(oldDoc), KeysOf(PropsOf(newDoc)), PropsOf(newDoc), "")
  {
    var oldProps, newProps := PropsOf(oldDoc), PropsOf(newDoc);
    var removed := RemovedFields(KeysOf(oldProps), newProps, "");
    var addedOrChanged := AddedOrChangedFields(oldProps, KeysOf(newProps), newProps, "");
    var changed := OfKind(addedOrChanged, TypeChanged);
    var requiredAdded := RequiredAddedFields(RequiredListOf(oldDoc), RequiredEntries(RequiredListOf(newDoc)));
    ReportParts(oldDoc, newDoc);
    RemovedFieldsMembers(KeysOf(oldProps), newProps, "");
    RequiredAddedMembers(RequiredListOf(oldDoc), RequiredEntries(RequiredListOf(newDoc)));
    OfKindMembers(addedOrChanged, TypeChanged);
  }

  /** A type-changed record names a key listed on the new side and `in`
      the old properties, and carries the two non-`===` types it was raised for. */
  lemma TypeChangeDetails(oldDoc: Json, newDoc: Json)
    requires !oldDoc.JNull? && !newDoc.JNull?
    ensures var oldProps, newProps := PropsOf(oldDoc), PropsOf(newDoc);
      forall c :: c in ReportOf(oldDoc, newDoc).breaking && c.kind == TypeChanged ==>
        && c.path in KeysOf(newProps) && Has(oldProps, c.path)
        && c.detail == TypeDetail(EntryType(oldProps, c.path), EntryType(newProps, c.path))
        && !StrictEquals(c.detail.oldType, c.detail.newType)
  {
    TypeChangesFromSecondLoop(oldDoc, newDoc);
    AddedOrChangedMembers(PropsOf(oldDoc), KeysOf(PropsOf(newDoc)), PropsOf(newDoc));
  }

  /** Every old key is still `in` the new properties, and every new key
      that is `in` the old properties keeps a `===` type. */
  predicate KeepsFields(oldProps: Json, newProps: Json)
    requires !oldProps.JNull? && !newProps.JNull?
  {
    && (forall k :: k in KeysOf(oldProps) ==> Has(newProps, k))
    && (forall k :: k in KeysOf(newProps) && Has(oldProps, k) ==> StrictEquals(EntryType(oldProps, k), EntryType(newProps, k)))
  }

  /** Every entry of the new `required` list is included in the old one. */
  predicate KeepsRequirements(oldRequired: Json, newEntries: seq<Json>)
  {
    forall f :: f in newEntries ==> AlreadyRequired(oldRequired, f)
  }

  lemma KeptFieldsNotReported(oldProps: Json, newProps: Json)
    requires !oldProps.JNull? && !newProps.JNull?
    requires KeepsFields(oldProps, newProps)
    ensures RemovedFields(KeysOf(oldProps), newProps, "") == []
    ensures OfKind(AddedOrChangedFields(oldProps, KeysOf(newProps), newProps, ""), TypeChanged) == []
  {
    RemovedFieldsNone(KeysOf(oldProps), newProps, "");
    AddedOrChangedMembers(oldProps, KeysOf(newProps), newProps);
    OfKindNone(AddedOrChangedFields(oldProps, KeysOf(newProps), newProps, ""), TypeChanged);
  }

  lemma LostFieldReported(oldProps: Json, newProps: Json)
    requires !oldProps.JNull? && !newProps.JNull?
    requires !KeepsFields(oldProps, newProps)
    ensures RemovedFields(KeysOf(oldProps), newProps, "") != [] ||
            OfKind(AddedOrChangedFields(oldProps, KeysOf(newProps), newProps, ""), TypeChanged) != []
  {
    var oldKeys, newKeys := KeysOf(oldProps), KeysOf(newProps);
    if k :| k in oldKeys && !Has(newProps, k) {
      MultisetIn(oldKeys, k);
      RemovedFieldsCount(oldKeys, newProps, k);
      assert Count(RemovedFields(oldKeys, newProps, ""), FieldRemoved, k) > 0;
    } else {
      var k :| k in newKeys && Has(oldProps, k) && !StrictEquals(EntryType(oldProps, k), EntryType(newProps, k));
      var addedOrChanged := AddedOrChangedFields(oldProps, newKeys, newProps, "");
      MultisetIn(newKeys, k);
      AddedOrChangedCount(oldProps, newKeys, newProps, k);
      CountOfKind(addedOrChanged, TypeChanged, k);
      assert Count(OfKind(addedOrChanged, TypeChanged), TypeChanged, k) > 0;
    }
  }

  lemma KeepsFieldsIff(oldProps: Json, newProps: Json)
    requires !oldProps.JNull? && !newProps.JNull?
    ensures (RemovedFields(KeysOf(oldProps), newProps, "") == [] &&
             OfKind(AddedOrChangedFields(oldProps, KeysOf(newProps), newProps, ""), TypeChanged) == [])
            <==> KeepsFields(oldProps, newProps)
  {
    if KeepsFields(oldProps, newProps) {
      KeptFieldsNotReported(oldProps, newProps);
    } else {
      LostFieldReported(oldProps, newProps);
    }
  }

  lemma KeepsRequirementsIff(oldRequired: Json, newEntries: seq<Json>)
    ensures RequiredAddedFields(oldRequired, newEntries) == [] <==> KeepsRequirements(oldRequired, newEntries)
  {
    if KeepsRequirements(oldRequired, newEntries) {
      RequiredAddedNone(oldRequired, newEntries);
    } else {
      var f :| f in newEntries && !AlreadyRequired(oldRequired, f);
      RequiredAddedIncludes(oldRequired, newEntries, f);
    }
  }

  /** The comparison reports no breaking change, and leaves the flag down,
      exactly when every old key is still `in` the new properties with a
      `===` type and every newly-required entry was already included. */
  lemma NoBreakingChangesIff(oldDoc: Json, newDoc: Json)
    requires !oldDoc.JNull? && !newDoc.JNull?
    ensures var r := ReportOf(oldDoc, newDoc);
      (r.breaking == [] && !r.hasBreakingChanges)
      <==> KeepsFields(PropsOf(oldDoc), PropsOf(newDoc)) &&
           KeepsRequirements(RequiredListOf(oldDoc), RequiredEntries(RequiredListOf(newDoc)))
  {
    ReportParts(oldDoc, newDoc);
    KeepsFieldsIff(PropsOf(oldDoc), PropsOf(newDoc));
    KeepsRequirementsIff(RequiredListOf(oldDoc), RequiredEntries(RequiredListOf(newDoc)));
  }

  /** Comparing a schema with itself, when it does not throw, reports
      nothing, provided every property's `type` and every `required` entry
      is a primitive (an object or array is a fresh reference on each side
      and never `===`). */
  lemma CompareWithItselfIsEmpty(doc: Json)
    requires !ComparisonThrows(doc, doc)
    requires forall k :: k in KeysOf(PropsOf(doc)) ==> IsPrimitive(EntryType(PropsOf(doc), k))
    requires forall e :: e in RequiredEntries(RequiredListOf(doc)) ==> IsPrimitive(Some(e))
    ensures CompareSchemas(doc, doc) == Some(EmptyReport)
  {
    var props, required := PropsOf(doc), RequiredListOf(doc);
    assert forall k :: k in KeysOf(props) ==> Has(props, k) by {
      forall k | k in KeysOf(props)
        ensures Has(props, k)
      {
        OwnKeyHas(props, k);
      }
    }
    RemovedFieldsNone(KeysOf(props), props, "");
    AddedOrChangedNone(props, KeysOf(props), props, "");
    SameRequiredNone(required);
    assert ComparisonStream(doc, doc, "") == [];
  }

  /** On an object, `in` and `props[key].type` read its field list. */
  lemma ObjectEntry(fields: seq<(string, Json)>, x: string)
    ensures Has(JObj(fields), x) <==> x in Keys(fields)
    ensures KeysOf(JObj(fields)) == Keys(fields)
    ensures EntryType(JObj(fields), x) == if x in Keys(fields) then Member(Get(fields, x).value, "type") else None
  {
  }

  /** Appending one new field to a property list: the other keys keep their entries. */
  lemma ExtendedProperties(fields: seq<(string, Json)>, k: string, v: Json)
    requires forall e :: e in fields ==> IsPrimitive(Member(e.1, "type"))
    ensures KeysOf(JObj(fields + [(k, v)])) == KeysOf(JObj(fields)) + [k]
    ensures forall x :: x in KeysOf(JObj(fields)) ==>
      && Has(JObj(fields + [(k, v)]), x)
      && StrictEquals(EntryType(JObj(fields), x), EntryType(JObj(fields + [(k, v)]), x))
      && StrictEquals(EntryType(JObj(fields + [(k, v)]), x), EntryType(JObj(fields), x))
  {
    var extended := fields + [(k, v)];
    KeysAppend(fields, [(k, v)]);
    assert Keys([(k, v)]) == [k];
    ObjectEntry(fields, k);
    ObjectEntry(extended, k);
    forall x | x in KeysOf(JObj(fields))
      ensures Has(JObj(extended), x)
      ensures StrictEquals(EntryType(JObj(fields), x), EntryType(JObj(extended), x))
      ensures StrictEquals(EntryType(JObj(extended), x), EntryType(JObj(fields), x))
    {
      ObjectEntry(fields, x);
      ObjectEntry(extended, x);
      GetAppend(fields, [(k, v)], x);
      assert (x, Get(fields, x).value) in fields;
    }
  }

  /** A `required` list of primitives compared with itself adds nothing. */
  lemma SameRequiredNone(required: Json)
    requires forall e :: e in RequiredEntries(required) ==> IsPrimitive(Some(e))
    ensures RequiredAddedFields(required, RequiredEntries(required)) == []
  {
    forall f | f in RequiredEntries(required)
      ensures AlreadyRequired(required, f)
    {
      assert StrictEquals(Some(f), Some(f));
    }
    RequiredAddedNone(required, RequiredEntries(required));
  }

  /** The second loop over a field list extended by a new key reports that key only. */
  lemma AddedFieldLoop(fields: seq<(string, Json)>, k: string, v: Json)
    requires k !in Keys(fields)
    requires forall e :: e in fields ==> IsPrimitive(Member(e.1, "type"))
    ensures AddedOrChangedFields(JObj(fields), KeysOf(JObj(fields + [(k, v)])), JObj(fields + [(k, v)]), "")
         == [AddedRecord("", k)]
  {
    var props, extended := JObj(fields), JObj(fields + [(k, v)]);
    var keys := KeysOf(props);
    ExtendedProperties(fields, k, v);
    assert KeysOf(extended)[..|keys|] == keys;
    AddedOrChangedNone(props, keys, extended, "");
    ObjectEntry(fields, k);
    assert AddedOrChangedField(props, extended, "", k) == [AddedRecord("", k)];
  }

  lemma AddedFieldStream(a: Json, b: Json, fields: seq<(string, Json)>, k: string, v: Json)
    requires !a.JNull? && !b.JNull?
    requires PropsOf(a) == JObj(fields) && PropsOf(b) == JObj(fields + [(k, v)])
    requires k !in Keys(fields)
    requires RequiredListOf(b) == RequiredListOf(a)
    requires forall e :: e in fields ==> IsPrimitive(Member(e.1, "type"))
    requires forall e :: e in RequiredEntries(RequiredListOf(a)) ==> IsPrimitive(Some(e))
    ensures ComparisonStream(a, b, "") == [AddedRecord("", k)]
  {
    var props, extended := JObj(fields), JObj(fields + [(k, v)]);
    var removed := RemovedFields(KeysOf(props), extended, "");
    var addedOrChanged := AddedOrChangedFields(props, KeysOf(extended), extended, "");
    var required := RequiredListOf(a);
    var requiredAdded := RequiredAddedFields(required, RequiredEntries(required));
    assert removed == [] by {
      ExtendedProperties(fields, k, v);
      RemovedFieldsNone(KeysOf(props), extended, "");
    }
    AddedFieldLoop(fields, k, v);
    SameRequiredNone(required);
    assert ComparisonStream(a, b, "") == removed + addedOrChanged + requiredAdded;
  }

  /** The first loop over a field list extended by a new key, against the
      list without it, reports that key only. */
  lemma RemovedFieldLoop(fields: seq<(string, Json)>, k: string, v: Json)
    requires k !in Keys(fields)
    ensures RemovedFields(KeysOf(JObj(fields + [(k, v)])), JObj(fields), "") == [RemovedRecord("", k)]
  {
    var props, keys := JObj(fields), Keys(fields);
    ObjectEntry(fields + [(k, v)], k);
    KeysAppend(fields, [(k, v)]);
    assert Keys([(k, v)]) == [k];
    assert (keys + [k])[..|keys|] == keys;
    forall x | x in keys
      ensures Has(props, x)
    {
      ObjectEntry(fields, x);
    }
    RemovedFieldsNone(keys, props, "");
    ObjectEntry(fields, k);
    assert RemovedFields(keys + [k], props, "") == RemovedFields(keys, props, "") + RemovedStep(props, "", k);
  }

  lemma RemovedFieldStream(a: Json, b: Json, fields: seq<(string, Json)>, k: string, v: Json)
    requires !a.JNull? && !b.JNull?
    requires PropsOf(a) == JObj(fields) && PropsOf(b) == JObj(fields + [(k, v)])
    requires k !in Keys(fields)
    requires RequiredListOf(b) == RequiredListOf(a)
    requires forall e :: e in fields ==> IsPrimitive(Member(e.1, "type"))
    requires forall e :: e in RequiredEntries(RequiredListOf(a)) ==> IsPrimitive(Some(e))
    ensures ComparisonStream(b, a, "") == [RemovedRecord("", k)]
  {
    var props, extended := JObj(fields), JObj(fields + [(k, v)]);
    var removed := RemovedFields(KeysOf(extended), props, "");
    var changed := AddedOrChangedFields(extended, KeysOf(props), props, "");
    var required := RequiredListOf(a);
    var requiredAdded := RequiredAddedFields(required, RequiredEntries(required));
    RemovedFieldLoop(fields, k, v);
    assert changed == [] by {
      ExtendedProperties(fields, k, v);
      AddedOrChangedNone(extended, KeysOf(props), props, "");
    }
    SameRequiredNone(required);
    assert ComparisonStream(b, a, "") == removed + changed + requiredAdded;
  }

  /** Adding one field to a schema is reported as exactly one non-breaking
      addition, and removing it again as exactly one breaking removal. */
  lemma AddThenRemoveField(a: Json, b: Json, fields: seq<(string, Json)>, k: string, v: Json)
    requires !a.JNull? && !b.JNull?
    requires PropsOf(a) == JObj(fields) && PropsOf(b) == JObj(fields + [(k, v)])
    requires k !in Keys(fields)
    requires RequiredListOf(b) == RequiredListOf(a)
    requires forall e :: e in fields ==> IsPrimitive(Member(e.1, "type"))
    requires forall e :: e in RequiredEntries(RequiredListOf(a)) ==> IsPrimitive(Some(e))
    ensures ReportOf(a, b) == Report([], [AddedRecord("", k)], Summary(0, 1, false), false)
    ensures ReportOf(b, a) == Report([RemovedRecord("", k)], [], Summary(1, 0, true), true)
  {
    assert ReportOf(a, b) == Report([], [AddedRecord("", k)], Summary(0, 1, false), false) by {
      AddedFieldStream(a, b, fields, k, v);
      SummarizeSingle(AddedRecord("", k));
      BreakingKinds(FieldAdded);
    }
    assert ReportOf(b, a) == Report([RemovedRecord("", k)], [], Summary(1, 0, true), true) by {
      RemovedFieldStream(a, b, fields, k, v);
      SummarizeSingle(RemovedRecord("", k));
      BreakingKinds(FieldRemoved);
    }
  }

  // ---------------------------------------------------------------------
  // Registration
  // ---------------------------------------------------------------------

  /** The request body of a registration: each field as JavaScript reads it
      (`None` when the body lacks it). */
  datatype SchemaData = SchemaData(name: Value, version: Value, content: Value, serviceName: Value)

  /** A stored schema row; `content` is the document as `JSON.parse` gives it back. */
  datatype StoredSchema = StoredSchema(id: nat, name: Json, version: Json, content: Json, serviceName: Json)

  /** What `registerSchema` resolves with. */
  datatype Registration = Registration(schema: StoredSchema, previousVersion: Value, analysis: Option<Report>, isFirstVersion: bool)

  /** What `registerSchema` rejects with: the validation error, the
      TypeError of a comparison that throws, or the store's failure on a
      second row with the same (name, version, service). */
  datatype RegistrationError = MissingRequiredField(field: string) | ComparisonThrew | DuplicateVersion

  datatype Result<T, E> = Ok(value: T) | Err(error: E)

  /** The fields `validateSchemaData` checks, in the order it checks them. */
  const RequiredFields: seq<string> := ["name", "version", "content", "service_name"]

  /** `schemaData[field]` */
  function FieldValue(data: SchemaData, field: string): Value
  {
    if field == "name" then data.name
    else if field == "version" then data.version
    else if field == "content" then data.content
    else if field == "service_name" then data.serviceName
    else None
  }

  /** The first of `fields` whose value in `data` is falsy. */
  function FirstFalsy(data: SchemaData, fields: seq<string>): (f: Option<string>)
    ensures f.None? <==> forall i :: 0 <= i < |fields| ==> Truthy(FieldValue(data, fields[i]))
    ensures f.Some? ==> exists i :: 0 <= i < |fields| && fields[i] == f.value && !Truthy(FieldValue(data, fields[i]))
                           && forall j :: 0 <= j < i ==> Truthy(FieldValue(data, fields[j]))
  {
    if fields == [] then None
    else if !Truthy(FieldValue(data, fields[0])) then Some(fields[0])
    else
      var rest := FirstFalsy(data, fields[1..]);
      assert forall i :: 1 <= i < |fields| ==> fields[i] == fields[1..][i - 1];
      rest
  }

  /** The field `validateSchemaData` throws for, if any. */
  function MissingField(data: SchemaData): (f: Option<string>)
    ensures f.None? <==> Truthy(data.name) && Truthy(data.version) && Truthy(data.content) && Truthy(data.serviceName)
  {
    assert FieldValue(data, RequiredFields[0]) == data.name;
    assert FieldValue(data, RequiredFields[1]) == data.version;
    assert FieldValue(data, RequiredFields[2]) == data.content;
    assert FieldValue(data, RequiredFields[3]) == data.serviceName;
    FirstFalsy(data, RequiredFields)
  }

  /** `validateSchemaData`: walks the four fields in order and stops at the
      first falsy one. */
  method ValidateSchemaData(data: SchemaData) returns (missing: Option<string>)
    ensures missing == MissingField(data)
    ensures missing.None? <==> Truthy(data.name) && Truthy(data.version) && Truthy(data.content) && Truthy(data.serviceName)
  {
    var i := 0;
    while i < |RequiredFields|
      invariant 0 <= i <= |RequiredFields|
      invariant forall j :: 0 <= j < i ==> Truthy(FieldValue(data, RequiredFields[j]))
    {
      var field := RequiredFields[i];
      if !Truthy(FieldValue(data, field)) {
        FirstFalsyIsUnique(data, RequiredFields, i);
        return Some(field);
      }
      i := i + 1;
    }
    assert FieldValue(data, RequiredFields[0]) == data.name;
    assert FieldValue(data, RequiredFields[1]) == data.version;
    assert FieldValue(data, RequiredFields[2]) == data.content;
    assert FieldValue(data, RequiredFields[3]) == data.serviceName;
    return None;
  }

  /** The first falsy field is the one `FirstFalsy` names. */
  lemma {:induction false} FirstFalsyIsUnique(data: SchemaData, fields: seq<string>, i: nat)
    requires i < |fields| && !Truthy(FieldValue(data, fields[i]))
    requires forall j :: 0 <= j < i ==> Truthy(FieldValue(data, fields[j]))
    ensures FirstFalsy(data, fields) == Some(fields[i])
  {
    if i > 0 {
      assert Truthy(FieldValue(data, fields[0]));
      assert fields[1..][i - 1] == fields[i];
      FirstFalsyIsUnique(data, fields[1..], i - 1);
    }
  }

  /** The row is for this (name, version, service) triple. */
  predicate SameTriple(s: StoredSchema, name: Json, version: Json, serviceName: Json)
  {
    s.name == name && s.version == version && s.serviceName == serviceName
  }

  /** The store already holds this (name, version, service) triple. */
  predicate HasTriple(store: seq<StoredSchema>, name: Json, version: Json, serviceName: Json)
  {
    exists s :: s in store && SameTriple(s, name, version, serviceName)
  }

  /** What every store reachable through registrations satisfies: ids are
      assigned 1, 2, … in insertion order, every stored version is truthy
      (it passed validation), and no triple is stored twice. */
  predicate ValidStore(store: seq<StoredSchema>)
  {
    && (forall i :: 0 <= i < |store| ==> store[i].id == i + 1 && Truthy(Some(store[i].version)))
    && (forall i, j :: 0 <= i < j < |store| ==>
          !(store[i].name == store[j].name && store[i].version == store[j].version && store[i].serviceName == store[j].serviceName))
  }

  /** `SchemaModel.findByNameAndService`: the rows for (name, service),
      most recently inserted first. */
  function FindByNameAndService(store: seq<StoredSchema>, name: Json, serviceName: Json): (found: seq<StoredSchema>)
    ensures forall s :: s in found <==> s in store && s.name == name && s.serviceName == serviceName
  {
    if store == [] then []
    else
      var last := store[|store| - 1];
      (if last.name == name && last.serviceName == serviceName then [last] else [])
        + FindByNameAndService(store[..|store| - 1], name, serviceName)
  }

  /** Rows listed newest first: ids strictly decrease along the list. */
  predicate NewestFirst(rows: seq<StoredSchema>)
  {
    forall i, j :: 0 <= i < j < |rows| ==> rows[i].id > rows[j].id
  }

  lemma PrependNewest(row: StoredSchema, rows: seq<StoredSchema>)
    requires NewestFirst(rows)
    requires forall s :: s in rows ==> s.id < row.id
    ensures NewestFirst([row] + rows)
  {
    forall i, j | 0 <= i < j < |[row] + rows|
      ensures ([row] + rows)[i].id > ([row] + rows)[j].id
    {
      assert ([row] + rows)[j] == rows[j - 1];
      if i > 0 {
        assert ([row] + rows)[i] == rows[i - 1];
      } else {
        assert rows[j - 1] in rows;
      }
    }
  }

  /** `ORDER BY created_at DESC`: the rows come back with decreasing ids. */
  lemma {:induction false} MostRecentFirst(store: seq<StoredSchema>, name: Json, serviceName: Json)
    requires forall i :: 0 <= i < |store| ==> store[i].id == i + 1
    ensures NewestFirst(FindByNameAndService(store, name, serviceName))
  {
    if store != [] {
      var init := store[..|store| - 1];
      var last := store[|store| - 1];
      assert forall i :: 0 <= i < |init| ==> init[i].id == i + 1 by {
        forall i | 0 <= i < |init| ensures init[i].id == i + 1 {
          assert init[i] == store[i];
        }
      }
      MostRecentFirst(init, name, serviceName);
      var rest := FindByNameAndService(init, name, serviceName);
      forall s | s in rest
        ensures s.id < last.id
      {
        var k :| 0 <= k < |init| && init[k] == s;
      }
      if last.name == name && last.serviceName == serviceName {
        PrependNewest(last, rest);
      } else {
        assert FindByNameAndService(store, name, serviceName) == [] + rest;
      }
    }
  }

  /** The first row found is the last matching row stored. */
  lemma {:induction false} LatestFound(store: seq<StoredSchema>, name: Json, serviceName: Json) returns (i: nat)
    requires FindByNameAndService(store, name, serviceName) != []
    ensures i < |store| && store[i] == FindByNameAndService(store, name, serviceName)[0]
    ensures store[i].name == name && store[i].serviceName == serviceName
    ensures forall j :: i < j < |store| ==> !(store[j].name == name && store[j].serviceName == serviceName)
  {
    var last := store[|store| - 1];
    if last.name == name && last.serviceName == serviceName {
      i := |store| - 1;
    } else {
      var init := store[..|store| - 1];
      assert FindByNameAndService(store, name, serviceName) == FindByNameAndService(init, name, serviceName);
      i := LatestFound(init, name, serviceName);
      assert store[i] == init[i];
      forall j | i < j < |store|
        ensures !(store[j].name == name && store[j].serviceName == serviceName)
      {
        if j < |store| - 1 {
          assert store[j] == init[j];
        }
      }
    }
  }

  /** The result of `registerSchema(data)` against `store`. */
  function RegistrationOutcome(store: seq<StoredSchema>, data: SchemaData): Result<Registration, RegistrationError>
  {
    match MissingField(data)
    case Some(field) => Err(MissingRequiredField(field))
    case None =>
      var name, version, content, serviceName := data.name.value, data.version.value, data.content.value, data.serviceName.value;
      var found := FindByNameAndService(store, name, serviceName);
      var previousVersion := if found != [] then Some(found[0].version) else None;
      var analysis := if found != [] then CompareSchemas(found[0].content, content) else None;
      if found != [] && analysis.None? then Err(ComparisonThrew)
      else if HasTriple(store, name, version, serviceName) then Err(DuplicateVersion)
      else Ok(Registration(StoredSchema(|store| + 1, name, version, content, serviceName),
                           previousVersion, analysis, !Truthy(previousVersion)))
  }

  /** The registry service over its store of schema rows. */
  class SchemaRegistry {
    var schemas: seq<StoredSchema>

    predicate Valid()
      reads this
    {
      ValidStore(schemas)
    }

    constructor ()
      ensures Valid() && schemas == []
    {
      schemas := [];
    }

    /** `SchemaModel.create`: inserts a row, or fails on a duplicate triple. */
    method Create(name: Json, version: Json, content: Json, serviceName: Json) returns (r: Result<StoredSchema, RegistrationError>)
      modifies this
      ensures HasTriple(old(schemas), name, version, serviceName) ==> r == Err(DuplicateVersion) && schemas == old(schemas)
      ensures !HasTriple(old(schemas), name, version, serviceName) ==>
        r == Ok(StoredSchema(|old(schemas)| + 1, name, version, content, serviceName)) && schemas == old(schemas) + [r.value]
    {
      if HasTriple(schemas, name, version, serviceName) {
        return Err(DuplicateVersion);
      }
      var row := StoredSchema(|schemas| + 1, name, version, content, serviceName);
      schemas := schemas + [row];
      r := Ok(row);
    }

    /** `registerSchema(schemaData)`: validate, look up the prior versions,
        compare with the latest one, then store the new row. */
    method RegisterSchema(data: SchemaData) returns (r: Result<Registration, RegistrationError>)
      requires Valid()
      modifies this
      ensures r == RegistrationOutcome(old(schemas), data)
      ensures schemas == if r.Ok? then old(schemas) + [r.value.schema] else old(schemas)
      ensures Valid()
    {
      ghost var outcome := RegistrationOutcome(schemas, data);
      RegistrationKeepsStoreValid(schemas, data);
      var missing := ValidateSchemaData(data);
      if missing.Some? {
        return Err(MissingRequiredField(missing.value));
      }
      var existing := FindByNameAndService(schemas, data.name.value, data.serviceName.value);
      var previousVersion: Value := None;
      var analysis: Option<Report> := None;
      if |existing| > 0 {
        var latest := existing[0];
        previousVersion := Some(latest.version);
        analysis := CompareSchemasForBreakingChanges(latest.content, data.content.value);
        if analysis.None? {
          assert outcome == Err(ComparisonThrew);
          return Err(ComparisonThrew);
        }
      }
      assert analysis == if existing != [] then CompareSchemas(existing[0].content, data.content.value) else None;
      var created := Create(data.name.value, data.version.value, data.content.value, data.serviceName.value);
      if created.Err? {
        assert outcome == Err(DuplicateVersion);
        return Err(created.error);
      }
      r := Ok(Registration(created.value, previousVersion, analysis, !Truthy(previousVersion)));
      assert r == outcome;
    }
  }

  // ---------------------------------------------------------------------
  // Properties of registration
  // ---------------------------------------------------------------------

  /** A registration fails exactly when a field is missing (naming the
      first falsy one in the order name, version, content, service_name),
      the comparison with the latest stored version throws, or the version
      is already stored for that name and service. */
  lemma RegistrationFailsIff(store: seq<StoredSchema>, data: SchemaData)
    ensures var r := RegistrationOutcome(store, data);
      && (r.Err? <==> MissingField(data).Some? ||
                      (var found := FindByNameAndService(store, data.name.value, data.serviceName.value);
                       found != [] && ComparisonThrows(found[0].content, data.content.value)) ||
                      HasTriple(store, data.name.value, data.version.value, data.serviceName.value))
      && (MissingField(data).None? && r.Err? && r.error == ComparisonThrew ==>
            var found := FindByNameAndService(store, data.name.value, data.serviceName.value);
            found != [] && ComparisonThrows(found[0].content, data.content.value))
      && (MissingField(data).Some? ==> r == Err(MissingRequiredField(MissingField(data).value)))
      && (MissingField(data).Some? ==>
            exists i :: (0 <= i < 4 && RequiredFields[i] == MissingField(data).value
              && !Truthy(FieldValue(data, RequiredFields[i])) && forall j :: 0 <= j < i ==> Truthy(FieldValue(data, RequiredFields[j]))))
  {
  }

  /** A successful registration keeps the store valid and stores one row. */
  lemma RegistrationKeepsStoreValid(store: seq<StoredSchema>, data: SchemaData)
    requires ValidStore(store)
    ensures var r := RegistrationOutcome(store, data);
      r.Ok? ==> ValidStore(store + [r.value.schema]) && r.value.schema.id == |store| + 1
  {
    var r := RegistrationOutcome(store, data);
    if r.Ok? {
      assert MissingField(data).None?;
      assert FieldValue(data, RequiredFields[1]) == data.version;
      var grown := store + [r.value.schema];
      forall i, j | 0 <= i < j < |grown|
        ensures !(grown[i].name == grown[j].name && grown[i].version == grown[j].version && grown[i].serviceName == grown[j].serviceName)
      {
        if j == |store| {
          assert grown[i] in store;
        }
      }
    }
  }

  /** A registration is the first version exactly when the store holds no
      row for that name and service; only then are `previousVersion` and
      `analysis` null. */
  lemma FirstVersionIff(store: seq<StoredSchema>, data: SchemaData)
    requires ValidStore(store)
    ensures var r := RegistrationOutcome(store, data);
      r.Ok? ==>
        && (r.value.isFirstVersion <==>
              forall s :: s in store ==> !(s.name == data.name.value && s.serviceName == data.serviceName.value))
        && (r.value.isFirstVersion <==> r.value.previousVersion.None?)
        && (r.value.isFirstVersion <==> r.value.analysis.None?)
  {
    var r := RegistrationOutcome(store, data);
    if r.Ok? {
      var found := FindByNameAndService(store, data.name.value, data.serviceName.value);
      if found != [] {
        assert found[0] in store;
        var k :| 0 <= k < |store| && store[k] == found[0];
        assert Truthy(Some(store[k].version));
      }
    }
  }

  /** A later version is compared with the most recently stored row for the
      same name and service: `previousVersion` is that row's version and
      `analysis` the comparison of its document with the new one. */
  lemma PreviousVersionIsLatest(store: seq<StoredSchema>, data: SchemaData)
    requires ValidStore(store)
    ensures var r := RegistrationOutcome(store, data);
      r.Ok? && !r.value.isFirstVersion ==>
        exists i :: 0 <= i < |store|
          && store[i].name == data.name.value && store[i].serviceName == data.serviceName.value
          && (forall j :: i < j < |store| ==> !(store[j].name == data.name.value && store[j].serviceName == data.serviceName.value))
          && r.value.previousVersion == Some(store[i].version)
          && !ComparisonThrows(store[i].content, data.content.value)
          && r.value.analysis == CompareSchemas(store[i].content, data.content.value)
  {
    var r := RegistrationOutcome(store, data);
    if r.Ok? && !r.value.isFirstVersion {
      var i := LatestFound(store, data.name.value, data.serviceName.value);
    }
  }

  /** Registering the same request again after a success fails: the new
      row is now the latest for its name and service, so its document is
      compared with itself (which throws exactly when that comparison
      does), and otherwise the (name, version, service) triple is taken. */
  lemma RegisterTwiceFails(store: seq<StoredSchema>, data: SchemaData)
    requires RegistrationOutcome(store, data).Ok?
    ensures var content := data.content.value;
      RegistrationOutcome(store + [RegistrationOutcome(store, data).value.schema], data)
      == if ComparisonThrows(content, content) then Err(ComparisonThrew) else Err(DuplicateVersion)
  {
    var row := RegistrationOutcome(store, data).value.schema;
    var grown := store + [row];
    assert row in grown;
    assert grown[..|grown| - 1] == store;
    assert FindByNameAndService(grown, data.name.value, data.serviceName.value)[0] == row;
  }
}
