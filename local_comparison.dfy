/** The schema comparator that the comparison test suite defines for itself:
    removed and added property keys and newly-required fields of a schema's
    top level, with no type comparison and no path prefix. It fills the same
    kind of `changes` object as the registry comparator but pushes straight
    into `breaking` or `nonBreaking` instead of consulting the table, and
    returns the object itself, without a summary. */
module LocalComparison {
  import opened Json
  import opened Changes
  import opened RegistryService

  // ---------------------------------------------------------------------
  // What the comparator emits
  // ---------------------------------------------------------------------

  /** What the second loop emits for one key of the new properties. */
  function AddedStep(oldProps: Json, key: string): seq<Change>
  {
    if Has(oldProps, key) then [] else [AddedRecord("", key)]
  }

  /** Second loop: every key of the new properties that is not `in` the old
      ones. (The first and third loops emit the same records as the
      registry's, `RemovedFields(…, "")` and `RequiredAddedFields`.) */
  function AddedFields(oldProps: Json, newKeys: seq<string>): seq<Change>
  {
    if newKeys == [] then []
    else
      var key := newKeys[|newKeys| - 1];
      AddedFields(oldProps, newKeys[..|newKeys| - 1]) + AddedStep(oldProps, key)
  }

  /** One more key of the second loop appends that key's step. */
  lemma AddedFieldsSnoc(oldProps: Json, newKeys: seq<string>, j: nat)
    requires j < |newKeys|
    ensures AddedFields(oldProps, newKeys[..j + 1]) == AddedFields(oldProps, newKeys[..j]) + AddedStep(oldProps, newKeys[j])
  {
    PrefixStep(newKeys, j);
  }

  /** Everything the comparator pushes when no step throws, in order. */
  function LocalStream(oldDoc: Json, newDoc: Json): seq<Change>
    requires !oldDoc.JNull? && !newDoc.JNull?
  {
    var oldProps, newProps := PropsOf(oldDoc), PropsOf(newDoc);
    RemovedFields(KeysOf(oldProps), newProps, "")
      + AddedFields(oldProps, KeysOf(newProps))
      + RequiredAddedFields(RequiredListOf(oldDoc), RequiredEntries(RequiredListOf(newDoc)))
  }

  /** The `changes` object the comparator returns. */
  function LocalReport(oldDoc: Json, newDoc: Json): Log
    requires !oldDoc.JNull? && !newDoc.JNull?
  {
    RecordedAll(EmptyLog, LocalStream(oldDoc, newDoc))
  }

  /** The inputs on which the comparator throws a TypeError: a null
      document, `key in props` on a value that is not an object while the
      other side lists a key, and the two `required` calls. It never reads
      a property's `type`. */
  predicate LocalThrows(oldDoc: Json, newDoc: Json)
  {
    oldDoc.JNull? || newDoc.JNull? ||
    var oldProps, newProps := PropsOf(oldDoc), PropsOf(newDoc);
    || (KeysOf(oldProps) != [] && !IsObject(newProps))
    || (KeysOf(newProps) != [] && !IsObject(oldProps))
    || RequiredThrows(RequiredListOf(oldDoc), RequiredListOf(newDoc))
  }

  // ---------------------------------------------------------------------
  // The comparator as the test suite runs it
  // ---------------------------------------------------------------------

  /** `compareSchemas(oldSchema, newSchema)` of the test suite; `None` when
      it throws. */
  method CompareSchemas(oldDoc: Json, newDoc: Json) returns (r: Option<Log>)
    ensures r.None? <==> LocalThrows(oldDoc, newDoc)
    ensures r.Some? ==> !oldDoc.JNull? && !newDoc.JNull? && r.value == LocalReport(oldDoc, newDoc)
  {
    if oldDoc.JNull? || newDoc.JNull? {
      return None;
    }
    var changes := new ChangeSet();
    var oldProps, newProps := PropsOf(oldDoc), PropsOf(newDoc);
    var oldKeys, newKeys := KeysOf(oldProps), KeysOf(newProps);
    var oldRequired, newRequired := RequiredListOf(oldDoc), RequiredListOf(newDoc);
    var threw := PushRemovedFields(changes, oldKeys, newProps);
    if threw {
      return None;
    }
    threw := PushAddedFields(changes, oldProps, newKeys);
    if threw {
      return None;
    }
    threw := PushRequiredAddedFields(changes, oldRequired, newRequired);
    if threw {
      return None;
    }
    ghost var removed := RemovedFields(oldKeys, newProps, "");
    ghost var added := AddedFields(oldProps, newKeys);
    ghost var requiredAdded := RequiredAddedFields(oldRequired, newRequired.elems);
    RecordAllAppend(EmptyLog, removed, added);
    RecordAllAppend(EmptyLog, removed + added, requiredAdded);
    r := Some(changes.State());
  }

  /** One pass of the removed-fields loop: a key that is not `in` the new
      properties is pushed to `breaking` and raises the flag. */
  method PushRemovedField(changes: ChangeSet, newProps: Json, key: string)
    requires IsObject(newProps)
    modifies changes
    ensures changes.State() == RecordedAll(old(changes.State()), RemovedStep(newProps, "", key))
  {
    if !Has(newProps, key) {
      BreakingKinds(FieldRemoved);
      changes.PushBreaking(RemovedRecord("", key));
      RecordedAllOne(old(changes.State()), RemovedRecord("", key));
    }
  }

  /** The removed-fields loop; `in` throws on its first key when the new
      properties are not an object. */
  method PushRemovedFields(changes: ChangeSet, oldKeys: seq<string>, newProps: Json) returns (threw: bool)
    modifies changes
    ensures threw == (oldKeys != [] && !IsObject(newProps))
    ensures changes.State() == RecordedAll(old(changes.State()), if threw then [] else RemovedFields(oldKeys, newProps, ""))
  {
    if oldKeys != [] && !IsObject(newProps) {
      return true;
    }
    ghost var start := changes.State();
    var i := 0;
    while i < |oldKeys|
      invariant 0 <= i <= |oldKeys|
      invariant changes.State() == RecordedAll(start, RemovedFields(oldKeys[..i], newProps, ""))
    {
      ghost var done := RemovedFields(oldKeys[..i], newProps, "");
      RemovedFieldsSnoc(oldKeys, i, newProps, "");
      PushRemovedField(changes, newProps, oldKeys[i]);
      RecordAllAppend(start, done, RemovedStep(newProps, "", oldKeys[i]));
      i := i + 1;
    }
    PrefixAll(oldKeys);
    threw := false;
  }

  /** One pass of the added-fields loop: a key that is not `in` the old
      properties is pushed to `nonBreaking`; the flag is left alone. */
  method PushAddedField(changes: ChangeSet, oldProps: Json, key: string)
    requires IsObject(oldProps)
    modifies changes
    ensures changes.State() == RecordedAll(old(changes.State()), AddedStep(oldProps, key))
  {
    if !Has(oldProps, key) {
      BreakingKinds(FieldAdded);
      changes.PushNonBreaking(AddedRecord("", key));
      RecordedAllOne(old(changes.State()), AddedRecord("", key));
    }
  }

  /** The added-fields loop; `in` throws on its first key when the old
      properties are not an object. */
  method PushAddedFields(changes: ChangeSet, oldProps: Json, newKeys: seq<string>) returns (threw: bool)
    modifies changes
    ensures threw == (newKeys != [] && !IsObject(oldProps))
    ensures changes.State() == RecordedAll(old(changes.State()), if threw then [] else AddedFields(oldProps, newKeys))
  {
    if newKeys != [] && !IsObject(oldProps) {
      return true;
    }
    ghost var start := changes.State();
    var j := 0;
    while j < |newKeys|
      invariant 0 <= j <= |newKeys|
      invariant changes.State() == RecordedAll(start, AddedFields(oldProps, newKeys[..j]))
    {
      ghost var done := AddedFields(oldProps, newKeys[..j]);
      AddedFieldsSnoc(oldProps, newKeys, j);
      PushAddedField(changes, oldProps, newKeys[j]);
      RecordAllAppend(start, done, AddedStep(oldProps, newKeys[j]));
      j := j + 1;
    }
    PrefixAll(newKeys);
    threw := false;
  }

  /** One pass of the newly-required loop: an entry that the old list does
      not include is pushed to `breaking` and raises the flag. */
  method PushRequiredAddedField(changes: ChangeSet, oldRequired: Json, field: Json)
    modifies changes
    ensures changes.State() == RecordedAll(old(changes.State()), RequiredAddedStep(oldRequired, field))
  {
    if !AlreadyRequired(oldRequired, field) {
      BreakingKinds(RequiredAdded);
      changes.PushBreaking(RequiredAddedRecord(field));
      RecordedAllOne(old(changes.State()), RequiredAddedRecord(field));
    }
  }

  /** The newly-required loop; `forEach` throws on a new list that is not
      an array, and the first `includes` call on an old list that has none. */
  method PushRequiredAddedFields(changes: ChangeSet, oldRequired: Json, newRequired: Json) returns (threw: bool)
    modifies changes
    ensures threw == RequiredThrows(oldRequired, newRequired)
    ensures changes.State() == RecordedAll(old(changes.State()),
      if threw then [] else RequiredAddedFields(oldRequired, newRequired.elems))
  {
    if RequiredThrows(oldRequired, newRequired) {
      return true;
    }
    var entries := newRequired.elems;
    ghost var start := changes.State();
    var n := 0;
    while n < |entries|
      invariant 0 <= n <= |entries|
      invariant changes.State() == RecordedAll(start, RequiredAddedFields(oldRequired, entries[..n]))
    {
      ghost var done := RequiredAddedFields(oldRequired, entries[..n]);
      RequiredAddedSnoc(oldRequired, entries, n);
      PushRequiredAddedField(changes, oldRequired, entries[n]);
      RecordAllAppend(start, done, RequiredAddedStep(oldRequired, entries[n]));
      n := n + 1;
    }
    PrefixAll(entries);
    threw := false;
  }

  // ---------------------------------------------------------------------
  // What the added-fields loop emits
  // ---------------------------------------------------------------------

  /** Every added record names, as its bare path, a listed key of the new
      properties that is not `in` the old ones. */
  lemma {:induction false} AddedFieldsMembers(oldProps: Json, newKeys: seq<string>)
    ensures forall c :: c in AddedFields(oldProps, newKeys) ==>
      c == AddedRecord("", c.path) && c.kind == FieldAdded && c.path in newKeys && !Has(oldProps, c.path)
  {
    if newKeys != [] {
      var key := newKeys[|newKeys| - 1];
      AddedFieldsMembers(oldProps, newKeys[..|newKeys| - 1]);
      assert JoinPath("", key) == key;
    }
  }

  /** A key that is not `in` the old properties is reported once per time it is listed. */
  lemma {:induction false} AddedFieldsCount(oldProps: Json, newKeys: seq<string>, k: string)
    ensures Count(AddedFields(oldProps, newKeys), FieldAdded, k)
         == if Has(oldProps, k) then 0 else multiset(newKeys)[k]
  {
    if newKeys != [] {
      var init := newKeys[..|newKeys| - 1];
      var key := newKeys[|newKeys| - 1];
      var step := AddedStep(oldProps, key);
      AddedFieldsCount(oldProps, init, k);
      MultisetLast(newKeys, k);
      assert Count(step, FieldAdded, k) == if Has(oldProps, key) || key != k then 0 else 1 by {
        if !Has(oldProps, key) {
          CountOne(AddedRecord("", key), FieldAdded, k);
        }
      }
      CountAppend(AddedFields(oldProps, init), step, FieldAdded, k);
    }
  }

  /** The added-fields loop emits exactly the added records of the
      registry's added-or-modified loop, whatever the types. */
  lemma {:induction false} AddedFieldsAgree(oldProps: Json, newKeys: seq<string>, newProps: Json)
    requires !oldProps.JNull? && !newProps.JNull?
    ensures AddedFields(oldProps, newKeys) == OfKind(AddedOrChangedFields(oldProps, newKeys, newProps, ""), FieldAdded)
  {
    if newKeys != [] {
      var init, key := newKeys[..|newKeys| - 1], newKeys[|newKeys| - 1];
      var step := AddedOrChangedField(oldProps, newProps, "", key);
      AddedFieldsAgree(oldProps, init, newProps);
      OfKindAppend(AddedOrChangedFields(oldProps, init, newProps, ""), step, FieldAdded);
      if step != [] {
        assert step[..0] == [];
      }
    }
  }

  /** With no shared key whose `type` differs, the registry's
      added-or-modified loop emits only the added records. */
  lemma {:induction false} NoTypeChangesAgree(oldProps: Json, newKeys: seq<string>, newProps: Json)
    requires !oldProps.JNull? && !newProps.JNull?
    requires forall k :: k in newKeys && Has(oldProps, k) ==>
      StrictEquals(EntryType(oldProps, k), EntryType(newProps, k))
    ensures AddedFields(oldProps, newKeys) == AddedOrChangedFields(oldProps, newKeys, newProps, "")
  {
    if newKeys != [] {
      NoTypeChangesAgree(oldProps, newKeys[..|newKeys| - 1], newProps);
    }
  }

  lemma {:induction false} RemovedFieldsPaths(oldKeys: seq<string>, newProps: Json)
    ensures forall c :: c in RemovedFields(oldKeys, newProps, "") ==>
      c == RemovedRecord("", c.path) && c.path in oldKeys && !Has(newProps, c.path)
  {
    if oldKeys != [] {
      var key := oldKeys[|oldKeys| - 1];
      RemovedFieldsPaths(oldKeys[..|oldKeys| - 1], newProps);
      assert JoinPath("", key) == key;
    }
  }

  // ---------------------------------------------------------------------
  // Properties of the returned object
  // ---------------------------------------------------------------------

  /** How the three loops' records are split: the table sends removals
      and newly-required fields to `breaking` and additions to `nonBreaking`. */
  lemma LocalClassification(removed: seq<Change>, added: seq<Change>, requiredAdded: seq<Change>)
    requires forall c :: c in removed ==> c.kind == FieldRemoved
    requires forall c :: c in added ==> c.kind == FieldAdded
    requires forall c :: c in requiredAdded ==> c.kind == RequiredAdded
    ensures BreakingOf(removed + added + requiredAdded) == removed + requiredAdded
    ensures NonBreakingOf(removed + added + requiredAdded) == added
  {
    OfKindAll(added, FieldAdded);
    OfKindNone(added, TypeChanged);
    PhasedClassification(removed, added, requiredAdded);
  }

  /** The returned lists, by loop: `breaking` is the removed keys then the
      newly-required fields, `nonBreaking` the added keys, and the flag is
      raised exactly when one of the breaking loops pushed something. */
  lemma LocalParts(oldDoc: Json, newDoc: Json)
    requires !oldDoc.JNull? && !newDoc.JNull?
    ensures var oldProps, newProps := PropsOf(oldDoc), PropsOf(newDoc);
      var r := LocalReport(oldDoc, newDoc);
      && r.breaking == RemovedFields(KeysOf(oldProps), newProps, "")
                       + RequiredAddedFields(RequiredListOf(oldDoc), RequiredEntries(RequiredListOf(newDoc)))
      && r.nonBreaking == AddedFields(oldProps, KeysOf(newProps))
      && (r.hasBreakingChanges <==> r.breaking != [])
  {
    var oldProps, newProps := PropsOf(oldDoc), PropsOf(newDoc);
    var removed := RemovedFields(KeysOf(oldProps), newProps, "");
    var added := AddedFields(oldProps, KeysOf(newProps));
    var requiredAdded := RequiredAddedFields(RequiredListOf(oldDoc), RequiredEntries(RequiredListOf(newDoc)));
    var stream := removed + added + requiredAdded;
    assert LocalStream(oldDoc, newDoc) == stream;
    RecordAllSplits(EmptyLog, stream);
    RemovedFieldsMembers(KeysOf(oldProps), newProps, "");
    AddedFieldsMembers(oldProps, KeysOf(newProps));
    RequiredAddedMembers(RequiredListOf(oldDoc), RequiredEntries(RequiredListOf(newDoc)));
    LocalClassification(removed, added, requiredAdded);
  }

  /** No record is a type change: `breaking` holds only removed keys and
      newly-required fields, `nonBreaking` only added keys, so an added key
      never raises the flag. */
  lemma LocalKinds(oldDoc: Json, newDoc: Json)
    requires !oldDoc.JNull? && !newDoc.JNull?
    ensures var r := LocalReport(oldDoc, newDoc);
      && (forall c :: c in r.breaking ==> c.kind == FieldRemoved || c.kind == RequiredAdded)
      && (forall c :: c in r.nonBreaking ==> c.kind == FieldAdded)
      && (r.hasBreakingChanges <==> r.breaking != [])
  {
    var oldProps, newProps := PropsOf(oldDoc), PropsOf(newDoc);
    var removed := RemovedFields(KeysOf(oldProps), newProps, "");
    var requiredAdded := RequiredAddedFields(RequiredListOf(oldDoc), RequiredEntries(RequiredListOf(newDoc)));
    LocalParts(oldDoc, newDoc);
    RemovedFieldsMembers(KeysOf(oldProps), newProps, "");
    AddedFieldsMembers(oldProps, KeysOf(newProps));
    RequiredAddedMembers(RequiredListOf(oldDoc), RequiredEntries(RequiredListOf(newDoc)));
    assert forall c :: c in removed + requiredAdded ==> c in removed || c in requiredAdded;
  }

  /** Every record's path is the bare key it is about: a listed key of the
      old properties that is not `in` the new ones, a listed key of the new
      properties that is not `in` the old ones, or (in its string form) an
      entry of the new `required` list that the old one does not include. */
  lemma LocalPaths(oldDoc: Json, newDoc: Json)
    requires !oldDoc.JNull? && !newDoc.JNull?
    ensures var oldProps, newProps := PropsOf(oldDoc), PropsOf(newDoc);
      var r := LocalReport(oldDoc, newDoc);
      && (forall c :: c in r.breaking && c.kind == FieldRemoved ==>
            c == RemovedRecord("", c.path) && c.path in KeysOf(oldProps) && !Has(newProps, c.path))
      && (forall c :: c in r.nonBreaking ==>
            c == AddedRecord("", c.path) && c.path in KeysOf(newProps) && !Has(oldProps, c.path))
      && (forall c :: c in r.breaking && c.kind == RequiredAdded ==>
            exists f :: f in RequiredEntries(RequiredListOf(newDoc)) && !AlreadyRequired(RequiredListOf(oldDoc), f)
                        && c == RequiredAddedRecord(f))
  {
    var oldProps, newProps := PropsOf(oldDoc), PropsOf(newDoc);
    LocalParts(oldDoc, newDoc);
    RemovedFieldsPaths(KeysOf(oldProps), newProps);
    RemovedFieldsMembers(KeysOf(oldProps), newProps, "");
    AddedFieldsMembers(oldProps, KeysOf(newProps));
    RequiredAddedMembers(RequiredListOf(oldDoc), RequiredEntries(RequiredListOf(newDoc)));
  }

  /** Each removed key and added key is reported, on its side, once per
      time it is listed; a newly-required field name that no other entry
      renders as is reported once per listing. */
  lemma LocalCounts(oldDoc: Json, newDoc: Json, k: string)
    requires !oldDoc.JNull? && !newDoc.JNull?
    ensures var oldProps, newProps := PropsOf(oldDoc), PropsOf(newDoc);
      var entries := RequiredEntries(RequiredListOf(newDoc));
      var r := LocalReport(oldDoc, newDoc);
      && Count(r.breaking, FieldRemoved, k) == (if Has(newProps, k) then 0 else multiset(KeysOf(oldProps))[k])
      && Count(r.nonBreaking, FieldAdded, k) == (if Has(oldProps, k) then 0 else multiset(KeysOf(newProps))[k])
      && ((forall e :: e in entries && JsonString(e) == k ==> e == JStr(k)) ==>
            Count(r.breaking, RequiredAdded, k)
            == (if AlreadyRequired(RequiredListOf(oldDoc), JStr(k)) then 0 else multiset(entries)[JStr(k)]))
  {
    var oldProps, newProps := PropsOf(oldDoc), PropsOf(newDoc);
    var oldRequired, entries := RequiredListOf(oldDoc), RequiredEntries(RequiredListOf(newDoc));
    LocalParts(oldDoc, newDoc);
    RemovedFieldsCount(KeysOf(oldProps), newProps, k);
    AddedFieldsCount(oldProps, KeysOf(newProps), k);
    if forall e :: e in entries && JsonString(e) == k ==> e == JStr(k) {
      RequiredAddedCount(oldRequired, entries, k);
    }
    RemovedFieldsMembers(KeysOf(oldProps), newProps, "");
    RequiredAddedMembers(oldRequired, entries);
    CountBreakingSides(RemovedFields(KeysOf(oldProps), newProps, ""), RequiredAddedFields(oldRequired, entries), k);
  }

  lemma CountBreakingSides(removed: seq<Change>, requiredAdded: seq<Change>, k: string)
    requires forall c :: c in removed ==> c.kind == FieldRemoved
    requires forall c :: c in requiredAdded ==> c.kind == RequiredAdded
    ensures Count(removed + requiredAdded, FieldRemoved, k) == Count(removed, FieldRemoved, k)
    ensures Count(removed + requiredAdded, RequiredAdded, k) == Count(requiredAdded, RequiredAdded, k)
  {
    CountNoKind(removed, RequiredAdded, k);
    CountNoKind(requiredAdded, FieldRemoved, k);
    CountAppend(removed, requiredAdded, FieldRemoved, k);
    CountAppend(removed, requiredAdded, RequiredAdded, k);
  }

  /** The registry comparator throws wherever this one does (it also
      throws on a null or missing entry of a shared key, which this one
      never reads). */
  lemma ThrowsLikeRegistry(oldDoc: Json, newDoc: Json)
    ensures LocalThrows(oldDoc, newDoc) ==> ComparisonThrows(oldDoc, newDoc)
    ensures !oldDoc.JNull? && !newDoc.JNull? ==>
      (ComparisonThrows(oldDoc, newDoc) <==>
        LocalThrows(oldDoc, newDoc) ||
        exists k :: k in KeysOf(PropsOf(newDoc)) && Has(PropsOf(oldDoc), k) &&
                    (EntryThrows(PropsOf(oldDoc), k) || EntryThrows(PropsOf(newDoc), k)))
  {
  }

  /** Against the registry comparator at the root: the same `nonBreaking`
      list, and the same `breaking` list once its type changes are dropped. */
  lemma AgreesWithRegistry(oldDoc: Json, newDoc: Json)
    requires !oldDoc.JNull? && !newDoc.JNull?
    ensures var local, registry := LocalReport(oldDoc, newDoc), ReportOf(oldDoc, newDoc);
      && local.nonBreaking == registry.nonBreaking
      && local.breaking == OfKind(registry.breaking, FieldRemoved) + OfKind(registry.breaking, RequiredAdded)
  {
    var oldProps, newProps := PropsOf(oldDoc), PropsOf(newDoc);
    var oldRequired, entries := RequiredListOf(oldDoc), RequiredEntries(RequiredListOf(newDoc));
    var removed := RemovedFields(KeysOf(oldProps), newProps, "");
    var changed := OfKind(AddedOrChangedFields(oldProps, KeysOf(newProps), newProps, ""), TypeChanged);
    var requiredAdded := RequiredAddedFields(oldRequired, entries);
    LocalParts(oldDoc, newDoc);
    ReportParts(oldDoc, newDoc);
    AddedFieldsAgree(oldProps, KeysOf(newProps), newProps);
    RemovedFieldsMembers(KeysOf(oldProps), newProps, "");
    RequiredAddedMembers(oldRequired, entries);
    OfKindMembers(AddedOrChangedFields(oldProps, KeysOf(newProps), newProps, ""), TypeChanged);
    PhasedKinds(removed, changed, requiredAdded);
  }

  /** When no shared property's `type` differs, the two comparators return
      the same lists and flag. */
  lemma SameAsRegistryWithoutTypeChanges(oldDoc: Json, newDoc: Json)
    requires !oldDoc.JNull? && !newDoc.JNull?
    requires forall k :: k in KeysOf(PropsOf(newDoc)) && Has(PropsOf(oldDoc), k) ==>
      StrictEquals(EntryType(PropsOf(oldDoc), k), EntryType(PropsOf(newDoc), k))
    ensures var local, registry := LocalReport(oldDoc, newDoc), ReportOf(oldDoc, newDoc);
      local.breaking == registry.breaking && local.nonBreaking == registry.nonBreaking
      && local.hasBreakingChanges == registry.hasBreakingChanges
  {
    var oldProps, newProps := PropsOf(oldDoc), PropsOf(newDoc);
    NoTypeChangesAgree(oldProps, KeysOf(newProps), newProps);
    assert LocalStream(oldDoc, newDoc) == ComparisonStream(oldDoc, newDoc, "");
  }

  // ---------------------------------------------------------------------
  // The three cases of the test suite
  // ---------------------------------------------------------------------

  const StringField: Json := JObj([("type", JStr("string"))])
  const IdNameFields := [("id", StringField), ("name", StringField)]
  const ThreeFields := [("id", StringField), ("name", StringField), ("email", StringField)]
  const IdNamePhoneFields := [("id", StringField), ("name", StringField), ("phone", StringField)]

  const IdName: Json := JObj([("properties", JObj(IdNameFields))])
  const IdNameEmail: Json := JObj([("properties", JObj(ThreeFields))])
  const IdNamePhone: Json := JObj([("properties", JObj(IdNamePhoneFields))])

  const IdNameRequired: Json :=
    JObj([("properties", JObj(ThreeFields)), ("required", JArr([JStr("id"), JStr("name")]))])
  const IdNameEmailRequired: Json :=
    JObj([("properties", JObj(ThreeFields)), ("required", JArr([JStr("id"), JStr("name"), JStr("email")]))])

  lemma ShapedExamples()
    ensures PropsOf(IdName) == JObj(IdNameFields) && KeysOf(JObj(IdNameFields)) == ["id", "name"]
    ensures PropsOf(IdNameEmail) == JObj(ThreeFields) && KeysOf(JObj(ThreeFields)) == ["id", "name", "email"]
    ensures PropsOf(IdNamePhone) == JObj(IdNamePhoneFields) && KeysOf(JObj(IdNamePhoneFields)) == ["id", "name", "phone"]
    ensures RequiredListOf(IdName) == JArr([]) && RequiredListOf(IdNameEmail) == JArr([])
    ensures RequiredListOf(IdNamePhone) == JArr([])
  {
    assert Member(IdName, "required") == None;
    assert Member(IdNameEmail, "required") == None;
    assert Member(IdNamePhone, "required") == None;
    assert Member(IdName, "properties") == Some(JObj(IdNameFields));
    assert Member(IdNameEmail, "properties") == Some(JObj(ThreeFields));
    assert Member(IdNamePhone, "properties") == Some(JObj(IdNamePhoneFields));
  }

  /** The returned object, given what each loop emits. */
  lemma ReportOfLoops(oldDoc: Json, newDoc: Json, removed: seq<Change>, added: seq<Change>, requiredAdded: seq<Change>)
    requires !oldDoc.JNull? && !newDoc.JNull?
    requires RemovedFields(KeysOf(PropsOf(oldDoc)), PropsOf(newDoc), "") == removed
    requires AddedFields(PropsOf(oldDoc), KeysOf(PropsOf(newDoc))) == added
    requires RequiredAddedFields(RequiredListOf(oldDoc), RequiredEntries(RequiredListOf(newDoc))) == requiredAdded
    ensures LocalReport(oldDoc, newDoc) == Log(removed + requiredAdded, added, removed + requiredAdded != [])
  {
    LocalParts(oldDoc, newDoc);
  }

  lemma {:induction false} AddedFieldsNone(oldProps: Json, newKeys: seq<string>)
    requires forall k :: k in newKeys ==> Has(oldProps, k)
    ensures AddedFields(oldProps, newKeys) == []
  {
    if newKeys != [] {
      AddedFieldsNone(oldProps, newKeys[..|newKeys| - 1]);
    }
  }

  /** Documents whose `properties` are objects and whose `required` lists
      are arrays never make the comparator throw. */
  lemma WellShapedDoesNotThrow(oldDoc: Json, newDoc: Json)
    requires !oldDoc.JNull? && !newDoc.JNull?
    requires IsObject(PropsOf(oldDoc)) && IsObject(PropsOf(newDoc))
    requires RequiredListOf(oldDoc).JArr? && RequiredListOf(newDoc).JArr?
    ensures !LocalThrows(oldDoc, newDoc)
  {
  }

  /** Every listed key of a field list is `in` it. */
  lemma FieldsHaveKeys(fields: seq<(string, Json)>)
    ensures forall k :: k in Keys(fields) ==> Has(JObj(fields), k)
  {
    forall k | k in Keys(fields)
      ensures Has(JObj(fields), k)
    {
      ObjectEntry(fields, k);
    }
  }

  lemma EmailRemovedRecord()
    ensures RemovedRecord("", "email") == Change(FieldRemoved, "email", "Field 'email' was removed", NoDetail)
  {
    assert JoinPath("", "email") == "email";
  }

  lemma PhoneAddedRecord()
    ensures AddedRecord("", "phone") == Change(FieldAdded, "phone", "Field 'phone' was added", NoDetail)
  {
    assert JoinPath("", "phone") == "phone";
  }

  lemma RemovedEmailLoop()
    ensures RemovedFields(["id", "name", "email"], JObj(IdNameFields), "")
         == [Change(FieldRemoved, "email", "Field 'email' was removed", NoDetail)]
  {
    var oldKeys, newKeys := ["id", "name", "email"], ["id", "name"];
    assert oldKeys[..2] == newKeys;
    assert Keys(IdNameFields) == newKeys;
    FieldsHaveKeys(IdNameFields);
    RemovedFieldsNone(newKeys, JObj(IdNameFields), "");
    ObjectEntry(IdNameFields, "email");
    EmailRemovedRecord();
  }

  lemma PhoneAddedLoop()
    ensures AddedFields(JObj(IdNameFields), ["id", "name", "phone"])
         == [Change(FieldAdded, "phone", "Field 'phone' was added", NoDetail)]
  {
    var oldKeys, newKeys := ["id", "name"], ["id", "name", "phone"];
    assert newKeys[..2] == oldKeys;
    assert Keys(IdNameFields) == oldKeys;
    FieldsHaveKeys(IdNameFields);
    AddedFieldsNone(JObj(IdNameFields), oldKeys);
    ObjectEntry(IdNameFields, "phone");
    PhoneAddedRecord();
  }

  lemma EmailRequiredLoop()
    ensures RequiredAddedFields(JArr([JStr("id"), JStr("name")]), [JStr("id"), JStr("name"), JStr("email")])
         == [Change(RequiredAdded, "email", "Field 'email' is now required", NoDetail)]
  {
    var oldEntries := [JStr("id"), JStr("name")];
    var newEntries := [JStr("id"), JStr("name"), JStr("email")];
    assert newEntries[..2] == oldEntries;
    forall f | f in oldEntries
      ensures AlreadyRequired(JArr(oldEntries), f)
    {
      assert StrictEquals(Some(f), Some(f));
    }
    RequiredAddedNone(JArr(oldEntries), oldEntries);
    EmailRequiredStep();
    assert RequiredAddedFields(JArr(oldEntries), newEntries)
        == RequiredAddedFields(JArr(oldEntries), oldEntries) + RequiredAddedStep(JArr(oldEntries), JStr("email"));
  }

  lemma EmailRequiredStep()
    ensures RequiredAddedStep(JArr([JStr("id"), JStr("name")]), JStr("email"))
         == [Change(RequiredAdded, "email", "Field 'email' is now required", NoDetail)]
  {
    forall e | e in [JStr("id"), JStr("name")]
      ensures e != JStr("email")
    {
      assert e.s[0] != "email"[0];
    }
    StringRequiredRecord("email");
    assert "Field '" + "email" + "' is now required" == "Field 'email' is now required";
  }

  lemma StringRequiredRecord(s: string)
    ensures RequiredAddedRecord(JStr(s)) == Change(RequiredAdded, s, "Field '" + s + "' is now required", NoDetail)
  {
  }

  /** Removing `email` from `{id, name, email}` is one breaking removal at `email`. */
  lemma RemovedEmailIsBreaking()
    ensures !LocalThrows(IdNameEmail, IdName)
    ensures LocalReport(IdNameEmail, IdName)
         == Log([Change(FieldRemoved, "email", "Field 'email' was removed", NoDetail)], [], true)
  {
    ShapedExamples();
    RemovedEmailLoop();
    FieldsHaveKeys(ThreeFields);
    AddedFieldsNone(JObj(ThreeFields), ["id", "name"]);
    WellShapedDoesNotThrow(IdNameEmail, IdName);
    ReportOfLoops(IdNameEmail, IdName, [Change(FieldRemoved, "email", "Field 'email' was removed", NoDetail)], [], []);
  }

  /** Adding `phone` to `{id, name}` is one non-breaking addition at `phone`. */
  lemma AddedPhoneIsNonBreaking()
    ensures !LocalThrows(IdName, IdNamePhone)
    ensures LocalReport(IdName, IdNamePhone)
         == Log([], [Change(FieldAdded, "phone", "Field 'phone' was added", NoDetail)], false)
  {
    ShapedExamples();
    FieldsHaveKeys(IdNamePhoneFields);
    RemovedFieldsNone(["id", "name"], JObj(IdNamePhoneFields), "");
    PhoneAddedLoop();
    WellShapedDoesNotThrow(IdName, IdNamePhone);
    ReportOfLoops(IdName, IdNamePhone, [], [Change(FieldAdded, "phone", "Field 'phone' was added", NoDetail)], []);
  }

  lemma ShapedRequiredExamples()
    ensures PropsOf(IdNameRequired) == JObj(ThreeFields) && PropsOf(IdNameEmailRequired) == JObj(ThreeFields)
    ensures KeysOf(JObj(ThreeFields)) == ["id", "name", "email"]
    ensures RequiredListOf(IdNameRequired) == JArr([JStr("id"), JStr("name")])
    ensures RequiredListOf(IdNameEmailRequired) == JArr([JStr("id"), JStr("name"), JStr("email")])
  {
    assert Member(IdNameRequired, "properties") == Some(JObj(ThreeFields));
    assert Member(IdNameRequired, "required") == Some(JArr([JStr("id"), JStr("name")]));
    assert Member(IdNameEmailRequired, "properties") == Some(JObj(ThreeFields));
    assert Member(IdNameEmailRequired, "required") == Some(JArr([JStr("id"), JStr("name"), JStr("email")]));
  }

  /** Adding `email` to `required` with the same properties is one breaking
      newly-required record at `email`. */
  lemma RequiredEmailIsBreaking()
    ensures !LocalThrows(IdNameRequired, IdNameEmailRequired)
    ensures LocalReport(IdNameRequired, IdNameEmailRequired)
         == Log([Change(RequiredAdded, "email", "Field 'email' is now required", NoDetail)], [], true)
  {
    var keys := ["id", "name", "email"];
    var props := JObj(ThreeFields);
    var oldRequired := JArr([JStr("id"), JStr("name")]);
    var newEntries := [JStr("id"), JStr("name"), JStr("email")];
    var record := Change(RequiredAdded, "email", "Field 'email' is now required", NoDetail);
    ShapedRequiredExamples();
    assert RemovedFields(keys, props, "") == [] && AddedFields(props, keys) == [] by {
      FieldsHaveKeys(ThreeFields);
      RemovedFieldsNone(keys, props, "");
      AddedFieldsNone(props, keys);
    }
    assert RequiredAddedFields(oldRequired, newEntries) == [record] by {
      EmailRequiredLoop();
    }
    assert RequiredEntries(RequiredListOf(IdNameEmailRequired)) == newEntries;
    WellShapedDoesNotThrow(IdNameRequired, IdNameEmailRequired);
    ReportOfLoops(IdNameRequired, IdNameEmailRequired, [], [], [record]);
  }
}
