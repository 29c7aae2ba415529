/** The generic recursive comparator: walks two raw JSON documents key by
    key, comparing `typeof` at every shared key, recursing into nested
    objects with dotted paths and comparing arrays by the `typeof` of their
    first elements; and the plain-text rendering of its report. */
module SchemaDiff {
  import opened Json
  import opened Changes

  // ---------------------------------------------------------------------
  // The records the comparison emits, in emission order
  // ---------------------------------------------------------------------

  function RemovedRecord(path: string, key: string): Change
  {
    Change(FieldRemoved, JoinPath(path, key), "Field '" + key + "' was removed", NoDetail)
  }

  function AddedRecord(path: string, key: string): Change
  {
    Change(FieldAdded, JoinPath(path, key), "Field '" + key + "' was added", NoDetail)
  }

  /** A `typeof` change; the detail holds the two `typeof` strings. */
  function TypeChangedRecord(path: string, key: string, oldValue: Json, newValue: Json): Change
  {
    var oldType, newType := TypeOf(Some(oldValue)), TypeOf(Some(newValue));
    Change(TypeChanged, JoinPath(path, key), "Type changed from " + oldType + " to " + newType,
           TypeDetail(Some(JStr(oldType)), Some(JStr(newType))))
  }

  function ArrayTypeChangedRecord(path: string, oldItem: Json, newItem: Json): Change
  {
    Change(ArrayTypeChanged, path,
           "Array item type changed from " + TypeOf(Some(oldItem)) + " to " + TypeOf(Some(newItem)), NoDetail)
  }

  /** The removed-fields loop: every listed key that is not `in` the new object. */
  function DiffRemoved(oldKeys: seq<string>, newObj: Json, path: string): seq<Change>
  {
    if oldKeys == [] then []
    else
      var key := oldKeys[|oldKeys| - 1];
      DiffRemoved(oldKeys[..|oldKeys| - 1], newObj, path)
        + (if Has(newObj, key) then [] else [RemovedRecord(path, key)])
  }

  /** `compareArrays`: only the first elements' `typeof` is compared. */
  function DiffArrays(oldElems: seq<Json>, newElems: seq<Json>, path: string): seq<Change>
  {
    if |oldElems| > 0 && |newElems| > 0 && TypeOf(Some(oldElems[0])) != TypeOf(Some(newElems[0])) then
      [ArrayTypeChangedRecord(path, oldElems[0], newElems[0])]
    else []
  }

  /** Everything `compareObjects(oldObj, newObj, path)` emits, in order. */
  function DiffObjects(oldObj: Json, newObj: Json, path: string): seq<Change>
    requires IsObject(oldObj) && IsObject(newObj)
    decreases newObj, 2, 0
  {
    DiffRemoved(OwnKeys(oldObj), newObj, path) + DiffFields(oldObj, newObj, OwnKeys(newObj), path)
  }

  /** The added-or-modified loop over `keys`, a prefix of the new object's keys. */
  function DiffFields(oldObj: Json, newObj: Json, keys: seq<string>, path: string): seq<Change>
    requires IsObject(oldObj) && IsObject(newObj)
    requires forall k :: k in keys ==> k in OwnKeys(newObj)
    decreases newObj, 1, |keys|
  {
    if keys == [] then []
    else DiffFields(oldObj, newObj, keys[..|keys| - 1], path) + DiffField(oldObj, newObj, keys[|keys| - 1], path)
  }

  /** What the added-or-modified loop emits for one key of the new object. */
  function DiffField(oldObj: Json, newObj: Json, key: string, path: string): seq<Change>
    requires IsObject(oldObj) && IsObject(newObj) && key in OwnKeys(newObj)
    decreases newObj, 0, 0
  {
    OwnKeyHas(newObj, key);
    var currentPath := JoinPath(path, key);
    var newValue := Member(newObj, key).value;
    if !Has(oldObj, key) then [AddedRecord(path, key)]
    else
      var oldValue := Member(oldObj, key).value;
      if TypeOf(Some(oldValue)) != TypeOf(Some(newValue)) then [TypeChangedRecord(path, key, oldValue, newValue)]
      else if newValue.JObj? && oldValue != JNull then DiffObjects(oldValue, newValue, currentPath)
      else if newValue.JArr? && oldValue.JArr? then DiffArrays(oldValue.elems, newValue.elems, currentPath)
      else []
  }

  /** The report `compareSchemasForBreakingChanges(oldSchema, newSchema)` returns. */
  function Diff(oldSchema: Json, newSchema: Json): Report
    requires IsObject(oldSchema) && IsObject(newSchema)
  {
    Summarize(RecordedAll(EmptyLog, DiffObjects(oldSchema, newSchema, "")))
  }

  // ---------------------------------------------------------------------
  // Roots that are not objects
  // ---------------------------------------------------------------------

  /** The inputs on which `compareSchemasForBreakingChanges` throws a
      TypeError at its root: `Object.keys` of null, and `key in v` on a
      primitive `v` as soon as the other side lists a key (a string lists
      its indices, a number or a boolean nothing). Nested calls never
      throw: they are made on two non-null objects only. */
  predicate RootThrows(oldSchema: Json, newSchema: Json)
  {
    || oldSchema.JNull?
    || newSchema.JNull?
    || (ObjectKeys(oldSchema).value != [] && !IsObject(newSchema))
    || (ObjectKeys(newSchema).value != [] && !IsObject(oldSchema))
  }

  /** The added-or-modified loop at index `i` of a string root: the new
      value there is the one-character string `s[i]`. */
  function StringField(oldObj: Json, s: string, i: nat): seq<Change>
    requires i < |s|
  {
    var key, newValue := NatToString(i), JStr([s[i]]);
    if !Has(oldObj, key) then [AddedRecord("", key)]
    else
      var oldValue := Member(oldObj, key).value;
      if TypeOf(Some(oldValue)) != TypeOf(Some(newValue)) then [TypeChangedRecord("", key, oldValue, newValue)]
      else []
  }

  /** The added-or-modified loop over the first `n` indices of a string root. */
  function StringFields(oldObj: Json, s: string, n: nat): seq<Change>
    requires n <= |s|
  {
    if n == 0 then [] else StringFields(oldObj, s, n - 1) + StringField(oldObj, s, n - 1)
  }

  /** Everything the root `compareObjects` call emits when it does not
      throw: the removed-fields loop over `Object.keys` of the old root,
      then the added-or-modified loop, which has keys only when the new
      root is an object, an array or a non-empty string. */
  function RootStream(oldSchema: Json, newSchema: Json): seq<Change>
    requires !RootThrows(oldSchema, newSchema)
  {
    DiffRemoved(ObjectKeys(oldSchema).value, newSchema, "")
      + if IsObject(oldSchema) && IsObject(newSchema) then DiffFields(oldSchema, newSchema, OwnKeys(newSchema), "")
        else if IsObject(oldSchema) && newSchema.JStr? then StringFields(oldSchema, newSchema.s, |newSchema.s|)
        else []
  }

  // ---------------------------------------------------------------------
  // The comparator as the source runs it
  // ---------------------------------------------------------------------

  /** `compareObjects`: the removed-fields loop, then the added-or-modified
      loop, which recurses through `CompareField`. */
  method CompareObjects(changes: ChangeSet, oldObj: Json, newObj: Json, path: string)
    requires IsObject(oldObj) && IsObject(newObj)
    modifies changes
    ensures changes.State() == RecordedAll(old(changes.State()), DiffObjects(oldObj, newObj, path))
    decreases newObj, 2, 0
  {
    RecordRemoved(changes, OwnKeys(oldObj), newObj, path);
    RecordFields(changes, oldObj, newObj, path);
    RecordAllAppend(old(changes.State()), DiffRemoved(OwnKeys(oldObj), newObj, path),
                    DiffFields(oldObj, newObj, OwnKeys(newObj), path));
  }

  /** The added-or-modified loop of `compareObjects`. */
  method RecordFields(changes: ChangeSet, oldObj: Json, newObj: Json, path: string)
    requires IsObject(oldObj) && IsObject(newObj)
    modifies changes
    ensures changes.State() == RecordedAll(old(changes.State()), DiffFields(oldObj, newObj, OwnKeys(newObj), path))
    decreases newObj, 1, 0
  {
    var newKeys := OwnKeys(newObj);
    var j := 0;
    while j < |newKeys|
      invariant 0 <= j <= |newKeys|
      invariant changes.State() == RecordedAll(old(changes.State()), DiffFields(oldObj, newObj, newKeys[..j], path))
    {
      var key := newKeys[j];
      PrefixStep(newKeys, j);
      ghost var done := DiffFields(oldObj, newObj, newKeys[..j], path);
      ghost var step := DiffField(oldObj, newObj, key, path);
      CompareField(changes, oldObj, newObj, key, path);
      RecordAllAppend(old(changes.State()), done, step);
      j := j + 1;
    }
    PrefixAll(newKeys);
  }

  /** The removed-fields loop of `compareObjects`. */
  method RecordRemoved(changes: ChangeSet, oldKeys: seq<string>, newObj: Json, path: string)
    modifies changes
    ensures changes.State() == RecordedAll(old(changes.State()), DiffRemoved(oldKeys, newObj, path))
  {
    var i := 0;
    while i < |oldKeys|
      invariant 0 <= i <= |oldKeys|
      invariant changes.State() == RecordedAll(old(changes.State()), DiffRemoved(oldKeys[..i], newObj, path))
    {
      var key := oldKeys[i];
      PrefixStep(oldKeys, i);
      ghost var done := DiffRemoved(oldKeys[..i], newObj, path);
      ghost var step := if Has(newObj, key) then [] else [RemovedRecord(path, key)];
      if !Has(newObj, key) {
        changes.Record(RemovedRecord(path, key));
        RecordedAllOne(RecordedAll(old(changes.State()), done), RemovedRecord(path, key));
      }
      RecordAllAppend(old(changes.State()), done, step);
      i := i + 1;
    }
    PrefixAll(oldKeys);
  }

  /** The body of the added-or-modified loop for one key. */
  method CompareField(changes: ChangeSet, oldObj: Json, newObj: Json, key: string, path: string)
    requires IsObject(oldObj) && IsObject(newObj) && key in OwnKeys(newObj)
    modifies changes
    ensures changes.State() == RecordedAll(old(changes.State()), DiffField(oldObj, newObj, key, path))
    decreases newObj, 0, 0
  {
    OwnKeyHas(newObj, key);
    var currentPath := JoinPath(path, key);
    var newValue := Member(newObj, key).value;
    if !Has(oldObj, key) {
      BreakingKinds(FieldAdded);
      changes.PushNonBreaking(AddedRecord(path, key));
      RecordedAllOne(old(changes.State()), AddedRecord(path, key));
    } else {
      var oldValue := Member(oldObj, key).value;
      if TypeOf(Some(oldValue)) != TypeOf(Some(newValue)) {
        changes.Record(TypeChangedRecord(path, key, oldValue, newValue));
        RecordedAllOne(old(changes.State()), TypeChangedRecord(path, key, oldValue, newValue));
      } else if newValue.JObj? && oldValue != JNull {
        CompareObjects(changes, oldValue, newValue, currentPath);
      } else if newValue.JArr? && oldValue.JArr? {
        CompareArrays(changes, oldValue.elems, newValue.elems, currentPath);
      }
    }
  }

  /** `compareArrays` */
  method CompareArrays(changes: ChangeSet, oldElems: seq<Json>, newElems: seq<Json>, path: string)
    modifies changes
    ensures changes.State() == RecordedAll(old(changes.State()), DiffArrays(oldElems, newElems, path))
  {
    if |oldElems| > 0 && |newElems| > 0 {
      if TypeOf(Some(oldElems[0])) != TypeOf(Some(newElems[0])) {
        changes.Record(ArrayTypeChangedRecord(path, oldElems[0], newElems[0]));
        RecordedAllOne(old(changes.State()), ArrayTypeChangedRecord(path, oldElems[0], newElems[0]));
      }
    }
  }

  /** One pass of the added-or-modified loop at a string root. */
  method RecordStringField(changes: ChangeSet, oldObj: Json, s: string, i: nat)
    requires i < |s|
    modifies changes
    ensures changes.State() == RecordedAll(old(changes.State()), StringField(oldObj, s, i))
  {
    var key, newValue := NatToString(i), JStr([s[i]]);
    if !Has(oldObj, key) {
      BreakingKinds(FieldAdded);
      changes.PushNonBreaking(AddedRecord("", key));
      RecordedAllOne(old(changes.State()), AddedRecord("", key));
    } else {
      var oldValue := Member(oldObj, key).value;
      if TypeOf(Some(oldValue)) != TypeOf(Some(newValue)) {
        changes.Record(TypeChangedRecord("", key, oldValue, newValue));
        RecordedAllOne(old(changes.State()), TypeChangedRecord("", key, oldValue, newValue));
      }
    }
  }

  /** The added-or-modified loop over the indices of a string root. */
  method RecordStringFields(changes: ChangeSet, oldObj: Json, s: string)
    modifies changes
    ensures changes.State() == RecordedAll(old(changes.State()), StringFields(oldObj, s, |s|))
  {
    ghost var start := changes.State();
    var i := 0;
    while i < |s|
      invariant 0 <= i <= |s|
      invariant changes.State() == RecordedAll(start, StringFields(oldObj, s, i))
    {
      ghost var done, step := StringFields(oldObj, s, i), StringField(oldObj, s, i);
      ghost var before := changes.State();
      RecordStringField(changes, oldObj, s, i);
      assert changes.State() == RecordedAll(before, step);
      RecordAllAppend(start, done, step);
      assert changes.State() == RecordedAll(start, done + step);
      assert StringFields(oldObj, s, i + 1) == done + step;
      i := i + 1;
    }
  }

  /** `compareSchemasForBreakingChanges(oldSchema, newSchema)`; `None` when
      it throws. On two object roots the report is `Diff`. */
  method CompareSchemasForBreakingChanges(oldSchema: Json, newSchema: Json) returns (r: Option<Report>)
    ensures r.None? <==> RootThrows(oldSchema, newSchema)
    ensures r.Some? ==> r.value == Summarize(RecordedAll(EmptyLog, RootStream(oldSchema, newSchema))) && Consistent(r.value)
    ensures r.Some? && IsObject(oldSchema) && IsObject(newSchema) ==> r.value == Diff(oldSchema, newSchema)
  {
    if oldSchema.JNull? || newSchema.JNull? {
      return None;
    }
    var oldKeys := ObjectKeys(oldSchema).value;
    if oldKeys != [] && !IsObject(newSchema) {
      // the first `key in newObj` throws
      return None;
    }
    var changes := new ChangeSet();
    RecordRemoved(changes, oldKeys, newSchema, "");
    var newKeys := ObjectKeys(newSchema).value;
    if newKeys != [] && !IsObject(oldSchema) {
      // the first `key in oldObj` throws
      return None;
    }
    ghost var removed := DiffRemoved(oldKeys, newSchema, "");
    ghost var mid := changes.State();
    if IsObject(oldSchema) && IsObject(newSchema) {
      RecordFields(changes, oldSchema, newSchema, "");
      RecordAllAppend(EmptyLog, removed, DiffFields(oldSchema, newSchema, OwnKeys(newSchema), ""));
    } else if IsObject(oldSchema) && newSchema.JStr? {
      RecordStringFields(changes, oldSchema, newSchema.s);
      RecordAllAppend(EmptyLog, removed, StringFields(oldSchema, newSchema.s, |newSchema.s|));
    } else {
      assert removed + [] == removed;
    }
    var report := changes.ToReport();
    ClassifiedReportConsistent(RootStream(oldSchema, newSchema));
    r := Some(report);
  }

  // ---------------------------------------------------------------------
  // Properties of the recursive comparison
  // ---------------------------------------------------------------------

  lemma {:induction false} DiffRemovedNone(oldKeys: seq<string>, newObj: Json, path: string)
    requires forall k :: k in oldKeys ==> Has(newObj, k)
    ensures DiffRemoved(oldKeys, newObj, path) == []
  {
    if oldKeys != [] {
      DiffRemovedNone(oldKeys[..|oldKeys| - 1], newObj, path);
    }
  }

  /** Comparing a document with itself emits nothing, at any depth. */
  lemma {:induction false} DiffObjectsSelf(v: Json, path: string)
    requires IsObject(v)
    ensures DiffObjects(v, v, path) == []
    decreases v, 2, 0
  {
    forall k | k in OwnKeys(v)
      ensures Has(v, k)
    {
      OwnKeyHas(v, k);
    }
    DiffRemovedNone(OwnKeys(v), v, path);
    DiffFieldsSelf(v, OwnKeys(v), path);
  }

  lemma {:induction false} DiffFieldsSelf(v: Json, keys: seq<string>, path: string)
    requires IsObject(v) && forall k :: k in keys ==> k in OwnKeys(v)
    ensures DiffFields(v, v, keys, path) == []
    decreases v, 1, |keys|
  {
    if keys != [] {
      DiffFieldsSelf(v, keys[..|keys| - 1], path);
      DiffFieldSelf(v, keys[|keys| - 1], path);
    }
  }

  lemma {:induction false} DiffFieldSelf(v: Json, key: string, path: string)
    requires IsObject(v) && key in OwnKeys(v)
    ensures DiffField(v, v, key, path) == []
    decreases v, 0, 0
  {
    OwnKeyHas(v, key);
    var value := Member(v, key).value;
    if value.JObj? {
      DiffObjectsSelf(value, JoinPath(path, key));
    }
  }

  /** `compareSchemasForBreakingChanges(doc, doc)` throws exactly on a null
      or non-empty string root (`Object.keys(null)`, `'0' in "…"`), and
      otherwise reports nothing. */
  lemma CompareWithItselfIsEmpty(doc: Json)
    ensures RootThrows(doc, doc) <==> doc.JNull? || (doc.JStr? && doc.s != "")
    ensures !RootThrows(doc, doc) ==> Summarize(RecordedAll(EmptyLog, RootStream(doc, doc))) == EmptyReport
    ensures IsObject(doc) ==> Diff(doc, doc) == EmptyReport
  {
    if IsObject(doc) {
      DiffObjectsSelf(doc, "");
      assert RootStream(doc, doc) == DiffObjects(doc, doc, "");
    } else if !doc.JNull? {
      PrimitiveRoots(doc, doc);
    }
  }

  /** `p` is `parent` itself extended by at least one dotted segment, or
      anything when `parent` is the root. */
  predicate Below(p: string, parent: string)
  {
    parent == "" || (|p| > |parent| && p[..|parent|] == parent && p[|parent|] == '.')
  }

  lemma BelowJoin(p: string, parent: string, key: string)
    requires Below(p, JoinPath(parent, key))
    ensures Below(p, parent)
  {
    if parent != "" {
      var q := JoinPath(parent, key);
      assert p[..|parent|] == q[..|parent|];
      assert p[|parent|] == q[|parent|];
    }
  }

  /** The four kinds this comparator can emit. */
  predicate DiffKind(kind: ChangeKind)
  {
    kind == FieldRemoved || kind == FieldAdded || kind == TypeChanged || kind == ArrayTypeChanged
  }

  /** Every record emitted below `path` carries a dotted path that extends
      `path` by at least one key, and is one of the four kinds above. */
  lemma {:induction false} DiffObjectsShape(oldObj: Json, newObj: Json, path: string)
    requires IsObject(oldObj) && IsObject(newObj)
    ensures forall c :: c in DiffObjects(oldObj, newObj, path) ==> DiffKind(c.kind) && Below(c.path, path)
    decreases newObj, 2, 0
  {
    DiffRemovedShape(OwnKeys(oldObj), newObj, path);
    DiffFieldsShape(oldObj, newObj, OwnKeys(newObj), path);
  }

  lemma {:induction false} DiffRemovedShape(oldKeys: seq<string>, newObj: Json, path: string)
    ensures forall c :: c in DiffRemoved(oldKeys, newObj, path) ==>
      c.kind == FieldRemoved && exists k :: k in oldKeys && !Has(newObj, k) && c == RemovedRecord(path, k)
  {
    if oldKeys != [] {
      DiffRemovedShape(oldKeys[..|oldKeys| - 1], newObj, path);
    }
  }

  lemma {:induction false} DiffFieldsShape(oldObj: Json, newObj: Json, keys: seq<string>, path: string)
    requires IsObject(oldObj) && IsObject(newObj) && forall k :: k in keys ==> k in OwnKeys(newObj)
    ensures forall c :: c in DiffFields(oldObj, newObj, keys, path) ==> DiffKind(c.kind) && Below(c.path, path)
    decreases newObj, 1, |keys|
  {
    if keys != [] {
      DiffFieldsShape(oldObj, newObj, keys[..|keys| - 1], path);
      DiffFieldShape(oldObj, newObj, keys[|keys| - 1], path);
    }
  }

  lemma {:induction false} DiffFieldShape(oldObj: Json, newObj: Json, key: string, path: string)
    requires IsObject(oldObj) && IsObject(newObj) && key in OwnKeys(newObj)
    ensures forall c :: c in DiffField(oldObj, newObj, key, path) ==> DiffKind(c.kind) && Below(c.path, path)
    decreases newObj, 0, 0
  {
    OwnKeyHas(newObj, key);
    var currentPath := JoinPath(path, key);
    assert Below(currentPath, path);
    var newValue := Member(newObj, key).value;
    var step := DiffField(oldObj, newObj, key, path);
    if !Has(oldObj, key) {
      assert step == [AddedRecord(path, key)];
      assert AddedRecord(path, key).path == currentPath;
    } else {
      var oldValue := Member(oldObj, key).value;
      if TypeOf(Some(oldValue)) != TypeOf(Some(newValue)) {
        assert step == [TypeChangedRecord(path, key, oldValue, newValue)];
        assert TypeChangedRecord(path, key, oldValue, newValue).path == currentPath;
      } else if newValue.JObj? && oldValue != JNull {
        assert step == DiffObjects(oldValue, newValue, currentPath);
        DiffObjectsShape(oldValue, newValue, currentPath);
        forall c | c in step
          ensures Below(c.path, path)
        {
          BelowJoin(c.path, path, key);
        }
      } else if newValue.JArr? && oldValue.JArr? {
        assert step == DiffArrays(oldValue.elems, newValue.elems, currentPath);
        assert forall c :: c in step ==> c.path == currentPath && c.kind == ArrayTypeChanged;
      } else {
        assert step == [];
      }
    }
  }

  /** Only removals and `typeof` changes are breaking; added fields and
      array item-type changes are reported as non-breaking. */
  lemma DiffReportKinds(oldSchema: Json, newSchema: Json)
    requires IsObject(oldSchema) && IsObject(newSchema)
    ensures var r := Diff(oldSchema, newSchema);
      && Consistent(r)
      && (forall c :: c in r.breaking ==> c.kind == FieldRemoved || c.kind == TypeChanged)
      && (forall c :: c in r.nonBreaking ==> c.kind == FieldAdded || c.kind == ArrayTypeChanged)
  {
    DiffObjectsShape(oldSchema, newSchema, "");
    ClassifiedKinds(DiffObjects(oldSchema, newSchema, ""));
  }

  /** Records of the four comparator kinds are classified by kind:
      removals and `typeof` changes as breaking, the rest as non-breaking. */
  lemma ClassifiedKinds(cs: seq<Change>)
    requires forall c :: c in cs ==> DiffKind(c.kind)
    ensures var r := Summarize(RecordedAll(EmptyLog, cs));
      && Consistent(r)
      && (forall c :: c in r.breaking ==> c.kind == FieldRemoved || c.kind == TypeChanged)
      && (forall c :: c in r.nonBreaking ==> c.kind == FieldAdded || c.kind == ArrayTypeChanged)
  {
    ClassifiedReportConsistent(cs);
    forall c | c in BreakingOf(cs) + NonBreakingOf(cs)
      ensures c in cs
    {
      InBreakingOf(cs, c);
    }
    BreakingKinds(FieldAdded);
    BreakingKinds(ArrayTypeChanged);
    BreakingKinds(FieldRemoved);
    BreakingKinds(TypeChanged);
  }

  /** A record the string-root loop may write for index `i`: an addition
      where the old root has no such key, a type change where its value
      there is not a string. */
  predicate StringRecordAt(oldObj: Json, c: Change, i: nat)
  {
    && c.path == NatToString(i)
    && ((c.kind == FieldAdded && !Has(oldObj, c.path)) ||
        (c.kind == TypeChanged && Has(oldObj, c.path) && TypeOf(Member(oldObj, c.path)) != "string"))
  }

  /** At a string root, every record names an index of the string. */
  lemma {:induction false} StringFieldsShape(oldObj: Json, s: string, n: nat)
    requires n <= |s|
    ensures forall c :: c in StringFields(oldObj, s, n) ==> exists i :: 0 <= i < n && StringRecordAt(oldObj, c, i)
  {
    if n > 0 {
      StringFieldsShape(oldObj, s, n - 1);
      var init, last := StringFields(oldObj, s, n - 1), StringField(oldObj, s, n - 1);
      assert StringFields(oldObj, s, n) == init + last;
      forall c | c in init + last
        ensures exists i :: 0 <= i < n && StringRecordAt(oldObj, c, i)
      {
        if c in last {
          assert JoinPath("", NatToString(n - 1)) == NatToString(n - 1);
          assert TypeOf(Some(JStr([s[n - 1]]))) == "string";
          assert StringRecordAt(oldObj, c, n - 1);
        }
      }
    }
  }

  /** Two primitive roots throw exactly when one of them is a non-empty
      string (whose indices meet `in` on the other), and otherwise compare
      as empty. */
  lemma PrimitiveRoots(oldSchema: Json, newSchema: Json)
    requires !oldSchema.JNull? && !newSchema.JNull? && !IsObject(oldSchema) && !IsObject(newSchema)
    ensures RootThrows(oldSchema, newSchema) <==>
      (oldSchema.JStr? && oldSchema.s != "") || (newSchema.JStr? && newSchema.s != "")
    ensures !RootThrows(oldSchema, newSchema) ==> RootStream(oldSchema, newSchema) == []
  {
  }

  /** Whatever the roots, a comparison that does not throw writes only
      records of the four comparator kinds. */
  lemma RootStreamKinds(oldSchema: Json, newSchema: Json)
    requires !RootThrows(oldSchema, newSchema)
    ensures forall c :: c in RootStream(oldSchema, newSchema) ==> DiffKind(c.kind)
  {
    DiffRemovedShape(ObjectKeys(oldSchema).value, newSchema, "");
    if IsObject(oldSchema) && IsObject(newSchema) {
      DiffFieldsShape(oldSchema, newSchema, OwnKeys(newSchema), "");
    } else if IsObject(oldSchema) && newSchema.JStr? {
      StringFieldsShape(oldSchema, newSchema.s, |newSchema.s|);
    }
  }

  /** Whatever the roots, a comparison that does not throw classifies
      removals and `typeof` changes as breaking and additions and array
      item-type changes as non-breaking. */
  lemma RootReportKinds(oldSchema: Json, newSchema: Json)
    requires !RootThrows(oldSchema, newSchema)
    ensures var r := Summarize(RecordedAll(EmptyLog, RootStream(oldSchema, newSchema)));
      && Consistent(r)
      && (forall c :: c in r.breaking ==> c.kind == FieldRemoved || c.kind == TypeChanged)
      && (forall c :: c in r.nonBreaking ==> c.kind == FieldAdded || c.kind == ArrayTypeChanged)
  {
    RootStreamKinds(oldSchema, newSchema);
    ClassifiedKinds(RootStream(oldSchema, newSchema));
  }

  lemma {:induction false} DiffFieldsIncludes(oldObj: Json, newObj: Json, keys: seq<string>, path: string, k: string)
    requires IsObject(oldObj) && IsObject(newObj) && forall x :: x in keys ==> x in OwnKeys(newObj)
    requires k in keys
    ensures forall c :: c in DiffField(oldObj, newObj, k, path) ==> c in DiffFields(oldObj, newObj, keys, path)
  {
    var init := keys[..|keys| - 1];
    if keys[|keys| - 1] != k {
      InInitOrLast(keys, k);
      DiffFieldsIncludes(oldObj, newObj, init, path, k);
    }
  }

  lemma {:induction false} DiffRemovedIncludes(oldKeys: seq<string>, newObj: Json, path: string, k: string)
    requires k in oldKeys && !Has(newObj, k)
    ensures RemovedRecord(path, k) in DiffRemoved(oldKeys, newObj, path)
  {
    var init := oldKeys[..|oldKeys| - 1];
    if oldKeys[|oldKeys| - 1] != k {
      InInitOrLast(oldKeys, k);
      DiffRemovedIncludes(init, newObj, path, k);
    }
  }

  /** Whatever one key of the new object emits is part of its object's records. */
  lemma FieldIncluded(oldObj: Json, newObj: Json, path: string, k: string)
    requires IsObject(oldObj) && IsObject(newObj) && k in OwnKeys(newObj)
    ensures forall c :: c in DiffField(oldObj, newObj, k, path) ==> c in DiffObjects(oldObj, newObj, path)
  {
    DiffFieldsIncludes(oldObj, newObj, OwnKeys(newObj), path, k);
  }

  /** At the root: a key the new document lacks is reported as a breaking
      removal, a key the old document lacks as a non-breaking addition, and
      a shared key whose `typeof` differs as a breaking type change carrying
      both `typeof` strings; each one raises the flag or leaves it as the
      classification says. */
  lemma KeyChangesReported(oldSchema: Json, newSchema: Json, k: string)
    requires IsObject(oldSchema) && IsObject(newSchema)
    ensures var r := Diff(oldSchema, newSchema);
      && (k in OwnKeys(oldSchema) && !Has(newSchema, k) ==> RemovedRecord("", k) in r.breaking && r.hasBreakingChanges)
      && (k in OwnKeys(newSchema) && !Has(oldSchema, k) ==> AddedRecord("", k) in r.nonBreaking)
      && (k in OwnKeys(newSchema) && Has(oldSchema, k) &&
          TypeOf(Member(oldSchema, k)) != TypeOf(Member(newSchema, k)) ==>
            TypeChangedRecord("", k, Member(oldSchema, k).value, Member(newSchema, k).value) in r.breaking
            && r.hasBreakingChanges)
  {
    var cs := DiffObjects(oldSchema, newSchema, "");
    ClassifiedReportConsistent(cs);
    BreakingKinds(FieldRemoved);
    BreakingKinds(FieldAdded);
    BreakingKinds(TypeChanged);
    if k in OwnKeys(oldSchema) && !Has(newSchema, k) {
      DiffRemovedIncludes(OwnKeys(oldSchema), newSchema, "", k);
      ClassifiedInto(cs, RemovedRecord("", k));
    }
    if k in OwnKeys(newSchema) {
      FieldIncluded(oldSchema, newSchema, "", k);
      OwnKeyHas(newSchema, k);
      var step := DiffField(oldSchema, newSchema, k, "");
      if !Has(oldSchema, k) {
        assert AddedRecord("", k) in step;
        ClassifiedInto(cs, AddedRecord("", k));
      } else if TypeOf(Member(oldSchema, k)) != TypeOf(Member(newSchema, k)) {
        var c := TypeChangedRecord("", k, Member(oldSchema, k).value, Member(newSchema, k).value);
        assert c in step;
        ClassifiedInto(cs, c);
      }
    }
  }

  /** What one shared key emits beyond a `typeof` change: nothing below a
      type change; nothing for an object/array swap, a null/object swap or
      two primitives of one `typeof` (so a `type` value rewritten from
      "string" to "number" goes unreported); an item-type change for two
      arrays whose first elements differ in `typeof`, and nothing when either
      is empty; and the nested comparison for a new nested object, whose
      records all lie below the key's path. */
  lemma SharedKeyOutcome(oldObj: Json, newObj: Json, path: string, k: string)
    requires IsObject(oldObj) && IsObject(newObj) && k in OwnKeys(newObj) && Has(oldObj, k)
    ensures var oldValue, newValue := Member(oldObj, k).value, Member(newObj, k).value;
      var step := DiffField(oldObj, newObj, k, path);
      && (TypeOf(Some(oldValue)) != TypeOf(Some(newValue)) ==> step == [TypeChangedRecord(path, k, oldValue, newValue)])
      && (oldValue.JObj? && newValue.JArr? ==> step == [])
      && (oldValue.JArr? && newValue.JObj? ==> step == DiffObjects(oldValue, newValue, JoinPath(path, k)))
      && ((oldValue.JNull? && newValue.JObj?) || (oldValue.JObj? && newValue.JNull?) ==> step == [])
      && (!IsObject(oldValue) && !IsObject(newValue) && TypeOf(Some(oldValue)) == TypeOf(Some(newValue)) ==> step == [])
      && (oldValue.JArr? && newValue.JArr? ==>
            step == (if |oldValue.elems| > 0 && |newValue.elems| > 0 &&
                        TypeOf(Some(oldValue.elems[0])) != TypeOf(Some(newValue.elems[0]))
                     then [ArrayTypeChangedRecord(JoinPath(path, k), oldValue.elems[0], newValue.elems[0])] else []))
      && (oldValue.JObj? && newValue.JObj? ==>
            step == DiffObjects(oldValue, newValue, JoinPath(path, k)) &&
            forall c :: c in step ==> Below(c.path, JoinPath(path, k)))
  {
    OwnKeyHas(newObj, k);
    var oldValue, newValue := Member(oldObj, k).value, Member(newObj, k).value;
    var step := DiffField(oldObj, newObj, k, path);
    if TypeOf(Some(oldValue)) != TypeOf(Some(newValue)) {
      assert step == [TypeChangedRecord(path, k, oldValue, newValue)];
    } else if newValue.JObj? && oldValue != JNull {
      assert step == DiffObjects(oldValue, newValue, JoinPath(path, k));
      if oldValue.JObj? {
        DiffObjectsShape(oldValue, newValue, JoinPath(path, k));
      }
    } else if newValue.JArr? && oldValue.JArr? {
      assert step == DiffArrays(oldValue.elems, newValue.elems, JoinPath(path, k));
    } else {
      assert step == [];
    }
  }

  lemma SingletonKeys(key: string, value: Json)
    ensures OwnKeys(JObj([(key, value)])) == [key]
    ensures Get([(key, value)], key) == Some(value)
  {
  }

  /** One-key objects `{key: oldValue}` and `{key: newValue}`. */
  lemma SingletonDiff(key: string, oldValue: Json, newValue: Json, path: string)
    ensures var oldObj, newObj := JObj([(key, oldValue)]), JObj([(key, newValue)]);
      DiffObjects(oldObj, newObj, path) == DiffField(oldObj, newObj, key, path)
  {
    var oldObj, newObj := JObj([(key, oldValue)]), JObj([(key, newValue)]);
    SingletonKeys(key, oldValue);
    SingletonKeys(key, newValue);
    assert DiffRemoved([key], newObj, path) == [] by {
      assert [key][..0] == [];
    }
    assert DiffFields(oldObj, newObj, [key], path) == DiffField(oldObj, newObj, key, path) by {
      assert [key][..0] == [];
    }
  }

  /** A one-key object whose primitive value is replaced by another of the
      same `typeof` yields no record. */
  lemma SingletonPrimitiveUnchanged(key: string, oldValue: Json, newValue: Json, path: string)
    requires !IsObject(oldValue) && !IsObject(newValue) && TypeOf(Some(oldValue)) == TypeOf(Some(newValue))
    ensures DiffObjects(JObj([(key, oldValue)]), JObj([(key, newValue)]), path) == []
  {
    var oldObj, newObj := JObj([(key, oldValue)]), JObj([(key, newValue)]);
    SingletonDiff(key, oldValue, newValue, path);
    assert OwnKeys(newObj) == [key];
    assert Member(oldObj, key) == Some(oldValue);
    assert Member(newObj, key) == Some(newValue);
    SharedKeyOutcome(oldObj, newObj, path, key);
  }

  /** A one-key object whose object value is replaced by another object
      yields the records of comparing the two values one level down. */
  lemma SingletonNested(key: string, oldValue: Json, newValue: Json, path: string)
    requires oldValue.JObj? && newValue.JObj?
    ensures DiffObjects(JObj([(key, oldValue)]), JObj([(key, newValue)]), path)
         == DiffObjects(oldValue, newValue, JoinPath(path, key))
  {
    var oldObj, newObj := JObj([(key, oldValue)]), JObj([(key, newValue)]);
    SingletonDiff(key, oldValue, newValue, path);
    assert OwnKeys(newObj) == [key];
    assert Member(oldObj, key) == Some(oldValue);
    assert Member(newObj, key) == Some(newValue);
    SharedKeyOutcome(oldObj, newObj, path, key);
  }

  /** On a JSON-Schema document, rewriting a property's `type` from "string"
      to "number" changes no `typeof`, so this comparator reports nothing. */
  lemma TypeValueRewriteUnreported()
    ensures var before := JObj([("properties", JObj([("id", JObj([("type", JStr("string"))]))]))]);
      var after := JObj([("properties", JObj([("id", JObj([("type", JStr("number"))]))]))]);
      Diff(before, after) == EmptyReport
  {
    var leafBefore, leafAfter := JObj([("type", JStr("string"))]), JObj([("type", JStr("number"))]);
    var propsBefore, propsAfter := JObj([("id", leafBefore)]), JObj([("id", leafAfter)]);
    SingletonPrimitiveUnchanged("type", JStr("string"), JStr("number"), JoinPath(JoinPath("", "properties"), "id"));
    SingletonNested("id", leafBefore, leafAfter, JoinPath("", "properties"));
    SingletonNested("properties", propsBefore, propsAfter, "");
  }

  // ---------------------------------------------------------------------
  // The plain-text rendering of a report
  // ---------------------------------------------------------------------

  const BreakingHeaderStart := "\U{26A0}\U{FE0F} Contains "
  const NoBreakingHeader := "\U{2705} No breaking changes detected. "

  /** The line a breaking record contributes: `\n- <description> at <path>`. */
  function Line(c: Change): string
  {
    "\n- " + c.description + " at " + c.path
  }

  /** One line per breaking record, in order. */
  function BreakingLines(breaking: seq<Change>): string
  {
    if breaking == [] then ""
    else BreakingLines(breaking[..|breaking| - 1]) + Line(breaking[|breaking| - 1])
  }

  function Header(r: Report): string
  {
    if r.hasBreakingChanges then BreakingHeaderStart + NatToString(|r.breaking|) + " breaking changes: "
    else NoBreakingHeader
  }

  function Footer(r: Report): string
  {
    "\n" + NatToString(|r.nonBreaking|) + " non-breaking changes found."
  }

  /** What `generateHumanReadableDiff(r)` returns. */
  function HumanReadableDiff(r: Report): string
  {
    Header(r) + (if r.hasBreakingChanges then BreakingLines(r.breaking) else "") + Footer(r)
  }

  /** `generateHumanReadableDiff`: the header, a line per breaking record
      appended in a loop, then the count of non-breaking records. */
  method GenerateHumanReadableDiff(r: Report) returns (summary: string)
    ensures summary == HumanReadableDiff(r)
  {
    summary := "";
    if r.hasBreakingChanges {
      summary := summary + (BreakingHeaderStart + NatToString(|r.breaking|) + " breaking changes: ");
      var i := 0;
      while i < |r.breaking|
        invariant 0 <= i <= |r.breaking|
        invariant summary == Header(r) + BreakingLines(r.breaking[..i])
      {
        PrefixStep(r.breaking, i);
        ConcatAssoc(Header(r), BreakingLines(r.breaking[..i]), Line(r.breaking[i]));
        summary := summary + ("\n- " + r.breaking[i].description + " at " + r.breaking[i].path);
        i := i + 1;
      }
      PrefixAll(r.breaking);
    } else {
      summary := summary + NoBreakingHeader;
    }
    summary := summary + ("\n" + NatToString(|r.nonBreaking|) + " non-breaking changes found.");
  }

  /** The number of times `ch` occurs in `s`. */
  function Occurrences(s: string, ch: char): nat
  {
    if s == [] then 0 else Occurrences(s[..|s| - 1], ch) + (if s[|s| - 1] == ch then 1 else 0)
  }

  lemma {:induction false} OccurrencesAppend(a: string, b: string, ch: char)
    ensures Occurrences(a + b, ch) == Occurrences(a, ch) + Occurrences(b, ch)
    decreases |b|
  {
    if b == [] {
      assert a + b == a;
    } else {
      assert (a + b)[..|a + b| - 1] == a + b[..|b| - 1];
      OccurrencesAppend(a, b[..|b| - 1], ch);
    }
  }

  lemma {:induction false} OccurrencesNone(s: string, ch: char)
    requires ch !in s
    ensures Occurrences(s, ch) == 0
  {
    if s != [] {
      OccurrencesNone(s[..|s| - 1], ch);
    }
  }

  /** No description or path contains a line break. */
  predicate SingleLine(cs: seq<Change>)
  {
    forall c :: c in cs ==> '\n' !in c.description && '\n' !in c.path
  }

  /** A single-line record's line holds exactly the one line break it starts with. */
  lemma LineCount(c: Change)
    requires '\n' !in c.description && '\n' !in c.path
    ensures Occurrences(Line(c), '\n') == 1
  {
    var x1 := "\n- " + c.description;
    var x2 := x1 + " at ";
    OccurrencesAppend(x2, c.path, '\n');
    OccurrencesAppend(x1, " at ", '\n');
    OccurrencesAppend("\n- ", c.description, '\n');
    OccurrencesNone(c.description, '\n');
    OccurrencesNone(c.path, '\n');
    OccurrencesNone(" at ", '\n');
    assert Occurrences("\n- ", '\n') == 1 by {
      assert "\n- "[..2] == "\n-" && "\n-"[..1] == "\n" && "\n"[..0] == "";
    }
  }

  lemma {:induction false} BreakingLinesCount(breaking: seq<Change>)
    requires SingleLine(breaking)
    ensures Occurrences(BreakingLines(breaking), '\n') == |breaking|
  {
    if breaking != [] {
      var init, c := breaking[..|breaking| - 1], breaking[|breaking| - 1];
      assert SingleLine(init) by {
        forall x | x in init
          ensures x in breaking
        {
          InInitOrLast(breaking, x);
        }
      }
      BreakingLinesCount(init);
      LineCount(c);
      OccurrencesAppend(BreakingLines(init), Line(c), '\n');
    }
  }

  lemma HeaderLayout(r: Report)
    ensures Occurrences(Header(r), '\n') == 0
    ensures r.hasBreakingChanges ==> Header(r)[..|BreakingHeaderStart|] == BreakingHeaderStart
    ensures !r.hasBreakingChanges ==> Header(r) == NoBreakingHeader
  {
    if r.hasBreakingChanges {
      var count := NatToString(|r.breaking|);
      OccurrencesAppend(BreakingHeaderStart + count, " breaking changes: ", '\n');
      OccurrencesAppend(BreakingHeaderStart, count, '\n');
      OccurrencesNone(BreakingHeaderStart, '\n');
      OccurrencesNone(count, '\n');
      OccurrencesNone(" breaking changes: ", '\n');
    } else {
      OccurrencesNone(NoBreakingHeader, '\n');
    }
  }

  lemma FooterLayout(r: Report)
    ensures Occurrences(Footer(r), '\n') == 1
  {
    var count := NatToString(|r.nonBreaking|);
    OccurrencesAppend("\n" + count, " non-breaking changes found.", '\n');
    OccurrencesAppend("\n", count, '\n');
    OccurrencesNone(count, '\n');
    OccurrencesNone(" non-breaking changes found.", '\n');
    assert Occurrences("\n", '\n') == 1 by {
      assert "\n"[..0] == "";
    }
  }

  /** The text opens with the breaking-count header exactly when the report
      is flagged (with "No breaking changes detected" otherwise), holds one
      line per breaking record when flagged and none otherwise, and closes
      with the non-breaking count on a line of its own. */
  lemma HumanReadableDiffLayout(r: Report)
    requires SingleLine(r.breaking)
    ensures var text := HumanReadableDiff(r);
      && (r.hasBreakingChanges ==>
            text[..|BreakingHeaderStart|] == BreakingHeaderStart &&
            Occurrences(text, '\n') == |r.breaking| + 1)
      && (!r.hasBreakingChanges ==>
            text[..|NoBreakingHeader|] == NoBreakingHeader && Occurrences(text, '\n') == 1)
      && text[|text| - |Footer(r)|..] == Footer(r)
  {
    var text := HumanReadableDiff(r);
    var body := if r.hasBreakingChanges then BreakingLines(r.breaking) else "";
    assert text == Header(r) + body + Footer(r);
    HeaderLayout(r);
    FooterLayout(r);
    OccurrencesAppend(Header(r) + body, Footer(r), '\n');
    OccurrencesAppend(Header(r), body, '\n');
    if r.hasBreakingChanges {
      BreakingLinesCount(r.breaking);
      assert text[..|BreakingHeaderStart|] == Header(r)[..|BreakingHeaderStart|];
    } else {
      assert text[..|NoBreakingHeader|] == Header(r);
    }
  }
}
