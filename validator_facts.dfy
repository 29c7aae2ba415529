/** What the payload validator promises: errors only grow, each error has
    a path longer than that of the walk that pushed it, the errors at a
    field's own path are exactly its type error and its enum error, a
    missing required field and a mismatching value are reported, and only
    the keys the schema declares are read. */
module ValidatorFacts {
  import opened Json
  import opened Validator

  /** `-1` for the root path, so that every path is longer than it. */
  function Depth(path: string): int
  {
    if path == "" then -1 else |path|
  }

  /** The `i`-th error of `errs` lies at a path longer than `depth`. */
  predicate DeeperAt(errs: seq<ValidationError>, i: int, depth: int)
  {
    0 <= i < |errs| && |errs[i].path| > depth
  }

  /** `after` is `before` followed by errors whose paths are longer than `depth`. */
  predicate Extends(before: seq<ValidationError>, after: seq<ValidationError>, depth: int)
  {
    before <= after && forall i :: |before| <= i < |after| ==> DeeperAt(after, i, depth)
  }

  lemma ExtendsTrans(a: seq<ValidationError>, b: seq<ValidationError>, c: seq<ValidationError>, depth: int)
    requires Extends(a, b, depth) && Extends(b, c, depth)
    ensures Extends(a, c, depth)
  {
    forall i | |a| <= i < |c|
      ensures DeeperAt(c, i, depth)
    {
      if i < |b| {
        assert DeeperAt(b, i, depth);
        assert b[i] == c[i];
      } else {
        assert DeeperAt(c, i, depth);
      }
    }
  }

  lemma ExtendsWeaken(a: seq<ValidationError>, b: seq<ValidationError>, deep: int, shallow: int)
    requires Extends(a, b, deep) && shallow <= deep
    ensures Extends(a, b, shallow)
  {
    forall i | |a| <= i < |b|
      ensures DeeperAt(b, i, shallow)
    {
      assert DeeperAt(b, i, deep);
    }
  }

  /** Pushing one error at a path longer than `depth`. */
  lemma ExtendsPush(a: seq<ValidationError>, e: ValidationError, depth: int)
    requires |e.path| > depth
    ensures Extends(a, a + [e], depth)
  {
    assert DeeperAt(a + [e], |a|, depth);
  }

  lemma ExtendsRefl(a: seq<ValidationError>, depth: int)
    ensures Extends(a, a, depth)
  {
  }

  /** The errors of `errs` reported exactly at `path`, in order. */
  function AtPath(errs: seq<ValidationError>, path: string): seq<ValidationError>
  {
    if errs == [] then []
    else
      var last := errs[|errs| - 1];
      AtPath(errs[..|errs| - 1], path) + (if last.path == path then [last] else [])
  }

  lemma AtPathPush(errs: seq<ValidationError>, e: ValidationError, path: string)
    ensures AtPath(errs + [e], path) == AtPath(errs, path) + (if e.path == path then [e] else [])
  {
    assert (errs + [e])[..|errs|] == errs;
  }

  /** Errors deeper than `path` leave the errors at `path` unchanged. */
  lemma {:induction false} AtPathExtends(before: seq<ValidationError>, after: seq<ValidationError>, depth: int, path: string)
    requires Extends(before, after, depth) && |path| <= depth
    ensures AtPath(after, path) == AtPath(before, path)
    decreases |after|
  {
    if |after| > |before| {
      var init := after[..|after| - 1];
      assert after == init + [after[|after| - 1]];
      assert DeeperAt(after, |after| - 1, depth);
      assert Extends(before, init, depth) by {
        forall i | |before| <= i < |init|
          ensures DeeperAt(init, i, depth)
        {
          assert DeeperAt(after, i, depth);
        }
      }
      AtPathExtends(before, init, depth, path);
      AtPathPush(init, after[|after| - 1], path);
    } else {
      assert after == before;
    }
  }

  // ---------------------------------------------------------------------
  // Errors only grow, and each has a path longer than that of its walk.
  // ---------------------------------------------------------------------

  lemma {:induction false} ObjectExtends(obj: Json, schemaObj: Json, path: string, acc: seq<ValidationError>)
    ensures Extends(acc, ObjectRun(obj, schemaObj, path, acc).errors, Depth(path))
    decreases obj, 6
  {
    match ObjectKeys(schemaObj)
    case None =>
    case Some(keys) => KeysExtends(obj, schemaObj, keys, 0, path, acc);
  }

  lemma {:induction false} KeysExtends(obj: Json, schemaObj: Json, keys: seq<string>, i: nat, path: string, acc: seq<ValidationError>)
    requires !schemaObj.JNull? && i <= |keys|
    ensures Extends(acc, KeysRun(obj, schemaObj, keys, i, path, acc).errors, Depth(path))
    decreases obj, 5, |keys| - i
  {
    if i < |keys| {
      var step := FieldRun(obj, schemaObj, keys[i], path, acc);
      FieldExtends(obj, schemaObj, keys[i], path, acc);
      if !step.threw {
        KeysExtends(obj, schemaObj, keys, i + 1, path, step.errors);
        ExtendsTrans(acc, step.errors, KeysRun(obj, schemaObj, keys, i + 1, path, step.errors).errors, Depth(path));
      }
    }
  }

  lemma {:induction false} FieldExtends(obj: Json, schemaObj: Json, key: string, path: string, acc: seq<ValidationError>)
    requires !schemaObj.JNull?
    ensures Extends(acc, FieldRun(obj, schemaObj, key, path, acc).errors, Depth(path))
    decreases obj, 4
  {
    var entry := Property(schemaObj, key);
    if !(entry.None? || entry.value.JNull? || obj.JNull?) {
      var currentPath := JoinPath(path, key);
      var ruled := RuleRun(obj, entry.value, key, currentPath, acc);
      assert Extends(acc, ruled.errors, Depth(path)) by {
        RuleExtends(obj, entry.value, key, currentPath, acc);
        ExtendsWeaken(acc, ruled.errors, |currentPath| - 1, Depth(path));
      }
      assert FieldRun(obj, schemaObj, key, path, acc) == ruled;
    } else {
      ExtendsRefl(acc, Depth(path));
    }
  }

  lemma {:induction false} RuleExtends(obj: Json, rule: Json, key: string, currentPath: string, acc: seq<ValidationError>)
    requires !obj.JNull? && !rule.JNull?
    ensures Extends(acc, RuleRun(obj, rule, key, currentPath, acc).errors, |currentPath| - 1)
    decreases obj, 3
  {
    var value := Property(obj, key);
    if !(Truthy(Property(rule, "required")) && (value.None? || value.value.JNull?)) && value.Some? {
      PresentExtends(obj, rule, key, currentPath, acc);
    }
  }

  lemma {:induction false} PresentExtends(obj: Json, rule: Json, key: string, currentPath: string, acc: seq<ValidationError>)
    requires !obj.JNull? && !rule.JNull? && Property(obj, key).Some?
    ensures Extends(acc, PresentRun(obj, rule, key, currentPath, acc).errors, |currentPath| - 1)
    decreases obj, 2
  {
    var v := Property(obj, key).value;
    var d := |currentPath| - 1;
    var typed := TypeCheck(v, Property(rule, "type"), currentPath, acc);
    TypeCheckAtPath(v, Property(rule, "type"), currentPath, acc);
    var shaped := ShapeRun(obj, rule, key, currentPath, typed.errors);
    ShapeExtends(obj, rule, key, currentPath, typed.errors);
    ExtendsWeaken(typed.errors, shaped.errors, Depth(currentPath), d);
    ExtendsTrans(acc, typed.errors, shaped.errors, d);
    if !shaped.threw {
      EnumCheckAtPath(v, Property(rule, "enum"), currentPath, shaped.errors);
      ExtendsTrans(acc, shaped.errors, EnumCheck(v, Property(rule, "enum"), currentPath, shaped.errors).errors, d);
    }
  }

  lemma {:induction false} ShapeExtends(obj: Json, rule: Json, key: string, currentPath: string, acc: seq<ValidationError>)
    requires !obj.JNull? && !rule.JNull? && Property(obj, key).Some?
    ensures Extends(acc, ShapeRun(obj, rule, key, currentPath, acc).errors, Depth(currentPath))
    decreases obj, 1
  {
    var nested := NestedRun(obj, rule, key, currentPath, acc);
    NestedExtends(obj, rule, key, currentPath, acc);
    if !nested.threw {
      var elements := ElementsRun(obj, rule, key, currentPath, nested.errors);
      ElementsExtends(obj, rule, key, currentPath, nested.errors);
      ExtendsWeaken(nested.errors, elements.errors, |currentPath|, Depth(currentPath));
      ExtendsTrans(acc, nested.errors, elements.errors, Depth(currentPath));
    }
  }

  lemma {:induction false} NestedExtends(obj: Json, rule: Json, key: string, currentPath: string, acc: seq<ValidationError>)
    requires !obj.JNull? && !rule.JNull? && Property(obj, key).Some?
    ensures Extends(acc, NestedRun(obj, rule, key, currentPath, acc).errors, Depth(currentPath))
    decreases obj, 0
  {
    var v := Property(obj, key).value;
    var properties := Property(rule, "properties");
    if (v.JObj? || v.JNull?) && Truthy(properties) {
      ObjectExtends(v, properties.value, currentPath, acc);
    }
  }

  lemma {:induction false} ElementsExtends(obj: Json, rule: Json, key: string, currentPath: string, acc: seq<ValidationError>)
    requires !obj.JNull? && !rule.JNull? && Property(obj, key).Some?
    ensures Extends(acc, ElementsRun(obj, rule, key, currentPath, acc).errors, |currentPath|)
    decreases obj, 0
  {
    var v := Property(obj, key).value;
    var items := Property(rule, "items");
    if v.JArr? && Truthy(items) {
      ItemsExtends(v, items.value, currentPath, 0, acc);
    }
  }

  lemma {:induction false} ItemsExtends(arr: Json, items: Json, path: string, i: nat, acc: seq<ValidationError>)
    requires arr.JArr? && i <= |arr.elems| && !items.JNull?
    ensures Extends(acc, ItemsRun(arr, items, path, i, acc).errors, |path|)
    decreases arr, 3, |arr.elems| - i
  {
    if i < |arr.elems| {
      var step := ItemRun(arr.elems[i], i, items, path, acc);
      ItemExtends(arr.elems[i], i, items, path, acc);
      if !step.threw {
        ItemsExtends(arr, items, path, i + 1, step.errors);
        ExtendsTrans(acc, step.errors, ItemsRun(arr, items, path, i + 1, step.errors).errors, |path|);
      }
    }
  }

  lemma {:induction false} ItemExtends(item: Json, index: nat, items: Json, path: string, acc: seq<ValidationError>)
    requires !items.JNull?
    ensures Extends(acc, ItemRun(item, index, items, path, acc).errors, |path|)
    decreases item, 7
  {
    var itemPath := ItemPath(path, index);
    var expected := Property(items, "type");
    var properties := Property(items, "properties");
    var checked :=
      if Truthy(expected) && !StrictEquals(expected, Some(JStr(KindOf(item))))
      then acc + [ItemMismatch(itemPath, expected, KindOf(item))] else acc;
    if checked == acc {
      ExtendsRefl(acc, |path|);
    } else {
      ExtendsPush(acc, ItemMismatch(itemPath, expected, KindOf(item)), |path|);
    }
    if (item.JObj? || item.JNull?) && Truthy(properties) {
      ObjectExtends(item, properties.value, itemPath, checked);
      ExtendsWeaken(checked, ObjectRun(item, properties.value, itemPath, checked).errors, Depth(itemPath), |path|);
      ExtendsTrans(acc, checked, ObjectRun(item, properties.value, itemPath, checked).errors, |path|);
    }
  }


  /** `errors` only grows: a walk never drops an error pushed before it. */
  lemma ErrorsOnlyGrow(obj: Json, schemaObj: Json, path: string, acc: seq<ValidationError>)
    ensures acc <= ObjectRun(obj, schemaObj, path, acc).errors
  {
    ObjectExtends(obj, schemaObj, path, acc);
  }

  // ---------------------------------------------------------------------
  // The checks at the field's own path.
  // ---------------------------------------------------------------------

  /** Appending errors that all lie at `path`. */
  lemma {:induction false} AtPathAppendAt(errs: seq<ValidationError>, more: seq<ValidationError>, path: string)
    requires forall e :: e in more ==> e.path == path
    ensures AtPath(errs + more, path) == AtPath(errs, path) + more
    decreases |more|
  {
    if more == [] {
      assert errs + more == errs;
    } else {
      var init := more[..|more| - 1];
      var last := more[|more| - 1];
      assert more == init + [last];
      assert errs + more == (errs + init) + [last];
      AtPathAppendAt(errs, init, path);
      AtPathPush(errs + init, last, path);
    }
  }

  /** The type check pushes at most its one error, at the field's path,
      whatever was pushed before it. */
  lemma TypeCheckAtPath(v: Json, expected: Value, path: string, acc: seq<ValidationError>)
    ensures TypeCheck(v, expected, path, acc).errors == acc + TypeCheck(v, expected, path, []).errors
    ensures !TypeCheck(v, expected, path, acc).threw
    ensures forall e :: e in TypeCheck(v, expected, path, []).errors ==> e.path == path
    ensures Extends(acc, TypeCheck(v, expected, path, acc).errors, |path| - 1)
  {
    if Truthy(expected) && !StrictEquals(expected, Some(JStr(KindOf(v)))) {
      ExtendsPush(acc, TypeMismatch(path, expected, KindOf(v)), |path| - 1);
    } else {
      assert acc + [] == acc;
    }
  }

  /** The same for the enum check. */
  lemma EnumCheckAtPath(v: Json, allowed: Value, path: string, acc: seq<ValidationError>)
    ensures EnumCheck(v, allowed, path, acc).errors == acc + EnumCheck(v, allowed, path, []).errors
    ensures forall e :: e in EnumCheck(v, allowed, path, []).errors ==> e.path == path
    ensures Extends(acc, EnumCheck(v, allowed, path, acc).errors, |path| - 1)
  {
    if Truthy(allowed) && allowed.value.JArr? && !Includes(allowed.value.elems, v) {
      ExtendsPush(acc, EnumError(path, v, allowed.value.elems), |path| - 1);
    } else {
      assert acc + [] == acc;
    }
  }

  /** On a present value, the errors reported at the field's own path are
      exactly the type error (declared `type` truthy and not the runtime
      kind) followed by the enum error (an `enum` array that does not
      include the value): the two checks are independent, and every error
      of the nested object or the array elements has a longer path than the field. */
  lemma FieldOwnErrors(obj: Json, rule: Json, key: string, currentPath: string)
    requires !obj.JNull? && !rule.JNull? && Property(obj, key).Some? && currentPath != ""
    requires !PresentRun(obj, rule, key, currentPath, []).threw
    ensures var v := Property(obj, key).value;
      AtPath(PresentRun(obj, rule, key, currentPath, []).errors, currentPath)
      == TypeCheck(v, Property(rule, "type"), currentPath, []).errors
       + EnumCheck(v, Property(rule, "enum"), currentPath, []).errors
  {
    var v := Property(obj, key).value;
    var typed := TypeCheck(v, Property(rule, "type"), currentPath, []);
    TypeCheckAtPath(v, Property(rule, "type"), currentPath, []);
    AtPathAppendAt([], typed.errors, currentPath);
    var shaped := ShapeRun(obj, rule, key, currentPath, typed.errors);
    ShapeExtends(obj, rule, key, currentPath, typed.errors);
    AtPathExtends(typed.errors, shaped.errors, |currentPath|, currentPath);
    EnumCheckAtPath(v, Property(rule, "enum"), currentPath, shaped.errors);
    AtPathAppendAt(shaped.errors, EnumCheck(v, Property(rule, "enum"), currentPath, []).errors, currentPath);
  }

  /** On one array element, the only error at its own path `key[i]` is the
      item type mismatch, and only when the element's kind differs from a
      truthy `items.type`. */
  lemma ItemOwnErrors(item: Json, index: nat, items: Json, path: string)
    requires !items.JNull?
    ensures var expected := Property(items, "type");
      AtPath(ItemRun(item, index, items, path, []).errors, ItemPath(path, index))
      == if Truthy(expected) && !StrictEquals(expected, Some(JStr(KindOf(item))))
         then [ItemMismatch(ItemPath(path, index), expected, KindOf(item))] else []
  {
    var itemPath := ItemPath(path, index);
    var expected := Property(items, "type");
    var properties := Property(items, "properties");
    var checked: seq<ValidationError> :=
      if Truthy(expected) && !StrictEquals(expected, Some(JStr(KindOf(item))))
      then [ItemMismatch(itemPath, expected, KindOf(item))] else [];
    assert AtPath(checked, itemPath) == checked by {
      AtPathAppendAt([], checked, itemPath);
      assert [] + checked == checked;
    }
    if (item.JObj? || item.JNull?) && Truthy(properties) {
      var nested := ObjectRun(item, properties.value, itemPath, checked);
      assert AtPath(nested.errors, itemPath) == AtPath(checked, itemPath) by {
        ObjectExtends(item, properties.value, itemPath, checked);
        AtPathExtends(checked, nested.errors, |itemPath|, itemPath);
      }
      assert ItemRun(item, index, items, path, []) == nested;
    } else {
      assert ItemRun(item, index, items, path, []) == Run(checked, false);
    }
  }

  // ---------------------------------------------------------------------
  // Every declared key is visited unless the walk throws.
  // ---------------------------------------------------------------------

  /** A walk over the keys that does not throw runs the check of each
      later key, whose errors all end up in the result. */
  lemma {:induction false} KeysVisit(obj: Json, schemaObj: Json, keys: seq<string>, i: nat, j: nat, path: string, acc: seq<ValidationError>)
    requires !schemaObj.JNull? && i <= j < |keys|
    requires !KeysRun(obj, schemaObj, keys, i, path, acc).threw
    ensures exists a :: (!FieldRun(obj, schemaObj, keys[j], path, a).threw
      && FieldRun(obj, schemaObj, keys[j], path, a).errors <= KeysRun(obj, schemaObj, keys, i, path, acc).errors)
    decreases j - i
  {
    var step := FieldRun(obj, schemaObj, keys[i], path, acc);
    if i == j {
      KeysExtends(obj, schemaObj, keys, i + 1, path, step.errors);
    } else {
      KeysVisit(obj, schemaObj, keys, i + 1, j, path, step.errors);
    }
  }

  /** Each declared key of a walk that does not throw is checked, and the
      errors of its check are in the result. */
  lemma FieldVisited(obj: Json, schemaObj: Json, key: string, path: string, acc: seq<ValidationError>)
    requires ObjectKeys(schemaObj).Some? && key in ObjectKeys(schemaObj).value
    requires !ObjectRun(obj, schemaObj, path, acc).threw
    ensures exists a :: (!FieldRun(obj, schemaObj, key, path, a).threw
      && FieldRun(obj, schemaObj, key, path, a).errors <= ObjectRun(obj, schemaObj, path, acc).errors)
  {
    var keys := ObjectKeys(schemaObj).value;
    var j :| 0 <= j < |keys| && keys[j] == key;
    KeysVisit(obj, schemaObj, keys, 0, j, path, acc);
  }

  /** The same for the elements of an array. */
  lemma {:induction false} ItemsVisit(arr: Json, items: Json, path: string, i: nat, j: nat, acc: seq<ValidationError>)
    requires arr.JArr? && i <= j < |arr.elems| && !items.JNull?
    requires !ItemsRun(arr, items, path, i, acc).threw
    ensures exists a :: (!ItemRun(arr.elems[j], j, items, path, a).threw
      && ItemRun(arr.elems[j], j, items, path, a).errors <= ItemsRun(arr, items, path, i, acc).errors)
    decreases j - i
  {
    var step := ItemRun(arr.elems[i], i, items, path, acc);
    if i == j {
      ItemsExtends(arr, items, path, i + 1, step.errors);
    } else {
      ItemsVisit(arr, items, path, i + 1, j, step.errors);
    }
  }

  lemma PushedIsIn(a: seq<ValidationError>, e: ValidationError, s: seq<ValidationError>)
    requires a + [e] <= s
    ensures e in s
  {
    assert s[|a|] == (a + [e])[|a|];
  }

  /** A required field that is undefined or null gets exactly one error,
      "Required field '<key>' is missing" at its path, and no other check. */
  lemma RequiredMissingField(obj: Json, schemaObj: Json, key: string, path: string, acc: seq<ValidationError>)
    requires !obj.JNull? && !schemaObj.JNull?
    requires Property(schemaObj, key).Some? && !Property(schemaObj, key).value.JNull?
    requires Truthy(Property(Property(schemaObj, key).value, "required"))
    requires Property(obj, key).None? || Property(obj, key).value.JNull?
    ensures FieldRun(obj, schemaObj, key, path, acc) == Run(acc + [RequiredError(JoinPath(path, key), key)], false)
  {
  }

  /** An undefined field that is not required gets no error and no check. */
  lemma AbsentOptionalField(obj: Json, schemaObj: Json, key: string, path: string, acc: seq<ValidationError>)
    requires !obj.JNull? && !schemaObj.JNull?
    requires Property(schemaObj, key).Some? && !Property(schemaObj, key).value.JNull?
    requires !Truthy(Property(Property(schemaObj, key).value, "required"))
    requires Property(obj, key).None?
    ensures FieldRun(obj, schemaObj, key, path, acc) == Run(acc, false)
  {
  }

  /** The missing-field error is in the result of any walk over the object
      that does not throw. */
  lemma RequiredMissingReported(obj: Json, schemaObj: Json, key: string, path: string, acc: seq<ValidationError>)
    requires !obj.JNull? && ObjectKeys(schemaObj).Some? && key in ObjectKeys(schemaObj).value
    requires Property(schemaObj, key).Some? && !Property(schemaObj, key).value.JNull?
    requires Truthy(Property(Property(schemaObj, key).value, "required"))
    requires Property(obj, key).None? || Property(obj, key).value.JNull?
    requires !ObjectRun(obj, schemaObj, path, acc).threw
    ensures RequiredError(JoinPath(path, key), key) in ObjectRun(obj, schemaObj, path, acc).errors
  {
    FieldVisited(obj, schemaObj, key, path, acc);
    var a :| !FieldRun(obj, schemaObj, key, path, a).threw
      && FieldRun(obj, schemaObj, key, path, a).errors <= ObjectRun(obj, schemaObj, path, acc).errors;
    RequiredMissingField(obj, schemaObj, key, path, a);
    PushedIsIn(a, RequiredError(JoinPath(path, key), key), ObjectRun(obj, schemaObj, path, acc).errors);
  }

  /** A present value whose runtime kind differs from a truthy declared
      `type`: the check of its field pushes "Type mismatch: expected
      <type>, got <kind>" at its path first. */
  lemma TypeMismatchField(obj: Json, schemaObj: Json, key: string, path: string, acc: seq<ValidationError>)
    requires !obj.JNull? && !schemaObj.JNull?
    requires Property(schemaObj, key).Some? && !Property(schemaObj, key).value.JNull?
    requires Property(obj, key).Some?
    requires !(Truthy(Property(Property(schemaObj, key).value, "required")) && Property(obj, key).value.JNull?)
    requires var expected := Property(Property(schemaObj, key).value, "type");
      Truthy(expected) && !StrictEquals(expected, Some(JStr(KindOf(Property(obj, key).value))))
    ensures var expected := Property(Property(schemaObj, key).value, "type");
      acc + [TypeMismatch(JoinPath(path, key), expected, KindOf(Property(obj, key).value))]
      <= FieldRun(obj, schemaObj, key, path, acc).errors
  {
    var rule := Property(schemaObj, key).value;
    var currentPath := JoinPath(path, key);
    var v := Property(obj, key).value;
    var typed := TypeCheck(v, Property(rule, "type"), currentPath, acc);
    assert FieldRun(obj, schemaObj, key, path, acc) == PresentRun(obj, rule, key, currentPath, acc);
    ShapeExtends(obj, rule, key, currentPath, typed.errors);
    var shaped := ShapeRun(obj, rule, key, currentPath, typed.errors);
    if !shaped.threw {
      EnumCheckAtPath(v, Property(rule, "enum"), currentPath, shaped.errors);
    }
  }

  /** The type mismatch is in the result of any walk over the object that
      does not throw. */
  lemma TypeMismatchReported(obj: Json, schemaObj: Json, key: string, path: string, acc: seq<ValidationError>)
    requires !obj.JNull? && ObjectKeys(schemaObj).Some? && key in ObjectKeys(schemaObj).value
    requires Property(schemaObj, key).Some? && !Property(schemaObj, key).value.JNull?
    requires Property(obj, key).Some?
    requires !(Truthy(Property(Property(schemaObj, key).value, "required")) && Property(obj, key).value.JNull?)
    requires var expected := Property(Property(schemaObj, key).value, "type");
      Truthy(expected) && !StrictEquals(expected, Some(JStr(KindOf(Property(obj, key).value))))
    requires !ObjectRun(obj, schemaObj, path, acc).threw
    ensures var expected := Property(Property(schemaObj, key).value, "type");
      TypeMismatch(JoinPath(path, key), expected, KindOf(Property(obj, key).value)) in ObjectRun(obj, schemaObj, path, acc).errors
  {
    FieldVisited(obj, schemaObj, key, path, acc);
    var a :| !FieldRun(obj, schemaObj, key, path, a).threw
      && FieldRun(obj, schemaObj, key, path, a).errors <= ObjectRun(obj, schemaObj, path, acc).errors;
    TypeMismatchField(obj, schemaObj, key, path, a);
    var expected := Property(Property(schemaObj, key).value, "type");
    PushedIsIn(a, TypeMismatch(JoinPath(path, key), expected, KindOf(Property(obj, key).value)), ObjectRun(obj, schemaObj, path, acc).errors);
  }

  /** An array element whose kind differs from a truthy `items.type` is
      reported as "Type mismatch in array item" at `key[i]` by an element
      loop that does not throw. */
  lemma ItemMismatchReported(arr: Json, items: Json, path: string, acc: seq<ValidationError>, i: nat)
    requires arr.JArr? && i < |arr.elems| && !items.JNull?
    requires var expected := Property(items, "type");
      Truthy(expected) && !StrictEquals(expected, Some(JStr(KindOf(arr.elems[i]))))
    requires !ItemsRun(arr, items, path, 0, acc).threw
    ensures ItemMismatch(ItemPath(path, i), Property(items, "type"), KindOf(arr.elems[i])) in ItemsRun(arr, items, path, 0, acc).errors
  {
    var item := arr.elems[i];
    var expected := Property(items, "type");
    var mismatch := ItemMismatch(ItemPath(path, i), expected, KindOf(item));
    ItemsVisit(arr, items, path, 0, i, acc);
    var a :| !ItemRun(item, i, items, path, a).threw
      && ItemRun(item, i, items, path, a).errors <= ItemsRun(arr, items, path, 0, acc).errors;
    var properties := Property(items, "properties");
    if (item.JObj? || item.JNull?) && Truthy(properties) {
      ObjectExtends(item, properties.value, ItemPath(path, i), a + [mismatch]);
    }
    PushedIsIn(a, mismatch, ItemsRun(arr, items, path, 0, acc).errors);
  }

  // ---------------------------------------------------------------------
  // Only the declared keys are read.
  // ---------------------------------------------------------------------

  /** A check on `obj[key]` depends on `obj` only through `obj[key]`. */
  lemma ShapeReadsOnlyKey(o1: Json, o2: Json, rule: Json, key: string, currentPath: string, acc: seq<ValidationError>)
    requires !o1.JNull? && !o2.JNull? && !rule.JNull? && Property(o1, key).Some?
    requires Property(o1, key) == Property(o2, key)
    ensures ShapeRun(o1, rule, key, currentPath, acc) == ShapeRun(o2, rule, key, currentPath, acc)
  {
    NestedReadsOnlyKey(o1, o2, rule, key, currentPath, acc);
    var nested := NestedRun(o1, rule, key, currentPath, acc);
    ElementsReadsOnlyKey(o1, o2, rule, key, currentPath, nested.errors);
  }

  lemma NestedReadsOnlyKey(o1: Json, o2: Json, rule: Json, key: string, currentPath: string, acc: seq<ValidationError>)
    requires !o1.JNull? && !o2.JNull? && !rule.JNull? && Property(o1, key).Some?
    requires Property(o1, key) == Property(o2, key)
    ensures NestedRun(o1, rule, key, currentPath, acc) == NestedRun(o2, rule, key, currentPath, acc)
  {
  }

  lemma ElementsReadsOnlyKey(o1: Json, o2: Json, rule: Json, key: string, currentPath: string, acc: seq<ValidationError>)
    requires !o1.JNull? && !o2.JNull? && !rule.JNull? && Property(o1, key).Some?
    requires Property(o1, key) == Property(o2, key)
    ensures ElementsRun(o1, rule, key, currentPath, acc) == ElementsRun(o2, rule, key, currentPath, acc)
  {
  }

  lemma FieldReadsOnlyKey(o1: Json, o2: Json, schemaObj: Json, key: string, path: string, acc: seq<ValidationError>)
    requires !schemaObj.JNull? && !o1.JNull? && !o2.JNull?
    requires Property(o1, key) == Property(o2, key)
    ensures FieldRun(o1, schemaObj, key, path, acc) == FieldRun(o2, schemaObj, key, path, acc)
  {
    var entry := Property(schemaObj, key);
    if !(entry.None? || entry.value.JNull?) {
      RuleReadsOnlyKey(o1, o2, entry.value, key, JoinPath(path, key), acc);
    }
  }

  lemma RuleReadsOnlyKey(o1: Json, o2: Json, rule: Json, key: string, currentPath: string, acc: seq<ValidationError>)
    requires !o1.JNull? && !o2.JNull? && !rule.JNull?
    requires Property(o1, key) == Property(o2, key)
    ensures RuleRun(o1, rule, key, currentPath, acc) == RuleRun(o2, rule, key, currentPath, acc)
  {
    var value := Property(o1, key);
    if value.Some? && !(Truthy(Property(rule, "required")) && value.value.JNull?) {
      PresentReadsOnlyKey(o1, o2, rule, key, currentPath, acc);
      assert RuleRun(o1, rule, key, currentPath, acc) == PresentRun(o1, rule, key, currentPath, acc);
      assert RuleRun(o2, rule, key, currentPath, acc) == PresentRun(o2, rule, key, currentPath, acc);
    }
  }

  lemma PresentReadsOnlyKey(o1: Json, o2: Json, rule: Json, key: string, currentPath: string, acc: seq<ValidationError>)
    requires !o1.JNull? && !o2.JNull? && !rule.JNull? && Property(o1, key).Some?
    requires Property(o1, key) == Property(o2, key)
    ensures PresentRun(o1, rule, key, currentPath, acc) == PresentRun(o2, rule, key, currentPath, acc)
  {
    var typed := TypeCheck(Property(o1, key).value, Property(rule, "type"), currentPath, acc);
    ShapeReadsOnlyKey(o1, o2, rule, key, currentPath, typed.errors);
  }

  lemma {:induction false} KeysReadOnlyKeys(o1: Json, o2: Json, schemaObj: Json, keys: seq<string>, i: nat, path: string, acc: seq<ValidationError>)
    requires !schemaObj.JNull? && !o1.JNull? && !o2.JNull? && i <= |keys|
    requires forall k :: k in keys ==> Property(o1, k) == Property(o2, k)
    ensures KeysRun(o1, schemaObj, keys, i, path, acc) == KeysRun(o2, schemaObj, keys, i, path, acc)
    decreases |keys| - i
  {
    if i < |keys| {
      FieldReadsOnlyKey(o1, o2, schemaObj, keys[i], path, acc);
      var step := FieldRun(o1, schemaObj, keys[i], path, acc);
      if !step.threw {
        KeysReadOnlyKeys(o1, o2, schemaObj, keys, i + 1, path, step.errors);
      }
    }
  }

  /** Two instances that agree on every key the schema declares are
      validated alike: keys of the instance the schema does not declare
      are never inspected. */
  lemma OnlyDeclaredKeysInspected(o1: Json, o2: Json, schemaObj: Json, path: string, acc: seq<ValidationError>)
    requires !o1.JNull? && !o2.JNull? && ObjectKeys(schemaObj).Some?
    requires forall k :: k in ObjectKeys(schemaObj).value ==> Property(o1, k) == Property(o2, k)
    ensures ObjectRun(o1, schemaObj, path, acc) == ObjectRun(o2, schemaObj, path, acc)
  {
    KeysReadOnlyKeys(o1, o2, schemaObj, ObjectKeys(schemaObj).value, 0, path, acc);
  }

  /** A key of the original fields, or one the extra fields lack, reads
      the same with the extra fields appended. */
  lemma ExtraFieldUnseen(fields: seq<(string, Json)>, extra: seq<(string, Json)>, k: string)
    requires k in Keys(fields) || k !in Keys(extra)
    ensures Property(JObj(fields + extra), k) == Property(JObj(fields), k)
  {
    if k in Keys(fields) {
      GetAppend(fields, extra, k);
    } else {
      KeysAppend(fields, extra);
      assert Get(fields + extra, k).None?;
    }
  }

  /** Extra fields on an instance that the schema does not declare add no
      error and change nothing. */
  lemma ExtraFieldsIgnored(fields: seq<(string, Json)>, extra: seq<(string, Json)>, schema: Json)
    requires ObjectKeys(schema).Some?
    requires forall k :: k in ObjectKeys(schema).value ==> k in Keys(fields) || k !in Keys(extra)
    ensures Validation(JObj(fields + extra), schema) == Validation(JObj(fields), schema)
  {
    forall k | k in ObjectKeys(schema).value
      ensures Property(JObj(fields + extra), k) == Property(JObj(fields), k)
    {
      ExtraFieldUnseen(fields, extra, k);
    }
    OnlyDeclaredKeysInspected(JObj(fields + extra), JObj(fields), schema, "", []);
  }

  // ---------------------------------------------------------------------
  // Worked examples.
  // ---------------------------------------------------------------------

  /** The payload and schema of the first example: `id` is required and
      missing, `age` is declared a number and holds a string. */
  const AgeOnly: Json := JObj([("age", JStr("30"))])
  const IdRule: Json := JObj([("type", JStr("string")), ("required", JBool(true))])
  const AgeRule: Json := JObj([("type", JStr("number"))])
  const IdAgeSchema: Json := JObj([("id", IdRule), ("age", AgeRule)])
  const MissingId := ValidationError("id", "Required field 'id' is missing")
  const AgeMismatch := ValidationError("age", "Type mismatch: expected number, got string")

  lemma MissingIdStep()
    ensures FieldRun(AgeOnly, IdAgeSchema, "id", "", []) == Run([MissingId], false)
  {
    assert Property(IdRule, "required") == Some(JBool(true));
    assert Property(IdAgeSchema, "id") == Some(IdRule);
    assert Property(AgeOnly, "id") == None;
    assert RequiredError("id", "id") == MissingId;
  }

  lemma WrongAgePresent()
    ensures PresentRun(AgeOnly, AgeRule, "age", "age", [MissingId]) == Run([MissingId, AgeMismatch], false)
  {
    assert Property(AgeRule, "type") == Some(JStr("number"));
    assert TypeMismatch("age", Some(JStr("number")), "string") == AgeMismatch;
    assert Property(AgeRule, "properties") == None;
    assert Property(AgeRule, "items") == None;
    assert Property(AgeRule, "enum") == None;
  }

  lemma WrongAgeStep()
    ensures FieldRun(AgeOnly, IdAgeSchema, "age", "", [MissingId]) == Run([MissingId, AgeMismatch], false)
  {
    assert Property(IdAgeSchema, "age") == Some(AgeRule);
    assert Property(AgeOnly, "age") == Some(JStr("30"));
    assert Property(AgeRule, "required") == None;
    WrongAgePresent();
  }

  /** A missing required `id` and a string `age` declared a number: the
      payload is invalid with exactly these two errors, in key order. */
  lemma MissingIdAndWrongAge()
    ensures Validation(AgeOnly, IdAgeSchema)
      == Some(ValidationResult(false, [MissingId, AgeMismatch]))
  {
    var keys := ObjectKeys(IdAgeSchema).value;
    assert keys == Keys(IdAgeSchema.fields);
    assert |keys| == 2;
    assert keys[0] == "id";
    assert keys[1] == "age";
    MissingIdStep();
    WrongAgeStep();
    assert KeysRun(AgeOnly, IdAgeSchema, keys, 1, "", [MissingId]) == Run([MissingId, AgeMismatch], false);
  }

  /** `typeof null` is "object": a null value under a rule with
      `properties` is walked as an object, and reading its first field
      throws. */
  lemma NullNestedThrows()
    ensures Validation(
        JObj([("address", JNull)]),
        JObj([("address", JObj([("properties", JObj([("city", JObj([("type", JStr("string"))]))]))]))]))
      == None
  {
    var cityRule := JObj([("type", JStr("string"))]);
    var properties := JObj([("city", cityRule)]);
    var rule := JObj([("properties", properties)]);
    var schema := JObj([("address", rule)]);
    var data := JObj([("address", JNull)]);
    var keys := ObjectKeys(schema).value;
    assert |keys| == 1 && keys[0] == "address";
    assert Property(rule, "properties") == Some(properties);
    var inner := ObjectKeys(properties).value;
    assert |inner| == 1;
    assert ObjectRun(JNull, properties, "address", []).threw;
    assert FieldRun(data, schema, keys[0], "", []).threw;
  }

  /** The schema and payload of the nested example: `address.city` is
      declared a string and holds a number. */
  const CityRule: Json := JObj([("type", JStr("string"))])
  const AddressProperties: Json := JObj([("city", CityRule)])
  const AddressRule: Json := JObj([("properties", AddressProperties)])
  const AddressSchema: Json := JObj([("address", AddressRule)])
  const NumericCity: Json := JObj([("city", JNum(5))])
  const CityMismatch := ValidationError("address.city", "Type mismatch: expected string, got number")

  lemma CityPresent()
    ensures PresentRun(NumericCity, CityRule, "city", "address.city", []) == Run([CityMismatch], false)
  {
    assert Property(CityRule, "type") == Some(JStr("string"));
    assert TypeMismatch("address.city", Some(JStr("string")), "number") == CityMismatch;
    assert Property(CityRule, "properties") == None;
    assert Property(CityRule, "items") == None;
    assert Property(CityRule, "enum") == None;
  }

  lemma CityField()
    ensures ObjectRun(NumericCity, AddressProperties, "address", []) == Run([CityMismatch], false)
  {
    var inner := ObjectKeys(AddressProperties).value;
    assert inner == Keys(AddressProperties.fields);
    assert |inner| == 1;
    assert inner[0] == "city";
    assert Property(AddressProperties, "city") == Some(CityRule);
    assert Property(NumericCity, "city") == Some(JNum(5));
    assert Property(CityRule, "required") == None;
    assert JoinPath("address", "city") == "address.city";
    CityPresent();
    assert FieldRun(NumericCity, AddressProperties, inner[0], "address", []) == Run([CityMismatch], false);
  }

  lemma AddressPresent()
    ensures PresentRun(JObj([("address", NumericCity)]), AddressRule, "address", "address", [])
      == Run([CityMismatch], false)
  {
    var data := JObj([("address", NumericCity)]);
    assert Property(data, "address") == Some(NumericCity);
    assert Property(AddressRule, "type") == None;
    assert Property(AddressRule, "properties") == Some(AddressProperties);
    assert Property(AddressRule, "items") == None;
    assert Property(AddressRule, "enum") == None;
    CityField();
    assert TypeCheck(NumericCity, None, "address", []) == Run([], false);
    assert NestedRun(data, AddressRule, "address", "address", []) == Run([CityMismatch], false);
    assert ShapeRun(data, AddressRule, "address", "address", []) == Run([CityMismatch], false);
  }

  /** A nested field is reported at `parent.key`. */
  lemma NestedPath()
    ensures Validation(JObj([("address", NumericCity)]), AddressSchema)
      == Some(ValidationResult(false, [CityMismatch]))
  {
    var data := JObj([("address", NumericCity)]);
    var keys := ObjectKeys(AddressSchema).value;
    assert keys == Keys(AddressSchema.fields);
    assert |keys| == 1;
    assert keys[0] == "address";
    assert Property(AddressSchema, "address") == Some(AddressRule);
    assert Property(data, "address") == Some(NumericCity);
    assert Property(AddressRule, "required") == None;
    assert JoinPath("", "address") == "address";
    AddressPresent();
    assert RuleRun(data, AddressRule, "address", "address", []) == Run([CityMismatch], false);
    assert FieldRun(data, AddressSchema, keys[0], "", []) == Run([CityMismatch], false);
    assert KeysRun(data, AddressSchema, keys, 0, "", []) == Run([CityMismatch], false);
  }
}
