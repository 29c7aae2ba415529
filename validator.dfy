/** The payload validator of the streaming integration: `validateDataAgainstSchema`
    walks a map of field constraints (`type`, `required`, `properties`,
    `items`, `enum`) next to a data instance and pushes one error per
    violated constraint into a shared list. The recursive walk is specified
    by the functions `ObjectRun` … `ItemRun`; the class `ErrorList` is the
    closure over the `errors` array and its methods are the loops of the
    source, each proved against the function that specifies it. */
module Validator {
  import opened Json

  datatype ValidationError = ValidationError(path: string, message: string)

  datatype ValidationResult = ValidationResult(valid: bool, errors: seq<ValidationError>)

  /** The state of the walk after a call: the `errors` array so far, and
      whether the call ended by throwing a TypeError (property read on null,
      `includes` or `join` on a value that lacks it); a throw abandons the
      rest of the walk. Every function below takes the array as it was
      before the call (`acc`) and returns the state after it. */
  datatype Run = Run(errors: seq<ValidationError>, threw: bool)

  function RequiredError(path: string, key: string): ValidationError
  {
    ValidationError(path, "Required field '" + key + "' is missing")
  }

  function TypeMismatch(path: string, expected: Value, actual: string): ValidationError
  {
    ValidationError(path, "Type mismatch: expected " + JsString(expected) + ", got " + actual)
  }

  /** `${path}[${index}]` */
  function ItemPath(path: string, index: nat): string
  {
    path + "[" + NatToString(index) + "]"
  }

  function ItemMismatch(path: string, expected: Value, actual: string): ValidationError
  {
    ValidationError(path, "Type mismatch in array item: expected " + JsString(expected) + ", got " + actual)
  }

  function EnumError(path: string, value: Json, allowed: seq<Json>): ValidationError
  {
    ValidationError(path, "Value '" + JsString(Some(value)) + "' not in allowed enum values: " + JoinElems(allowed, ", "))
  }

  /** The declared `type` against the runtime kind of a present value. */
  function TypeCheck(v: Json, expected: Value, path: string, acc: seq<ValidationError>): Run
  {
    if Truthy(expected) && !StrictEquals(expected, Some(JStr(KindOf(v))))
    then Run(acc + [TypeMismatch(path, expected, KindOf(v))], false)
    else Run(acc, false)
  }

  /** `if (rule.enum && !rule.enum.includes(v)) errors.push(…enum.join(', '))`:
      a string `enum` answers `includes` but has no `join`, any other truthy
      non-array has neither. */
  function EnumCheck(v: Json, allowed: Value, path: string, acc: seq<ValidationError>): Run
  {
    if !Truthy(allowed) then Run(acc, false)
    else
      match allowed.value
      case JArr(elems) =>
        if Includes(elems, v) then Run(acc, false) else Run(acc + [EnumError(path, v, elems)], false)
      case JStr(s) => Run(acc, !IsSubstring(JsString(Some(v)), s))
      case _ => Run(acc, true)
  }

  /** `validateObject(obj, schemaObj, path)`; `Object.keys` throws on null. */
  function ObjectRun(obj: Json, schemaObj: Json, path: string, acc: seq<ValidationError>): Run
    decreases obj, 6
  {
    match ObjectKeys(schemaObj)
    case None => Run(acc, true)
    case Some(keys) => KeysRun(obj, schemaObj, keys, 0, path, acc)
  }

  /** The iterations of `Object.keys(schemaObj).forEach` from the `i`-th on. */
  function KeysRun(obj: Json, schemaObj: Json, keys: seq<string>, i: nat, path: string, acc: seq<ValidationError>): Run
    requires !schemaObj.JNull? && i <= |keys|
    decreases obj, 5, |keys| - i
  {
    if i == |keys| then Run(acc, false)
    else
      var step := FieldRun(obj, schemaObj, keys[i], path, acc);
      if step.threw then step else KeysRun(obj, schemaObj, keys, i + 1, path, step.errors)
  }

  /** One iteration of the key loop: `schemaObj[key].required` and `obj[key]`
      throw on null, then the constraint `schemaObj[key]` is applied. */
  function FieldRun(obj: Json, schemaObj: Json, key: string, path: string, acc: seq<ValidationError>): Run
    requires !schemaObj.JNull?
    decreases obj, 4
  {
    var entry := Property(schemaObj, key);
    if entry.None? || entry.value.JNull? || obj.JNull? then Run(acc, true)
    else RuleRun(obj, entry.value, key, JoinPath(path, key), acc)
  }

  /** The checks of one constraint `rule` on `obj[key]`, reported at
      `currentPath`: a missing required value stops them; an undefined one
      skips them. */
  function RuleRun(obj: Json, rule: Json, key: string, currentPath: string, acc: seq<ValidationError>): Run
    requires !obj.JNull? && !rule.JNull?
    decreases obj, 3
  {
    var value := Property(obj, key);
    if Truthy(Property(rule, "required")) && (value.None? || value.value.JNull?) then
      Run(acc + [RequiredError(currentPath, key)], false)
    else if value.None? then Run(acc, false)
    else PresentRun(obj, rule, key, currentPath, acc)
  }

  /** The checks on a value that is present: `type`, then the nested
      object or the array elements, then `enum`. */
  function PresentRun(obj: Json, rule: Json, key: string, currentPath: string, acc: seq<ValidationError>): Run
    requires !obj.JNull? && !rule.JNull? && Property(obj, key).Some?
    decreases obj, 2
  {
    var v := Property(obj, key).value;
    var typed := TypeCheck(v, Property(rule, "type"), currentPath, acc);
    var shaped := ShapeRun(obj, rule, key, currentPath, typed.errors);
    if shaped.threw then shaped
    else EnumCheck(v, Property(rule, "enum"), currentPath, shaped.errors)
  }

  /** The recursion into the value: its fields when it is an object (or
      null), its elements when it is an array. */
  function ShapeRun(obj: Json, rule: Json, key: string, currentPath: string, acc: seq<ValidationError>): Run
    requires !obj.JNull? && !rule.JNull? && Property(obj, key).Some?
    decreases obj, 1
  {
    var nested := NestedRun(obj, rule, key, currentPath, acc);
    if nested.threw then nested
    else ElementsRun(obj, rule, key, currentPath, nested.errors)
  }

  /** `if (actualType === 'object' && rule.properties) validateObject(…)`:
      the runtime kind decides, and `typeof null` is "object". */
  function NestedRun(obj: Json, rule: Json, key: string, currentPath: string, acc: seq<ValidationError>): Run
    requires !obj.JNull? && !rule.JNull? && Property(obj, key).Some?
    decreases obj, 0
  {
    var v := Property(obj, key).value;
    var properties := Property(rule, "properties");
    if (v.JObj? || v.JNull?) && Truthy(properties) then ObjectRun(v, properties.value, currentPath, acc)
    else Run(acc, false)
  }

  /** `if (actualType === 'array' && rule.items) obj[key].forEach(…)` */
  function ElementsRun(obj: Json, rule: Json, key: string, currentPath: string, acc: seq<ValidationError>): Run
    requires !obj.JNull? && !rule.JNull? && Property(obj, key).Some?
    decreases obj, 0
  {
    var v := Property(obj, key).value;
    var items := Property(rule, "items");
    if v.JArr? && Truthy(items) then ItemsRun(v, items.value, currentPath, 0, acc) else Run(acc, false)
  }

  /** The iterations of `obj[key].forEach((item, index) => …)` from the
      `i`-th on. */
  function ItemsRun(arr: Json, items: Json, path: string, i: nat, acc: seq<ValidationError>): Run
    requires arr.JArr? && i <= |arr.elems| && !items.JNull?
    decreases arr, 3, |arr.elems| - i
  {
    if i == |arr.elems| then Run(acc, false)
    else
      var step := ItemRun(arr.elems[i], i, items, path, acc);
      if step.threw then step else ItemsRun(arr, items, path, i + 1, step.errors)
  }

  /** The checks on one array element against the `items` constraint. */
  function ItemRun(item: Json, index: nat, items: Json, path: string, acc: seq<ValidationError>): Run
    requires !items.JNull?
    decreases item, 7
  {
    var itemPath := ItemPath(path, index);
    var expected := Property(items, "type");
    var properties := Property(items, "properties");
    var checked :=
      if Truthy(expected) && !StrictEquals(expected, Some(JStr(KindOf(item))))
      then acc + [ItemMismatch(itemPath, expected, KindOf(item))] else acc;
    if (item.JObj? || item.JNull?) && Truthy(properties) then ObjectRun(item, properties.value, itemPath, checked)
    else Run(checked, false)
  }

  /** `validateDataAgainstSchema(data, schema)`; `None` when it throws. */
  function Validation(data: Json, schema: Json): Option<ValidationResult>
  {
    var run := ObjectRun(data, schema, "", []);
    if run.threw then None else Some(ValidationResult(run.errors == [], run.errors))
  }

  /** The `errors` array the nested `validateObject` closes over. */
  class ErrorList {
    var errors: seq<ValidationError>

    constructor ()
      ensures errors == []
    {
      errors := [];
    }

    /** `errors.push(e)` */
    method Push(e: ValidationError)
      modifies this
      ensures errors == old(errors) + [e]
    {
      errors := errors + [e];
    }

    /** `validateObject(obj, schemaObj, path)`: returns true when it throws. */
    method ValidateObject(obj: Json, schemaObj: Json, path: string) returns (threw: bool)
      modifies this
      ensures Run(errors, threw) == ObjectRun(obj, schemaObj, path, old(errors))
      decreases obj, 6
    {
      var keys := ObjectKeys(schemaObj);
      if keys.None? {
        return true;
      }
      threw := ValidateKeys(obj, schemaObj, keys.value, path);
    }

    /** `keys.forEach(key => …)` over `keys = Object.keys(schemaObj)`. */
    method ValidateKeys(obj: Json, schemaObj: Json, keys: seq<string>, path: string) returns (threw: bool)
      requires !schemaObj.JNull?
      modifies this
      ensures Run(errors, threw) == KeysRun(obj, schemaObj, keys, 0, path, old(errors))
      decreases obj, 5
    {
      var i := 0;
      threw := false;
      while i < |keys|
        invariant 0 <= i <= |keys|
        invariant KeysRun(obj, schemaObj, keys, i, path, errors) == KeysRun(obj, schemaObj, keys, 0, path, old(errors))
        invariant !threw
        decreases |keys| - i
      {
        ghost var before := errors;
        threw := ValidateKey(obj, schemaObj, keys, i, path);
        if threw {
          assert Run(errors, threw) == KeysRun(obj, schemaObj, keys, i, path, before);
          return;
        }
        i := i + 1;
      }
      assert KeysRun(obj, schemaObj, keys, i, path, errors) == Run(errors, false);
    }

    /** The `i`-th iteration of the key loop; the rest of the loop is left
        to run unless it throws. */
    method ValidateKey(obj: Json, schemaObj: Json, keys: seq<string>, i: nat, path: string) returns (threw: bool)
      requires !schemaObj.JNull? && i < |keys|
      modifies this
      ensures threw ==> Run(errors, threw) == KeysRun(obj, schemaObj, keys, i, path, old(errors))
      ensures !threw ==> KeysRun(obj, schemaObj, keys, i + 1, path, errors) == KeysRun(obj, schemaObj, keys, i, path, old(errors))
      decreases obj, 5, |keys| - i
    {
      threw := ValidateField(obj, schemaObj, keys[i], path);
    }

    /** One iteration of the key loop of `validateObject`. */
    method ValidateField(obj: Json, schemaObj: Json, key: string, path: string) returns (threw: bool)
      requires !schemaObj.JNull?
      modifies this
      ensures Run(errors, threw) == FieldRun(obj, schemaObj, key, path, old(errors))
      decreases obj, 4
    {
      var entry := Property(schemaObj, key);
      if entry.None? || entry.value.JNull? || obj.JNull? {
        return true;
      }
      threw := ValidateRule(obj, entry.value, key, JoinPath(path, key));
    }

    /** The checks of the constraint `rule` on `obj[key]`. */
    method ValidateRule(obj: Json, rule: Json, key: string, currentPath: string) returns (threw: bool)
      requires !obj.JNull? && !rule.JNull?
      modifies this
      ensures Run(errors, threw) == RuleRun(obj, rule, key, currentPath, old(errors))
      decreases obj, 3
    {
      var value := Property(obj, key);
      if Truthy(Property(rule, "required")) && (value.None? || value.value.JNull?) {
        Push(RequiredError(currentPath, key));
        return false;
      }
      if value.None? {
        return false;
      }
      threw := ValidatePresent(obj, rule, key, currentPath);
    }

    /** The checks on a present value. */
    method ValidatePresent(obj: Json, rule: Json, key: string, currentPath: string) returns (threw: bool)
      requires !obj.JNull? && !rule.JNull? && Property(obj, key).Some?
      modifies this
      ensures Run(errors, threw) == PresentRun(obj, rule, key, currentPath, old(errors))
      decreases obj, 2
    {
      var v := Property(obj, key).value;
      ValidateType(v, Property(rule, "type"), currentPath);
      threw := ValidateShape(obj, rule, key, currentPath);
      if threw {
        return;
      }
      threw := ValidateEnum(v, Property(rule, "enum"), currentPath);
    }

    /** The `type` check on a present value. */
    method ValidateType(v: Json, expected: Value, currentPath: string)
      modifies this
      ensures Run(errors, false) == TypeCheck(v, expected, currentPath, old(errors))
    {
      if Truthy(expected) && !StrictEquals(expected, Some(JStr(KindOf(v)))) {
        Push(TypeMismatch(currentPath, expected, KindOf(v)));
      }
    }

    /** The nested object, then the array elements. */
    method ValidateShape(obj: Json, rule: Json, key: string, currentPath: string) returns (threw: bool)
      requires !obj.JNull? && !rule.JNull? && Property(obj, key).Some?
      modifies this
      ensures Run(errors, threw) == ShapeRun(obj, rule, key, currentPath, old(errors))
      decreases obj, 1
    {
      threw := ValidateNested(obj, rule, key, currentPath);
      if threw {
        return;
      }
      threw := ValidateElements(obj, rule, key, currentPath);
    }

    /** Recursion into a nested object. */
    method ValidateNested(obj: Json, rule: Json, key: string, currentPath: string) returns (threw: bool)
      requires !obj.JNull? && !rule.JNull? && Property(obj, key).Some?
      modifies this
      ensures Run(errors, threw) == NestedRun(obj, rule, key, currentPath, old(errors))
      decreases obj, 0
    {
      var v := Property(obj, key).value;
      var properties := Property(rule, "properties");
      threw := false;
      if (v.JObj? || v.JNull?) && Truthy(properties) {
        threw := ValidateObject(v, properties.value, currentPath);
      }
    }

    /** The element loop over an array value. */
    method ValidateElements(obj: Json, rule: Json, key: string, currentPath: string) returns (threw: bool)
      requires !obj.JNull? && !rule.JNull? && Property(obj, key).Some?
      modifies this
      ensures Run(errors, threw) == ElementsRun(obj, rule, key, currentPath, old(errors))
      decreases obj, 0
    {
      var v := Property(obj, key).value;
      var items := Property(rule, "items");
      threw := false;
      if v.JArr? && Truthy(items) {
        threw := ValidateItems(v, items.value, currentPath);
      }
    }

    /** The `enum` check on a present value. */
    method ValidateEnum(v: Json, allowed: Value, currentPath: string) returns (threw: bool)
      modifies this
      ensures Run(errors, threw) == EnumCheck(v, allowed, currentPath, old(errors))
    {
      threw := false;
      if Truthy(allowed) {
        match allowed.value
        case JArr(elems) =>
          if !Includes(elems, v) {
            Push(EnumError(currentPath, v, elems));
          }
        case JStr(s) =>
          threw := !IsSubstring(JsString(Some(v)), s);
        case _ =>
          threw := true;
      }
    }

    /** `obj[key].forEach((item, index) => …)` over an array value. */
    method ValidateItems(arr: Json, items: Json, path: string) returns (threw: bool)
      requires arr.JArr? && !items.JNull?
      modifies this
      ensures Run(errors, threw) == ItemsRun(arr, items, path, 0, old(errors))
      decreases arr, 3
    {
      var i := 0;
      threw := false;
      while i < |arr.elems|
        invariant 0 <= i <= |arr.elems|
        invariant ItemsRun(arr, items, path, i, errors) == ItemsRun(arr, items, path, 0, old(errors))
        invariant !threw
        decreases |arr.elems| - i
      {
        threw := ValidateIndex(arr, items, i, path);
        if threw {
          return;
        }
        i := i + 1;
      }
    }

    /** The `i`-th iteration of the element loop. */
    method ValidateIndex(arr: Json, items: Json, i: nat, path: string) returns (threw: bool)
      requires arr.JArr? && i < |arr.elems| && !items.JNull?
      modifies this
      ensures threw ==> Run(errors, threw) == ItemsRun(arr, items, path, i, old(errors))
      ensures !threw ==> ItemsRun(arr, items, path, i + 1, errors) == ItemsRun(arr, items, path, i, old(errors))
      decreases arr, 3, |arr.elems| - i
    {
      threw := ValidateItem(arr.elems[i], i, items, path);
    }

    /** The body of the element loop. */
    method ValidateItem(item: Json, index: nat, items: Json, path: string) returns (threw: bool)
      requires !items.JNull?
      modifies this
      ensures Run(errors, threw) == ItemRun(item, index, items, path, old(errors))
      decreases item, 7
    {
      var itemPath := ItemPath(path, index);
      var expected := Property(items, "type");
      if Truthy(expected) && !StrictEquals(expected, Some(JStr(KindOf(item)))) {
        Push(ItemMismatch(itemPath, expected, KindOf(item)));
      }
      var properties := Property(items, "properties");
      threw := false;
      if (item.JObj? || item.JNull?) && Truthy(properties) {
        threw := ValidateObject(item, properties.value, itemPath);
      }
    }
  }

  /** `validateDataAgainstSchema(data, schema)`: `None` when it throws. */
  method ValidateDataAgainstSchema(data: Json, schema: Json) returns (r: Option<ValidationResult>)
    ensures r == Validation(data, schema)
    ensures r.Some? ==> (r.value.valid <==> |r.value.errors| == 0)
  {
    var log := new ErrorList();
    var threw := log.ValidateObject(data, schema, "");
    if threw {
      return None;
    }
    r := Some(ValidationResult(|log.errors| == 0, log.errors));
  }
}
