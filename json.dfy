/** JSON values as the JavaScript code of the system sees them after parsing,
    with the handful of JavaScript operators the core relies on: `typeof`,
    truthiness, `===`, property lookup, `Object.keys`, `String(v)`, and the
    dotted-path join shared by the comparators and the validator. */
module Json {

  datatype Option<+T> = None | Some(value: T)

  /** A parsed JSON value. An object's field list is in the order
      `Object.keys` reports (integer-like keys first, ascending, then the
      rest in insertion order); numbers are integers because only their
      kind matters to the core. */
  datatype Json =
    | JNull
    | JBool(b: bool)
    | JNum(n: int)
    | JStr(s: string)
    | JArr(elems: seq<Json>)
    | JObj(fields: seq<(string, Json)>)

  /** The result of a property read: `None` is JavaScript's `undefined`. */
  type Value = Option<Json>

  /** JavaScript `typeof`: null and arrays are both "object". */
  function TypeOf(v: Value): (t: string)
    ensures t == "object" <==> v.Some? && (v.value.JNull? || v.value.JArr? || v.value.JObj?)
    ensures t == "undefined" <==> v.None?
  {
    match v
    case None => "undefined"
    case Some(JNull) => "object"
    case Some(JBool(_)) => "boolean"
    case Some(JNum(_)) => "number"
    case Some(JStr(_)) => "string"
    case Some(JArr(_)) => "object"
    case Some(JObj(_)) => "object"
  }

  /** `Array.isArray(v) ? 'array' : typeof v`, the runtime kind the validator uses. */
  function KindOf(v: Json): (k: string)
    ensures k == "array" <==> v.JArr?
    ensures k == "object" <==> v.JNull? || v.JObj?
    ensures !v.JArr? ==> k == TypeOf(Some(v))
  {
    if v.JArr? then "array" else TypeOf(Some(v))
  }

  /** JavaScript truthiness: undefined, null, false, 0 and "" are falsy. */
  predicate Truthy(v: Value)
  {
    match v
    case None => false
    case Some(JNull) => false
    case Some(JBool(b)) => b
    case Some(JNum(n)) => n != 0
    case Some(JStr(s)) => s != ""
    case Some(JArr(_)) => true
    case Some(JObj(_)) => true
  }

  /** True of the values JavaScript compares by content rather than by reference. */
  predicate IsPrimitive(v: Value)
  {
    v.None? || !(v.value.JArr? || v.value.JObj?)
  }

  /** `a === b` (and `includes`' SameValueZero) between values taken from two
      separately parsed documents: primitives compare by content, while an
      object or array is a distinct reference and equals nothing. */
  predicate StrictEquals(a: Value, b: Value)
  {
    IsPrimitive(a) && IsPrimitive(b) && a == b
  }

  lemma StrictEqualsReflexive(a: Value)
    requires IsPrimitive(a)
    ensures StrictEquals(a, a)
  {
  }

  /** `allowed.includes(v)` on an array (SameValueZero). */
  predicate Includes(allowed: seq<Json>, v: Json)
  {
    exists e :: e in allowed && StrictEquals(Some(e), Some(v))
  }

  /** `s.includes(t)` on a string. */
  predicate IsSubstring(t: string, s: string)
  {
    t <= s || (s != [] && IsSubstring(t, s[1..]))
  }

  /** `typeof v === 'object' && v !== null`: a value `Object.keys` and `in`
      accept. */
  predicate IsObject(v: Json)
  {
    v.JObj? || v.JArr?
  }

  /** The keys of an object's field list, in order. */
  function Keys(fields: seq<(string, Json)>): (ks: seq<string>)
    ensures |ks| == |fields|
    ensures forall i :: 0 <= i < |fields| ==> ks[i] == fields[i].0
  {
    if fields == [] then [] else Keys(fields[..|fields| - 1]) + [fields[|fields| - 1].0]
  }

  /** No key occurs twice, as in every JavaScript object. */
  predicate DistinctKeys(fields: seq<(string, Json)>)
  {
    forall i, j :: 0 <= i < j < |fields| ==> fields[i].0 != fields[j].0
  }

  /** `obj[k]` on an object, as an own-property lookup. */
  function Get(fields: seq<(string, Json)>, k: string): (r: Value)
    ensures r.Some? ==> (k, r.value) in fields
    ensures r.None? <==> k !in Keys(fields)
  {
    if fields == [] then None
    else if fields[0].0 == k then Some(fields[0].1)
    else
      assert Keys(fields) == [fields[0].0] + Keys(fields[1..]) by {
        assert forall i :: 0 <= i < |fields| - 1 ==> fields[1..][i] == fields[i + 1];
      }
      Get(fields[1..], k)
  }

  lemma GetAt(fields: seq<(string, Json)>, i: nat)
    requires DistinctKeys(fields) && i < |fields|
    ensures Get(fields, fields[i].0) == Some(fields[i].1)
  {
    if i > 0 {
      assert fields[1..][i - 1] == fields[i];
      GetAt(fields[1..], i - 1);
    }
  }

  /** Appending fields never changes the value of a key already present. */
  lemma {:induction false} GetAppend(fields: seq<(string, Json)>, extra: seq<(string, Json)>, k: string)
    requires k in Keys(fields)
    ensures Get(fields + extra, k) == Get(fields, k)
  {
    assert fields != [];
    if fields[0].0 != k {
      assert (fields + extra)[1..] == fields[1..] + extra;
      assert Keys(fields) == [fields[0].0] + Keys(fields[1..]) by {
        assert forall i :: 0 <= i < |fields| - 1 ==> fields[1..][i] == fields[i + 1];
      }
      GetAppend(fields[1..], extra, k);
    }
  }

  lemma {:induction false} KeysAppend(fields: seq<(string, Json)>, extra: seq<(string, Json)>)
    ensures Keys(fields + extra) == Keys(fields) + Keys(extra)
  {
  }

  /** Extending a loop's prefix by one element. */
  lemma PrefixStep<T>(s: seq<T>, i: nat)
    requires i < |s|
    ensures s[..i + 1][..i] == s[..i] && s[..i + 1][i] == s[i]
  {
  }

  /** The whole sequence as the prefix a finished loop has covered. */
  lemma PrefixAll<T>(s: seq<T>)
    ensures s[..|s|] == s
  {
  }

  lemma ConcatAssoc<T>(a: seq<T>, b: seq<T>, c: seq<T>)
    ensures (a + b) + c == a + (b + c)
  {
  }

  lemma MultisetIn<T>(s: seq<T>, x: T)
    ensures x in s <==> multiset(s)[x] > 0
  {
  }

  /** How often `x` occurs in `s`, counted from the last element. */
  lemma MultisetLast<T>(s: seq<T>, x: T)
    requires s != []
    ensures multiset(s)[x] == multiset(s[..|s| - 1])[x] + (if s[|s| - 1] == x then 1 else 0)
  {
    assert s == s[..|s| - 1] + [s[|s| - 1]];
  }

  /** An element of a non-empty sequence is its last element or occurs before it. */
  lemma InInitOrLast<T>(s: seq<T>, x: T)
    requires s != []
    ensures x in s <==> x in s[..|s| - 1] || x == s[|s| - 1]
  {
    assert s == s[..|s| - 1] + [s[|s| - 1]];
  }

  /** No element occurs twice. */
  predicate Distinct<T(==)>(s: seq<T>)
  {
    forall i, j :: 0 <= i < j < |s| ==> s[i] != s[j]
  }

  /** In a sequence without repetitions each element occurs at most once. */
  lemma {:induction false} DistinctOnce<T>(s: seq<T>, x: T)
    requires Distinct(s)
    ensures multiset(s)[x] == if x in s then 1 else 0
  {
    if s != [] {
      var init := s[..|s| - 1];
      DistinctOnce(init, x);
      MultisetLast(s, x);
      InInitOrLast(s, x);
      if x == s[|s| - 1] {
        assert x !in init;
      }
    }
  }

  /** Decimal notation of a natural number (array index keys, counts in messages). */
  function NatToString(n: nat): (s: string)
    ensures |s| > 0
    ensures forall i :: 0 <= i < |s| ==> '0' <= s[i] <= '9'
    decreases n
  {
    var d := ["0", "1", "2", "3", "4", "5", "6", "7", "8", "9"][n % 10];
    if n < 10 then d else NatToString(n / 10) + d
  }

  /** The index whose key string is `k` among the first `n` indices of an array. */
  function IndexOfKey(k: string, n: nat): (r: Option<nat>)
    ensures r.Some? ==> r.value < n && NatToString(r.value) == k
    ensures r.None? ==> forall i :: 0 <= i < n ==> NatToString(i) != k
  {
    if n == 0 then None
    else if IndexOfKey(k, n - 1).Some? then IndexOfKey(k, n - 1)
    else if NatToString(n - 1) == k then Some(n - 1)
    else None
  }

  /** `["0", "1", …]`: the keys `Object.keys` gives for an array of length `n`. */
  function IndexKeys(n: nat): (ks: seq<string>)
    ensures |ks| == n
    ensures forall i :: 0 <= i < n ==> ks[i] == NatToString(i)
  {
    if n == 0 then [] else IndexKeys(n - 1) + [NatToString(n - 1)]
  }

  /** `k` is one of the first `n` index keys; a key that does not start
      with a digit (every property name the core reads) is none. */
  predicate IsIndexKey(k: string, n: nat)
  {
    |k| > 0 && '0' <= k[0] <= '9' && k in IndexKeys(n)
  }

  /** `Object.keys(v)` for the values the core calls it on (objects and arrays). */
  function OwnKeys(v: Json): (ks: seq<string>)
    requires v.JObj? || v.JArr?
    ensures v.JObj? ==> ks == Keys(v.fields)
    ensures v.JArr? ==> |ks| == |v.elems|
  {
    if v.JObj? then Keys(v.fields) else IndexKeys(|v.elems|)
  }

  /** `v[k]` on a value: the own property of an object, the element or the
      `length` of an array, and nothing on a primitive for the property names
      the core reads (`type`, `properties`, `required`, `items`, `enum`). */
  function Member(v: Json, k: string): (r: Value)
    ensures v.JObj? ==> r == Get(v.fields, k)
    ensures v.JObj? && r.Some? ==> (k, r.value) in v.fields
    ensures v.JArr? && k in IndexKeys(|v.elems|) ==> r.Some? && r.value in v.elems
    ensures v.JArr? && k == "length" ==> r == Some(JNum(|v.elems|))
    ensures !(v.JObj? || v.JArr?) ==> r.None?
  {
    match v
    case JObj(fields) => Get(fields, k)
    case JArr(elems) =>
      if IsIndexKey(k, |elems|) then
        assert k != "length" by {
          var i :| 0 <= i < |elems| && IndexKeys(|elems|)[i] == k;
          assert k[0] == NatToString(i)[0];
        }
        var j := IndexOfKey(k, |elems|).value;
        Some(elems[j])
      else if k == "length" then Some(JNum(|elems|))
      else None
    case _ => None
  }

  /** `k in v`, restricted to own properties. */
  predicate Has(v: Json, k: string)
  {
    Member(v, k).Some?
  }

  /** Every key `Object.keys` lists is `in` the value, with a value that is
      one of its parts. */
  lemma OwnKeyHas(v: Json, k: string)
    requires (v.JObj? || v.JArr?) && k in OwnKeys(v)
    ensures Has(v, k)
    ensures v.JObj? ==> (k, Member(v, k).value) in v.fields
    ensures v.JArr? ==> Member(v, k).value in v.elems
  {
  }

  /** `v[k]` on any value but null: `Member`, plus the characters and the
      `length` of a string. */
  function Property(v: Json, k: string): (r: Value)
    requires !v.JNull?
    ensures !v.JStr? ==> r == Member(v, k)
    ensures v.JStr? && r.Some? ==> r.value.JStr? || r.value.JNum?
  {
    match v
    case JStr(s) =>
      if IsIndexKey(k, |s|) then Some(JStr([s[IndexOfKey(k, |s|).value]]))
      else if k == "length" then Some(JNum(|s|))
      else None
    case _ => Member(v, k)
  }

  /** `Object.keys(v)`: `None` when it throws (on null); a string lists its
      indices, a number or a boolean nothing. */
  function ObjectKeys(v: Json): (r: Option<seq<string>>)
    ensures r.None? <==> v.JNull?
  {
    match v
    case JNull => None
    case JBool(_) => Some([])
    case JNum(_) => Some([])
    case JStr(s) => Some(IndexKeys(|s|))
    case _ => Some(OwnKeys(v))
  }

  /** `path ? `${path}.${key}` : key` */
  function JoinPath(path: string, key: string): (p: string)
    ensures path == "" ==> p == key
    ensures path != "" ==> |p| == |path| + 1 + |key| && p[..|path|] == path && p[|path|] == '.' && p[|path| + 1..] == key
  {
    if path == "" then key else path + "." + key
  }

  function IntToString(n: int): string
  {
    if n < 0 then "-" + NatToString(-n) else NatToString(n)
  }

  /** `String(v)`, as a template literal renders a value: arrays join their
      elements' strings with commas (null and undefined elements render
      empty), objects render as "[object Object]". */
  function JsString(v: Value): string
  {
    match v
    case None => "undefined"
    case Some(j) => JsonString(j)
  }

  function JsonString(j: Json): string
  {
    match j
    case JNull => "null"
    case JBool(b) => if b then "true" else "false"
    case JNum(n) => IntToString(n)
    case JStr(s) => s
    case JArr(elems) => JoinElems(elems, ",")
    case JObj(_) => "[object Object]"
  }

  /** `elems.join(sep)`: null elements render as the empty string. */
  function JoinElems(elems: seq<Json>, sep: string): string
  {
    if elems == [] then ""
    else
      var last := elems[|elems| - 1];
      var item := if last.JNull? then "" else JsonString(last);
      if |elems| == 1 then item else JoinElems(elems[..|elems| - 1], sep) + sep + item
  }
}
