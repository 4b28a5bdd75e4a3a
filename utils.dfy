/** The helpers of src/utils.js: linear search over an array with a
    predicate of any of JavaScript's kinds (`findIndex`, `find`), the shallow
    partial-match test (`contains`), `kebabCase` and `transform`. */
module Utils {
  import opened Js

  /** A JavaScript value. An object is a reference (`ref`) together with its
      own enumerable properties in key order; at most one property per key. */
  datatype Value =
    | Undefined
    | Null
    | Bool(b: bool)
    | Num(n: int)
    | Str(s: string)
    | Obj(ref: nat, props: seq<(string, Value)>)

  type Props = seq<(string, Value)>

  predicate Nullish(v: Value) { v.Undefined? || v.Null? }

  /** `a === b`: objects are equal when they are the same reference,
      everything else when it is the same primitive. */
  predicate StrictEq(a: Value, b: Value) {
    if a.Obj? && b.Obj? then a.ref == b.ref else a == b
  }

  /** `v.hasOwnProperty(key)` for a value that is not null or undefined. */
  predicate HasOwn(v: Value, key: string) {
    v.Obj? && exists i :: 0 <= i < |v.props| && v.props[i].0 == key
  }

  /** `v[key]` for an own key: the value of the first property with that key. */
  function Get(v: Value, key: string): Value
    requires HasOwn(v, key)
  {
    GetProp(v.props, key)
  }

  function GetProp(props: Props, key: string): Value
    requires exists i :: 0 <= i < |props| && props[i].0 == key
  {
    if props[0].0 == key then props[0].1 else GetProp(props[1..], key)
  }

  predicate DistinctKeys(props: Props) {
    forall i, j :: 0 <= i < j < |props| ==> props[i].0 != props[j].0
  }

  lemma {:induction false} GetPropAt(props: Props, i: nat)
    requires DistinctKeys(props) && i < |props|
    ensures GetProp(props, props[i].0) == props[i].1
  {
    if i > 0 {
      assert props[0].0 != props[i].0;
      assert props[1..][i - 1] == props[i];
      GetPropAt(props[1..], i - 1);
    }
  }

  // ---------------------------------------------------------------------
  // contains (src/utils.js:38-45)

  /** What `contains(obj, pred)` completes with, `pattern` being the keys and
      values that `for (const key in pred)` visits: true when every key is an
      own key of `obj` whose value is strictly equal; a null or undefined
      `obj` throws on the first key. */
  function Matches(obj: Value, pattern: Props): Result<bool> {
    if pattern == [] then Ok(true)
    else if Nullish(obj) then Err(TypeError("Cannot read property 'hasOwnProperty'"))
    else Ok(forall i :: 0 <= i < |pattern| ==>
              HasOwn(obj, pattern[i].0) && StrictEq(Get(obj, pattern[i].0), pattern[i].1))
  }

  /** The loop of `contains`, with its early `return false`. */
  method Contains(obj: Value, pattern: Props) returns (r: Result<bool>)
    ensures r == Matches(obj, pattern)
    ensures pattern == [] ==> r == Ok(true)
  {
    var i := 0;
    while i < |pattern|
      invariant 0 <= i <= |pattern|
      invariant i > 0 ==> !Nullish(obj)
      invariant forall j :: 0 <= j < i ==>
                  HasOwn(obj, pattern[j].0) && StrictEq(Get(obj, pattern[j].0), pattern[j].1)
    {
      var key := pattern[i].0;
      if Nullish(obj) {
        return Err(TypeError("Cannot read property 'hasOwnProperty'"));
      }
      if !HasOwn(obj, key) || !StrictEq(Get(obj, key), pattern[i].1) {
        return Ok(false);
      }
      i := i + 1;
    }
    return Ok(true);
  }

  /** An object contains every partial object made of its own properties,
      itself included. */
  lemma ObjectContainsItself(ref: nat, props: Props)
    requires DistinctKeys(props)
    ensures Matches(Obj(ref, props), props) == Ok(true)
  {
    forall i | 0 <= i < |props|
      ensures HasOwn(Obj(ref, props), props[i].0) && StrictEq(Get(Obj(ref, props), props[i].0), props[i].1)
    {
      GetPropAt(props, i);
    }
  }

  // ---------------------------------------------------------------------
  // findIndex and find (src/utils.js:17-36)

  /** A search predicate: a callback `(element, index, array) => value`, or any
      other value, whose `typeof` picks the branch of `findIndex`. A callback
      either returns a value or throws. */
  datatype Pred =
    | Callback(f: (Value, nat, seq<Value>) -> Result<Value>)
    | Plain(v: Value)

  /** The answers of `typeof`: 'undefined', 'object', 'boolean', 'number',
      'string' and 'function'. */
  datatype TypeName = UndefinedType | ObjectType | BooleanType | NumberType | StringType | FunctionType

  /** `typeof pred`. (`typeof null` is 'object'.) */
  function TypeOf(pred: Pred): TypeName {
    match pred
    case Callback(_) => FunctionType
    case Plain(v) =>
      match v
      case Undefined => UndefinedType
      case Null => ObjectType
      case Bool(_) => BooleanType
      case Num(_) => NumberType
      case Str(_) => StringType
      case Obj(_, _) => ObjectType
  }

  /** The keys and values `for (const key in pred)` visits. */
  function EnumerableProps(v: Value): Props {
    if v.Obj? then v.props else []
  }

  /** Whether element `i` satisfies `pred`, as the body of `findIndex`'s loop
      decides it, with a uniform meaning for every kind: a callback must
      return exactly `true`, and its throw is `findIndex`'s; an object must be
      contained; a primitive must be
      strictly equal; any other kind (undefined) matches nothing. */
  function ElementTest(arr: seq<Value>, pred: Pred, i: nat): Result<bool>
    requires i < |arr|
  {
    var t := TypeOf(pred);
    if t == FunctionType then
      (var v := pred.f(arr[i], i, arr); if v.Err? then Err(v.error) else Ok(v.value == Bool(true)))
    else if t == ObjectType then Matches(arr[i], EnumerableProps(pred.v))
    else if IsPrimitiveType(t) then Ok(StrictEq(arr[i], pred.v))
    else Ok(false)
  }

  /** The reference meaning of `findIndex(arr, pred)` from position `from` on:
      the first position whose test does not come out false; -1 when there is
      none; a throw when the first such test throws. */
  function FirstMatch(arr: seq<Value>, pred: Pred, from: nat): (r: Result<int>)
    requires from <= |arr|
    ensures r.Ok? ==> r.value == -1 || from <= r.value < |arr|
    decreases |arr| - from
  {
    if from == |arr| then Ok(-1)
    else
      match ElementTest(arr, pred, from)
      case Err(e) => Err(e)
      case Ok(b) => if b then Ok(from) else FirstMatch(arr, pred, from + 1)
  }

  /** What the first match is: a position whose test comes out true with
      every earlier test false, or -1 exactly when every test from
      `from` on comes out false. */
  lemma {:induction false} FirstMatchSpec(arr: seq<Value>, pred: Pred, from: nat)
    requires from <= |arr|
    ensures var r := FirstMatch(arr, pred, from);
            r.Ok? && r.value >= 0 ==>
              ElementTest(arr, pred, r.value) == Ok(true) &&
              forall j :: from <= j < r.value ==> ElementTest(arr, pred, j) == Ok(false)
    ensures FirstMatch(arr, pred, from) == Ok(-1) <==>
              forall j :: from <= j < |arr| ==> ElementTest(arr, pred, j) == Ok(false)
    decreases |arr| - from
  {
    if from < |arr| && ElementTest(arr, pred, from) == Ok(false) {
      FirstMatchSpec(arr, pred, from + 1);
    }
  }

  /** `findIndex` throws only through a test that throws, every earlier test
      having come out false. */
  lemma {:induction false} FirstMatchThrows(arr: seq<Value>, pred: Pred, from: nat)
    requires from <= |arr| && FirstMatch(arr, pred, from).Err?
    ensures exists k :: from <= k < |arr| && ElementTest(arr, pred, k).Err? && ElementTest(arr, pred, k).error == FirstMatch(arr, pred, from).error &&
              (forall j :: from <= j < k ==> ElementTest(arr, pred, j) == Ok(false))
    decreases |arr| - from
  {
    if ElementTest(arr, pred, from).Ok? {
      FirstMatchThrows(arr, pred, from + 1);
      var k :| from + 1 <= k < |arr| && ElementTest(arr, pred, k).Err? && ElementTest(arr, pred, k).error == FirstMatch(arr, pred, from + 1).error &&
              (forall j :: from + 1 <= j < k ==> ElementTest(arr, pred, j) == Ok(false));
      assert from <= k < |arr| && ElementTest(arr, pred, k).Err? && ElementTest(arr, pred, k).error == FirstMatch(arr, pred, from).error &&
              (forall j :: from <= j < k ==> ElementTest(arr, pred, j) == Ok(false));
    }
  }

  /** `['string', 'number', 'boolean']`, the kinds `findIndex` hands to `indexOf`. */
  const PrimitiveTypes: seq<TypeName> := [StringType, NumberType, BooleanType]

  predicate IsPrimitiveType(t: TypeName) { t in PrimitiveTypes }

  /** For a string, number or boolean predicate the uniform meaning is
      `arr.indexOf(pred)`, which is what `findIndex` returns on its first
      iteration; an empty array gives -1 either way. */
  lemma {:induction false} PrimitiveFirstMatchIsIndexOf(arr: seq<Value>, pred: Pred, from: nat)
    requires IsPrimitiveType(TypeOf(pred)) && from <= |arr|
    ensures FirstMatch(arr, pred, from) == Ok(var k := IndexOf(arr[from..], pred.v); if k == -1 then -1 else from + k)
    decreases |arr| - from
  {
    if from < |arr| {
      var rest := arr[from..];
      assert rest[0] == arr[from] && rest[1..] == arr[from + 1..];
      assert !pred.v.Obj?;
      assert ElementTest(arr, pred, from) == Ok(arr[from] == pred.v);
      if arr[from] != pred.v {
        PrimitiveFirstMatchIsIndexOf(arr, pred, from + 1);
        IndexOfTail(rest, pred.v);
      }
    }
  }

  /** `findIndex(arr, pred)`: the loop of src/utils.js:24-35 with its three
      early returns. */
  method FindIndex(arr: seq<Value>, pred: Pred) returns (r: Result<int>)
    ensures r == FirstMatch(arr, pred, 0)
  {
    var predType := TypeOf(pred);
    var i := 0;
    while i < |arr|
      invariant 0 <= i <= |arr|
      invariant IsPrimitiveType(predType) ==> i == 0
      invariant FirstMatch(arr, pred, 0) == FirstMatch(arr, pred, i)
    {
      if predType == FunctionType {
        var v := pred.f(arr[i], i, arr);
        if v.Err? {
          return Err(v.error);
        }
        if v.value == Bool(true) {
          assert ElementTest(arr, pred, i) == Ok(true);
          return Ok(i);
        }
      }
      if predType == ObjectType {
        var c := Contains(arr[i], EnumerableProps(pred.v));
        assert ElementTest(arr, pred, i) == c;
        if c.Err? {
          return Err(c.error);
        }
        if c.value {
          return Ok(i);
        }
      }
      if IndexOf(PrimitiveTypes, predType) != -1 {
        assert IsPrimitiveType(predType);
        PrimitiveFirstMatchIsIndexOf(arr, pred, 0);
        assert arr[0..] == arr;
        return Ok(IndexOf(arr, pred.v));
      }
      assert !IsPrimitiveType(predType);
      assert ElementTest(arr, pred, i) == Ok(false);
      i := i + 1;
    }
    return Ok(-1);
  }

  /** The callback returned normally, with something other than `true`. */
  predicate ReturnsNotTrue(v: Result<Value>) {
    v.Ok? && v.value != Bool(true)
  }

  /** With a callback, `findIndex` gives the smallest index for which the
      callback returns exactly `true`, every earlier call having returned
      something else, and -1 exactly when every call returns something else;
      it throws exactly when a call throws before any returns `true`, and
      then with that call's error. */
  lemma CallbackFindIndex(arr: seq<Value>, f: (Value, nat, seq<Value>) -> Result<Value>)
    ensures var r := FirstMatch(arr, Callback(f), 0);
            r.Ok? && r.value >= 0 ==>
              f(arr[r.value], r.value, arr) == Ok(Bool(true)) &&
              forall j :: 0 <= j < r.value ==> ReturnsNotTrue(f(arr[j], j, arr))
    ensures FirstMatch(arr, Callback(f), 0) == Ok(-1) <==>
              forall j :: 0 <= j < |arr| ==> ReturnsNotTrue(f(arr[j], j, arr))
    ensures var r := FirstMatch(arr, Callback(f), 0);
            r.Err? ==> exists k :: 0 <= k < |arr| && f(arr[k], k, arr) == Err(r.error) &&
                         forall j :: 0 <= j < k ==> ReturnsNotTrue(f(arr[j], j, arr))
    ensures (forall j :: 0 <= j < |arr| ==> f(arr[j], j, arr).Ok?) ==> FirstMatch(arr, Callback(f), 0).Ok?
  {
    assert forall j :: 0 <= j < |arr| ==>
      ElementTest(arr, Callback(f), j) ==
        (if f(arr[j], j, arr).Err? then Err(f(arr[j], j, arr).error) else Ok(f(arr[j], j, arr).value == Bool(true)));
    FirstMatchSpec(arr, Callback(f), 0);
    if FirstMatch(arr, Callback(f), 0).Err? {
      FirstMatchThrows(arr, Callback(f), 0);
    }
  }

  /** `find(arr, pred)`: the element at `findIndex(arr, pred)` when that is
      not -1, else `undefined`. */
  method Find(arr: seq<Value>, pred: Pred) returns (r: Result<Value>)
    ensures match FirstMatch(arr, pred, 0)
            case Err(e) => r == Err(e)
            case Ok(i) => r == Ok(if i > -1 then arr[i] else Undefined)
    ensures r.Ok? && r.value != Undefined ==>
              exists i :: 0 <= i < |arr| && arr[i] == r.value && ElementTest(arr, pred, i) == Ok(true)
  {
    var index := FindIndex(arr, pred);
    FirstMatchSpec(arr, pred, 0);
    if index.Err? {
      return Err(index.error);
    }
    return Ok(if index.value > -1 then arr[index.value] else Undefined);
  }

  // ---------------------------------------------------------------------
  // kebabCase (src/utils.js:2-8)

  /** The characters `/[A-ZÀ-ÖØ-Þ]/` matches. */
  predicate IsUpper(c: char) {
    ('A' <= c <= 'Z') || ('À' <= c <= 'Ö') || ('Ø' <= c <= 'Þ')
  }

  /** `toLowerCase` of a matched character: in all three ranges the lower-case
      form lies 0x20 above. */
  function ToLower(c: char): (l: char)
    requires IsUpper(c)
    ensures !IsUpper(l)
  {
    ((c as int) + 32) as char
  }

  /** The replacement for the character at offset `i` of the original string. */
  function KebabPiece(c: char, i: nat): string {
    if IsUpper(c) then (if i > 0 then "-" else "") + [ToLower(c)] else [c]
  }

  /** kebabCase of `s[from..]`, offsets counted in `s`. */
  function KebabFrom(s: string, from: nat): string
    requires from <= |s|
    decreases |s| - from
  {
    if from == |s| then "" else KebabPiece(s[from], from) + KebabFrom(s, from + 1)
  }

  /** `kebabCase(str)`: no matched letter survives, a string without one is
      returned as it is, and every match past offset 0 adds its `-`. */
  function KebabCase(s: string): (r: string)
    ensures NoUpper(r)
    ensures NoUpper(s) ==> r == s
    ensures |r| == |s| + CountUpper(s, 0) - (if |s| > 0 && IsUpper(s[0]) then 1 else 0)
  {
    KebabFromShape(s, 0);
    if NoUpper(s) then
      KebabFromNoUpper(s, 0);
      assert s[0..] == s;
      KebabFrom(s, 0)
    else KebabFrom(s, 0)
  }

  function CountUpper(s: string, from: nat): nat
    requires from <= |s|
    decreases |s| - from
  {
    if from == |s| then 0 else (if IsUpper(s[from]) then 1 else 0) + CountUpper(s, from + 1)
  }

  predicate NoUpper(s: string) { forall i :: 0 <= i < |s| ==> !IsUpper(s[i]) }

  /** Only matched characters change: the result holds no upper-case letter of
      the three ranges, and it is one character longer per match past offset 0. */
  lemma {:induction false} KebabFromShape(s: string, from: nat)
    requires from <= |s|
    ensures NoUpper(KebabFrom(s, from))
    ensures |KebabFrom(s, from)| == |s| - from + CountUpper(s, from) -
              (if from == 0 && |s| > 0 && IsUpper(s[0]) then 1 else 0)
    decreases |s| - from
  {
    if from < |s| {
      KebabFromShape(s, from + 1);
      var p := KebabPiece(s[from], from);
      assert NoUpper(p);
      assert KebabFrom(s, from) == p + KebabFrom(s, from + 1);
      if from + 1 < |s| {
        assert !(from + 1 == 0);
      }
    }
  }

  /** A string without upper-case letters is left as it is. */
  lemma {:induction false} KebabFromNoUpper(s: string, from: nat)
    requires from <= |s| && NoUpper(s)
    ensures KebabFrom(s, from) == s[from..]
    decreases |s| - from
  {
    if from < |s| {
      KebabFromNoUpper(s, from + 1);
      assert s[from..] == [s[from]] + s[from + 1..];
    }
  }

  /** Two worked conversions: a camel-cased property and a capitalised word. */
  lemma KebabCaseExample()
    ensures KebabCase("fontSize") == "font-size"
    ensures KebabCase("Button") == "button"
  {
    var f := "fontSize";
    assert KebabFrom(f, 6) == "ze";
    assert KebabFrom(f, 4) == "-si" + KebabFrom(f, 6);
    assert KebabFrom(f, 0) == "font" + KebabFrom(f, 4);
    var b := "Button";
    assert KebabFrom(b, 3) == "ton";
    assert KebabFrom(b, 1) == "ut" + KebabFrom(b, 3);
    assert KebabFrom(b, 0) == "b" + KebabFrom(b, 1);
  }

  /** kebabCase is idempotent. */
  lemma KebabCaseIdempotent(s: string)
    ensures KebabCase(KebabCase(s)) == KebabCase(s)
  {
    KebabFromShape(s, 0);
    KebabFromNoUpper(KebabCase(s), 0);
    assert KebabCase(s)[0..] == KebabCase(s);
  }

  // ---------------------------------------------------------------------
  // transform (src/utils.js:10-15)

  /** The mutable accumulator a `transform` callback updates. */
  class Accumulator<S> {
    var state: S

    constructor (initial: S)
      ensures state == initial
    {
      state := initial;
    }
  }

  /** The state after `cb` has run once per key of `props`, in key order. */
  function FoldProps<S>(state: S, props: Props, cb: (S, Value, string) -> S): S
    decreases |props|
  {
    if props == [] then state
    else FoldProps(cb(state, props[0].1, props[0].0), props[1..], cb)
  }

  /** `transform(obj, cb, acc)`: calls `cb(acc, obj[key], key)` for every key
      of `obj` in order and returns `acc` itself. */
  method Transform<S>(obj: Props, cb: (S, Value, string) -> S, acc: Accumulator<S>)
      returns (r: Accumulator<S>)
    modifies acc
    ensures r == acc
    ensures acc.state == FoldProps(old(acc.state), obj, cb)
  {
    var i := 0;
    while i < |obj|
      invariant 0 <= i <= |obj|
      invariant FoldProps(old(acc.state), obj, cb) == FoldProps(acc.state, obj[i..], cb)
    {
      assert obj[i..][1..] == obj[i + 1..];
      acc.state := cb(acc.state, obj[i].1, obj[i].0);
      i := i + 1;
    }
    return acc;
  }

  /** The callback that pushes each key and then its value. */
  function PushKeyValue(res: seq<Value>, value: Value, key: string): seq<Value> {
    res + [Str(key), value]
  }

  /** With that callback, `transform` lays the object out as
      `[key0, value0, key1, value1, …]`. */
  lemma {:induction false} TransformPushesPairs(start: seq<Value>, props: Props)
    ensures var r := FoldProps(start, props, PushKeyValue);
            |r| == |start| + 2 * |props| && r[..|start|] == start &&
            forall i :: 0 <= i < |props| ==>
              r[|start| + 2 * i] == Str(props[i].0) && r[|start| + 2 * i + 1] == props[i].1
    decreases |props|
  {
    if props != [] {
      var next := PushKeyValue(start, props[0].1, props[0].0);
      TransformPushesPairs(next, props[1..]);
      var r := FoldProps(start, props, PushKeyValue);
      assert r == FoldProps(next, props[1..], PushKeyValue);
      forall i | 0 <= i < |props|
        ensures r[|start| + 2 * i] == Str(props[i].0) && r[|start| + 2 * i + 1] == props[i].1
      {
        if i == 0 {
          assert r[..|next|] == next;
          assert r[|start|] == r[..|next|][|start|];
          assert r[|start| + 1] == r[..|next|][|start| + 1];
        } else {
          assert props[1..][i - 1] == props[i];
          assert |start| + 2 * i == |next| + 2 * (i - 1);
        }
      }
      assert r[..|start|] == r[..|next|][..|start|];
    }
  }
}
