/**
 * JavaScript values as the storefront handles them: the results of
 * `JSON.parse`, request bodies and stored documents, together with the
 * coercions (`String(v)`, `Number(v)`, truthiness, `??`, `+`, `*`) the code
 * applies to them.
 */
module JsValue {
  import opened Wrappers
  import opened JsString
  import opened JsNumber

  /** Objects are property maps; property order is not modelled. */
  datatype Value =
    | Undefined
    | Null
    | Bool(b: bool)
    | Number(n: Num)
    | Str(s: string)
    | Array(elems: seq<Value>)
    | Object(props: map<string, Value>)

  /** What a `throw` reaching the modelled code can carry. */
  datatype Thrown =
    | Error(message: string)    // `new Error(message)` raised by the storefront itself
    | TypeError                 // reading a property of null/undefined, writing one on a primitive
    | SyntaxError               // `JSON.parse` rejecting its text
    | Backend(message: string)  // an exception raised by the document store or file storage
    | NonError                  // a thrown value that is not an `Error` instance

  /** `v === undefined || v === null`: the values `??` and `?.` react to. */
  predicate Nullish(v: Value) {
    v.Undefined? || v.Null?
  }

  /** `v ?? d`. */
  function Coalesce(v: Value, d: Value): Value {
    if Nullish(v) then d else v
  }

  /**
   * `a === b`: NaN equals nothing, not even itself; every other value is
   * compared by its contents. Objects and arrays compare by reference in
   * JavaScript, which the model does not track.
   */
  predicate StrictEquals(a: Value, b: Value)
    ensures StrictEquals(a, b) ==> a == b
    ensures a == b && a != Number(NaN) ==> StrictEquals(a, b)
  {
    a == b && a != Number(NaN)
  }

  /** `Boolean(v)`. */
  predicate Truthy(v: Value) {
    match v
    case Undefined => false
    case Null => false
    case Bool(b) => b
    case Number(n) => !(n.NaN? || n == Finite(0.0))
    case Str(s) => s != ""
    case Array(_) => true
    case Object(_) => true
  }

  /** `v && typeof v === "object"`: arrays and plain objects. */
  predicate IsObjectLike(v: Value) {
    v.Array? || v.Object?
  }

  /** `typeof v === "number"` (NaN and the infinities included). */
  predicate IsNumber(v: Value) {
    v.Number?
  }

  /** A canonical array index: "0" or a digit string without a leading zero. */
  function ArrayIndex(key: string): Option<nat> {
    if |key| == 0 || !IsDecimalDigit(key[0]) then None
    else if LeadingDigits(key) == |key| && (key == "0" || key[0] != '0') then Some(DigitsValue(key, 10))
    else None
  }

  /** `v?.[key]`: undefined for a nullish receiver and for a missing property. */
  function Get(v: Value, key: string): Value {
    match v
    case Object(m) => if key in m then m[key] else Undefined
    case Array(a) =>
      if key == "length" then Number(FromInt(|a|))
      else (match ArrayIndex(key)
        case Some(i) => if i < |a| then a[i] else Undefined
        case None => Undefined)
    case Str(s) =>
      if key == "length" then Number(FromInt(|s|))
      else (match ArrayIndex(key)
        case Some(i) => if i < |s| then Str([s[i]]) else Undefined
        case None => Undefined)
    case _ => Undefined
  }

  /** `String(v)`. */
  function ToStr(v: Value): string {
    match v
    case Undefined => "undefined"
    case Null => "null"
    case Bool(b) => if b then "true" else "false"
    case Number(n) => NumberToString(n)
    case Str(s) => s
    case Array(a) => JoinElements(a)
    case Object(_) => "[object Object]"
  }

  /** `a.join(",")`, where null and undefined elements render as "". */
  function JoinElements(a: seq<Value>): string
    decreases Array(a), 0
  {
    Join(seq(|a|, i requires 0 <= i < |a| => if Nullish(a[i]) then "" else ToStr(a[i])), ',')
  }

  /** The primitive an object turns into before arithmetic: its string form. */
  function ToPrimitive(v: Value): Value {
    if IsObjectLike(v) then Str(ToStr(v)) else v
  }

  /** `Number(v)`. */
  function ToNumber(v: Value): Num {
    match v
    case Undefined => NaN
    case Null => Finite(0.0)
    case Bool(b) => if b then Finite(1.0) else Finite(0.0)
    case Number(n) => n
    case Str(s) => StringToNumber(s)
    case Array(_) => StringToNumber(ToStr(v))
    case Object(_) => StringToNumber(ToStr(v))
  }

  /** `a + b`: string concatenation as soon as one side is a string, else numeric addition. */
  function Plus(a: Value, b: Value): Value {
    var pa := ToPrimitive(a);
    var pb := ToPrimitive(b);
    if pa.Str? || pb.Str? then Str(ToStr(pa) + ToStr(pb))
    else Number(Add(ToNumber(pa), ToNumber(pb)))
  }

  /** `a * b`: both sides are converted to numbers. */
  function Times(a: Value, b: Value): Num {
    Mul(ToNumber(a), ToNumber(b))
  }

  /** A finite number value. */
  function Real(r: real): Value {
    Number(Finite(r))
  }

  // ---------------------------------------------------------------------
  // JSON
  // ---------------------------------------------------------------------

  /** The values `JSON.parse` can produce: no undefined, only finite numbers. */
  predicate IsJson(v: Value) {
    match v
    case Undefined => false
    case Number(n) => n.Finite?
    case Array(a) => forall i :: 0 <= i < |a| ==> IsJson(a[i])
    case Object(m) => forall k :: k in m ==> IsJson(m[k])
    case _ => true
  }

  /**
   * What `JSON.parse(JSON.stringify(v))` returns: undefined properties are
   * dropped, undefined array elements and non-finite numbers become null.
   */
  function Normalize(v: Value): Value {
    match v
    case Undefined => Null
    case Number(n) => if n.Finite? then v else Null
    case Array(a) => Array(seq(|a|, i requires 0 <= i < |a| => Normalize(a[i])))
    case Object(m) => Object(map k | k in m && m[k] != Undefined :: Normalize(m[k]))
    case _ => v
  }

  /** The JSON round trip produces JSON values. */
  lemma {:induction false} NormalizeIsJson(v: Value)
    ensures IsJson(Normalize(v))
  {
    match v
    case Array(a) =>
      forall i | 0 <= i < |a|
        ensures IsJson(Normalize(a[i]))
      {
        NormalizeIsJson(a[i]);
      }
    case Object(m) =>
      forall k | k in m && m[k] != Undefined
        ensures IsJson(Normalize(m[k]))
      {
        NormalizeIsJson(m[k]);
      }
    case _ =>
  }

  /** A JSON value survives the round trip unchanged. */
  lemma {:induction false} NormalizeJson(v: Value)
    requires IsJson(v)
    ensures Normalize(v) == v
  {
    match v
    case Array(a) =>
      forall i | 0 <= i < |a|
        ensures Normalize(a[i]) == a[i]
      {
        NormalizeJson(a[i]);
      }
      assert Normalize(v).elems == a;
    case Object(m) =>
      forall k | k in m
        ensures Normalize(m[k]) == m[k]
      {
        NormalizeJson(m[k]);
      }
      assert Normalize(v).props == m;
    case _ =>
  }

  /** A property the round trip keeps: defined properties survive, normalised. */
  lemma NormalizeProperty(m: map<string, Value>, k: string)
    requires k in m && m[k] != Undefined
    ensures k in Normalize(Object(m)).props
    ensures Normalize(Object(m)).props[k] == Normalize(m[k])
  {
    var n := map k | k in m && m[k] != Undefined :: Normalize(m[k]);
    assert Normalize(Object(m)) == Object(n);
  }

  /** Reading a property after the round trip: a defined one comes back normalised, an undefined or absent one is gone. */
  lemma NormalizeGet(m: map<string, Value>, k: string)
    ensures Get(Normalize(Object(m)), k) == if k in m && m[k] != Undefined then Normalize(m[k]) else Undefined
  {
    var n := map j | j in m && m[j] != Undefined :: Normalize(m[j]);
    assert Normalize(Object(m)) == Object(n);
  }

  /** Setting one property of a JSON object and round-tripping it normalises only that property. */
  lemma NormalizeUpdate(m: map<string, Value>, k: string, x: Value)
    requires forall j :: j in m ==> IsJson(m[j])
    requires x != Undefined
    ensures Normalize(Object(m[k := x])) == Object(m[k := Normalize(x)])
  {
    var m' := m[k := x];
    var n := Normalize(Object(m')).props;
    forall j | j in m'
      ensures j in n && n[j] == m[k := Normalize(x)][j]
    {
      if j != k {
        NormalizeJson(m[j]);
      }
      NormalizeProperty(m', j);
    }
    assert n.Keys == m'.Keys;
  }

  /**
   * `JSON.parse` and `JSON.stringify`, which the model does not implement on
   * characters: a codec is any pair of functions obeying the round-trip laws
   * of `Lawful`.
   */
  datatype Codec = Codec(parse: string -> Option<Value>, stringify: Value -> string)

  /**
   * The laws of the platform's JSON: the empty string does not parse, a
   * stringified value parses back to its normal form, and parsing only ever
   * yields JSON values.
   */
  ghost predicate Lawful(c: Codec) {
    && c.parse("") == None
    && (forall v :: v != Undefined ==> c.parse(c.stringify(v)) == Some(Normalize(v)))
    && (forall s :: c.parse(s).Some? ==> IsJson(c.parse(s).value))
  }

  /** Stringified text is never empty, so `if (!raw)` never skips it. */
  lemma StringifiedNonEmpty(c: Codec, v: Value)
    requires Lawful(c) && v != Undefined
    ensures c.stringify(v) != ""
  {
    assert c.parse(c.stringify(v)).Some?;
  }
}
