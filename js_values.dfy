/**
 * The slice of JavaScript's value model that the helpers in src/utils/utils.js
 * observe: truthiness, property access (which throws on null and undefined),
 * template-literal string conversion, and the `JSON.parse(JSON.stringify(_))`
 * deep clone.
 */
module JsValues {
  import opened Wrappers

  /** A JavaScript value. Numbers are integers or NaN; objects are plain data. */
  datatype Value =
    | Undefined
    | Null
    | Bool(b: bool)
    | Num(n: int)
    | NaN
    | Str(s: string)
    | Arr(elems: seq<Value>)
    | Obj(props: map<string, Value>)

  /** The exceptions the helpers can raise. */
  datatype JsError = TypeError | SyntaxError

  predicate Nullish(v: Value) {
    v.Undefined? || v.Null?
  }

  /** JavaScript truthiness: false, 0, NaN, "", null and undefined are falsy. */
  predicate Truthy(v: Value) {
    match v
    case Undefined => false
    case Null => false
    case Bool(b) => b
    case Num(n) => n != 0
    case NaN => false
    case Str(s) => s != ""
    case Arr(_) => true
    case Obj(_) => true
  }

  /** `v.key` on a value that is not null or undefined; own properties of objects only. */
  function Prop(v: Value, key: string): Value
    requires !Nullish(v)
  {
    if v.Obj? && key in v.props then v.props[key] else Undefined
  }

  /** `v.k0.k1...`: reading a property of null or undefined throws a TypeError. */
  function Path(v: Value, keys: seq<string>): (r: Result<Value, JsError>)
    decreases keys
  {
    if keys == [] then Ok(v)
    else if Nullish(v) then Err(TypeError)
    else Path(Prop(v, keys[0]), keys[1..])
  }

  function DigitChar(d: int): char
    requires 0 <= d < 10
  {
    "0123456789"[d]
  }

  function NatToString(n: nat): (s: string)
    ensures |s| >= 1
  {
    if n < 10 then [DigitChar(n)] else NatToString(n / 10) + [DigitChar(n % 10)]
  }

  function IntToString(n: int): string {
    if n < 0 then "-" + NatToString(-n) else NatToString(n)
  }

  /** Separator-joined concatenation, as `Array.prototype.join`. */
  function Join(parts: seq<string>, sep: string): string {
    if parts == [] then ""
    else if |parts| == 1 then parts[0]
    else parts[0] + sep + Join(parts[1..], sep)
  }

  /** `String(v)`, as used by template literals `${v}`. */
  function ToString(v: Value): string
    decreases v
  {
    match v
    case Undefined => "undefined"
    case Null => "null"
    case Bool(b) => if b then "true" else "false"
    case Num(n) => IntToString(n)
    case NaN => "NaN"
    case Str(s) => s
    case Arr(es) =>
      Join(seq(|es|, i requires 0 <= i < |es| => if Nullish(es[i]) then "" else ToString(es[i])), ",")
    case Obj(_) => "[object Object]"
  }

  /** Plain data: what `JSON.parse` can produce (no undefined, no NaN, anywhere). */
  predicate Plain(v: Value)
    decreases v
  {
    match v
    case Undefined => false
    case NaN => false
    case Arr(es) => forall i :: 0 <= i < |es| ==> Plain(es[i])
    case Obj(ps) => forall k :: k in ps ==> Plain(ps[k])
    case _ => true
  }

  /**
   * `JSON.parse(JSON.stringify(v))` for a value that is not undefined at the top:
   * NaN becomes null, undefined array elements become null, undefined
   * object properties are dropped.
   */
  function Clone(v: Value): (r: Value)
    requires !v.Undefined?
    decreases v
  {
    match v
    case NaN => Null
    case Arr(es) =>
      Arr(seq(|es|, i requires 0 <= i < |es| => if es[i].Undefined? then Null else Clone(es[i])))
    case Obj(ps) =>
      Obj(map k | k in ps && !ps[k].Undefined? :: Clone(ps[k]))
    case _ => v
  }

  /** Cloning always yields plain data of the same shape at the top. */
  lemma {:induction false} CloneIsPlain(v: Value)
    requires !v.Undefined?
    ensures Plain(Clone(v))
    ensures v.Arr? <==> Clone(v).Arr?
    ensures v.Arr? ==> |Clone(v).elems| == |v.elems|
    decreases v
  {
    match v
    case Arr(es) =>
      forall i | 0 <= i < |es| ensures Plain(Clone(v).elems[i]) {
        if !es[i].Undefined? { CloneIsPlain(es[i]); }
      }
    case Obj(ps) =>
      forall k | k in Clone(v).props ensures Plain(Clone(v).props[k]) {
        CloneIsPlain(ps[k]);
      }
    case _ =>
  }

  /** On plain data the JSON round trip is the identity. */
  lemma {:induction false} ClonePlainIdentity(v: Value)
    requires Plain(v)
    ensures Clone(v) == v
    decreases v
  {
    match v
    case Arr(es) =>
      forall i | 0 <= i < |es| ensures Clone(v).elems[i] == es[i] {
        ClonePlainIdentity(es[i]);
      }
    case Obj(ps) =>
      forall k | k in ps ensures Clone(ps[k]) == ps[k] {
        ClonePlainIdentity(ps[k]);
      }
      assert Clone(v).props == ps;
    case _ =>
  }

  /** Cloning twice is cloning once. */
  lemma CloneIdempotent(v: Value)
    requires !v.Undefined?
    ensures Clone(Clone(v)) == Clone(v)
  {
    CloneIsPlain(v);
    ClonePlainIdentity(Clone(v));
  }
}
