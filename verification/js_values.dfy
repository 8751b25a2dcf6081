/**
 * JavaScript values and the handful of language operations the scripts rely
 * on: property reads (plain and optional), `??`, object spread and string
 * conversion. Numbers are integers here; fractional numbers are not modelled.
 */
module JsValues {
  import opened Wrappers
  import Text

  datatype JsValue =
    | Undefined
    | Null
    | Bool(b: bool)
    | Num(n: int)
    | Str(s: string)
    | Arr(items: seq<JsValue>)
    | Obj(props: map<string, JsValue>)

  predicate Nullish(v: JsValue) {
    v.Undefined? || v.Null?
  }

  /**
   * `v[key]` for a non-index key: an absent property reads as undefined,
   * primitives and arrays carry none of the keys the scripts read, and
   * reading from null or undefined throws a TypeError (its message is the Err).
   */
  function GetProp(v: JsValue, key: string): (r: Result<JsValue, string>)
    ensures r.Err? <==> Nullish(v)
    ensures v.Obj? ==> r == Ok(if key in v.props then v.props[key] else Undefined)
    ensures !v.Obj? && !Nullish(v) ==> r == Ok(Undefined)
  {
    match v
    case Null => Err("Cannot read properties of null (reading '" + key + "')")
    case Undefined => Err("Cannot read properties of undefined (reading '" + key + "')")
    case Obj(props) => Ok(if key in props then props[key] else Undefined)
    case _ => Ok(Undefined)
  }

  /** `v?.[key]`: undefined instead of a TypeError on a nullish value. */
  function OptGet(v: JsValue, key: string): (r: JsValue)
    ensures Nullish(v) ==> r == Undefined
    ensures !Nullish(v) ==> r == GetProp(v, key).value
  {
    if Nullish(v) then Undefined else GetProp(v, key).value
  }

  /** `a ?? b`. */
  function Coalesce(a: JsValue, b: JsValue): (r: JsValue)
    ensures Nullish(a) ==> r == b
    ensures !Nullish(a) ==> r == a
  {
    if Nullish(a) then b else a
  }

  /**
   * The own properties `...v` copies into an object literal. Spreading null,
   * undefined or a boolean or number copies nothing; spreading strings and
   * arrays (their index properties) is not modelled.
   */
  function SpreadProps(v: JsValue): (r: map<string, JsValue>)
    ensures v.Obj? ==> r == v.props
    ensures !v.Obj? ==> r == map[]
  {
    if v.Obj? then v.props else map[]
  }

  /** `{...base, ...over}` on property maps: later properties win, keys are unioned. */
  function Spread(base: map<string, JsValue>, over: map<string, JsValue>): (r: map<string, JsValue>)
    ensures r.Keys == base.Keys + over.Keys
    ensures forall k :: k in over ==> r[k] == over[k]
    ensures forall k :: k in base && k !in over ==> r[k] == base[k]
  {
    base + over
  }

  /**
   * `String(v)` as a template literal uses it: arrays join their elements
   * with commas (nullish elements as empty), plain objects print as
   * `[object Object]`.
   */
  function ToJsString(v: JsValue): string
    decreases v, 1
  {
    match v
    case Undefined => "undefined"
    case Null => "null"
    case Bool(b) => if b then "true" else "false"
    case Num(n) => Text.Decimal(n)
    case Str(s) => s
    case Arr(items) => JoinElements(v, items)
    case Obj(_) => "[object Object]"
  }

  function JoinElements(whole: JsValue, items: seq<JsValue>): string
    requires forall i :: 0 <= i < |items| ==> items[i] < whole
    decreases whole, 0, |items|
  {
    if |items| == 0 then ""
    else
      var first := if Nullish(items[0]) then "" else ToJsString(items[0]);
      if |items| == 1 then first else first + "," + JoinElements(whole, items[1..])
  }
}
