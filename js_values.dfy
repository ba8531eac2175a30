/**
 * JavaScript values as the dashboard script sees them in a parsed status
 * record: the parts of JavaScript's value semantics that the controller's
 * guards depend on (truthiness, `Number(...)` and the global `isNaN`).
 * String-valued fields are not modelled (see README).
 */
module JsValues {

  datatype Option<+T> = None | Some(value: T)

  /** A JSON field after parsing: absent, `null`, a boolean or a number.
      `NaN` never comes out of JSON, but it is what `Number(undefined)` gives. */
  datatype JsValue = Undefined | Null | Bool(b: bool) | Num(r: real) | NaN

  /** JavaScript truthiness: `undefined`, `null`, `false`, `0` and `NaN` are falsy. */
  predicate Truthy(v: JsValue)
  {
    match v
    case Undefined => false
    case Null => false
    case Bool(b) => b
    case Num(r) => r != 0.0
    case NaN => false
  }

  /** `Number(v)`: always a number value, i.e. `Num` or `NaN`. */
  function ToNumber(v: JsValue): (n: JsValue)
    ensures n.Num? || n.NaN?
    ensures v.Num? ==> n == v
    ensures v.Null? ==> n == Num(0.0)
    ensures v.Undefined? || v.NaN? <==> n.NaN?
  {
    match v
    case Undefined => NaN
    case Null => Num(0.0)
    case Bool(b) => Num(if b then 1.0 else 0.0)
    case Num(r) => v
    case NaN => NaN
  }

  /** The global `isNaN(v)`: converts with `Number` first. */
  predicate IsNaN(v: JsValue)
  {
    ToNumber(v).NaN?
  }

  /** `n !== 0` for a number value `n` (`NaN !== 0` holds). */
  predicate IsNotZero(n: JsValue)
  {
    n != Num(0.0)
  }

  /** A truthy value converts to a non-zero number. */
  lemma TruthyIsNonZeroNumber(v: JsValue)
    requires Truthy(v)
    ensures ToNumber(v).Num? && ToNumber(v).r != 0.0
  {
  }
}
