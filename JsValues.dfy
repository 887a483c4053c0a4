/** The few JavaScript value notions the stress monitor relies on: values that may be
    `undefined`/`null`, numbers that may be `NaN`, JavaScript truthiness of a number,
    the result of `parseInt`, and the `Math.max(1, n)` clamp applied to it. */
module JsValues {

  datatype Option<+T> = None | Some(value: T)

  /** A JavaScript number as far as this model needs it: `NaN` or a finite value.
      Floating-point rounding is not modelled; a finite number is a real. */
  datatype Num = NotANumber | Finite(x: real)

  /** A property of a returned object that may hold a number or be missing
      (`undefined` or `null`); `None` stands for a missing property. */
  type Reading = Option<Num>

  /** JavaScript truthiness of a reading: `undefined`, `null`, `NaN` and `0` are falsy. */
  predicate Truthy(r: Reading)
  {
    r.Some? && r.value.Finite? && r.value.x != 0.0
  }

  /** What `parseInt` returns: an integer, or `NaN` when the text holds no digits. */
  datatype ParsedInt = IntNaN | Int(value: int)

  /** `Math.max(1, n)` on the result of `parseInt`: at least 1 for an integer, and
      `NaN` stays `NaN` (JavaScript's `Math.max` propagates `NaN`). */
  function ClampAtLeastOne(n: ParsedInt): (r: ParsedInt)
    ensures r.IntNaN? <==> n.IntNaN?
    ensures r.Int? ==> r.value >= 1 && r.value >= n.value
    ensures r.Int? ==> r.value == 1 || r.value == n.value
  {
    match n
    case IntNaN => IntNaN
    case Int(k) => if k < 1 then Int(1) else Int(k)
  }

  /** JavaScript's `i < n` for an integer counter `i`: every comparison with `NaN` is false. */
  predicate LessThan(i: int, n: ParsedInt)
  {
    n.Int? && i < n.value
  }

  /** How many times `for (let i = 0; i < n; i++)` runs its body. */
  function Iterations(n: ParsedInt): (k: nat)
    ensures forall i :: 0 <= i ==> (LessThan(i, n) <==> i < k)
  {
    match n
    case IntNaN => 0
    case Int(v) => if v < 0 then 0 else v
  }
}
