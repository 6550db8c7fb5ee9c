/**
  JavaScript value conventions the cart store relies on: optional fields
  (`field?: T`, possibly `undefined`) and the truthiness tests behind
  `a || b` and `cond ? x : y`.
 */
module JsValues {

  /** An optional field: `None` is `undefined`. */
  datatype Option<+T> = None | Some(value: T)

  /** A string is truthy when it is present and not the empty string. */
  predicate TruthyStr(o: Option<string>) {
    o.Some? && o.value != ""
  }

  /** A number is truthy when it is present and not zero (integers only, so NaN does not arise). */
  predicate TruthyNum(o: Option<int>) {
    o.Some? && o.value != 0
  }

  /** `n || dflt` for a (present) integer: zero is falsy and yields the default. */
  function NumOr(n: int, dflt: int): int
  {
    if n != 0 then n else dflt
  }
}
