/** The values a field of a parsed JSON request body can hold, as the
    handlers observe them through `typeof`, `isNaN` and `Number.isInteger`. */
module JsValues {
  import opened JsStrings

  /** A JavaScript number. Magnitudes are kept as exact reals: the handlers
      do no arithmetic on numbers, they only test and store them. A JSON body
      can produce an infinity (`1e999`), never a NaN, but the checks test for
      both, so both are here. */
  datatype Num = Finite(value: real) | Infinity(negative: bool) | NaN

  /** A field read out of `req.body`: `Undefined` when the key is absent,
      `Other` for booleans, arrays and objects. */
  datatype Value = Undefined | Null | Str(s: string) | Number(n: Num) | Other

  /** `typeof v === 'string' && v.trim() !== ''`, the test applied to every
      string field. */
  predicate IsNonEmptyString(v: Value): (r: bool)
    ensures r <==> v.Str? && !AllSpace(v.s)
    ensures r ==> Trim(v.s) != [] && IsTrimmed(Trim(v.s))
  {
    v.Str? && Trim(v.s) != []
  }

  /** `typeof v === 'number' && !isNaN(v)`, the price test. */
  predicate IsNumberNotNaN(v: Value): (r: bool)
    ensures r <==> v.Number? && (v.n.Finite? || v.n.Infinity?)
  {
    v.Number? && !v.n.NaN?
  }

  /** The number is finite and has no fractional part. */
  predicate IsIntegral(n: Num) {
    n.Finite? && n.value.Floor as real == n.value
  }

  /** `Number.isInteger(v)`, the stock test: false for every non-number. */
  predicate IsInteger(v: Value): (r: bool)
    ensures r ==> IsNumberNotNaN(v) && v.n.Finite?
    ensures v.Number? && v.n.Finite? ==> (r <==> v.n.value == v.n.value.Floor as real)
    ensures v.Number? && v.n.Infinity? ==> !r
  {
    v.Number? && IsIntegral(v.n)
  }
}
