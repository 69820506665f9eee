/** lib/lib.go: the generic coercions `parseInt` and `parseFloat`. */
module LibNumeric {
  import opened GoValues

  predicate IsNumber(v: Value) {
    v.IntNum? || v.FloatNum?
  }

  /**
   * `parseInt`: nil and every non-numeric value give the default; an integer of any
   * kind is taken as is; a float is truncated toward zero. The width of the target
   * type `T` is not modelled (the result is unbounded).
   */
  function ParseInt(val: Value, defaultValue: int): (r: int)
    ensures !IsNumber(val) ==> r == defaultValue
    ensures val.IntNum? ==> r == val.i
    ensures val.FloatNum? && 0.0 <= val.f ==> r as real <= val.f < r as real + 1.0
    ensures val.FloatNum? && val.f < 0.0 ==> r as real - 1.0 < val.f <= r as real
  {
    match val
    case Null => defaultValue
    case IntNum(_, i) => i
    case FloatNum(_, f) => TruncateTowardZero(f)
    case _ => defaultValue
  }

  /**
   * `parseFloat`: nil and every non-numeric value give the default; a number of any
   * kind becomes its real value (rounding to the target float width is not modelled).
   */
  function ParseFloat(val: Value, defaultValue: real): (r: real)
    ensures !IsNumber(val) ==> r == defaultValue
    ensures val.IntNum? ==> r == val.i as real
    ensures val.FloatNum? ==> r == val.f
  {
    match val
    case Null => defaultValue
    case FloatNum(_, f) => f
    case IntNum(_, i) => i as real
    case _ => defaultValue
  }
}
