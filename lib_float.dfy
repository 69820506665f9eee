/** lib/float.go: `GetFloat64`, the stricter float coercion used for poses. */
module LibFloat {
  import opened GoValues
  import LibNumeric

  /** The kinds the type switch of `GetFloat64` accepts. */
  predicate Accepted(val: Value) {
    (val.FloatNum? && val.fk == Float64) || (val.IntNum? && (val.ik == Int || val.ik == Int64))
  }

  /**
   * `GetFloat64`: a float64 is returned as is, an int or int64 is converted exactly,
   * and nil or any other kind (float32, int32, uint, a string, ...) gives the default.
   */
  function GetFloat64(val: Value, defaultValue: real): (r: real)
    ensures val.FloatNum? && val.fk == Float64 ==> r == val.f
    ensures val.IntNum? && (val.ik == Int || val.ik == Int64) ==> r == val.i as real
    ensures !Accepted(val) ==> r == defaultValue
  {
    match val
    case Null => defaultValue
    case FloatNum(Float64, f) => f
    case IntNum(Int, i) => i as real
    case IntNum(Int64, i) => i as real
    case _ => defaultValue
  }

  /** On the kinds it accepts the result does not depend on the default. */
  lemma GetFloat64IgnoresDefault(val: Value, d1: real, d2: real)
    requires Accepted(val)
    ensures GetFloat64(val, d1) == GetFloat64(val, d2)
  {
  }

  /**
   * `GetFloat64` is `parseFloat` restricted to three kinds: they agree on those,
   * and on every other number `GetFloat64` falls back to the default.
   */
  lemma GetFloat64RefinesParseFloat(val: Value, d: real)
    ensures Accepted(val) ==> GetFloat64(val, d) == LibNumeric.ParseFloat(val, d)
    ensures !Accepted(val) ==> GetFloat64(val, d) == d
  {
  }
}
