/**
 * The dynamically typed values (`any`) that arrive in a DoCommand payload or a
 * configuration, as the type switches and assertions of the core see them.
 * Numbers keep their Go kind, because the coercions accept some kinds and not others.
 */
module GoValues {

  /** Go's `byte` (`uint8`). */
  type Byte = b: int | 0 <= b < 256

  datatype IntKind = Int | Int8 | Int16 | Int32 | Int64 | Uint | Uint8 | Uint16 | Uint32 | Uint64

  datatype FloatKind = Float32 | Float64

  /**
   * A value of static type `any`. `Null` is the untyped nil; `NilDict` is a nil
   * `map[string]any`, which passes a map type assertion but holds no entries;
   * `Other` is any value of a type the core never asserts (bool, a struct, ...),
   * remembered only by its type name.
   */
  datatype Value =
    | Null
    | IntNum(ik: IntKind, i: int)
    | FloatNum(fk: FloatKind, f: real)
    | Str(s: string)
    | Arr(items: seq<Value>)
    | Dict(entries: map<string, Value>)
    | NilDict
    | Other(typeName: string)

  /** True iff the assertion `v.(map[string]any)` succeeds. */
  predicate IsMap(v: Value) {
    v.Dict? || v.NilDict?
  }

  /** The entries seen through a successful map assertion (a nil map has none). */
  function Entries(v: Value): map<string, Value>
    requires IsMap(v)
  {
    if v.Dict? then v.entries else map[]
  }

  /** Go's `m[k]` on a `map[string]any`: a missing key reads as nil. */
  function Lookup(m: map<string, Value>, k: string): Value {
    if k in m then m[k] else Null
  }

  function IntKindName(k: IntKind): string {
    match k
    case Int => "int"
    case Int8 => "int8"
    case Int16 => "int16"
    case Int32 => "int32"
    case Int64 => "int64"
    case Uint => "uint"
    case Uint8 => "uint8"
    case Uint16 => "uint16"
    case Uint32 => "uint32"
    case Uint64 => "uint64"
  }

  /** What the `%T` verb prints for a value. */
  function TypeName(v: Value): string {
    match v
    case Null => "<nil>"
    case IntNum(k, _) => IntKindName(k)
    case FloatNum(k, _) => if k == Float32 then "float32" else "float64"
    case Str(_) => "string"
    case Arr(_) => "[]interface {}"
    case Dict(_) => "map[string]interface {}"
    case NilDict => "map[string]interface {}"
    case Other(name) => name
  }

  /** Go's conversion of a floating-point value to an integer type: truncation toward zero. */
  function TruncateTowardZero(f: real): (r: int)
    ensures 0.0 <= f ==> r as real <= f < r as real + 1.0
    ensures f < 0.0 ==> r as real - 1.0 < f <= r as real
  {
    if 0.0 <= f then f.Floor else -((-f).Floor)
  }
}
