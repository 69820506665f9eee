/** lib/color.go: `Color` and `ParseColor`, with per-channel defaults and clamping. */
module LibColor {
  import opened GoValues
  import opened Wrappers
  import opened Errors
  import LibNumeric

  /** An RGB colour; each channel is a `uint8`. */
  datatype Color = Color(r: Byte, g: Byte, b: Byte)

  /** The if/else-if chain applied to each channel: never rejects, always lands in [0, 255]. */
  function Clamp(v: int): (c: Byte)
    ensures v < 0 ==> c == 0
    ensures 255 < v ==> c == 255
    ensures 0 <= v <= 255 ==> c == v
  {
    if v < 0 then 0 else if v > 255 then 255 else v
  }

  /** One channel of a colour map: `parseInt` of the entry with the default channel as fallback, then clamped. */
  function Channel(m: map<string, Value>, key: string, defaultValue: Byte): (c: Byte)
    ensures !LibNumeric.IsNumber(Lookup(m, key)) ==> c == defaultValue
    ensures key in m && m[key].IntNum? ==> c == Clamp(m[key].i)
    ensures key in m && m[key].FloatNum? ==> c == Clamp(TruncateTowardZero(m[key].f))
  {
    Clamp(LibNumeric.ParseInt(Lookup(m, key), defaultValue))
  }

  /** `ParseColor` returns a colour and an error together; on error the colour is the default. */
  datatype ColorResult = ColorResult(color: Color, err: Option<Error>)

  /**
   * `ParseColor`: anything that is not a `map[string]any` (untyped nil included) gives
   * the default and an error; a nil map gives the default and no error; otherwise each
   * channel is read independently.
   */
  function ParseColor(colorData: Value, defaultValue: Color): (r: ColorResult)
    ensures !IsMap(colorData) ==> r == ColorResult(defaultValue, Some(NotColorObject(TypeName(colorData))))
    ensures IsMap(colorData) ==> r.err == None
    ensures colorData.NilDict? ==> r.color == defaultValue
    ensures IsMap(colorData) ==>
      var m := Entries(colorData);
      r.color == Color(Channel(m, "r", defaultValue.r), Channel(m, "g", defaultValue.g), Channel(m, "b", defaultValue.b))
  {
    if !IsMap(colorData) then
      ColorResult(defaultValue, Some(NotColorObject(TypeName(colorData))))
    else if colorData.NilDict? then
      ColorResult(defaultValue, None)
    else
      var m := colorData.entries;
      ColorResult(Color(Channel(m, "r", defaultValue.r), Channel(m, "g", defaultValue.g), Channel(m, "b", defaultValue.b)), None)
  }

  /** An empty map yields the default colour with no error. */
  lemma ParseColorEmptyMap(d: Color)
    ensures ParseColor(Dict(map[]), d) == ColorResult(d, None)
  {
  }

  /** In-range integers of any kind are kept exactly. */
  lemma ParseColorKeepsInRange(kr: IntKind, kg: IntKind, kb: IntKind, r: Byte, g: Byte, b: Byte, d: Color)
    ensures ParseColor(Dict(map["r" := IntNum(kr, r), "g" := IntNum(kg, g), "b" := IntNum(kb, b)]), d)
         == ColorResult(Color(r, g, b), None)
  {
  }

  /** The clamping example {300, -50, 128} becomes {255, 0, 128}. */
  lemma ParseColorClampsExample()
    ensures ParseColor(Dict(map["r" := IntNum(Int, 300), "g" := IntNum(Int, -50), "b" := IntNum(Int, 128)]), Color(0, 0, 0))
         == ColorResult(Color(255, 0, 128), None)
  {
  }
}
