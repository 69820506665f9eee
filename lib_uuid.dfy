/**
 * lib/uuid.go: the 16-byte identity, its canonical text form (8-4-4-4-12 lower-case
 * hexadecimal, section 4 of RFC 9562) and the conversions between the two.
 */
module LibUUID {
  import opened GoValues
  import opened Wrappers
  import opened Text

  /** The wrapped `uuid.UUID`: exactly 16 bytes. */
  type UUID = s: seq<Byte> | |s| == 16 witness seq(16, _ => 0)

  /** The errors google/uuid's `Parse` and `FromBytes` return. */
  datatype UUIDError =
    | InvalidLength(length: nat)
    | InvalidFormat
    | InvalidByteCount(count: nat)

  function ErrorMessage(e: UUIDError): string {
    match e
    case InvalidLength(n) => "invalid UUID length: " + NatToString(n)
    case InvalidFormat => "invalid UUID format"
    case InvalidByteCount(n) => "invalid UUID (got " + NatToString(n) + " bytes)"
  }

  /** `Bytes`: the 16 bytes of the identity. */
  function Bytes(u: UUID): (bs: seq<Byte>)
    ensures |bs| == 16
    ensures forall i | 0 <= i < 16 :: bs[i] == u[i]
  {
    u[..]
  }

  /** The digit a character position of the 36-character form holds, hyphens not counted. */
  function DigitIndex(p: int): (d: int)
    ensures 8 <= p < 36 ==> d < p
  {
    if p < 8 then p else if p < 13 then p - 1 else if p < 18 then p - 2 else if p < 23 then p - 3 else p - 4
  }

  /** Hex digit `d` of the 32-digit form: the high, then low, nibble of byte `d / 2`. */
  function NibbleDigit(u: UUID, d: int): char
    requires 0 <= d < 32
  {
    if d % 2 == 0 then HexDigit(u[d / 2] / 16) else HexDigit(u[d / 2] % 16)
  }

  /**
   * `String`: the 32 lower-case hex digits of the bytes in order, in groups of
   * 8-4-4-4-12 separated by hyphens.
   */
  function String(u: UUID): (s: string)
    ensures |s| == 36
  {
    seq(36, p requires 0 <= p < 36 => if IsHyphenPosition(p) then '-' else NibbleDigit(u, DigitIndex(p)))
  }

  /** `String` produces the canonical form. */
  lemma StringIsCanonical(u: UUID)
    ensures IsCanonical(String(u))
  {
  }

  /**
   * The bytes of the text form as a Go string holds them: every character is ASCII,
   * so each is one byte, its code.
   */
  function StringBytes(u: UUID): (bs: seq<Byte>)
    ensures |bs| == 36
    ensures forall i | 0 <= i < 36 :: bs[i] < 128 && bs[i] == String(u)[i] as int
  {
    StringIsCanonical(u);
    assert forall i | 0 <= i < 36 :: 0 <= String(u)[i] as int < 128;
    seq(36, i requires 0 <= i < 36 => String(u)[i] as int)
  }

  /** Read back as characters, the bytes of the text form parse to the identity. */
  lemma StringBytesReadBack(u: UUID)
    ensures Parse(seq(36, i requires 0 <= i < 36 => StringBytes(u)[i] as char)) == Success(u)
  {
    var bs := StringBytes(u);
    assert seq(36, i requires 0 <= i < 36 => bs[i] as char) == String(u);
    ParseOfString(u);
  }

  predicate IsHyphenPosition(i: int) {
    i == 8 || i == 13 || i == 18 || i == 23
  }

  /** The canonical form `String` produces: 36 characters, hyphens at 8, 13, 18, 23, lower-case hex elsewhere. */
  predicate IsCanonical(s: string) {
    && |s| == 36
    && (forall i | 0 <= i < 36 && IsHyphenPosition(i) :: s[i] == '-')
    && (forall i | 0 <= i < 36 && !IsHyphenPosition(i) :: IsLowerHexDigit(s[i]))
  }

  /** The 32 digits of a 36-character form with the hyphens taken out. */
  function Digits(s: string): (d: string)
    requires |s| == 36
    ensures |d| == 32
  {
    s[0..8] + s[9..13] + s[14..18] + s[19..23] + s[24..36]
  }

  /** The character position of digit `d` in the 36-character form: the inverse of `DigitIndex`. */
  function DigitPosition(d: int): (p: int)
    requires 0 <= d < 32
    ensures 0 <= p < 36 && !IsHyphenPosition(p) && DigitIndex(p) == d
  {
    if d < 8 then d else if d < 12 then d + 1 else if d < 16 then d + 2 else if d < 20 then d + 3 else d + 4
  }

  /** Every character outside the hyphen positions is a hexadecimal digit, in either case. */
  predicate HasHexDigits(s: string)
    requires |s| == 36
  {
    forall i | 0 <= i < 36 && !IsHyphenPosition(i) :: HexDigitValue(s[i]).Some?
  }

  /**
   * `uuid.Parse` on the 36-character form: a wrong length or a misplaced hyphen is an
   * error, and so is any other character that is not a hexadecimal digit; digits of
   * either case are accepted, and byte i is the value of digits 2i and 2i + 1.
   */
  function Parse(s: string): (r: Result<UUID, UUIDError>)
    ensures |s| != 36 ==> r == Failure(InvalidLength(|s|))
    ensures |s| == 36 && r.Failure? ==> r.error == InvalidFormat
    ensures r.Success? <==>
      && |s| == 36
      && (forall i | 0 <= i < 36 && IsHyphenPosition(i) :: s[i] == '-')
      && HasHexDigits(s)
    ensures r.Success? ==> |s| == 36 && forall i | 0 <= i < 16 ::
      && HexDigitValue(Digits(s)[2 * i]).Some? && HexDigitValue(Digits(s)[2 * i + 1]).Some?
      && r.value[i] == 16 * HexDigitValue(Digits(s)[2 * i]).value + HexDigitValue(Digits(s)[2 * i + 1]).value
    ensures IsCanonical(s) ==> r.Success? && Hex(r.value) == Digits(s)
  {
    if |s| != 36 then Failure(InvalidLength(|s|))
    else if s[8] != '-' || s[13] != '-' || s[18] != '-' || s[23] != '-' then Failure(InvalidFormat)
    else
      var d := Digits(s);
      DigitsAllHex(s);
      DecodeHexDigits(d);
      assert IsCanonical(s) ==> Hex(DecodeHex(d).value) == d by {
        if IsCanonical(s) {
          forall i | 0 <= i < 32 ensures IsLowerHexDigit(d[i]) {
            DigitsAt(s, DigitPosition(i));
          }
          HexOfDecodeHex(d);
        }
      }
      match DecodeHex(d)
      case None => Failure(InvalidFormat)
      case Some(bs) => Success(bs)
  }

  /** The digits of a 36-character form are all hexadecimal exactly when its non-hyphen characters are. */
  lemma DigitsAllHex(s: string)
    requires |s| == 36
    ensures HasHexDigits(s) <==> forall d | 0 <= d < 32 :: HexDigitValue(Digits(s)[d]).Some?
  {
    if HasHexDigits(s) {
      forall d | 0 <= d < 32 ensures HexDigitValue(Digits(s)[d]).Some? {
        DigitsAt(s, DigitPosition(d));
      }
    }
    if forall d | 0 <= d < 32 :: HexDigitValue(Digits(s)[d]).Some? {
      forall p | 0 <= p < 36 && !IsHyphenPosition(p) ensures HexDigitValue(s[p]).Some? {
        DigitsAt(s, p);
      }
    }
  }

  /** Character position `p` of a 36-character form holds digit `DigitIndex(p)` of `Digits`. */
  lemma DigitsAt(s: string, p: int)
    requires |s| == 36 && 0 <= p < 36 && !IsHyphenPosition(p)
    ensures 0 <= DigitIndex(p) < 32 && Digits(s)[DigitIndex(p)] == s[p]
  {
  }

  lemma DigitsOfString(u: UUID)
    ensures Digits(String(u)) == Hex(u)
  {
    var s := String(u);
    forall d | 0 <= d < 32
      ensures Digits(s)[d] == Hex(u)[d]
    {
      DigitsAt(s, DigitPosition(d));
      HexIndex(u, d);
    }
  }

  /** The round trip the stores rely on: parsing the text form of an identity gives the identity back. */
  lemma ParseOfString(u: UUID)
    ensures Parse(String(u)) == Success(u)
  {
    var s := String(u);
    StringIsCanonical(u);
    DigitsOfString(u);
    HexInjective(Parse(s).value, u);
  }

  /** And the other way: a canonical string is the text form of what it parses to. */
  lemma StringOfParse(s: string)
    requires IsCanonical(s)
    ensures String(Parse(s).value) == s
  {
    var u := Parse(s).value;
    var t := String(u);
    forall p | 0 <= p < 36
      ensures t[p] == s[p]
    {
      if !IsHyphenPosition(p) {
        DigitsAt(s, p);
        HexIndex(u, DigitIndex(p));
      }
    }
  }

  /** Distinct identities have distinct text forms, so a map keyed by `String` holds one record per identity. */
  lemma StringInjective(u: UUID, v: UUID)
    ensures String(u) == String(v) ==> u == v
  {
    ParseOfString(u);
    ParseOfString(v);
  }

  /**
   * `GenerateUUID` (`uuid.New`): random bytes with the version set to 4 (high nibble
   * of byte 6) and the variant set to binary 10 (top bits of byte 8), section 5.4 of
   * RFC 9562. The random bytes are a parameter.
   */
  function GenerateUUID(random: UUID): (u: UUID)
    ensures u[6] / 16 == 4
    ensures u[8] / 64 == 2
    ensures forall i | 0 <= i < 16 && i != 6 && i != 8 :: u[i] == random[i]
    ensures u[6] % 16 == random[6] % 16 && u[8] % 64 == random[8] % 64
  {
    random[6 := 0x40 + random[6] % 16][8 := 0x80 + random[8] % 64]
  }

  /** `UUIDFromBytes` (`uuid.FromBytes`): exactly 16 bytes, kept as they are. */
  function UUIDFromBytes(bytes: seq<Byte>): (r: Result<UUID, UUIDError>)
    ensures r.Success? <==> |bytes| == 16
    ensures r.Success? ==> Bytes(r.value) == bytes && r.value == bytes
    ensures r.Failure? ==> r.error == InvalidByteCount(|bytes|)
  {
    if |bytes| == 16 then Success(bytes) else Failure(InvalidByteCount(|bytes|))
  }

  /** `UUIDFromString`: the empty string yields a freshly generated identity, anything else is parsed. */
  function UUIDFromString(id: string, random: UUID): (r: Result<UUID, UUIDError>)
    ensures id == "" ==> r == Success(GenerateUUID(random))
    ensures id != "" ==> r == Parse(id)
    ensures id != "" && IsCanonical(id) ==> r.Success? && String(r.value) == id
    ensures id != "" && |id| != 36 ==> r.Failure?
  {
    if id == "" then Success(GenerateUUID(random))
    else if IsCanonical(id) then
      StringOfParse(id);
      Parse(id)
    else
      Parse(id)
  }

  /** A non-canonical string such as "invalid-uuid-format" is rejected. */
  lemma RejectsInvalidFormat(random: UUID)
    ensures UUIDFromString("invalid-uuid-format", random).Failure?
  {
  }

  /** A 36-character string with its hyphens in place but a non-hex digit is a format error. */
  lemma RejectsNonHexDigit(random: UUID)
    ensures UUIDFromString("zzzzzzzz-0000-0000-0000-000000000000", random) == Failure(InvalidFormat)
  {
    var s := "zzzzzzzz-0000-0000-0000-000000000000";
    assert HexDigitValue(s[0]).None?;
  }

  /** `s` with the hexadecimal letters a-f in upper case. */
  function ToUpperHex(s: string): (t: string)
    ensures |t| == |s|
  {
    seq(|s|, i requires 0 <= i < |s| => if 'a' <= s[i] <= 'f' then ((s[i] as int) - 32) as char else s[i])
  }

  /** Upper-case digits are accepted and read as their values: the upper-case text form of an identity parses to it. */
  lemma ParseAcceptsUpperCase(u: UUID)
    ensures Parse(ToUpperHex(String(u))) == Success(u)
  {
    var s := String(u);
    var t := ToUpperHex(s);
    ParseOfString(u);
    assert t[8] == '-' && t[13] == '-' && t[18] == '-' && t[23] == '-';
    forall k | 0 <= k < 32 ensures HexDigitValue(Digits(t)[k]) == HexDigitValue(Digits(s)[k]) {
      DigitsAt(s, DigitPosition(k));
      DigitsAt(t, DigitPosition(k));
    }
    DecodeHexAgrees(Digits(t), Digits(s));
  }

  /** The round trip through the public constructors: `UUIDFromString(u.String())` returns `u`. */
  lemma UUIDFromStringOfString(u: UUID, random: UUID)
    ensures UUIDFromString(String(u), random) == Success(u)
  {
    StringIsCanonical(u);
    ParseOfString(u);
  }
}
