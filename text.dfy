/**
 * The two text encodings the core prints: decimal (`%d`) for indices and counts,
 * and lower-case hexadecimal (`%x`) for byte strings. Each comes with the decoder
 * that inverts it, which is how injectivity of the printed names is proved.
 */
module Text {
  import opened GoValues
  import opened Wrappers

  predicate IsDecimalDigit(c: char) {
    '0' <= c <= '9'
  }

  function DecimalDigit(d: nat): (c: char)
    requires d < 10
    ensures IsDecimalDigit(c)
  {
    (('0' as int) + d) as char
  }

  /** `%d` of a non-negative integer: no sign, no leading zeros. */
  function NatToString(n: nat): (s: string)
    ensures |s| >= 1
    ensures forall i | 0 <= i < |s| :: IsDecimalDigit(s[i])
    ensures s[0] == '0' ==> n == 0
  {
    if n < 10 then [DecimalDigit(n)] else NatToString(n / 10) + [DecimalDigit(n % 10)]
  }

  /** Reads a string of decimal digits back as a number. */
  function DecimalValue(s: string): nat
    requires forall i | 0 <= i < |s| :: IsDecimalDigit(s[i])
  {
    if s == [] then 0 else 10 * DecimalValue(s[..|s| - 1]) + DecimalDigitValue(s[|s| - 1])
  }

  function DecimalDigitValue(c: char): (d: nat)
    requires IsDecimalDigit(c)
    ensures d < 10
  {
    (c as int) - ('0' as int)
  }

  lemma {:induction false} DecimalValueOfNatToString(n: nat)
    ensures DecimalValue(NatToString(n)) == n
  {
    var s := NatToString(n);
    if n >= 10 {
      DecimalValueOfNatToString(n / 10);
      assert s[..|s| - 1] == NatToString(n / 10);
    }
  }

  /** Distinct numbers print differently, so index-derived names never collide. */
  lemma NatToStringInjective(m: nat, n: nat)
    ensures NatToString(m) == NatToString(n) ==> m == n
  {
    DecimalValueOfNatToString(m);
    DecimalValueOfNatToString(n);
  }

  predicate IsLowerHexDigit(c: char) {
    '0' <= c <= '9' || 'a' <= c <= 'f'
  }

  function HexDigit(d: nat): (c: char)
    requires d < 16
    ensures IsLowerHexDigit(c)
  {
    if d < 10 then (('0' as int) + d) as char else (('a' as int) + d - 10) as char
  }

  /** The value of one hexadecimal digit, in either case; None for any other character. */
  function HexDigitValue(c: char): (r: Option<nat>)
    ensures r.Some? ==> r.value < 16
  {
    if '0' <= c <= '9' then Some((c as int) - ('0' as int))
    else if 'a' <= c <= 'f' then Some((c as int) - ('a' as int) + 10)
    else if 'A' <= c <= 'F' then Some((c as int) - ('A' as int) + 10)
    else None
  }

  /** `%x` of a byte string: two lower-case digits per byte, high nibble first. */
  function Hex(bs: seq<Byte>): (s: string)
    ensures |s| == 2 * |bs|
    ensures forall i | 0 <= i < |s| :: IsLowerHexDigit(s[i])
  {
    if bs == [] then [] else [HexDigit(bs[0] / 16), HexDigit(bs[0] % 16)] + Hex(bs[1..])
  }

  /** Decodes pairs of hexadecimal digits (either case) into bytes; None on any other character. */
  function DecodeHex(s: string): Option<seq<Byte>>
    requires |s| % 2 == 0
  {
    if s == [] then Some([])
    else
      var hi := HexDigitValue(s[0]);
      var lo := HexDigitValue(s[1]);
      if hi.None? || lo.None? then None
      else
        match DecodeHex(s[2..])
        case None => None
        case Some(rest) => Some([(16 * hi.value + lo.value) as Byte] + rest)
  }

  lemma HexDigitValueOfHexDigit(d: nat)
    requires d < 16
    ensures HexDigitValue(HexDigit(d)) == Some(d)
  {
  }

  /** Digit `d` of the hex form: the high nibble of byte `d / 2` for even `d`, the low one for odd `d`. */
  lemma {:induction false} HexIndex(bs: seq<Byte>, d: int)
    requires 0 <= d < 2 * |bs|
    ensures Hex(bs)[d] == if d % 2 == 0 then HexDigit(bs[d / 2] / 16) else HexDigit(bs[d / 2] % 16)
  {
    if d >= 2 {
      HexIndex(bs[1..], d - 2);
      assert bs[1..][(d - 2) / 2] == bs[d / 2];
    }
  }

  lemma {:induction false} DecodeHexOfHex(bs: seq<Byte>)
    ensures DecodeHex(Hex(bs)) == Some(bs)
  {
    if bs != [] {
      var s := Hex(bs);
      assert s[2..] == Hex(bs[1..]);
      HexDigitValueOfHexDigit(bs[0] / 16);
      HexDigitValueOfHexDigit(bs[0] % 16);
      DecodeHexOfHex(bs[1..]);
      assert [bs[0]] + bs[1..] == bs;
    }
  }

  /** A string of lower-case digits is exactly the hex of what it decodes to. */
  lemma {:induction false} HexOfDecodeHex(s: string)
    requires |s| % 2 == 0
    requires forall i | 0 <= i < |s| :: IsLowerHexDigit(s[i])
    ensures DecodeHex(s).Some? && Hex(DecodeHex(s).value) == s
  {
    if s != [] {
      HexDigitOfValue(s[0]);
      HexDigitOfValue(s[1]);
      var hi := HexDigitValue(s[0]).value;
      var lo := HexDigitValue(s[1]).value;
      ByteNibbles(hi, lo);
      HexOfDecodeHex(s[2..]);
      assert s == [s[0], s[1]] + s[2..];
    }
  }

  /**
   * A digit string decodes exactly when every character is a hexadecimal digit (of
   * either case), and then byte i is the value of digits 2i and 2i + 1.
   */
  lemma {:induction false} DecodeHexDigits(s: string)
    requires |s| % 2 == 0
    ensures DecodeHex(s).Some? <==> forall i | 0 <= i < |s| :: HexDigitValue(s[i]).Some?
    ensures DecodeHex(s).Some? ==> 2 * |DecodeHex(s).value| == |s| && forall i | 0 <= i < |s| / 2 ::
      && HexDigitValue(s[2 * i]).Some? && HexDigitValue(s[2 * i + 1]).Some?
      && DecodeHex(s).value[i] == 16 * HexDigitValue(s[2 * i]).value + HexDigitValue(s[2 * i + 1]).value
  {
    if s != [] {
      var t := s[2..];
      DecodeHexDigits(t);
      if forall i | 0 <= i < |s| :: HexDigitValue(s[i]).Some? {
        forall j | 0 <= j < |t| ensures HexDigitValue(t[j]).Some? {
          assert t[j] == s[j + 2];
        }
      } else {
        var i :| 0 <= i < |s| && HexDigitValue(s[i]).None?;
        if i >= 2 {
          assert t[i - 2] == s[i];
        }
      }
      if DecodeHex(s).Some? {
        var bs := DecodeHex(s).value;
        var rest := DecodeHex(t).value;
        assert bs == [bs[0]] + rest;
        forall i | 1 <= i < |s| / 2
          ensures s[2 * i] == t[2 * (i - 1)] && s[2 * i + 1] == t[2 * (i - 1) + 1] && bs[i] == rest[i - 1]
        {
        }
      }
    }
  }

  /** Decoding reads only digit values, so strings whose digits have equal values decode alike. */
  lemma {:induction false} DecodeHexAgrees(a: string, b: string)
    requires |a| == |b| && |a| % 2 == 0
    requires forall i | 0 <= i < |a| :: HexDigitValue(a[i]) == HexDigitValue(b[i])
    ensures DecodeHex(a) == DecodeHex(b)
  {
    if a != [] {
      forall i | 0 <= i < |a| - 2 ensures HexDigitValue(a[2..][i]) == HexDigitValue(b[2..][i]) {
        assert a[2..][i] == a[i + 2] && b[2..][i] == b[i + 2];
      }
      DecodeHexAgrees(a[2..], b[2..]);
    }
  }

  /** A lower-case digit is the hex digit of its value. */
  lemma HexDigitOfValue(c: char)
    requires IsLowerHexDigit(c)
    ensures HexDigitValue(c).Some? && HexDigit(HexDigitValue(c).value) == c
  {
  }

  /** The byte built from two nibbles has them as its high and low halves. */
  lemma ByteNibbles(hi: nat, lo: nat)
    requires hi < 16 && lo < 16
    ensures 0 <= 16 * hi + lo < 256
    ensures (16 * hi + lo) / 16 == hi && (16 * hi + lo) % 16 == lo
  {
  }

  lemma HexInjective(a: seq<Byte>, b: seq<Byte>)
    ensures Hex(a) == Hex(b) ==> a == b
  {
    DecodeHexOfHex(a);
    DecodeHexOfHex(b);
  }
}
