/**
 * The canonical string form of a java.util.UUID (the layout of section 3 of RFC 4122):
 * time_low "-" time_mid "-" time_hi_and_version "-" clock_seq "-" node, as lower-case,
 * zero-padded hexadecimal digits. The service code is built from its first eight characters.
 */
module Uuids {

  const TWO_32: nat := 0x1_0000_0000

  type Word64 = n: nat | n < 0x1_0000_0000_0000_0000

  /** A UUID as Java holds it: its two 64-bit halves, read as unsigned bit patterns. */
  datatype Uuid = Uuid(mostSigBits: Word64, leastSigBits: Word64)

  predicate IsHexDigit(ch: char) {
    '0' <= ch <= '9' || 'a' <= ch <= 'f'
  }

  function DigitValue(ch: char): (d: nat)
    requires IsHexDigit(ch)
    ensures d < 16
  {
    if ch <= '9' then (ch - '0') as nat else (ch - 'a') as nat + 10
  }

  /** The lower-case hexadecimal digit of value `d`. */
  function Digit(d: nat): (ch: char)
    requires d < 16
    ensures IsHexDigit(ch) && DigitValue(ch) == d
  {
    if d < 10 then (d + 48) as char else (d - 10 + 97) as char
  }

  function Pow16(k: nat): (p: nat)
    ensures p >= 1
  {
    if k == 0 then 1 else 16 * Pow16(k - 1)
  }

  /**
   * The `width` low-order hexadecimal digits of `n`, most significant first, zero padded:
   * what UUID.toString's digit helper produces for one field.
   */
  function Hex(n: nat, width: nat): (s: string)
    ensures |s| == width
    ensures forall i :: 0 <= i < |s| ==> IsHexDigit(s[i])
  {
    if width == 0 then "" else Hex(n / 16, width - 1) + [Digit(n % 16)]
  }

  /** The value of a string of hexadecimal digits, most significant first. */
  function ParseHex(s: string): (n: nat)
    requires forall i :: 0 <= i < |s| ==> IsHexDigit(s[i])
    ensures n < Pow16(|s|)
  {
    if s == [] then 0 else 16 * ParseHex(s[..|s| - 1]) + DigitValue(s[|s| - 1])
  }

  lemma {:induction false} HexRoundTrip(n: nat, width: nat)
    requires n < Pow16(width)
    ensures ParseHex(Hex(n, width)) == n
  {
    if width > 0 {
      var s := Hex(n, width);
      assert s[..|s| - 1] == Hex(n / 16, width - 1);
      assert n / 16 < Pow16(width - 1);
      HexRoundTrip(n / 16, width - 1);
    }
  }

  function ToString(u: Uuid): (s: string)
    ensures |s| == 36
    ensures s[8] == s[13] == s[18] == s[23] == '-'
  {
    Hex(u.mostSigBits / TWO_32, 8) + "-" + Hex(u.mostSigBits / 0x1_0000, 4) + "-"
    + Hex(u.mostSigBits, 4) + "-" + Hex(u.leastSigBits / 0x1_0000_0000_0000, 4) + "-"
    + Hex(u.leastSigBits, 12)
  }

  /** The time_low field: the high 32 bits of the most significant half. */
  function TimeLow(u: Uuid): (t: nat)
    ensures t < TWO_32
  {
    u.mostSigBits / TWO_32
  }

  /** The first eight characters of the canonical form are the digits of time_low, and nothing else. */
  lemma TimeLowPrefix(u: Uuid)
    ensures ToString(u)[..8] == Hex(TimeLow(u), 8)
    ensures ParseHex(ToString(u)[..8]) == TimeLow(u)
  {
    var h := Hex(u.mostSigBits / TWO_32, 8);
    var rest := "-" + Hex(u.mostSigBits / 0x1_0000, 4) + "-"
    + Hex(u.mostSigBits, 4) + "-" + Hex(u.leastSigBits / 0x1_0000_0000_0000, 4) + "-"
    + Hex(u.leastSigBits, 12);
    assert ToString(u) == h + rest;
    assert Pow16(8) == TWO_32;
    HexRoundTrip(TimeLow(u), 8);
  }
}
