/** The client-seed encoder of frontend/public/index.js: each random byte
    becomes two lowercase hexadecimal digits, low nibble first.  The random
    bytes are a parameter. */
module ClientSeed {
  import opened Binary

  const CLIENT_SEED_BYTES: nat := 16

  /** A lowercase hexadecimal digit, [0-9a-f]. */
  predicate IsHexDigit(c: char)
  {
    '0' <= c <= '9' || 'a' <= c <= 'f'
  }

  /** The digit for a nibble: '0'..'9' from code 48, 'a'..'f' from code 97. */
  function HexDigit(v: nat): (c: char)
    requires v < 16
    ensures IsHexDigit(c)
    ensures v <= 9 ==> c as int == 48 + v
    ensures v >= 10 ==> c as int == 97 + (v - 10)
  {
    if v <= 9 then (48 + v) as char else (97 + (v - 10)) as char
  }

  /** The inverse of `HexDigit` on its image. */
  function DigitValue(c: char): nat
  {
    if '0' <= c <= '9' then c as int - 48
    else if 'a' <= c <= 'f' then c as int - 97 + 10
    else 0
  }

  /** The loop's output, defined by appending one byte's two digits at a time. */
  function HexLowFirst(bytes: seq<byte>): string
  {
    if |bytes| == 0 then ""
    else
      var b := bytes[|bytes| - 1];
      HexLowFirst(bytes[..|bytes| - 1]) + [HexDigit(b % 16), HexDigit(b / 16)]
  }

  /** Reads two digits per byte, low nibble first, from the end. */
  function DecodeLowFirst(hex: string): seq<byte>
  {
    if |hex| < 2 then []
    else
      var v := DigitValue(hex[|hex| - 2]) + 16 * DigitValue(hex[|hex| - 1]);
      DecodeLowFirst(hex[..|hex| - 2]) + [if v < 256 then v else 0]
  }

  /** The loop itself: for each byte, the nibbles `b & 0xf` and `b >> 4`
      in that order, each appended as a digit. */
  method ClientSeedHex(bytes: seq<byte>) returns (hex: string)
    ensures hex == HexLowFirst(bytes)
  {
    hex := "";
    var i := 0;
    while i < |bytes|
      invariant 0 <= i <= |bytes|
      invariant hex == HexLowFirst(bytes[..i])
    {
      var b := bytes[i];
      var nibbles := [b % 16, b / 16];
      ghost var before := hex;
      for j := 0 to 2
        invariant j == 0 ==> hex == before
        invariant j == 1 ==> hex == before + [HexDigit(nibbles[0])]
        invariant j == 2 ==> hex == before + [HexDigit(nibbles[0]), HexDigit(nibbles[1])]
      {
        var v := nibbles[j];
        if 0 <= v <= 9 {
          hex := hex + [(48 + v) as char];
        } else if 10 <= v <= 15 {
          hex := hex + [(97 + (v - 10)) as char];
        }
      }
      assert bytes[..i + 1][..i] == bytes[..i];
      assert bytes[..i + 1][i] == b;
      assert hex == HexLowFirst(bytes[..i]) + [HexDigit(b % 16), HexDigit(b / 16)];
      i := i + 1;
    }
    assert bytes[..i] == bytes;
  }

  /** Two characters per byte, so 16 bytes give 32. */
  lemma {:induction false} HexLength(bytes: seq<byte>)
    ensures |HexLowFirst(bytes)| == 2 * |bytes|
    decreases |bytes|
  {
    if |bytes| > 0 {
      HexLength(bytes[..|bytes| - 1]);
    }
  }

  /** Byte `i` occupies characters 2i (low nibble) and 2i+1 (high nibble). */
  lemma {:induction false} HexLayout(bytes: seq<byte>, i: nat)
    requires i < |bytes|
    ensures |HexLowFirst(bytes)| == 2 * |bytes|
    ensures HexLowFirst(bytes)[2 * i] == HexDigit(bytes[i] % 16)
    ensures HexLowFirst(bytes)[2 * i + 1] == HexDigit(bytes[i] / 16)
    decreases |bytes|
  {
    HexLength(bytes);
    var init := bytes[..|bytes| - 1];
    HexLength(init);
    if i < |bytes| - 1 {
      HexLayout(init, i);
    }
  }

  /** Every character is a lowercase hexadecimal digit. */
  lemma HexAlphabet(bytes: seq<byte>)
    ensures forall k :: 0 <= k < |HexLowFirst(bytes)| ==> IsHexDigit(HexLowFirst(bytes)[k])
  {
    HexLength(bytes);
    forall k | 0 <= k < |HexLowFirst(bytes)|
      ensures IsHexDigit(HexLowFirst(bytes)[k])
    {
      HexLayout(bytes, k / 2);
    }
  }

  lemma DigitRoundTrip(v: nat)
    requires v < 16
    ensures DigitValue(HexDigit(v)) == v
  {
  }

  /** Decoding reads the last two digits as the last byte. */
  lemma DecodeLastPair(prefix: string, lo: char, hi: char)
    requires DigitValue(lo) < 16 && DigitValue(hi) < 16
    ensures DecodeLowFirst(prefix + [lo, hi]) == DecodeLowFirst(prefix) + [DigitValue(lo) + 16 * DigitValue(hi)]
  {
    var hex := prefix + [lo, hi];
    assert hex[..|hex| - 2] == prefix;
    assert hex[|hex| - 2] == lo && hex[|hex| - 1] == hi;
  }

  /** Reading the digits back, low nibble first, recovers the bytes. */
  lemma {:induction false} HexRoundTrip(bytes: seq<byte>)
    ensures DecodeLowFirst(HexLowFirst(bytes)) == bytes
    decreases |bytes|
  {
    if |bytes| > 0 {
      var init := bytes[..|bytes| - 1];
      var b := bytes[|bytes| - 1];
      HexRoundTrip(init);
      DigitRoundTrip(b % 16);
      DigitRoundTrip(b / 16);
      var lo, hi := HexDigit(b % 16), HexDigit(b / 16);
      assert HexLowFirst(bytes) == HexLowFirst(init) + [lo, hi];
      DecodeLastPair(HexLowFirst(init), lo, hi);
      assert DigitValue(lo) + 16 * DigitValue(hi) == b;
      assert DecodeLowFirst(HexLowFirst(bytes)) == init + [b];
      assert init + [b] == bytes;
    }
  }

  /** The seed the page sends: 16 bytes become 32 digits. */
  lemma SeedLength(bytes: seq<byte>)
    requires |bytes| == CLIENT_SEED_BYTES
    ensures |HexLowFirst(bytes)| == 32
  {
    HexLength(bytes);
  }
}
