/** Go's fixed-width integers and the little-endian byte order of `encoding/binary`,
    as used by `Roll` (backend/main.go) and `GenerateID` (backend/util.go). */
module Binary {

  const TWO_63: int := 0x8000_0000_0000_0000
  const TWO_64: int := 0x1_0000_0000_0000_0000

  type byte = x: int | 0 <= x < 256
  type u16 = x: int | 0 <= x < 0x1_0000
  type u64 = x: int | 0 <= x < 0x1_0000_0000_0000_0000
  type i64 = x: int | -0x8000_0000_0000_0000 <= x < 0x8000_0000_0000_0000

  /** Go's conversion `int64(x)`: two's-complement wrap-around into the int64 range. */
  function ToI64(x: int): (r: i64)
    ensures -TWO_63 <= x < TWO_63 ==> r == x
    ensures (r - x) % TWO_64 == 0
  {
    (x + TWO_63) % TWO_64 - TWO_63
  }

  function Pow256(n: nat): (r: nat)
    ensures r > 0
  {
    if n == 0 then 1 else 256 * Pow256(n - 1)
  }

  lemma Pow256Eight()
    ensures Pow256(8) == TWO_64
  {
    assert Pow256(1) == 256;
    assert Pow256(2) == 0x1_0000;
    assert Pow256(3) == 0x100_0000;
    assert Pow256(4) == 0x1_0000_0000;
    assert Pow256(5) == 0x100_0000_0000;
    assert Pow256(6) == 0x1_0000_0000_0000;
    assert Pow256(7) == 0x100_0000_0000_0000;
  }

  /** The number whose little-endian encoding is `s` (least significant byte first). */
  function LeValue(s: seq<byte>): (v: nat)
    ensures v < Pow256(|s|)
  {
    if s == [] then 0
    else
      var rest := LeValue(s[1..]);
      assert 256 * rest <= 256 * (Pow256(|s| - 1) - 1);
      s[0] + 256 * rest
  }

  /** The `n`-byte little-endian encoding of `v`. */
  function LeBytes(v: nat, n: nat): (s: seq<byte>)
    requires v < Pow256(n)
    ensures |s| == n
  {
    if n == 0 then [] else [v % 256] + LeBytes(v / 256, n - 1)
  }

  /** Decoding an encoding gives the number back. */
  lemma {:induction false} LeValueOfBytes(v: nat, n: nat)
    requires v < Pow256(n)
    ensures LeValue(LeBytes(v, n)) == v
  {
    if n > 0 {
      LeValueOfBytes(v / 256, n - 1);
      assert LeBytes(v, n)[1..] == LeBytes(v / 256, n - 1);
    }
  }

  /** Encoding a decoded byte string gives the bytes back. */
  lemma {:induction false} LeBytesOfValue(s: seq<byte>)
    ensures LeBytes(LeValue(s), |s|) == s
  {
    if s != [] {
      LeBytesOfValue(s[1..]);
      assert (s[0] + 256 * LeValue(s[1..])) / 256 == LeValue(s[1..]);
    }
  }

  /** `binary.LittleEndian.Uint64`: the number whose eight-byte little-endian
      encoding is `s`. */
  function Uint64(s: seq<byte>): (v: u64)
    requires |s| == 8
    ensures LeBytes(v, 8) == s
  {
    Pow256Eight();
    LeBytesOfValue(s);
    LeValue(s)
  }

  /** `binary.LittleEndian.PutUint64(a[off:], v)`: writes the eight bytes of `v`
      into `a[off..off+8]` and nothing else. */
  method PutUint64(a: array<byte>, off: nat, v: u64)
    requires off + 8 <= a.Length
    modifies a
    ensures a[..] == old(a[..off]) + LeBytes(v, 8) + old(a[off + 8..])
  {
    Pow256Eight();
    var w: nat := v;
    for i := 0 to 8
      invariant w < Pow256(8 - i)
      invariant LeBytes(v, 8) == a[off..off + i] + LeBytes(w, 8 - i)
      invariant a[..off] == old(a[..off]) && a[off + 8..] == old(a[off + 8..])
    {
      assert LeBytes(w, 8 - i) == [w % 256] + LeBytes(w / 256, 8 - i - 1);
      a[off + i] := w % 256;
      assert a[off..off + i + 1] == a[off..off + i] + [w % 256];
      w := w / 256;
    }
    assert a[..] == a[..off] + a[off..off + 8] + a[off + 8..];
  }
}
