/**
 * `coerce_into_u64`: reads the first eight bytes of a slice as a big-endian
 * u64, the layout of the ids the alias store keeps (`u64::to_be_bytes`),
 * and falls back to 0 for a slice that is too short.
 */
module Util {
  import opened Primitives

  const U64_WIDTH: nat := 8

  function Pow256(n: nat): (p: nat)
    ensures p > 0
  {
    if n == 0 then 1 else 256 * Pow256(n - 1)
  }

  /** The big-endian value of `bs`: the first byte is the most significant. */
  function BigEndian(bs: seq<u8>): nat
    decreases |bs|
  {
    if |bs| == 0 then 0 else BigEndian(bs[..|bs| - 1]) * 256 + bs[|bs| - 1]
  }

  lemma {:induction false} BigEndianBound(bs: seq<u8>)
    ensures BigEndian(bs) < Pow256(|bs|)
    decreases |bs|
  {
    if |bs| > 0 {
      BigEndianBound(bs[..|bs| - 1]);
    }
  }

  lemma Pow256Width()
    ensures Pow256(U64_WIDTH) == U64_BOUND
  {
  }

  /** What `coerce_into_u64` returns for `slice`. */
  function Coerce(slice: seq<u8>): (r: nat)
    ensures r < U64_BOUND
  {
    if |slice| < U64_WIDTH then 0
    else
      BigEndianBound(slice[..U64_WIDTH]);
      Pow256Width();
      BigEndian(slice[..U64_WIDTH])
  }

  /** The `n` big-endian bytes of `x` (`to_be_bytes` for n == 8). */
  function BeBytes(x: nat, n: nat): (bs: seq<u8>)
    requires x < Pow256(n)
    ensures |bs| == n
    decreases n
  {
    if n == 0 then [] else BeBytes(x / 256, n - 1) + [x % 256]
  }

  function ToBeBytes(x: u64): (bs: seq<u8>)
    ensures |bs| == U64_WIDTH
  {
    Pow256Width();
    BeBytes(x, U64_WIDTH)
  }

  method CoerceIntoU64(slice: seq<u8>) returns (r: u64)
    ensures r == Coerce(slice)
  {
    if |slice| < U64_WIDTH {
      return 0;
    }
    var buf := new u8[U64_WIDTH](_ => 0);
    // copy_from_slice
    var i := 0;
    while i < U64_WIDTH
      invariant 0 <= i <= U64_WIDTH
      invariant buf[..i] == slice[..i]
    {
      buf[i] := slice[i];
      i := i + 1;
    }
    assert buf[..] == slice[..U64_WIDTH];
    // from_be_bytes
    var acc: nat := 0;
    var j := 0;
    while j < U64_WIDTH
      invariant 0 <= j <= U64_WIDTH
      invariant acc == BigEndian(buf[..j])
    {
      assert buf[..j + 1][..j] == buf[..j];
      acc := acc * 256 + buf[j];
      j := j + 1;
    }
    assert buf[..j] == buf[..];
    assert acc == Coerce(slice);
    r := acc;
  }

  // ------------------------------------------------------------ properties

  /** Any slice shorter than eight bytes decodes to 0. */
  lemma CoerceShort(slice: seq<u8>)
    requires |slice| < U64_WIDTH
    ensures Coerce(slice) == 0
  {
  }

  /** Only the first eight bytes are read. */
  lemma CoercePrefix(a: seq<u8>, b: seq<u8>)
    requires |a| >= U64_WIDTH && |b| >= U64_WIDTH
    requires a[..U64_WIDTH] == b[..U64_WIDTH]
    ensures Coerce(a) == Coerce(b)
  {
  }

  /** The decoded value is the eight leading bytes weighted by descending powers of 256. */
  lemma CoerceWeights(s: seq<u8>)
    requires |s| >= U64_WIDTH
    ensures Coerce(s) == (s[0] as int) * 0x100_0000_0000_0000 + (s[1] as int) * 0x1_0000_0000_0000
                       + (s[2] as int) * 0x100_0000_0000 + (s[3] as int) * 0x1_0000_0000 + (s[4] as int) * 0x100_0000
                       + (s[5] as int) * 0x1_0000 + (s[6] as int) * 0x100 + (s[7] as int)
  {
    var p := s[..U64_WIDTH];
    assert p[..7][..6] == p[..6] && p[..6][..5] == p[..5] && p[..5][..4] == p[..4];
    assert p[..4][..3] == p[..3] && p[..3][..2] == p[..2] && p[..2][..1] == p[..1] && p[..1][..0] == [];
    assert BigEndian(p[..1]) == (s[0] as int);
    assert BigEndian(p[..2]) == (s[0] as int) * 0x100 + (s[1] as int);
    assert BigEndian(p[..3]) == (s[0] as int) * 0x1_0000 + (s[1] as int) * 0x100 + (s[2] as int);
    assert BigEndian(p[..4]) == (s[0] as int) * 0x100_0000 + (s[1] as int) * 0x1_0000 + (s[2] as int) * 0x100 + (s[3] as int);
    assert BigEndian(p[..5]) == BigEndian(p[..4]) * 0x100 + (s[4] as int);
    assert BigEndian(p[..6]) == BigEndian(p[..5]) * 0x100 + (s[5] as int);
    assert BigEndian(p[..7]) == BigEndian(p[..6]) * 0x100 + (s[6] as int);
    assert BigEndian(p) == BigEndian(p[..7]) * 0x100 + (s[7] as int);
  }

  lemma {:induction false} BeBytesRoundTrip(x: nat, n: nat)
    requires x < Pow256(n)
    ensures BigEndian(BeBytes(x, n)) == x
    decreases n
  {
    if n > 0 {
      var bs := BeBytes(x, n);
      assert bs[..|bs| - 1] == BeBytes(x / 256, n - 1);
      BeBytesRoundTrip(x / 256, n - 1);
    }
  }

  /** Decoding the eight big-endian bytes of any u64 gives it back. */
  lemma CoerceRoundTrip(x: u64)
    ensures Coerce(ToBeBytes(x)) == x
  {
    Pow256Width();
    var bs := ToBeBytes(x);
    assert bs[..U64_WIDTH] == bs;
    BeBytesRoundTrip(x, U64_WIDTH);
  }

  lemma {:induction false} BigEndianZeros(bs: seq<u8>)
    requires forall i | 0 <= i < |bs| :: bs[i] == 0
    ensures BigEndian(bs) == 0
    decreases |bs|
  {
    if |bs| > 0 {
      BigEndianZeros(bs[..|bs| - 1]);
    }
  }

  /** A short slice cannot be told apart from a stored zero. */
  lemma CoerceFallbackIsZero(short: seq<u8>, zeros: seq<u8>)
    requires |short| < U64_WIDTH
    requires |zeros| == U64_WIDTH && forall i | 0 <= i < |zeros| :: zeros[i] == 0
    ensures Coerce(short) == Coerce(zeros) == 0
  {
    assert zeros[..U64_WIDTH] == zeros;
    BigEndianZeros(zeros);
  }
}
