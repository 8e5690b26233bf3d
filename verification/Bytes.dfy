/** Bytes of guest and host memory, and the fixed little-endian layouts stored in them. */
module Bytes {
  type byte = b: int | 0 <= b < 256

  const TWO_31 := 0x8000_0000
  const TWO_32 := 0x1_0000_0000
  const TWO_64 := 0x1_0000_0000_0000_0000

  /** A value a host pointer or a `size_t` can hold. */
  type word64 = w: int | 0 <= w < 0x1_0000_0000_0000_0000

  type int32 = i: int | -0x8000_0000 <= i < 0x8000_0000

  /** A conversion to `int32_t`: the low 32 bits, read as a signed number. */
  function ToInt32(v: int): (r: int32)
    ensures -TWO_31 <= v < TWO_31 ==> r == v
    ensures v == TWO_64 - 1 ==> r == -1
  {
    var low := v % TWO_32;
    if low < TWO_31 then low else low - TWO_32
  }

  /** A conversion of an `int32_t` to `size_t`. */
  function ToSize(i: int): (r: word64)
    ensures -TWO_31 <= i < TWO_31 ==> (r == TWO_64 - 1 <==> i == -1)
  {
    i % TWO_64
  }

  function Pow256(n: nat): nat {
    if n == 0 then 1 else 256 * Pow256(n - 1)
  }

  function Encode(v: nat, n: nat): (r: seq<byte>)
    ensures |r| == n
  {
    if n == 0 then [] else [v % 256] + Encode(v / 256, n - 1)
  }

  function Decode(bs: seq<byte>): nat {
    if bs == [] then 0 else bs[0] + 256 * Decode(bs[1..])
  }

  lemma {:induction false} DecodeEncode(v: nat, n: nat)
    requires v < Pow256(n)
    ensures Decode(Encode(v, n)) == v
  {
    if n > 0 {
      assert v / 256 < Pow256(n - 1);
      DecodeEncode(v / 256, n - 1);
      assert Encode(v, n)[1..] == Encode(v / 256, n - 1);
    }
  }

  lemma {:induction false} DecodeBound(bs: seq<byte>)
    ensures Decode(bs) < Pow256(|bs|)
  {
    if bs != [] {
      DecodeBound(bs[1..]);
    }
  }

  lemma EightBytesHoldAWord()
    ensures Pow256(8) == TWO_64
  {
    assert Pow256(4) == TWO_32;
    assert Pow256(6) == 0x1_0000_0000_0000;
  }

  /** The 8 bytes at `a`, as a host pointer or `size_t`. */
  function LoadWord(m: seq<byte>, a: nat): (w: word64)
    requires a + 8 <= |m|
  {
    DecodeBound(m[a..a + 8]);
    EightBytesHoldAWord();
    Decode(m[a..a + 8])
  }

  /** The 4 bytes at `a`, as a guest `int32_t`. */
  function LoadInt32(m: seq<byte>, a: nat): int32
    requires a + 4 <= |m|
  {
    ToInt32(Decode(m[a..a + 4]))
  }

  /** A guest `int32_t` by its four bytes: the lowest comes first, and the top bit of the last is the sign. */
  lemma Int32Bytes(m: seq<byte>, a: nat)
    requires a + 4 <= |m|
    ensures
      var low: int := m[a] as int + 0x100 * (m[a + 1] as int) + 0x1_0000 * (m[a + 2] as int) + 0x100_0000 * (m[a + 3] as int);
      LoadInt32(m, a) == if m[a + 3] < 128 then low else low - 0x1_0000_0000
  {
    FourBytes(m[a..a + 4], 0);
    assert m[a..a + 4][0..] == m[a..a + 4] && m[a..a + 4][4..] == [];
  }

  /** A word by its eight bytes, the lowest first. */
  lemma WordBytes(m: seq<byte>, a: nat)
    requires a + 8 <= |m|
    ensures
      var low: int := m[a] as int + 0x100 * (m[a + 1] as int) + 0x1_0000 * (m[a + 2] as int) + 0x100_0000 * (m[a + 3] as int);
      var high: int := m[a + 4] as int + 0x100 * (m[a + 5] as int) + 0x1_0000 * (m[a + 6] as int) + 0x100_0000 * (m[a + 7] as int);
      LoadWord(m, a) == low + 0x1_0000_0000 * high
  {
    assert m[a..a + 8][0..] == m[a..a + 8];
    FourBytes(m[a..a + 8], 0);
    FourBytes(m[a..a + 8], 4);
    assert m[a..a + 8][8..] == [];
  }

  /** Decoding takes the lowest byte first. */
  lemma FourBytes(bs: seq<byte>, i: nat)
    requires i + 4 <= |bs|
    ensures Decode(bs[i..]) ==
      bs[i] as int + 0x100 * (bs[i + 1] as int) + 0x1_0000 * (bs[i + 2] as int) + 0x100_0000 * (bs[i + 3] as int) + 0x1_0000_0000 * Decode(bs[i + 4..])
  {
    assert bs[i..][1..] == bs[i + 1..] && bs[i + 1..][1..] == bs[i + 2..];
    assert bs[i + 2..][1..] == bs[i + 3..] && bs[i + 3..][1..] == bs[i + 4..];
    assert Decode(bs[i..]) == bs[i] + 256 * Decode(bs[i + 1..]);
    assert Decode(bs[i + 1..]) == bs[i + 1] + 256 * Decode(bs[i + 2..]);
    assert Decode(bs[i + 2..]) == bs[i + 2] + 256 * Decode(bs[i + 3..]);
    assert Decode(bs[i + 3..]) == bs[i + 3] + 256 * Decode(bs[i + 4..]);
  }

  /** The bytes a guest `int32_t` is stored as. */
  function EncodeInt32(v: int32): (bs: seq<byte>)
    ensures |bs| == 4
  {
    Encode(if v < 0 then v + TWO_32 else v, 4)
  }

  /** Every `int32_t` reads back from its bytes. */
  lemma Int32RoundTrip(m: seq<byte>, a: nat, v: int32)
    requires a + 4 <= |m|
    ensures LoadInt32(Overwrite(m, a, EncodeInt32(v)), a) == v
  {
    var u := if v < 0 then v + TWO_32 else v;
    assert Pow256(4) == TWO_32;
    DecodeEncode(u, 4);
    assert Overwrite(m, a, EncodeInt32(v))[a..a + 4] == EncodeInt32(v);
  }

  /** A conversion to `int32_t` keeps the value up to a multiple of 2^32. */
  lemma ToInt32Means(v: int)
    ensures (v - ToInt32(v)) % 0x1_0000_0000 == 0
  {
  }

  /** `m` with `bs` written at `a`. */
  function Overwrite(m: seq<byte>, a: nat, bs: seq<byte>): (r: seq<byte>)
    requires a + |bs| <= |m|
    ensures |r| == |m|
  {
    m[..a] + bs + m[a + |bs|..]
  }

  function StoreWord(m: seq<byte>, a: nat, w: word64): (r: seq<byte>)
    requires a + 8 <= |m|
    ensures |r| == |m|
  {
    Overwrite(m, a, Encode(w, 8))
  }

  /** A stored word reads back, and words that do not overlap it keep their value. */
  lemma LoadStoreWord(m: seq<byte>, a: nat, w: word64)
    requires a + 8 <= |m|
    ensures LoadWord(StoreWord(m, a, w), a) == w
    ensures forall o: nat :: o + 8 <= a ==> LoadWord(StoreWord(m, a, w), o) == LoadWord(m, o)
    ensures forall o: nat :: a + 8 <= o && o + 8 <= |m| ==> LoadWord(StoreWord(m, a, w), o) == LoadWord(m, o)
  {
    var r := StoreWord(m, a, w);
    EightBytesHoldAWord();
    DecodeEncode(w, 8);
    assert r[a..a + 8] == Encode(w, 8);
    forall o: nat | o + 8 <= |m| && (o + 8 <= a || a + 8 <= o)
      ensures LoadWord(r, o) == LoadWord(m, o)
    {
      assert r[o..o + 8] == m[o..o + 8];
    }
  }

  /** The copy loop behind every pointer store into a byte buffer. */
  method WriteBytes(buffer: array<byte>, a: nat, bs: seq<byte>)
    requires a + |bs| <= buffer.Length
    modifies buffer
    ensures buffer[..] == Overwrite(old(buffer[..]), a, bs)
  {
    for i := 0 to |bs|
      invariant forall j :: 0 <= j < buffer.Length ==>
        buffer[j] == if a <= j < a + i then bs[j - a] else old(buffer[j])
    {
      buffer[a + i] := bs[i];
    }
    assert buffer[..] == Overwrite(old(buffer[..]), a, bs);
  }
}
