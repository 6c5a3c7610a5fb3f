/**
 * Fixed-width integers and their big-endian (network order) encoding, as the
 * IntField (signed 32-bit), BitField, ShortField and ByteField (unsigned)
 * fields of a scapy packet pack them.
 */
module Wire {

  type bit = x: nat | x < 2
  type u6 = x: nat | x < 0x40
  type u8 = x: nat | x < 0x100
  type u16 = x: nat | x < 0x1_0000
  type u32 = x: nat | x < 0x1_0000_0000
  type i32 = x: int | -0x8000_0000 <= x < 0x8000_0000

  /** 256^n: the number of values an n-byte field can hold. */
  function Pow256(n: nat): (p: nat)
    ensures p >= 1
  {
    if n == 0 then 1 else 0x100 * Pow256(n - 1)
  }

  /** The low 32 bits of `v`: what a 32-bit BitField keeps of a wider value. */
  function LowBits32(v: nat): (r: u32)
    ensures r <= v && (v - r) % 0x1_0000_0000 == 0
    ensures v < 0x1_0000_0000 ==> r == v
  {
    v % 0x1_0000_0000
  }

  /** `v` written as `n` bytes, most significant byte first. */
  function ToBigEndian(v: nat, n: nat): (r: seq<u8>)
    ensures |r| == n
  {
    if n == 0 then [] else ToBigEndian(v / 0x100, n - 1) + [v % 0x100]
  }

  /** The unsigned value of a big-endian byte string. */
  function FromBigEndian(s: seq<u8>): (v: nat)
    ensures v < Pow256(|s|)
  {
    if s == [] then 0 else FromBigEndian(s[..|s| - 1]) * 0x100 + s[|s| - 1]
  }

  lemma {:induction false} FromToBigEndian(v: nat, n: nat)
    requires v < Pow256(n)
    ensures FromBigEndian(ToBigEndian(v, n)) == v
  {
    if n > 0 {
      var s := ToBigEndian(v, n);
      assert s[..|s| - 1] == ToBigEndian(v / 0x100, n - 1);
      FromToBigEndian(v / 0x100, n - 1);
    }
  }

  lemma {:induction false} ToFromBigEndian(s: seq<u8>)
    ensures ToBigEndian(FromBigEndian(s), |s|) == s
  {
    if s != [] {
      var init := s[..|s| - 1];
      var v := FromBigEndian(s);
      assert v / 0x100 == FromBigEndian(init) && v % 0x100 == s[|s| - 1];
      ToFromBigEndian(init);
      assert s == init + [s[|s| - 1]];
    }
  }

  /** A 32-bit field: four bytes, most significant first. */
  function U32Bytes(v: u32): (r: seq<u8>)
    ensures |r| == 4
  {
    ToBigEndian(v, 4)
  }

  /** A 16-bit field: two bytes, most significant first. */
  function U16Bytes(v: u16): (r: seq<u8>)
    ensures |r| == 2
  {
    ToBigEndian(v, 2)
  }

  function U32Of(s: seq<u8>): u32
    requires |s| == 4
  {
    assert Pow256(4) == 0x1_0000_0000;
    FromBigEndian(s)
  }

  function U16Of(s: seq<u8>): u16
    requires |s| == 2
  {
    assert Pow256(2) == 0x1_0000;
    FromBigEndian(s)
  }

  lemma U32RoundTrip(v: u32)
    ensures U32Of(U32Bytes(v)) == v
  {
    assert Pow256(4) == 0x1_0000_0000;
    FromToBigEndian(v, 4);
  }

  lemma U32Canonical(s: seq<u8>)
    requires |s| == 4
    ensures U32Bytes(U32Of(s)) == s
  {
    ToFromBigEndian(s);
  }

  lemma U16RoundTrip(v: u16)
    ensures U16Of(U16Bytes(v)) == v
  {
    assert Pow256(2) == 0x1_0000;
    FromToBigEndian(v, 2);
  }

  lemma U16Canonical(s: seq<u8>)
    requires |s| == 2
    ensures U16Bytes(U16Of(s)) == s
  {
    ToFromBigEndian(s);
  }

  /** The 32-bit two's-complement pattern of a signed value. */
  function TwosComplement32(x: i32): (v: u32)
    ensures (v - x) % 0x1_0000_0000 == 0
    ensures v >= 0x8000_0000 <==> x < 0
  {
    if x < 0 then x + 0x1_0000_0000 else x
  }

  /** The signed value a 32-bit two's-complement pattern stands for. */
  function Signed32(v: u32): (x: i32)
    ensures (v - x) % 0x1_0000_0000 == 0
    ensures x < 0 <==> v >= 0x8000_0000
  {
    if v < 0x8000_0000 then v else v - 0x1_0000_0000
  }

  /** A signed 32-bit field: the four bytes of its two's-complement pattern, most significant first. */
  function I32Bytes(x: i32): (r: seq<u8>)
    ensures |r| == 4
  {
    U32Bytes(TwosComplement32(x))
  }

  function I32Of(s: seq<u8>): i32
    requires |s| == 4
  {
    Signed32(U32Of(s))
  }

  lemma I32RoundTrip(x: i32)
    ensures I32Of(I32Bytes(x)) == x
  {
    U32RoundTrip(TwosComplement32(x));
  }

  lemma I32Canonical(s: seq<u8>)
    requires |s| == 4
    ensures I32Bytes(I32Of(s)) == s
  {
    U32Canonical(s);
  }
}
