/** Big-endian integers and most-significant-bit-first bit strings. */
module ByteOrder {
  import opened BacnetTypes

  /** The value of big-endian bytes, most significant first. */
  function BigEndian(s: Bytes): nat {
    if s == [] then 0 else BigEndian(s[..|s| - 1]) * 256 + s[|s| - 1]
  }

  /** 256^n. */
  function Radix(n: nat): (r: nat)
    ensures r >= 1
  {
    if n == 0 then 1 else 256 * Radix(n - 1)
  }

  /** The `n` low-order bytes of `v`, most significant first. */
  function ToBytes(v: nat, n: nat): (s: Bytes)
    ensures |s| == n
  {
    if n == 0 then [] else ToBytes(v / 256, n - 1) + [v % 256]
  }

  lemma {:induction false} BigEndianBound(s: Bytes)
    ensures BigEndian(s) < Radix(|s|)
  {
    if s != [] {
      BigEndianBound(s[..|s| - 1]);
    }
  }

  /** Writing `n` bytes and reading them back keeps every value that fits. */
  lemma {:induction false} BytesRoundTrip(v: nat, n: nat)
    requires v < Radix(n)
    ensures BigEndian(ToBytes(v, n)) == v
  {
    if n > 0 {
      BytesRoundTrip(v / 256, n - 1);
      assert ToBytes(v, n)[..n - 1] == ToBytes(v / 256, n - 1);
    }
  }

  /** `v >> (8 * k)`. */
  function ShiftBytes(v: nat, k: nat): nat {
    if k == 0 then v else ShiftBytes(v / 256, k - 1)
  }

  /** Byte `i` of the `n`-byte form is what a right shift by the remaining bytes exposes. */
  lemma {:induction false} ToBytesAt(v: nat, n: nat, i: nat)
    requires i < n
    ensures ToBytes(v, n)[i] == ShiftBytes(v, n - i - 1) % 256
  {
    if i < n - 1 {
      ToBytesAt(v / 256, n - 1, i);
    }
  }

  lemma RadixValues()
    ensures Radix(1) == 0x100 && Radix(2) == 0x1_0000
    ensures Radix(3) == 0x100_0000 && Radix(4) == 0x1_0000_0000
  {
    assert Radix(0) == 1;
    assert Radix(3) == 256 * Radix(2);
  }

  /** Fewest bytes, 1 to 4, that hold `v`. */
  function MinimalLength(v: uint32): (n: nat)
    ensures 1 <= n <= 4 && v < Radix(n)
    ensures n > 1 ==> Radix(n - 1) <= v
  {
    RadixValues();
    if v <= 0xFF then 1 else if v <= 0xFFFF then 2 else if v <= 0xFF_FFFF then 3 else 4
  }

  /** The shift-and-accumulate loop that every integer parser runs. */
  method ReadBigEndian(buffer: Bytes, offset: nat, count: nat) returns (value: nat)
    requires offset + count <= |buffer|
    ensures value == BigEndian(buffer[offset..offset + count])
  {
    value := 0;
    for i := 0 to count
      invariant value == BigEndian(buffer[offset..offset + i])
    {
      assert buffer[offset..offset + i + 1][..i] == buffer[offset..offset + i];
      value := value * 256 + buffer[offset + i];
    }
  }

  /** The loop that every integer builder runs. */
  method WriteBigEndian(buffer: array<uint8>, offset: nat, value: nat, count: nat)
    requires offset + count <= buffer.Length
    modifies buffer
    ensures buffer[..offset + count] == old(buffer[..offset]) + ToBytes(value, count)
  {
    for i := 0 to count
      invariant buffer[..offset] == old(buffer[..offset])
      invariant buffer[offset..offset + i] == ToBytes(value, count)[..i]
    {
      ToBytesAt(value, count, i);
      buffer[offset + i] := ShiftBytes(value, count - i - 1) % 256;
      assert buffer[offset..offset + i + 1] == ToBytes(value, count)[..i] + [ToBytes(value, count)[i]];
    }
    assert buffer[..offset + count] == buffer[..offset] + buffer[offset..offset + count];
  }

  // ----- bit strings

  function Pow2(n: nat): (r: nat)
    ensures r >= 1
  {
    if n == 0 then 1 else 2 * Pow2(n - 1)
  }

  /** `(v >> i) & 1`. */
  predicate Bit(v: nat, i: nat) {
    if i == 0 then v % 2 == 1 else Bit(v / 2, i - 1)
  }

  /** The `count` low-order bits of `v`, least significant first. */
  function Bits(v: nat, count: nat): (bits: seq<bool>)
    ensures |bits| == count
  {
    if count == 0 then [] else [v % 2 == 1] + Bits(v / 2, count - 1)
  }

  function FromBits(bits: seq<bool>): nat {
    if bits == [] then 0 else (if bits[0] then 1 else 0) + 2 * FromBits(bits[1..])
  }

  lemma {:induction false} BitsAt(v: nat, count: nat, i: nat)
    requires i < count
    ensures Bits(v, count)[i] == Bit(v, i)
  {
    if i > 0 {
      BitsAt(v / 2, count - 1, i - 1);
    }
  }

  lemma {:induction false} FromBitsSnoc(bits: seq<bool>, b: bool)
    ensures FromBits(bits + [b]) == FromBits(bits) + (if b then Pow2(|bits|) else 0)
  {
    if bits != [] {
      assert (bits + [b])[1..] == bits[1..] + [b];
      FromBitsSnoc(bits[1..], b);
    }
  }

  lemma {:induction false} FromBitsBound(bits: seq<bool>)
    ensures FromBits(bits) < Pow2(|bits|)
  {
    if bits != [] {
      FromBitsBound(bits[1..]);
    }
  }

  /** Reading the low bits back gives the value exactly when no higher bit was set. */
  lemma {:induction false} BitsRoundTripIff(v: nat, count: nat)
    ensures FromBits(Bits(v, count)) == v <==> v < Pow2(count)
  {
    if count > 0 {
      BitsRoundTripIff(v / 2, count - 1);
      assert Bits(v, count)[1..] == Bits(v / 2, count - 1);
      FromBitsBound(Bits(v / 2, count - 1));
      assert Pow2(count) == 2 * Pow2(count - 1);
    }
  }

  lemma Pow2At32()
    ensures Pow2(32) == 0x1_0000_0000
  {
    assert Pow2(8) == 256;
    assert Pow2(16) == 65536;
    assert Pow2(24) == 0x100_0000;
  }

  lemma {:induction false} Pow2Monotone(a: nat, b: nat)
    requires a <= b
    ensures Pow2(a) <= Pow2(b)
  {
    if a < b {
      Pow2Monotone(a, b - 1);
    }
  }

  /** `v | (1 << i)`. */
  function OrBit(v: nat, i: nat): (r: nat) {
    if Bit(v, i) then v else v + Pow2(i)
  }

  /** Setting a bit sets it and leaves every other bit alone. */
  lemma {:induction false} OrBitSets(v: nat, i: nat, k: nat)
    ensures Bit(OrBit(v, i), k) == (k == i || Bit(v, k))
  {
    if !Bit(v, i) && i > 0 {
      assert v + Pow2(i) == v + 2 * Pow2(i - 1);
      assert OrBit(v / 2, i - 1) == (v + Pow2(i)) / 2;
      if k > 0 {
        OrBitSets(v / 2, i - 1, k - 1);
      }
    }
  }

  lemma {:induction false} OrBitBound(v: nat, i: nat, n: nat)
    requires v < Pow2(n) && i < n
    ensures OrBit(v, i) < Pow2(n)
  {
    if !Bit(v, i) {
      var half := Pow2(n - 1);
      assert Pow2(n) == 2 * half;
      if i == 0 {
        assert v % 2 == 0;
      } else {
        OrBitBound(v / 2, i - 1, n - 1);
        assert v / 2 + Pow2(i - 1) < half;
      }
    }
  }

  lemma {:induction false} NoHighBits(v: nat, i: nat)
    requires v < Pow2(i)
    ensures !Bit(v, i)
  {
    if i > 0 {
      NoHighBits(v / 2, i - 1);
    }
  }

  /** `(b & (0x80 >> j)) != 0`. */
  predicate MaskBit(b: uint8, j: nat)
    requires j < 8
  {
    Bit(b, 7 - j)
  }

  /** `b | (0x80 >> j)`. */
  function SetMaskBit(b: uint8, j: nat): (r: uint8)
    requires j < 8
  {
    assert Pow2(8) == 256 by { assert Pow2(5) == 32; }
    OrBitBound(b, 7 - j, 8);
    OrBit(b, 7 - j)
  }

  lemma SetMaskBitSets(b: uint8, j: nat, k: nat)
    requires j < 8 && k < 8
    ensures MaskBit(SetMaskBit(b, j), k) == (k == j || MaskBit(b, k))
  {
    OrBitSets(b, 7 - j, 7 - k);
  }

  /** Bit `i` of a byte string, most significant bit of each byte first. */
  predicate BitOfBytes(s: Bytes, i: nat)
    requires i / 8 < |s|
  {
    MaskBit(s[i / 8], i % 8)
  }

  /** Bits packed into whole bytes, eight a byte, unused low bits clear. */
  function PackBits(bits: seq<bool>): (s: Bytes)
    ensures |s| == (|bits| + 7) / 8
  {
    if bits == [] then []
    else
      var last := |bits| - 1;
      var packed := PackBits(bits[..last]);
      if last % 8 == 0 then packed + [if bits[last] then SetMaskBit(0, 0) else 0]
      else if bits[last] then packed[last / 8 := SetMaskBit(packed[last / 8], last % 8)]
      else packed
  }

  /** Bit `i` of the packed bytes is bit `i` of the source, and the padding is clear. */
  lemma {:induction false} PackBitsAt(bits: seq<bool>, i: nat)
    requires i < 8 * |PackBits(bits)|
    ensures BitOfBytes(PackBits(bits), i) == (i < |bits| && bits[i])
  {
    var last := |bits| - 1;
    var packed := PackBits(bits[..last]);
    if last % 8 == 0 && i / 8 == last / 8 {
      NoHighBitsInZero(7 - i % 8);
      SetMaskBitSets(0, 0, i % 8);
    } else {
      PackBitsAt(bits[..last], i);
      SetMaskBitSets(packed[i / 8], last % 8, i % 8);
    }
  }

  lemma NoHighBitsInZero(i: nat)
    ensures !Bit(0, i)
  {
    NoHighBits(0, i);
  }

  /** The first `count` bits of a byte string. */
  function UnpackBits(s: Bytes, count: nat): (bits: seq<bool>)
    requires count <= 8 * |s|
    ensures |bits| == count
  {
    if count == 0 then [] else UnpackBits(s, count - 1) + [BitOfBytes(s, count - 1)]
  }

  lemma {:induction false} PrefixUnpacks(bits: seq<bool>, count: nat)
    requires count <= |bits|
    ensures UnpackBits(PackBits(bits), count) == bits[..count]
  {
    if count > 0 {
      PackBitsAt(bits, count - 1);
      PrefixUnpacks(bits, count - 1);
    }
  }

  lemma PackedBitsRoundTrip(bits: seq<bool>)
    ensures UnpackBits(PackBits(bits), |bits|) == bits
  {
    PrefixUnpacks(bits, |bits|);
  }
}
