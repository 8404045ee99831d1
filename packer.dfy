/** The receiver's byte packer (MainActivity.encodeToByteArray): bits are
    packed eight to a byte, first bit most significant, and a trailing
    partial group is left-aligned with zero low bits. */
module Packer {
  import opened Common

  /** Byte k of a packing: the value of bits 8k..8k+7, where the bits past
      the end of a trailing partial group read as 0. */
  function Group(bits: seq<Bit>, k: nat): Byte
    requires 8 * k < |bits|
  {
    Pow2Eight();
    if 8 * k + 8 <= |bits| then Val(bits[8 * k..8 * k + 8])
    else Val(bits[8 * k..] + Zeros(8 * k + 8 - |bits|))
  }

  /** The bytes that packing a bit sequence yields: one per group of 8,
      rounding up. */
  function Pack(bits: seq<Bit>): (bytes: seq<Byte>)
    ensures |bytes| == (|bits| + 7) / 8
    ensures |bits| <= 8 * |bytes| < |bits| + 8
  {
    seq((|bits| + 7) / 8, k requires 0 <= k < (|bits| + 7) / 8 => Group(bits, k))
  }

  /** The inverse direction: each byte back to its 8 bits, MSB first. */
  function Unpack(bytes: seq<Byte>): (bits: seq<Bit>)
    ensures |bits| == 8 * |bytes|
  {
    if bytes == [] then [] else Bits(bytes[0], 8) + Unpack(bytes[1..])
  }

  /** Number of zero bits that pad a trailing partial group. */
  function PadLength(n: nat): nat
  {
    if n % 8 == 0 then 0 else 8 - n % 8
  }

  /** How a length splits into whole groups and a remainder. */
  lemma GroupArith(n: nat)
    ensures n == 8 * (n / 8) + n % 8 && 0 <= n % 8 < 8
    ensures n % 8 == 0 ==> (n + 7) / 8 == n / 8
    ensures n % 8 != 0 ==> (n + 7) / 8 == n / 8 + 1
    ensures n + PadLength(n) == 8 * ((n + 7) / 8)
  {
  }

  lemma {:induction false} UnpackGroup(bytes: seq<Byte>, k: nat)
    requires k < |bytes|
    ensures Unpack(bytes)[8 * k..8 * k + 8] == Bits(bytes[k], 8)
  {
    if k > 0 {
      UnpackGroup(bytes[1..], k - 1);
      assert Unpack(bytes)[8 * k..8 * k + 8] == Unpack(bytes[1..])[8 * (k - 1)..8 * (k - 1) + 8];
    }
  }

  /** Unpacking the packed bytes gives back every bit, in order, followed
      by the zero bits that padded the last byte: each full group of 8 is
      one byte with its first bit as the MSB, and a trailing partial group
      is left-aligned. */
  lemma UnpackPack(bits: seq<Bit>)
    ensures Unpack(Pack(bits)) == bits + Zeros(PadLength(|bits|))
  {
    var unpacked := Unpack(Pack(bits));
    var padded := bits + Zeros(PadLength(|bits|));
    var m := |Pack(bits)|;
    GroupArith(|bits|);
    forall k | 0 <= k < m
      ensures unpacked[8 * k..8 * k + 8] == padded[8 * k..8 * k + 8]
    {
      UnpackPackGroup(bits, padded, k);
    }
    SameGroups(unpacked, padded, m);
  }

  /** Two sequences of whole groups of 8 that agree group by group are
      equal. */
  lemma SameGroups<T>(a: seq<T>, b: seq<T>, m: nat)
    requires |a| == |b| == 8 * m
    requires forall k :: 0 <= k < m ==> a[8 * k..8 * k + 8] == b[8 * k..8 * k + 8]
    ensures a == b
  {
    forall i | 0 <= i < |a|
      ensures a[i] == b[i]
    {
      var k := i / 8;
      assert a[i] == a[8 * k..8 * k + 8][i - 8 * k];
      assert b[i] == b[8 * k..8 * k + 8][i - 8 * k];
    }
  }

  /** Group k of the unpacked bytes is group k of the padded bits. */
  lemma UnpackPackGroup(bits: seq<Bit>, padded: seq<Bit>, k: nat)
    requires padded == bits + Zeros(PadLength(|bits|))
    requires |padded| == 8 * |Pack(bits)| && k < |Pack(bits)|
    ensures Unpack(Pack(bits))[8 * k..8 * k + 8] == padded[8 * k..8 * k + 8]
  {
    var bytes := Pack(bits);
    var g := padded[8 * k..8 * k + 8];
    UnpackGroup(bytes, k);
    assert bytes[k] == Val(g) by {
      if 8 * k + 8 <= |bits| {
        assert g == bits[8 * k..8 * k + 8];
      } else {
        assert g == bits[8 * k..] + Zeros(8 * k + 8 - |bits|);
      }
    }
    BitsOfVal(g);
  }

  /** Packing the bits of whole bytes gives the bytes back. */
  lemma PackUnpack(bytes: seq<Byte>)
    ensures Pack(Unpack(bytes)) == bytes
  {
    var bits := Unpack(bytes);
    forall k | 0 <= k < |bytes|
      ensures Pack(bits)[k] == bytes[k]
    {
      UnpackGroup(bytes, k);
      Pow2Eight();
      ValOfBits(bytes[k], 8);
    }
  }

  /** Packs bits into bytes the way encodeToByteArray does: a running value
      takes each bit as its new lowest bit, a byte is stored after every
      8th bit, and a trailing partial byte is shifted left into place. */
  method EncodeToByteArray(bits: seq<Bit>) returns (results: array<Byte>)
    ensures fresh(results) && results[..] == Pack(bits)
  {
    results := new Byte[(|bits| + 7) / 8];
    GroupArith(|bits|);
    // Java keeps this in a 32-bit int; only its low 8 bits are ever stored,
    // and wrap-around leaves those unchanged, so an unbounded int is exact.
    var byteValue: int := 0;
    var index := 0;
    ghost var done := 0;
    while index < |bits|
      invariant 0 <= index <= |bits|
      invariant done == index / 8 && 8 * done <= index && done <= results.Length
      invariant byteValue == Running(bits, index)
      invariant forall k :: 0 <= k < done ==> results[k] == Running(bits, 8 * k + 8) % 256
    {
      byteValue := byteValue * 2 + bits[index];
      GroupArith(index);
      GroupArith(index + 1);
      if index % 8 == 7 {
        results[index / 8] := byteValue % 256;
        done := done + 1;
      }
      index := index + 1;
    }
    if index % 8 != 0 {
      TrailingByte(bits, done, index % 8, 8 - index % 8);
      results[index / 8] := ShiftLeft(byteValue, 8 - index % 8) % 256;
    }
    FinalBytes(bits, results[..]);
    PackByGroups(bits, results[..]);
  }

  /** The encoder's running value after the first i bits. */
  function Running(bits: seq<Bit>, i: nat): int
    requires i <= |bits|
  {
    if i == 0 then 0 else 2 * Running(bits, i - 1) + bits[i - 1]
  }

  lemma {:induction false} RunningIsVal(bits: seq<Bit>, i: nat)
    requires i <= |bits|
    ensures Running(bits, i) == Val(bits[..i])
  {
    if i > 0 {
      RunningIsVal(bits, i - 1);
      assert bits[..i][..i - 1] == bits[..i - 1];
    }
  }

  /** The bytes the encoder has stored once every bit is read are the
      groups' bytes: one per full group, then the trailing byte. */
  lemma FinalBytes(bits: seq<Bit>, bytes: seq<Byte>)
    requires |bytes| == (|bits| + 7) / 8
    requires forall k :: 0 <= k < |bits| / 8 ==> bytes[k] == Running(bits, 8 * k + 8) % 256
    requires |bits| % 8 != 0 ==> |bits| / 8 < |bytes| && bytes[|bits| / 8] == Group(bits, |bits| / 8)
    ensures forall k :: 0 <= k < |bytes| ==> 8 * k < |bits| && bytes[k] == Group(bits, k)
  {
    forall k | 0 <= k < |bytes|
      ensures 8 * k < |bits| && bytes[k] == Group(bits, k)
    {
      GroupArith(|bits|);
      if k < |bits| / 8 {
        StoredByte(bits, k, bytes[k]);
      } else {
        assert k == |bits| / 8;
      }
    }
  }

  lemma StoredByte(bits: seq<Bit>, k: nat, b: Byte)
    requires 8 * k + 8 <= |bits| && b == Running(bits, 8 * k + 8) % 256
    ensures b == Group(bits, k)
  {
    CompletedByte(bits, k);
  }


  /** A byte sequence with one byte per group, each equal to its group,
      is the packing. */
  lemma PackByGroups(bits: seq<Bit>, bytes: seq<Byte>)
    requires |bytes| == (|bits| + 7) / 8
    requires forall k :: 0 <= k < |bytes| ==> 8 * k < |bits| && bytes[k] == Group(bits, k)
    ensures bytes == Pack(bits)
  {
  }

  /** When the 8th bit of group k arrives, the low 8 bits of the running
      value are that group's byte. */
  lemma CompletedByte(bits: seq<Bit>, k: nat)
    requires 8 * k + 8 <= |bits|
    ensures Running(bits, 8 * k + 8) % 256 == Group(bits, k)
  {
    RunningIsVal(bits, 8 * k + 8);
    LowByte(bits[..8 * k + 8]);
    assert bits[..8 * k + 8][8 * k..] == bits[8 * k..8 * k + 8];
  }

  /** Shifting the running value left by n = 8 - r and keeping its low 8
      bits gives the left-aligned trailing byte. */
  lemma TrailingByte(bits: seq<Bit>, k: nat, r: nat, n: nat)
    requires |bits| == 8 * k + r && 0 < r < 8 && n == 8 - r
    ensures ShiftLeft(Running(bits, |bits|), n) % 256 == Group(bits, k)
  {
    ShiftLeftIsMul(Running(bits, |bits|), n);
    RunningIsVal(bits, |bits|);
    assert bits[..|bits|] == bits;
    var padded := bits + Zeros(n);
    assert Val(bits) * Pow2(n) == Val(padded) by {
      ValTrailingZeros(bits, n);
    }
    LowByte(padded);
    assert padded[|padded| - 8..] == bits[8 * k..] + Zeros(n);
  }
}
