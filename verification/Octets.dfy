/** Bytes as machine octets: the bits the checksum works on. */
module Octets {
  import opened Bytes

  type octet = bv8
  type u32 = bv32

  function BitValue(isSet: bool, weight: nat): (n: nat)
    ensures n <= weight
  {
    if isSet then weight else 0
  }

  /** The weights, from `w` down, of the bits set in `b` from `mask` down. */
  function Weigh(b: octet, w: nat, mask: octet): (n: nat)
    ensures n < 2 * w || n == 0
    decreases w
  {
    if w == 0 then 0 else BitValue(b & mask == mask, w) + Weigh(b, w / 2, mask >> 1)
  }

  /** The number an octet stands for. */
  function ToByte(b: octet): byte { Weigh(b, 128, 0x80) }

  /** Sets the bits of `n` one by one, from weight `w` down. */
  function Greedy(n: nat, w: nat, mask: octet): octet
    decreases w
  {
    if w == 0 then 0
    else if n >= w then mask | Greedy(n - w, w / 2, mask >> 1)
    else Greedy(n, w / 2, mask >> 1)
  }

  /** The octet standing for a number. */
  function ToOctet(n: byte): octet { Greedy(n, 128, 0x80) }

  // ----- The two are inverse: both come down to the eight bits.

  function Pack(b0: bool, b1: bool, b2: bool, b3: bool, b4: bool, b5: bool, b6: bool, b7: bool): octet
  {
    (if b0 then 1 else 0) | (if b1 then 2 else 0) | (if b2 then 4 else 0) | (if b3 then 8 else 0)
    | (if b4 then 16 else 0) | (if b5 then 32 else 0) | (if b6 then 64 else 0) | (if b7 then 128 else 0)
  }

  function LowSum(b0: bool, b1: bool, b2: bool, b3: bool): (n: nat)
    ensures n < 16
  {
    BitValue(b0, 1) + BitValue(b1, 2) + BitValue(b2, 4) + BitValue(b3, 8)
  }

  function HighSum(b4: bool, b5: bool, b6: bool, b7: bool): (n: nat)
    ensures n <= 240
  {
    BitValue(b4, 16) + BitValue(b5, 32) + BitValue(b6, 64) + BitValue(b7, 128)
  }

  function Sum(b0: bool, b1: bool, b2: bool, b3: bool, b4: bool, b5: bool, b6: bool, b7: bool): (n: nat)
    ensures n < 256
  {
    LowSum(b0, b1, b2, b3) + HighSum(b4, b5, b6, b7)
  }

  lemma MaskShifts()
    ensures (128 as octet) >> 1 == 64 && (64 as octet) >> 1 == 32 && (32 as octet) >> 1 == 16 && (16 as octet) >> 1 == 8
    ensures (8 as octet) >> 1 == 4 && (4 as octet) >> 1 == 2 && (2 as octet) >> 1 == 1 && (1 as octet) >> 1 == 0
  {
  }

  lemma WeighZero(b: octet)
    ensures Weigh(b, 0, 0) == 0
  {
  }

  lemma WeighStep(b: octet, w: nat, mask: octet)
    requires w > 0
    ensures Weigh(b, w, mask) == BitValue(b & mask == mask, w) + Weigh(b, w / 2, mask >> 1)
  {
  }

  lemma ToByteBits(b: octet)
    ensures ToByte(b) ==
            Sum(b & 1 == 1, b & 2 == 2, b & 4 == 4, b & 8 == 8, b & 16 == 16, b & 32 == 32, b & 64 == 64, b & 128 == 128)
  {
    hide BitValue, Weigh;
    MaskShifts();
    WeighZero(b);
    WeighStep(b, 1, 1);
    WeighStep(b, 2, 2);
    WeighStep(b, 4, 4);
    WeighStep(b, 8, 8);
    WeighStep(b, 16, 16);
    WeighStep(b, 32, 32);
    WeighStep(b, 64, 64);
    WeighStep(b, 128, 128);
  }

  function OrBit(isSet: bool, mask: octet, rest: octet): octet { if isSet then mask | rest else rest }

  lemma PackIs(b0: bool, b1: bool, b2: bool, b3: bool, b4: bool, b5: bool, b6: bool, b7: bool)
    ensures OrBit(b7, 128, OrBit(b6, 64, OrBit(b5, 32, OrBit(b4, 16, OrBit(b3, 8, OrBit(b2, 4, OrBit(b1, 2, OrBit(b0, 1, 0))))))))
         == Pack(b0, b1, b2, b3, b4, b5, b6, b7)
  {
  }

  lemma GreedyZero(n: nat)
    ensures Greedy(n, 0, 0) == 0
  {
  }

  lemma GreedyStep(b: bool, low: nat, w: nat, mask: octet)
    requires low < w
    ensures Greedy(low + BitValue(b, w), w, mask) == OrBit(b, mask, Greedy(low, w / 2, mask >> 1))
  {
  }

  lemma ToOctetBits(b0: bool, b1: bool, b2: bool, b3: bool, b4: bool, b5: bool, b6: bool, b7: bool)
    ensures ToOctet(Sum(b0, b1, b2, b3, b4, b5, b6, b7)) == Pack(b0, b1, b2, b3, b4, b5, b6, b7)
  {
    hide Pack, OrBit, Greedy, BitValue;
    var s0 := BitValue(b0, 1);
    var s1 := s0 + BitValue(b1, 2);
    var s2 := s1 + BitValue(b2, 4);
    var s3 := s2 + BitValue(b3, 8);
    var s4 := s3 + BitValue(b4, 16);
    var s5 := s4 + BitValue(b5, 32);
    var s6 := s5 + BitValue(b6, 64);
    MaskShifts();
    GreedyZero(0);
    GreedyStep(b0, 0, 1, 1);
    GreedyStep(b1, s0, 2, 2);
    GreedyStep(b2, s1, 4, 4);
    GreedyStep(b3, s2, 8, 8);
    GreedyStep(b4, s3, 16, 16);
    GreedyStep(b5, s4, 32, 32);
    GreedyStep(b6, s5, 64, 64);
    GreedyStep(b7, s6, 128, 128);
    PackIs(b0, b1, b2, b3, b4, b5, b6, b7);
  }

  lemma BitsOfPack(b0: bool, b1: bool, b2: bool, b3: bool, b4: bool, b5: bool, b6: bool, b7: bool)
    ensures var p := Pack(b0, b1, b2, b3, b4, b5, b6, b7);
            && (p & 1 == 1) == b0 && (p & 2 == 2) == b1 && (p & 4 == 4) == b2 && (p & 8 == 8) == b3
            && (p & 16 == 16) == b4 && (p & 32 == 32) == b5 && (p & 64 == 64) == b6 && (p & 128 == 128) == b7
  {
  }

  lemma PackOfBits(b: octet)
    ensures Pack(b & 1 == 1, b & 2 == 2, b & 4 == 4, b & 8 == 8, b & 16 == 16, b & 32 == 32, b & 64 == 64, b & 128 == 128) == b
  {
  }

  lemma ToByteOfPack(b0: bool, b1: bool, b2: bool, b3: bool, b4: bool, b5: bool, b6: bool, b7: bool)
    ensures ToByte(Pack(b0, b1, b2, b3, b4, b5, b6, b7)) == Sum(b0, b1, b2, b3, b4, b5, b6, b7)
  {
    hide Pack, ToByte, Sum;
    BitsOfPack(b0, b1, b2, b3, b4, b5, b6, b7);
    ToByteBits(Pack(b0, b1, b2, b3, b4, b5, b6, b7));
  }

  /** The binary digits of a byte. */
  lemma Digits(n: byte) returns (b0: bool, b1: bool, b2: bool, b3: bool, b4: bool, b5: bool, b6: bool, b7: bool)
    ensures Sum(b0, b1, b2, b3, b4, b5, b6, b7) == n
  {
    b7 := n >= 128;
    var m6 := n - BitValue(b7, 128);
    assert 0 <= m6 < 128;
    b6 := m6 >= 64;
    var m5 := m6 - BitValue(b6, 64);
    assert 0 <= m5 < 64;
    b5 := m5 >= 32;
    var m4 := m5 - BitValue(b5, 32);
    assert 0 <= m4 < 32;
    b4 := m4 >= 16;
    var m3 := m4 - BitValue(b4, 16);
    assert 0 <= m3 < 16;
    b3 := m3 >= 8;
    var m2 := m3 - BitValue(b3, 8);
    assert 0 <= m2 < 8;
    b2 := m2 >= 4;
    var m1 := m2 - BitValue(b2, 4);
    assert 0 <= m1 < 4;
    b1 := m1 >= 2;
    var m0 := m1 - BitValue(b1, 2);
    assert 0 <= m0 < 2;
    b0 := m0 >= 1;
    assert m0 == BitValue(b0, 1);
  }

  lemma ByteRoundTrip(n: byte)
    ensures ToByte(ToOctet(n)) == n
  {
    hide Pack, ToByte, ToOctet, Sum;
    var b0, b1, b2, b3, b4, b5, b6, b7 := Digits(n);
    ToOctetBits(b0, b1, b2, b3, b4, b5, b6, b7);
    ToByteOfPack(b0, b1, b2, b3, b4, b5, b6, b7);
  }

  lemma OctetRoundTrip(b: octet)
    ensures ToOctet(ToByte(b)) == b
  {
    hide Pack, ToByte, ToOctet, Sum;
    ToByteBits(b);
    PackOfBits(b);
    ToOctetBits(b & 1 == 1, b & 2 == 2, b & 4 == 4, b & 8 == 8, b & 16 == 16, b & 32 == 32, b & 64 == 64, b & 128 == 128);
  }

  lemma Ripple(b: octet)
    ensures var c := b + 1;
            && (c & 1 == 1) == !(b & 1 == 1)
            && (c & 2 == 2) == ((b & 2 == 2) != (b & 1 == 1))
            && (c & 4 == 4) == ((b & 4 == 4) != (b & 3 == 3))
            && (c & 8 == 8) == ((b & 8 == 8) != (b & 7 == 7))
            && (c & 16 == 16) == ((b & 16 == 16) != (b & 15 == 15))
            && (c & 32 == 32) == ((b & 32 == 32) != (b & 31 == 31))
            && (c & 64 == 64) == ((b & 64 == 64) != (b & 63 == 63))
            && (c & 128 == 128) == ((b & 128 == 128) != (b & 127 == 127))
  {
  }

  lemma LowerBits(b: octet)
    ensures (b & 3 == 3) == ((b & 1 == 1) && (b & 2 == 2)) && (b & 7 == 7) == ((b & 3 == 3) && (b & 4 == 4))
    ensures (b & 15 == 15) == ((b & 7 == 7) && (b & 8 == 8)) && (b & 31 == 31) == ((b & 15 == 15) && (b & 16 == 16))
    ensures (b & 63 == 63) == ((b & 31 == 31) && (b & 32 == 32)) && (b & 127 == 127) == ((b & 63 == 63) && (b & 64 == 64))
    ensures (b == 0xFF) == ((b & 127 == 127) && (b & 128 == 128))
  {
  }

  lemma CarryOn(b0: bool, b1: bool, b2: bool, b3: bool, b4: bool, b5: bool, b6: bool, b7: bool)
    requires !(b0 && b1 && b2 && b3 && b4 && b5 && b6 && b7)
    ensures Sum(!b0, b1 != b0, b2 != (b0 && b1), b3 != (b0 && b1 && b2), b4 != (b0 && b1 && b2 && b3),
                b5 != (b0 && b1 && b2 && b3 && b4), b6 != (b0 && b1 && b2 && b3 && b4 && b5),
                b7 != (b0 && b1 && b2 && b3 && b4 && b5 && b6))
         == Sum(b0, b1, b2, b3, b4, b5, b6, b7) + 1
  {
  }

  /** Octets stand for numbers in their own order: the first for 0, and the next for the next. */
  lemma OctetsCount(b: octet)
    ensures ToByte(0) == 0 && (b != 0xFF ==> ToByte(b + 1) == ToByte(b) + 1)
  {
    hide ToByte, Sum;
    ToByteBits(0);
    assert Sum(false, false, false, false, false, false, false, false) == 0 by { ZeroSum(); }
    if b != 0xFF {
      ToByteBits(b);
      ToByteBits(b + 1);
      Ripple(b);
      LowerBits(b);
      CarryOn(b & 1 == 1, b & 2 == 2, b & 4 == 4, b & 8 == 8, b & 16 == 16, b & 32 == 32, b & 64 == 64, b & 128 == 128);
    }
  }

  lemma ZeroSum()
    ensures Sum(false, false, false, false, false, false, false, false) == 0
  {
  }

  // ----- Machine words as bytes.

  function LowOctet(v: u32): octet { (v & 0xFF) as octet }

  function Drop8(v: u32): u32 { v >> 8 }

  /** The lowest `k` bytes of a machine word, least significant first. */
  function LowBytes(v: u32, k: nat): (r: Bytes)
    ensures |r| == k
    decreases k
  {
    if k == 0 then [] else [ToByte(LowOctet(v))] + LowBytes(Drop8(v), k - 1)
  }

  function WordBytes(v: u32): (r: Bytes)
    ensures |r| == 4
  {
    LowBytes(v, 4)
  }

  lemma LowByteEqual(v: u32, w: u32)
    requires ToByte(LowOctet(v)) == ToByte(LowOctet(w))
    ensures LowOctet(v) == LowOctet(w)
  {
    hide ToByte, ToOctet, LowOctet;
    OctetRoundTrip(LowOctet(v));
    OctetRoundTrip(LowOctet(w));
  }

  lemma {:induction false} LowBytesEqual(v: u32, w: u32, k: nat)
    requires k > 0 && LowBytes(v, k) == LowBytes(w, k)
    ensures LowOctet(v) == LowOctet(w) && LowBytes(Drop8(v), k - 1) == LowBytes(Drop8(w), k - 1)
  {
    hide ToByte, LowOctet, Drop8;
    assert LowBytes(v, k)[0] == LowBytes(w, k)[0] && LowBytes(v, k)[1..] == LowBytes(w, k)[1..];
    LowByteEqual(v, w);
  }

  lemma OctetsDetermine(v: u32, w: u32)
    requires LowOctet(v) == LowOctet(w) && LowOctet(Drop8(v)) == LowOctet(Drop8(w))
    requires LowOctet(Drop8(Drop8(v))) == LowOctet(Drop8(Drop8(w)))
    requires LowOctet(Drop8(Drop8(Drop8(v)))) == LowOctet(Drop8(Drop8(Drop8(w))))
    ensures v == w
  {
  }

  /** Four bytes hold a word: comparing them is comparing words. */
  lemma WordBytesInjective(v: u32, w: u32)
    requires WordBytes(v) == WordBytes(w)
    ensures v == w
  {
    hide LowBytes, LowOctet, Drop8;
    LowBytesEqual(v, w, 4);
    LowBytesEqual(Drop8(v), Drop8(w), 3);
    LowBytesEqual(Drop8(Drop8(v)), Drop8(Drop8(w)), 2);
    LowBytesEqual(Drop8(Drop8(Drop8(v))), Drop8(Drop8(Drop8(w))), 1);
    OctetsDetermine(v, w);
  }
}
