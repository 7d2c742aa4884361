/** Bytes and the little-endian encoding of numbers. */
module Bytes {

  type byte = n: int | 0 <= n < 256
  type Bytes = seq<byte>

  const TWO_32: nat := 0x1_0000_0000
  const TWO_64: nat := 0x1_0000_0000_0000_0000

  datatype Option<+T> = None | Some(value: T)

  /** The lowest `k` bytes of a number, least significant first: the number is taken modulo 256^k. */
  function NatBytes(n: nat, k: nat): (r: Bytes)
    ensures |r| == k
    decreases k
  {
    if k == 0 then [] else [n % 256] + NatBytes(n / 256, k - 1)
  }

  function ReadNat(s: Bytes): nat
  {
    if s == [] then 0 else s[0] + 256 * ReadNat(s[1..])
  }

  function Pow256(k: nat): nat { if k == 0 then 1 else 256 * Pow256(k - 1) }

  lemma Pow256Values()
    ensures Pow256(4) == TWO_32 && Pow256(8) == TWO_64
  {
    assert Pow256(2) == 65536;
    assert Pow256(4) == TWO_32;
    assert Pow256(6) == 65536 * TWO_32;
  }

  /** Byte `i` is digit `i` of the number to base 256. */
  lemma {:induction false} NatBytesAt(n: nat, k: nat, i: nat)
    requires i < k
    ensures Pow256(i) > 0 && NatBytes(n, k)[i] == n / Pow256(i) % 256
    decreases k
  {
    if i > 0 {
      NatBytesAt(n / 256, k - 1, i - 1);
      DivideTwice(n, Pow256(i - 1));
    }
  }

  lemma DivideTwice(n: nat, d: nat)
    requires d > 0
    ensures n / 256 / d == n / (256 * d)
  {
    var a, b := n / 256, n % 256;
    var q, r := a / d, a % d;
    Grouped(d, q);
    assert n == (256 * d) * q + (256 * r + b);
    QuotientOf(256 * d, q, 256 * r + b);
  }

  lemma Grouped(d: nat, q: nat)
    ensures 256 * (d * q) == (256 * d) * q
  {
  }

  lemma QuotientOf(d: nat, q: nat, r: nat)
    requires r < d
    ensures (d * q + r) / d == q
  {
    var n := d * q + r;
    var x, y := n / d, n % d;
    assert d * (q - x) == y - r;
    AtLeastOne(d, q - x);
    AtLeastOne(d, x - q);
  }

  lemma AtLeastOne(d: nat, z: int)
    ensures z > 0 ==> d * z >= d
  {
  }

  lemma {:induction false} ReadNatBound(s: Bytes)
    ensures ReadNat(s) < Pow256(|s|)
  {
    if s != [] {
      ReadNatBound(s[1..]);
    }
  }

  lemma {:induction false} NatRoundTrip(n: nat, k: nat)
    requires n < Pow256(k)
    ensures ReadNat(NatBytes(n, k)) == n
    decreases k
  {
    if k > 0 {
      NatRoundTrip(n / 256, k - 1);
      assert NatBytes(n, k)[1..] == NatBytes(n / 256, k - 1);
    }
  }

  lemma {:induction false} NatBytesOfRead(s: Bytes)
    ensures NatBytes(ReadNat(s), |s|) == s
  {
    if s != [] {
      NatBytesOfRead(s[1..]);
      var n := ReadNat(s[1..]);
      assert (s[0] + 256 * n) % 256 == s[0] && (s[0] + 256 * n) / 256 == n;
    }
  }

  // ----- The 32-bit lengths of records and blobs.

  /** A size cast to `std::uint32_t` and written low byte first. */
  function SizeBytes(n: nat): (r: Bytes)
    ensures |r| == 4
  {
    NatBytes(n, 4)
  }

  function ReadSize(s: Bytes, o: nat): nat
    requires o + 4 <= |s|
  {
    ReadNat(s[o..o + 4])
  }

  /** A size is read back exactly if it fits the field. */
  lemma SizeRoundTrip(n: nat)
    ensures ReadNat(SizeBytes(n)) == n <==> n < TWO_32
  {
    Pow256Values();
    ReadNatBound(SizeBytes(n));
    if n < TWO_32 {
      NatRoundTrip(n, 4);
    }
  }

  lemma SizeBytesOfRead(s: Bytes, o: nat)
    requires o + 4 <= |s|
    ensures ReadSize(s, o) < TWO_32
    ensures SizeBytes(ReadSize(s, o)) == s[o..o + 4]
  {
    Pow256Values();
    ReadNatBound(s[o..o + 4]);
    NatBytesOfRead(s[o..o + 4]);
  }

  // ----- Lines of text.

  const NEWLINE: byte := 10

  function FirstNewline(s: Bytes): (r: Option<nat>)
    ensures r.Some? ==> r.value < |s| && s[r.value] == NEWLINE && forall i | 0 <= i < r.value :: s[i] != NEWLINE
    ensures r.None? ==> forall i | 0 <= i < |s| :: s[i] != NEWLINE
  {
    if s == [] then None
    else if s[0] == NEWLINE then Some(0)
    else
      match FirstNewline(s[1..])
      case None => None
      case Some(i) => Some(i + 1)
  }
}
