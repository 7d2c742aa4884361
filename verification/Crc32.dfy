/** The reflected CRC-32 of the log records (section 8 of RFC 1952). */
module Crc32 {
  import opened Bytes
  import opened Octets

  function Xor(x: u32, y: u32): u32 { x ^ y }

  /** One bit of polynomial division. */
  function Bit(c: u32): u32 { if c & 1 == 1 then (c >> 1) ^ 0xEDB88320 else c >> 1 }

  function Bits(c: u32, n: nat): u32 { if n == 0 then c else Bit(Bits(c, n - 1)) }

  function Bit8(c: u32): u32 { Bits(c, 8) }

  function Wide(b: octet): u32 { b as u32 }

  /** The bit-by-bit definition: add one byte, divide eight times. */
  function Feed(c: u32, b: octet): u32 { Bit8(Xor(c, Wide(b))) }

  function FeedAll(c: u32, s: Bytes): u32
  {
    if s == [] then c else Feed(FeedAll(c, s[..|s| - 1]), ToOctet(s[|s| - 1]))
  }

  const ONES: u32 := 0xFFFFFFFF

  function Crc(s: Bytes): u32 { Xor(FeedAll(ONES, s), ONES) }

  // ----- Facts of machine words, each small enough for bit-blasting.

  lemma XorShift(x: u32, y: u32)
    ensures (x ^ y) >> 1 == (x >> 1) ^ (y >> 1)
    ensures (x ^ y) & 1 == (x & 1) ^ (y & 1)
  {
  }

  lemma LowBit(x: u32)
    ensures x & 1 == 0 || x & 1 == 1
  {
  }

  lemma XorRegroup(a: u32, b: u32, p: u32)
    ensures (a ^ p) ^ (b ^ p) == a ^ b && (a ^ p) ^ b == (a ^ b) ^ p && a ^ (b ^ p) == (a ^ b) ^ p
  {
  }

  lemma XorCancel(a: u32, b: u32, p: u32)
    ensures Xor(a, p) == Xor(b, p) ==> a == b
    ensures Xor(p, a) == Xor(p, b) ==> a == b
  {
  }

  /** Division is linear over GF(2). */
  lemma BitXor(x: u32, y: u32)
    ensures Bit(Xor(x, y)) == Xor(Bit(x), Bit(y))
  {
    XorShift(x, y);
    LowBit(x);
    LowBit(y);
    XorRegroup(x >> 1, y >> 1, 0xEDB88320);
  }

  lemma {:induction false} BitsXor(x: u32, y: u32, n: nat)
    ensures Bits(Xor(x, y), n) == Xor(Bits(x, n), Bits(y, n))
  {
    hide Bit, Xor;
    if n > 0 {
      BitsXor(x, y, n - 1);
      BitXor(Bits(x, n - 1), Bits(y, n - 1));
    }
  }

  /** Dividing by one bit loses nothing, so neither does feeding a byte. */
  lemma BitInjective(x: u32, y: u32)
    requires Bit(x) == Bit(y)
    ensures x == y
  {
  }

  lemma {:induction false} BitsInjective(x: u32, y: u32, n: nat)
    requires Bits(x, n) == Bits(y, n)
    ensures x == y
  {
    hide Bit;
    if n > 0 {
      BitInjective(Bits(x, n - 1), Bits(y, n - 1));
      BitsInjective(x, y, n - 1);
    }
  }

  lemma Bit8Injective(x: u32, y: u32)
    requires Bit8(x) == Bit8(y)
    ensures x == y
  {
    BitsInjective(x, y, 8);
  }

  lemma BitsEight(c: u32)
    ensures Bits(c, 8) == Bit(Bit(Bit(Bit(Bit(Bit(Bit(Bit(c))))))))
  {
    hide Bit;
    assert Bits(c, 1) == Bit(c);
    assert Bits(c, 3) == Bit(Bit(Bits(c, 1)));
    assert Bits(c, 5) == Bit(Bit(Bits(c, 3)));
    assert Bits(c, 7) == Bit(Bit(Bits(c, 5)));
  }

  /** Eight divisions of a word whose low byte is clear only shift it. */
  lemma Bit8ClearLow(x: u32)
    requires x & 0xFF == 0
    ensures Bit8(x) == x >> 8
  {
    BitsEight(x);
    assert Bit(Bit(Bit(Bit(Bit(Bit(Bit(Bit(x)))))))) == x >> 8 by { hide Bits, Bit8; }
  }

  lemma Bit8Is()
    ensures forall c :: Bit8(c) == Bits(c, 8)
  {
  }

  /** So a word waiting above the low byte moves down unchanged. */
  lemma Bit8Delay(x: u32, w: u32)
    requires w & 0xFF == 0
    ensures Bit8(Xor(x, w)) == Xor(Bit8(x), w >> 8)
  {
    hide Bit8, Xor;
    assert Bit8(Xor(x, w)) == Xor(Bit8(x), Bit8(w)) by { BitsXor(x, w, 8); Bit8Is(); }
    Bit8ClearLow(w);
  }

  // ----- The table-driven form.

  function IndexWord(i: byte): u32 { Wide(ToOctet(i)) }

  function TableIndex(c: u32, b: octet): byte { ToByte(((c ^ (b as u32)) & 0xFF) as octet) }

  lemma SplitState(c: u32, b: octet)
    ensures Xor(c, Wide(b)) == Xor(IndexWord(TableIndex(c, b)), c & 0xFFFFFF00)
    ensures (c & 0xFFFFFF00) & 0xFF == 0 && (c & 0xFFFFFF00) >> 8 == c >> 8
  {
    hide ToByte, ToOctet;
    OctetRoundTrip(((c ^ (b as u32)) & 0xFF) as octet);
    SplitWord(c, b);
  }

  lemma SplitWord(c: u32, b: octet)
    ensures c ^ (b as u32) == ((((c ^ (b as u32)) & 0xFF) as octet) as u32) ^ (c & 0xFFFFFF00)
  {
  }

  ghost predicate IsTable(t: seq<u32>)
  {
    |t| == 256 && forall i | 0 <= i < 256 :: t[i] == Bit8(IndexWord(i))
  }

  /** Why 256 entries are enough: the upper three bytes of the state only shift down. */
  lemma TableStep(t: seq<u32>, c: u32, b: octet)
    requires IsTable(t)
    ensures Xor(t[TableIndex(c, b)], c >> 8) == Feed(c, b)
  {
    hide Bit8, Xor, IndexWord, TableIndex, Wide;
    SplitState(c, b);
    Bit8Delay(IndexWord(TableIndex(c, b)), c & 0xFFFFFF00);
  }

  method BuildCrcTable() returns (table: array<u32>)
    ensures IsTable(table[..])
  {
    table := new u32[256];
    var i := 0;
    while i < 256
      invariant 0 <= i <= 256
      invariant forall j | 0 <= j < i :: table[j] == Bit8(IndexWord(j))
    {
      table[i] := BuildEntry(i);
      i := i + 1;
    }
  }

  method BuildEntry(i: byte) returns (crc: u32)
    ensures crc == Bit8(IndexWord(i))
  {
    hide IndexWord;
    crc := IndexWord(i);
    var bit := 0;
    while bit < 8
      invariant 0 <= bit <= 8
      invariant crc == Bits(IndexWord(i), bit)
    {
      crc := if crc & 1 == 1 then (crc >> 1) ^ 0xEDB88320 else crc >> 1;
      bit := bit + 1;
    }
  }

  /** The loop of the source computes the bit-by-bit checksum. */
  method Compute(table: array<u32>, bytes: Bytes) returns (crc: u32)
    requires IsTable(table[..])
    ensures crc == Crc(bytes)
  {
    hide Feed, Xor, TableIndex, IndexWord, Bit8, ToOctet;
    crc := ONES;
    var i := 0;
    while i < |bytes|
      invariant 0 <= i <= |bytes|
      invariant crc == FeedAll(ONES, bytes[..i])
    {
      var b := ToOctet(bytes[i]);
      TableStep(table[..], crc, b);
      assert bytes[..i + 1][..i] == bytes[..i];
      crc := Xor(table[TableIndex(crc, b)], crc >> 8);
      i := i + 1;
    }
    assert bytes[..i] == bytes;
    crc := Xor(crc, ONES);
  }

  // ----- Error detection.

  lemma {:induction false} FeedAllConcat(c: u32, s: Bytes, t: Bytes)
    ensures FeedAll(c, s + t) == FeedAll(FeedAll(c, s), t)
  {
    hide Feed, ToOctet;
    if t == [] {
      assert s + t == s;
    } else {
      var u := t[..|t| - 1];
      assert (s + t)[..|s + t| - 1] == s + u;
      FeedAllConcat(c, s, u);
    }
  }

  /** Equal states after the same bytes come from equal states. */
  lemma {:induction false} FeedAllInjective(c: u32, d: u32, s: Bytes)
    requires FeedAll(c, s) == FeedAll(d, s)
    ensures c == d
  {
    hide Bit8, Xor, Wide, ToOctet;
    if s != [] {
      var init, last := s[..|s| - 1], Wide(ToOctet(s[|s| - 1]));
      Bit8Injective(Xor(FeedAll(c, init), last), Xor(FeedAll(d, init), last));
      XorCancel(FeedAll(c, init), FeedAll(d, init), last);
      FeedAllInjective(c, d, init);
    }
  }

  lemma ShiftedByte(b: octet)
    ensures ((b as u32) << 8) & 0xFF == 0 && ((b as u32) << 8) >> 8 == Wide(b)
    ensures ((b as u32) << 16) & 0xFF == 0 && ((b as u32) << 16) >> 8 == (b as u32) << 8
    ensures ((b as u32) << 24) & 0xFF == 0 && ((b as u32) << 24) >> 8 == (b as u32) << 16
  {
  }

  function Up(b: octet, k: nat): u32
    requires k <= 3
  {
    if k == 0 then b as u32 else if k == 1 then (b as u32) << 8 else if k == 2 then (b as u32) << 16 else (b as u32) << 24
  }

  /** Eight divisions bring a byte lying `k` bytes up one byte down. */
  lemma Bit8Lower(x: u32, b: octet, k: nat)
    requires 1 <= k <= 3
    ensures Bit8(Xor(x, Up(b, k))) == Xor(Bit8(x), Up(b, k - 1))
  {
    hide Bit8, Xor;
    ShiftedByte(b);
    Bit8Delay(x, Up(b, k));
  }

  /** Feeding four octets is dividing the state plus all four by 32 bits. */
  lemma FeedFour(c: u32, w: Bytes)
    requires |w| == 4
    ensures FeedAll(c, w) == Bit8(Bit8(Bit8(Bit8(Added(c, ToOctet(w[0]), ToOctet(w[1]), ToOctet(w[2]), ToOctet(w[3]))))))
  {
    hide Bit8, Xor, Wide, Up, ToOctet;
    var o0, o1, o2, o3 := ToOctet(w[0]), ToOctet(w[1]), ToOctet(w[2]), ToOctet(w[3]);
    assert w[..3][..2] == w[..2] && w[..2][..1] == w[..1] && w[..1][..0] == [];
    var x1 := Xor(c, Up(o0, 0));
    var x2 := Xor(x1, Up(o1, 1));
    var x3 := Xor(x2, Up(o2, 2));
    UpZero(o0);
    UpZero(o1);
    UpZero(o2);
    UpZero(o3);
    assert FeedAll(c, w[..1]) == Bit8(x1);
    Bit8Lower(x1, o1, 1);
    assert FeedAll(c, w[..2]) == Bit8(Bit8(x2));
    Bit8Lower(x2, o2, 2);
    Bit8Lower(Bit8(x2), o2, 1);
    assert FeedAll(c, w[..3]) == Bit8(Bit8(Bit8(x3)));
    Bit8Lower(x3, o3, 3);
    Bit8Lower(Bit8(x3), o3, 2);
    Bit8Lower(Bit8(Bit8(x3)), o3, 1);
  }

  function Added(c: u32, o0: octet, o1: octet, o2: octet, o3: octet): u32
  {
    Xor(Xor(Xor(Xor(c, Up(o0, 0)), Up(o1, 1)), Up(o2, 2)), Up(o3, 3))
  }

  lemma UpZero(b: octet)
    ensures Up(b, 0) == Wide(b)
  {
  }

  lemma XorAssoc(a: u32, b: u32, d: u32)
    ensures Xor(Xor(a, b), d) == Xor(a, Xor(b, d))
  {
  }

  function Ups(o0: octet, o1: octet, o2: octet, o3: octet): u32
  {
    Xor(Xor(Xor(Up(o0, 0), Up(o1, 1)), Up(o2, 2)), Up(o3, 3))
  }

  lemma AddedIs(c: u32, o0: octet, o1: octet, o2: octet, o3: octet)
    ensures Added(c, o0, o1, o2, o3) == Xor(c, Ups(o0, o1, o2, o3))
  {
    hide Xor, Up;
    var u0, u1, u2, u3 := Up(o0, 0), Up(o1, 1), Up(o2, 2), Up(o3, 3);
    XorAssoc(c, u0, u1);
    XorAssoc(c, Xor(u0, u1), u2);
    XorAssoc(c, Xor(Xor(u0, u1), u2), u3);
  }

  lemma UpsAre(o0: octet, o1: octet, o2: octet, o3: octet)
    ensures Ups(o0, o1, o2, o3) == (((o0 as u32) ^ ((o1 as u32) << 8)) ^ ((o2 as u32) << 16)) ^ ((o3 as u32) << 24)
  {
  }

  lemma WordDetermines(a0: octet, a1: octet, a2: octet, a3: octet, b0: octet, b1: octet, b2: octet, b3: octet)
    requires (((a0 as u32) ^ ((a1 as u32) << 8)) ^ ((a2 as u32) << 16)) ^ ((a3 as u32) << 24)
          == (((b0 as u32) ^ ((b1 as u32) << 8)) ^ ((b2 as u32) << 16)) ^ ((b3 as u32) << 24)
    ensures a0 == b0 && a1 == b1 && a2 == b2 && a3 == b3
  {
  }

  lemma AddedInjective(c: u32, a0: octet, a1: octet, a2: octet, a3: octet, b0: octet, b1: octet, b2: octet, b3: octet)
    requires Added(c, a0, a1, a2, a3) == Added(c, b0, b1, b2, b3)
    ensures a0 == b0 && a1 == b1 && a2 == b2 && a3 == b3
  {
    hide Xor, Up, Added, Ups;
    AddedIs(c, a0, a1, a2, a3);
    AddedIs(c, b0, b1, b2, b3);
    XorCancel(Ups(a0, a1, a2, a3), Ups(b0, b1, b2, b3), c);
    UpsAre(a0, a1, a2, a3);
    UpsAre(b0, b1, b2, b3);
    WordDetermines(a0, a1, a2, a3, b0, b1, b2, b3);
  }

  lemma FourBytesInjective(c: u32, v: Bytes, w: Bytes)
    requires |v| == |w| == 4
    requires FeedAll(c, v) == FeedAll(c, w)
    ensures v == w
  {
    hide Bit8, FeedAll, ToOctet, ToByte, Added;
    var x := Added(c, ToOctet(v[0]), ToOctet(v[1]), ToOctet(v[2]), ToOctet(v[3]));
    var y := Added(c, ToOctet(w[0]), ToOctet(w[1]), ToOctet(w[2]), ToOctet(w[3]));
    FeedFour(c, v);
    FeedFour(c, w);
    Bit8Injective(Bit8(Bit8(Bit8(x))), Bit8(Bit8(Bit8(y))));
    Bit8Injective(Bit8(Bit8(x)), Bit8(Bit8(y)));
    Bit8Injective(Bit8(x), Bit8(y));
    Bit8Injective(x, y);
    AddedInjective(c, ToOctet(v[0]), ToOctet(v[1]), ToOctet(v[2]), ToOctet(v[3]),
                   ToOctet(w[0]), ToOctet(w[1]), ToOctet(w[2]), ToOctet(w[3]));
    ByteRoundTrip(v[0]);
    ByteRoundTrip(v[1]);
    ByteRoundTrip(v[2]);
    ByteRoundTrip(v[3]);
    ByteRoundTrip(w[0]);
    ByteRoundTrip(w[1]);
    ByteRoundTrip(w[2]);
    ByteRoundTrip(w[3]);
  }

  /** Two different runs of at most four bytes lead one state to different states. */
  lemma ShortRunInjective(c: u32, v: Bytes, w: Bytes)
    requires |v| == |w| <= 4
    requires FeedAll(c, v) == FeedAll(c, w)
    ensures v == w
  {
    hide FeedAll;
    var pad: Bytes := seq(4 - |v|, _ => 0);
    FeedAllConcat(c, v, pad);
    FeedAllConcat(c, w, pad);
    FourBytesInjective(c, v + pad, w + pad);
    assert v == (v + pad)[..|v|] == (w + pad)[..|v|] == w;
  }

  /** The payloads agree outside `[at, at + width)`. */
  ghost predicate DifferInWindow(p: Bytes, q: Bytes, at: nat, width: nat)
  {
    && |p| == |q| && at + width <= |p|
    && p[..at] == q[..at] && p[at + width..] == q[at + width..]
  }

  /** Damage confined to four consecutive bytes of a payload always changes the checksum. */
  lemma BurstDetected(p: Bytes, q: Bytes, at: nat, width: nat)
    requires DifferInWindow(p, q, at, width) && width <= 4
    requires p != q
    ensures Crc(p) != Crc(q)
  {
    hide FeedAll, Xor;
    var v, w := p[at..at + width], q[at..at + width];
    assert p == (p[..at] + v) + p[at + width..];
    assert q == (q[..at] + w) + q[at + width..];
    FeedAllConcat(ONES, p[..at] + v, p[at + width..]);
    FeedAllConcat(ONES, q[..at] + w, q[at + width..]);
    FeedAllConcat(ONES, p[..at], v);
    FeedAllConcat(ONES, q[..at], w);
    if Crc(p) == Crc(q) {
      XorCancel(FeedAll(ONES, p), FeedAll(ONES, q), ONES);
      FeedAllInjective(FeedAll(ONES, p[..at] + v), FeedAll(ONES, q[..at] + w), p[at + width..]);
      ShortRunInjective(FeedAll(ONES, p[..at]), v, w);
      assert false;
    }
  }

  // ----- What singles this checksum out.

  lemma WordOctets(v: u32)
    ensures ToOctet(WordBytes(v)[0]) == LowOctet(v) && ToOctet(WordBytes(v)[1]) == LowOctet(Drop8(v))
    ensures ToOctet(WordBytes(v)[2]) == LowOctet(Drop8(Drop8(v)))
    ensures ToOctet(WordBytes(v)[3]) == LowOctet(Drop8(Drop8(Drop8(v))))
  {
    hide ToOctet, ToByte, LowOctet, Drop8;
    var v1 := Drop8(v);
    var v2 := Drop8(v1);
    var v3 := Drop8(v2);
    assert WordBytes(v) == [ToByte(LowOctet(v))] + LowBytes(v1, 3);
    assert LowBytes(v1, 3) == [ToByte(LowOctet(v1))] + LowBytes(v2, 2);
    assert LowBytes(v2, 2) == [ToByte(LowOctet(v2)), ToByte(LowOctet(v3))];
    OctetRoundTrip(LowOctet(v));
    OctetRoundTrip(LowOctet(v1));
    OctetRoundTrip(LowOctet(v2));
    OctetRoundTrip(LowOctet(v3));
  }

  lemma OctetsMakeWord(v: u32)
    ensures Ups(LowOctet(v), LowOctet(Drop8(v)), LowOctet(Drop8(Drop8(v))), LowOctet(Drop8(Drop8(Drop8(v))))) == v
  {
  }

  lemma XorTwice(c: u32, p: u32)
    ensures Xor(c, Xor(c, p)) == p
  {
  }

  lemma DivideOnes()
    ensures Bit8(0xFFFFFFFF) == 0x2DFD1072 && Bit8(0x2DFD1072) == 0xBE26ED00
    ensures Bit8(0xBE26ED00) == 0x00BE26ED && Bit8(0x00BE26ED) == 0xDEBB20E3
  {
    hide Bit;
    BitsEight(0xFFFFFFFF);
    BitsEight(0x2DFD1072);
    BitsEight(0xBE26ED00);
    BitsEight(0x00BE26ED);
    DivideEach();
  }

  lemma DivideEach()
    ensures Bit(Bit(Bit(Bit(Bit(Bit(Bit(Bit(0xFFFFFFFF)))))))) == 0x2DFD1072
    ensures Bit(Bit(Bit(Bit(Bit(Bit(Bit(Bit(0x2DFD1072)))))))) == 0xBE26ED00
    ensures Bit(Bit(Bit(Bit(Bit(Bit(Bit(Bit(0xBE26ED00)))))))) == 0x00BE26ED
    ensures Bit(Bit(Bit(Bit(Bit(Bit(Bit(Bit(0x00BE26ED)))))))) == 0xDEBB20E3
  {
  }

  /** Whatever comes first, its checksum behind it leads to one and the same value. */
  lemma Residue(p: Bytes)
    ensures Crc([]) == 0 && Crc(p + WordBytes(Crc(p))) == 0x2144DF1C
  {
    hide Bit8, ToOctet, FeedAll, Ups, Added, LowOctet, Drop8, Xor, WordBytes;
    var c, w := FeedAll(ONES, p), WordBytes(Crc(p));
    FeedAllConcat(ONES, p, w);
    FeedFour(c, w);
    WordOctets(Crc(p));
    OctetsMakeWord(Crc(p));
    AddedIs(c, ToOctet(w[0]), ToOctet(w[1]), ToOctet(w[2]), ToOctet(w[3]));
    XorTwice(c, ONES);
    DivideOnes();
    LastXor();
  }

  lemma LastXor()
    ensures Xor(0xDEBB20E3, ONES) == 0x2144DF1C && Xor(FeedAll(ONES, []), ONES) == 0
  {
  }
}
