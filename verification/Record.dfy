/** The framing of log records: `[length][crc32][payload]`. */
module Record {
  import opened Bytes
  import opened Octets
  import opened Crc32

  const HEADER_BYTES: nat := 8
  const MAX_PAYLOAD_BYTES: nat := 64 * 1024 * 1024

  function Frame(payload: Bytes): (r: Bytes)
    ensures |r| == HEADER_BYTES + |payload|
  {
    SizeBytes(|payload|) + WordBytes(Crc(payload)) + payload
  }

  /** What reading one record at the head of a buffer can find. */
  datatype Parsed = Ok(payload: Bytes) | Incomplete | Corrupt

  function ParseHead(s: Bytes): (r: Parsed)
    ensures r.Ok? ==> HEADER_BYTES + |r.payload| <= |s| && |r.payload| <= MAX_PAYLOAD_BYTES
  {
    if HEADER_BYTES > |s| then Incomplete
    else
      var length := ReadSize(s, 0);
      if length > MAX_PAYLOAD_BYTES then Corrupt
      else if HEADER_BYTES + length > |s| then Incomplete
      else if WordBytes(Crc(s[HEADER_BYTES..HEADER_BYTES + length])) != s[4..8] then Corrupt
      else Ok(s[HEADER_BYTES..HEADER_BYTES + length])
  }

  method BuildFrame(table: array<u32>, payload: Bytes) returns (out: Bytes)
    requires IsTable(table[..])
    ensures out == Frame(payload)
  {
    var crc := Compute(table, payload);
    out := SizeBytes(|payload|);
    out := out + WordBytes(crc);
    out := out + payload;
  }

  method ParseRecord(table: array<u32>, buffer: Bytes, offset: nat) returns (r: Parsed, nextOffset: nat)
    requires IsTable(table[..])
    requires offset <= |buffer|
    ensures r == ParseHead(buffer[offset..])
    ensures nextOffset == if r.Ok? then offset + HEADER_BYTES + |r.payload| else offset
    ensures r.Ok? ==> nextOffset <= |buffer|
  {
    hide Crc, IsTable, ReadSize, WordBytes;
    nextOffset := offset;
    if offset + HEADER_BYTES > |buffer| {
      return Incomplete, nextOffset;
    }
    var s := buffer[offset..];
    var length, expected := ReadSize(s, 0), s[4..8];
    if length > MAX_PAYLOAD_BYTES {
      return Corrupt, nextOffset;
    }
    var bodyStart := offset + HEADER_BYTES;
    if bodyStart + length > |buffer| {
      return Incomplete, nextOffset;
    }
    var body := buffer[bodyStart..bodyStart + length];
    assert body == s[HEADER_BYTES..HEADER_BYTES + length];
    var actual := Compute(table, body);
    if WordBytes(actual) != expected {
      return Corrupt, nextOffset;
    }
    nextOffset := bodyStart + length;
    r := Ok(body);
  }

  // ----- One record.

  lemma HeaderOfFrame(payload: Bytes, s: Bytes)
    requires Frame(payload) <= s
    ensures ReadSize(s, 0) == ReadNat(SizeBytes(|payload|))
    ensures s[4..8] == WordBytes(Crc(payload))
    ensures s[HEADER_BYTES..HEADER_BYTES + |payload|] == payload
  {
    hide Crc, SizeBytes, WordBytes, ReadNat;
    var f := Frame(payload);
    assert s[..|f|] == f;
    assert s[0..4] == f[0..4] == SizeBytes(|payload|);
    assert s[4..8] == f[4..8];
    assert s[HEADER_BYTES..HEADER_BYTES + |payload|] == f[HEADER_BYTES..];
  }

  /** Reading succeeds exactly on the frames of payloads within the limit: framing is a bijection. */
  lemma ParseExact(s: Bytes, payload: Bytes)
    ensures ParseHead(s) == Ok(payload) <==> |payload| <= MAX_PAYLOAD_BYTES && Frame(payload) <= s
  {
    hide Crc, ReadSize, SizeBytes, WordBytes, ReadNat;
    if |payload| <= MAX_PAYLOAD_BYTES && Frame(payload) <= s {
      HeaderOfFrame(payload, s);
      SizeRoundTrip(|payload|);
    }
    if ParseHead(s) == Ok(payload) {
      SizeBytesOfRead(s, 0);
      assert s[..HEADER_BYTES + |payload|] == s[0..4] + s[4..8] + payload;
      assert Frame(payload) == s[..HEADER_BYTES + |payload|];
    }
  }

  /** A record cut anywhere is recognised as cut, never as damaged or as another record. */
  lemma CutFrameIsIncomplete(payload: Bytes, k: nat)
    requires |payload| <= MAX_PAYLOAD_BYTES && k < |Frame(payload)|
    ensures ParseHead(Frame(payload)[..k]) == Incomplete
  {
    hide Crc, ReadNat, SizeBytes, WordBytes;
    var f := Frame(payload);
    if k >= HEADER_BYTES {
      HeaderOfFrame(payload, f);
      SizeRoundTrip(|payload|);
      assert f[..k][0..4] == f[0..4];
    }
  }

  /** More bytes never change a verdict already reached. */
  lemma ParseMonotone(s: Bytes, t: Bytes)
    requires s <= t && ParseHead(s) != Incomplete
    ensures ParseHead(t) == ParseHead(s)
  {
    hide Crc, ReadNat, WordBytes;
    assert s[0..4] == t[0..4] && s[4..8] == t[4..8];
    var n := ReadSize(s, 0);
    if HEADER_BYTES + n <= |s| {
      assert s[HEADER_BYTES..HEADER_BYTES + n] == t[HEADER_BYTES..HEADER_BYTES + n];
    }
  }

  /** `append` never refuses a payload, but only those within the limit can be read back. */
  lemma FrameReadableIff(payload: Bytes, rest: Bytes)
    ensures ParseHead(Frame(payload) + rest) == Ok(payload) <==> |payload| <= 64 * 1024 * 1024
  {
    hide Frame;
    ParseExact(Frame(payload) + rest, payload);
  }

  // ----- Streams of records.

  function Frames(payloads: seq<Bytes>): Bytes
  {
    if payloads == [] then [] else Frame(payloads[0]) + Frames(payloads[1..])
  }

  predicate Readable(payloads: seq<Bytes>) { forall p <- payloads :: |p| <= MAX_PAYLOAD_BYTES }

  lemma {:induction false} FramesConcat(ps: seq<Bytes>, qs: seq<Bytes>)
    ensures Frames(ps + qs) == Frames(ps) + Frames(qs)
  {
    hide Frame;
    if ps == [] {
      assert ps + qs == qs;
    } else {
      assert (ps + qs)[1..] == ps[1..] + qs;
      FramesConcat(ps[1..], qs);
    }
  }

  /** The records at the head of a buffer, what is left, and why reading stopped. */
  datatype Scan = Scan(payloads: seq<Bytes>, rest: Bytes, corrupt: bool)

  function ScanAll(s: Bytes): (r: Scan)
    ensures |r.rest| <= |s|
    decreases |s|
  {
    match ParseHead(s)
    case Ok(p) =>
      var r := ScanAll(s[HEADER_BYTES + |p|..]);
      r.(payloads := [p] + r.payloads)
    case Incomplete => Scan([], s, false)
    case Corrupt => Scan([], s, true)
  }

  lemma ScanStep(p: Bytes, tail: Bytes)
    requires |p| <= MAX_PAYLOAD_BYTES
    ensures var r := ScanAll(tail); ScanAll(Frame(p) + tail) == r.(payloads := [p] + r.payloads)
  {
    hide Frame, ParseHead;
    var s := Frame(p) + tail;
    ParseExact(s, p);
    assert s[HEADER_BYTES + |p|..] == tail;
  }

  lemma FramesStep(ps: seq<Bytes>, rest: Bytes)
    requires ps != []
    ensures Frames(ps) + rest == Frame(ps[0]) + (Frames(ps[1..]) + rest)
  {
    hide Frame;
  }

  /** Scanning splits the buffer into whole frames and an unreadable remainder. */
  lemma {:induction false} ScanSound(s: Bytes)
    ensures var r := ScanAll(s);
            && s == Frames(r.payloads) + r.rest
            && Readable(r.payloads)
            && !ParseHead(r.rest).Ok? && r.corrupt == ParseHead(r.rest).Corrupt?
    decreases |s|
  {
    hide Frame, ParseHead, ScanAll;
    if ParseHead(s).Ok? {
      hide Frames;
      var p := ParseHead(s).payload;
      ParseExact(s, p);
      var t := s[HEADER_BYTES + |p|..];
      assert s == Frame(p) + t;
      ScanStep(p, t);
      ScanSound(t);
      var r := ScanAll(s);
      assert r.payloads[1..] == ScanAll(t).payloads;
      FramesStep(r.payloads, r.rest);
    } else {
      ScanStuck(s);
    }
  }

  /** And it is the only such split. */
  lemma {:induction false} ScanFrames(ps: seq<Bytes>, rest: Bytes)
    requires Readable(ps)
    ensures var r := ScanAll(rest);
            ScanAll(Frames(ps) + rest) == r.(payloads := ps + r.payloads)
    decreases |ps|
  {
    hide Frame, ScanAll;
    var found := ScanAll(rest).payloads;
    if ps == [] {
      assert Frames(ps) + rest == rest && ps + found == found;
    } else {
      hide Frames;
      FramesStep(ps, rest);
      ScanFrames(ps[1..], rest);
      ScanStep(ps[0], Frames(ps[1..]) + rest);
      assert [ps[0]] + (ps[1..] + found) == ps + found;
    }
  }

  lemma ScanStuck(s: Bytes)
    requires !ParseHead(s).Ok?
    ensures ScanAll(s) == Scan([], s, ParseHead(s).Corrupt?)
  {
    hide ParseHead;
  }

  lemma ScanUnique(s: Bytes, ps: seq<Bytes>, rest: Bytes)
    requires s == Frames(ps) + rest && Readable(ps) && !ParseHead(rest).Ok?
    ensures ScanAll(s) == Scan(ps, rest, ParseHead(rest).Corrupt?)
  {
    hide ParseHead, Frames, ScanAll;
    ScanFrames(ps, rest);
    ScanStuck(rest);
    assert ps + [] == ps;
  }

  // ----- Incremental reading, as a stream arrives in chunks.

  /** The receiver keeps what it could not parse yet and stops at damage. */
  function Receive(had: Scan, chunk: Bytes): Scan
  {
    if had.corrupt then had.(rest := had.rest + chunk)
    else
      var r := ScanAll(had.rest + chunk);
      r.(payloads := had.payloads + r.payloads)
  }

  function ReceiveAll(chunks: seq<Bytes>): Scan
  {
    if chunks == [] then Scan([], [], false)
    else Receive(ReceiveAll(chunks[..|chunks| - 1]), chunks[|chunks| - 1])
  }

  function Joined(chunks: seq<Bytes>): Bytes
  {
    if chunks == [] then [] else Joined(chunks[..|chunks| - 1]) + chunks[|chunks| - 1]
  }

  lemma StillStuck(s: Bytes, chunk: Bytes)
    requires ParseHead(s).Corrupt?
    ensures ScanAll(s + chunk) == Scan([], s + chunk, true)
  {
    hide ParseHead, ScanAll;
    ParseMonotone(s, s + chunk);
    ScanStuck(s + chunk);
  }

  lemma ReceiveOne(s: Bytes, chunk: Bytes)
    ensures Receive(ScanAll(s), chunk) == ScanAll(s + chunk)
  {
    hide ParseHead, Frames, ScanAll, Readable;
    var r := ScanAll(s);
    ScanSound(s);
    assert s + chunk == Frames(r.payloads) + (r.rest + chunk);
    ScanFrames(r.payloads, r.rest + chunk);
    if r.corrupt {
      StillStuck(r.rest, chunk);
      assert r.payloads + [] == r.payloads;
    }
  }

  /** However a stream is cut into chunks, the same records come out. */
  lemma {:induction false} ChunkingIrrelevant(chunks: seq<Bytes>)
    ensures ReceiveAll(chunks) == ScanAll(Joined(chunks))
  {
    hide ParseHead, Receive;
    if chunks == [] {
      assert ParseHead([]) == Incomplete by { ParseEmpty(); }
    } else {
      ChunkingIrrelevant(chunks[..|chunks| - 1]);
      ReceiveOne(Joined(chunks[..|chunks| - 1]), chunks[|chunks| - 1]);
    }
  }

  lemma ParseEmpty()
    ensures ParseHead([]) == Incomplete
  {
  }

  lemma DamagedHead(p: Bytes, q: Bytes, after: Bytes, at: nat, width: nat)
    requires |p| <= MAX_PAYLOAD_BYTES && DifferInWindow(p, q, at, width) && width <= 4 && p != q
    ensures ParseHead(Frame(p)[..HEADER_BYTES] + q + after) == Corrupt
  {
    hide Crc, ReadNat, SizeBytes, WordBytes, DifferInWindow;
    var s := Frame(p)[..HEADER_BYTES] + q + after;
    BurstDetected(p, q, at, width);
    assert |q| == |p| by { WindowLength(p, q, at, width); }
    HeaderOfFrame(p, Frame(p));
    SizeRoundTrip(|p|);
    assert s[0..4] == Frame(p)[0..4] && s[4..8] == Frame(p)[4..8];
    if WordBytes(Crc(q)) == s[4..8] {
      WordBytesInjective(Crc(p), Crc(q));
    }
    assert s[HEADER_BYTES..HEADER_BYTES + |q|] == q;
  }

  /** A payload damaged inside four consecutive bytes is found at exactly that record. */
  lemma DamageFound(before: seq<Bytes>, p: Bytes, q: Bytes, after: Bytes, at: nat, width: nat)
    requires Readable(before) && |p| <= MAX_PAYLOAD_BYTES
    requires DifferInWindow(p, q, at, width) && width <= 4 && p != q
    ensures var s := Frame(p)[..HEADER_BYTES] + q + after;
            ScanAll(Frames(before) + s) == Scan(before, s, true)
  {
    hide Frame, ParseHead, Frames, DifferInWindow, ScanAll, Readable;
    var s := Frame(p)[..HEADER_BYTES] + q + after;
    DamagedHead(p, q, after, at, width);
    ScanUnique(Frames(before) + s, before, s);
  }

  lemma WindowLength(p: Bytes, q: Bytes, at: nat, width: nat)
    requires DifferInWindow(p, q, at, width)
    ensures |p| == |q|
  {
  }
}
