/** A log that reaches a follower in reads of one size or another. */
module Reads {
  import opened Bytes
  import opened Record
  import opened Kv
  import opened Replay
  import opened Recovery
  import opened Replication
  import opened CatchUp

  /** One read after the other, until the link drops. */
  function ReadAll(f: Follower, chunks: seq<Bytes>): Received
  {
    if chunks == [] then Received(f, true, None)
    else
      var r := ReadAll(f, chunks[..|chunks| - 1]);
      if r.up then Consume(r.f, chunks[|chunks| - 1]) else r
  }

  /** Where the last of equal pieces begins. */
  function LastPiece(n: nat, size: nat): (k: nat)
    requires n > 0 && size > 0
    ensures k < n <= k + size
  {
    if n <= size then 0 else size + LastPiece(n - size, size)
  }

  /** A stream that arrives in full reads, the last one perhaps shorter. */
  function Pieces(data: Bytes, size: nat): seq<Bytes>
    requires size > 0
    decreases |data|
  {
    if data == [] then []
    else
      var k := LastPiece(|data|, size);
      Pieces(data[..k], size) + [data[k..]]
  }

  lemma {:induction false} PiecesJoin(data: Bytes, size: nat)
    requires size > 0
    ensures Joined(Pieces(data, size)) == data
    ensures forall i | 0 <= i < |Pieces(data, size)| :: 0 < |Pieces(data, size)[i]| <= size
    decreases |data|
  {
    if data != [] {
      var k := LastPiece(|data|, size);
      PiecesJoin(data[..k], size);
      var ps := Pieces(data, size);
      assert ps[..|ps| - 1] == Pieces(data[..k], size);
    }
  }

  // ----- A byte at a time: every operation is flushed as soon as it is complete.

  ghost function Position(f: Follower): nat { |Got(f)| + |f.recv| }

  ghost predicate Eager(ops: seq<Op>, f: Follower)
  {
    Following(ops, f) && f.log == LogBytes(ops[..WholeOps(ops, Position(f))])
  }

  lemma RestedIsEager(ops: seq<Op>, f: Follower)
    requires Loggable(ops) && Rested(f) && f == Reset(f) && f.log <= LogBytes(ops)
    ensures Eager(ops, f) && Position(f) == |f.log| && Got(f) + f.recv == f.log
  {
    hide Loggable, LogBytes, Recover, WholeOps, ApplyOps, Got, Following;
    RestedFollows(ops, f);
    PrefixOfRun(ops, f.log);
    assert f.log + [] == f.log;
  }

  lemma DueIsScan(f: Follower)
    requires Readable(f.pending) && f.pendingBytes == Total(f.pending)
    ensures Due(f) == Total(ScanAll(Frames(f.pending) + f.recv).payloads)
  {
    hide Frames, ScanAll, Total, Readable;
    ScanFrames(f.pending, f.recv);
    TotalConcat(f.pending, ScanAll(f.recv).payloads);
  }

  /** What is due between the start of an operation and its end is within its size. */
  lemma DueWithinOp(ops: seq<Op>, f: Follower, k: nat)
    requires Loggable(ops) && Following(ops, f) && k < |ops|
    requires f.log == LogBytes(ops[..k]) && Position(f) <= |LogBytes(ops[..k + 1])|
    ensures Due(f) <= OpSize(ops[k])
  {
    hide Loggable, LogBytes, Recover, Frames, ScanAll, Clean, Rested, OpEntries, Payloads, Total, Due, Readable;
    var ps, m := Payloads(OpEntries(ops[k])), Position(f) - |f.log|;
    var b := Frames(f.pending) + f.recv;
    OpReadable(ops, k);
    OpAt(ops, k);
    assert Got(f) + f.recv == f.log + b;
    SamePart(f.log, b, OpBytes(ops[k]), LogBytes(ops));
    DueIsScan(f);
    ScanPartTotal(ps, m);
  }

  lemma OpReadable(ops: seq<Op>, k: nat)
    requires Loggable(ops) && k < |ops|
    ensures Readable(Payloads(OpEntries(ops[k])))
  {
    assert LoggableOp(ops[k]);
  }

  lemma SamePart(before: Bytes, a: Bytes, b: Bytes, all: Bytes)
    requires before + a <= all && before + b <= all && |a| <= |b|
    ensures a == b[..|a|]
  {
    assert a == all[|before|..|before| + |a|] && b == all[|before|..|before| + |b|];
  }

  lemma OpAt(ops: seq<Op>, k: nat)
    requires k < |ops|
    ensures LogBytes(ops[..k + 1]) == LogBytes(ops[..k]) + OpBytes(ops[k]) && LogBytes(ops[..k + 1]) <= LogBytes(ops)
  {
    hide LogBytes, OpBytes;
    LogBytesSnoc(ops[..k + 1]);
    assert ops[..k + 1][..k] == ops[..k];
    assert ops == ops[..k + 1] + ops[k + 1..];
    LogBytesConcat(ops[..k + 1], ops[k + 1..]);
  }

  lemma ScanPartTotal(ps: seq<Bytes>, m: nat)
    requires Readable(ps) && m <= |Frames(ps)|
    ensures Total(ScanAll(Frames(ps)[..m]).payloads) <= Total(ps)
  {
    hide Frames, ScanAll, Total, Readable, WholeRecords;
    ScanPart(ps, m);
    var j := WholeRecords(ps, m);
    assert ps == ps[..j] + ps[j..];
    TotalConcat(ps[..j], ps[j..]);
  }

  lemma ScanPart(ps: seq<Bytes>, m: nat)
    requires Readable(ps) && m <= |Frames(ps)|
    ensures WholeRecords(ps, m) <= |ps| && ScanAll(Frames(ps)[..m]).payloads == ps[..WholeRecords(ps, m)]
  {
    hide Frames, ScanAll, ParseHead, Frame, WholeRecords;
    var j := WholeRecords(ps, m);
    var tail := CutFrames(ps, m);
    ParseEmpty();
    if tail != [] {
      CutFrameIsIncomplete(ps[j], |tail|);
    }
    ScanUnique(Frames(ps)[..m], ps[..j], tail);
  }

  /** Taking whole records changes nothing that recovery would find. */
  lemma AbsorbedState(ops: seq<Op>, f: Follower)
    requires Loggable(ops) && Following(ops, f) && ParseHead(f.recv) == Incomplete
    ensures var r := Recover(Got(f) + f.recv);
            f.inside == r.state.inside && r.consumed == |Got(f)|
  {
    hide Loggable, LogBytes, ParseHead, Frames, Rested, StepPayload;
    ReplayExtended(Got(f), EMPTY, f.recv);
  }

  ghost predicate AllWithin(ops: seq<Op>) { forall op <- ops :: OpSize(op) <= MAX_BUFFERED_BYTES }

  /** One more byte, of an operation within the limit. */
  lemma ReadByte(ops: seq<Op>, f: Follower, b: byte)
    requires Loggable(ops) && Eager(ops, f) && Got(f) + f.recv + [b] <= LogBytes(ops)
    requires AllWithin(ops)
    ensures var r := Consume(f, [b]);
            && r.up && Eager(ops, r.f) && Got(r.f) + r.f.recv == Got(f) + f.recv + [b] && r.f.token == f.token
  {
    hide Loggable, LogBytes, Recover, Following, WholeOps, Got, Rested, ParseHead, Absorb, Due, OpSize, ApplyOps;
    hide Frames, Flush;
    var g := f.(recv := f.recv + [b]);
    var n, k := Position(f), WholeOps(ops, Position(f));
    MoreReceived(ops, f, [b]);
    CrashRecovery(ops, n);
    assert ops[..|ops|] == ops && |Got(f) + f.recv + [b]| == n + 1;
    DueWithinOp(ops, g, k);
    assert OpSize(ops[k]) <= MAX_BUFFERED_BYTES;
    DropsIff(ops, g);
    AbsorbFollows(ops, g);
    var h := Absorb(g).value;
    ConsumeFollows(ops, f, [b]);
    FlushedInTime(ops, f, h, n + 1);
    if !h.inside && h.pending != [] {
      FlushFollows(ops, h);
    }
  }

  /** After one more byte an operation just completed is outside any transaction, and one not completed is not. */
  lemma FlushedInTime(ops: seq<Op>, f: Follower, h: Follower, n: nat)
    requires Loggable(ops) && Eager(ops, f) && Following(ops, h) && ParseHead(h.recv) == Incomplete
    requires h.log == f.log && n == Position(h) == Position(f) + 1
    ensures (if h.inside || h.pending == [] then h.log else Got(h)) == LogBytes(ops[..WholeOps(ops, n)])
  {
    hide Loggable, LogBytes, Recover, Following, WholeOps, Rested, ParseHead, ApplyOps, Frames, Got;
    var k, k' := WholeOps(ops, n - 1), WholeOps(ops, n);
    var all := Got(h) + h.recv;
    FollowsPrefix(ops, f);
    FollowsPrefix(ops, h);
    AbsorbedState(ops, h);
    CrashRecovery(ops, n);
    CrashRecovery(ops, n - 1);
    assert LogBytes(ops)[..n] == all;
    if h.inside {
      WholeOpsMost(ops, n - 1, k');
      WholeOpsMost(ops, n, k);
    } else {
      LogPrefix(ops, k');
      assert Got(h) == LogBytes(ops[..k']);
      if h.pending == [] {
        NothingPending(h);
      }
    }
  }

  lemma FollowsPrefix(ops: seq<Op>, f: Follower)
    requires Following(ops, f)
    ensures Got(f) + f.recv <= LogBytes(ops) && Position(f) <= |LogBytes(ops)|
  {
    hide LogBytes, Recover, Rested, Clean, Got;
  }

  lemma LogPrefix(ops: seq<Op>, k: nat)
    requires k <= |ops|
    ensures LogBytes(ops[..k]) <= LogBytes(ops)
  {
    hide LogBytes;
    assert ops == ops[..k] + ops[k..];
    LogBytesConcat(ops[..k], ops[k..]);
  }

  /** Read a byte at a time, operations within the limit all arrive. */
  lemma {:induction false} BytesArrive(ops: seq<Op>, f: Follower, data: Bytes)
    requires Loggable(ops) && Eager(ops, f) && Got(f) + f.recv + data <= LogBytes(ops)
    requires AllWithin(ops)
    ensures var r := ReadAll(f, Pieces(data, 1));
            && r.up && Eager(ops, r.f) && Got(r.f) + r.f.recv == Got(f) + f.recv + data && r.f.token == f.token
    decreases |data|
  {
    hide Loggable, LogBytes, Eager, Got, OpSize, Consume;
    if data == [] {
      assert Got(f) + f.recv + data == Got(f) + f.recv;
    } else {
      var init, last := data[..|data| - 1], data[|data| - 1];
      assert Got(f) + f.recv + data == (Got(f) + f.recv + init) + [last];
      BytesArrive(ops, f, init);
      var ps := Pieces(data, 1);
      assert LastPiece(|data|, 1) == |data| - 1 by { LastByte(|data|); }
      assert data[|data| - 1..] == [last];
      assert ps[..|ps| - 1] == Pieces(init, 1);
      ReadByte(ops, ReadAll(f, Pieces(init, 1)).f, last);
    }
  }

  lemma {:induction false} LastByte(n: nat)
    requires n > 0
    ensures LastPiece(n, 1) == n - 1
  {
    if n > 1 {
      LastByte(n - 1);
    }
  }

  // ----- Which logs can arrive at all.

  lemma {:induction false} ReadsWithinLimit(ops: seq<Op>, f: Follower, chunks: seq<Bytes>)
    requires Loggable(ops) && Following(ops, f) && WithinLimit(ops, f.log)
    requires Got(f) + f.recv + Joined(chunks) <= LogBytes(ops)
    ensures var r := ReadAll(f, chunks);
            && WithinLimit(ops, r.f.log)
            && (r.up ==> Following(ops, r.f) && Got(r.f) + r.f.recv == Got(f) + f.recv + Joined(chunks))
  {
    hide Loggable, LogBytes, Following, Got, WithinLimit, Consume;
    if chunks == [] {
      assert Got(f) + f.recv + Joined(chunks) == Got(f) + f.recv;
    } else {
      var init, last := chunks[..|chunks| - 1], chunks[|chunks| - 1];
      assert Got(f) + f.recv + Joined(chunks) == (Got(f) + f.recv + Joined(init)) + last;
      ReadsWithinLimit(ops, f, init);
      var r := ReadAll(f, init);
      if r.up {
        ConsumeWithinLimit(ops, r.f, last);
        ConsumeFollows(ops, r.f, last);
      }
    }
  }

  ghost predicate Readings(chunks: seq<Bytes>) { forall i | 0 <= i < |chunks| :: 0 < |chunks[i]| <= READ_CHUNK_BYTES }

  /** These reads bring the follower level with the log. */
  ghost predicate Arrives(ops: seq<Op>, f: Follower, chunks: seq<Bytes>)
  {
    && Readings(chunks) && f.log + Joined(chunks) == LogBytes(ops)
    && ReadAll(f, chunks).up && ReadAll(f, chunks).f.log == LogBytes(ops)
  }

  /** Some reads bring a follower level with a log exactly when no operation of it exceeds the limit. */
  lemma SomeReadsArriveIff(ops: seq<Op>, f: Follower)
    requires Loggable(ops) && Rested(f) && f == Reset(f) && f.log <= LogBytes(ops) && WithinLimit(ops, f.log)
    ensures (exists chunks :: Arrives(ops, f, chunks)) <==> AllWithin(ops)
  {
    hide Loggable, LogBytes, Rested, OpSize, Eager, Following, Got, ReadAll, WithinLimit;
    RestedIsEager(ops, f);
    EagerFollows(ops, f);
    if chunks :| Arrives(ops, f, chunks) {
      ReadsWithinLimit(ops, f, chunks);
      WholeWithinLimit(ops);
    }
    if AllWithin(ops) {
      ByteReadsArrive(ops, f);
      assert Arrives(ops, f, Pieces(LogBytes(ops)[|f.log|..], 1));
    }
  }

  lemma EagerFollows(ops: seq<Op>, f: Follower)
    requires Eager(ops, f)
    ensures Following(ops, f)
  {
  }

  lemma WholeWithinLimit(ops: seq<Op>)
    requires WithinLimit(ops, LogBytes(ops))
    ensures AllWithin(ops)
  {
    hide LogBytes, OpSize;
    forall j | 0 <= j < |ops| ensures OpSize(ops[j]) <= MAX_BUFFERED_BYTES {
      LogPrefix(ops, j + 1);
    }
  }

  lemma ByteReadsArrive(ops: seq<Op>, f: Follower)
    requires Loggable(ops) && Rested(f) && f == Reset(f) && f.log <= LogBytes(ops)
    requires AllWithin(ops)
    ensures Arrives(ops, f, Pieces(LogBytes(ops)[|f.log|..], 1))
    ensures var r := ReadAll(f, Pieces(LogBytes(ops)[|f.log|..], 1));
            r.f.st.kv == ApplyOps(map[], ops) && r.f.token == f.token
  {
    hide Loggable, LogBytes, Rested, OpSize, Got, ReadAll, Following, WholeOps, ApplyOps, Recover;
    var data := LogBytes(ops)[|f.log|..];
    RestedIsEager(ops, f);
    assert f.log + data == LogBytes(ops);
    BytesArrive(ops, f, data);
    PiecesJoin(data, 1);
    var r := ReadAll(f, Pieces(data, 1));
    WholeOpsAll(ops, Position(r.f));
    assert ops[..|ops|] == ops;
    FollowingRests(ops, r.f);
    RestedMap(r.f);
    WholeLogSettles(ops);
  }

  // ----- Reads that end at the wrong places.

  /** The first `n` reads all end inside a transaction. */
  ghost predicate EndInside(log: Bytes, chunks: seq<Bytes>, n: nat)
    requires n <= |chunks|
  {
    forall i | 0 < i <= n :: Recover(log + Joined(chunks[..i])).state.inside
  }

  lemma EndInsideInit(log: Bytes, chunks: seq<Bytes>)
    requires chunks != [] && EndInside(log, chunks, |chunks| - 1)
    ensures EndInside(log, chunks[..|chunks| - 1], |chunks| - 1)
  {
    hide Recover, Joined;
    var init := chunks[..|chunks| - 1];
    forall i | 0 < i <= |init| ensures Recover(log + Joined(init[..i])).state.inside {
      assert init[..i] == chunks[..i];
    }
  }

  /** As long as every read ends inside a transaction nothing is flushed. */
  lemma {:induction false} NothingFlushed(ops: seq<Op>, f: Follower, chunks: seq<Bytes>)
    requires Loggable(ops) && Rested(f) && f == Reset(f) && f.log + Joined(chunks) <= LogBytes(ops)
    requires EndInside(f.log, chunks, |chunks|)
    ensures var r := ReadAll(f, chunks);
            && r.f.log == f.log
            && (r.up ==> Following(ops, r.f) && Got(r.f) + r.f.recv == f.log + Joined(chunks))
  {
    hide Loggable, LogBytes, Rested, Got, Following, Recover, Consume, Reset, Eager;
    if chunks == [] {
      assert f.log + Joined(chunks) == f.log;
      RestedIsEager(ops, f);
      EagerFollows(ops, f);
    } else {
      var init, last := chunks[..|chunks| - 1], chunks[|chunks| - 1];
      assert Recover(f.log + Joined(chunks[..|chunks|])).state.inside && chunks[..|chunks|] == chunks;
      EndInsideInit(f.log, chunks);
      assert f.log + Joined(chunks) == (f.log + Joined(init)) + last;
      NothingFlushed(ops, f, init);
      var r := ReadAll(f, init);
      if r.up {
        StillInside(ops, r.f, last);
      }
    }
  }

  lemma StillInside(ops: seq<Op>, f: Follower, chunk: Bytes)
    requires Loggable(ops) && Following(ops, f) && Got(f) + f.recv + chunk <= LogBytes(ops)
    requires Recover(Got(f) + f.recv + chunk).state.inside
    ensures Consume(f, chunk).f.log == f.log
    ensures var r := Consume(f, chunk); r.up ==> Following(ops, r.f) && Got(r.f) + r.f.recv == Got(f) + f.recv + chunk
  {
    hide Loggable, LogBytes, Rested, Got, Following, Recover, Absorb, ParseHead, Flush;
    var g := f.(recv := f.recv + chunk);
    MoreReceived(ops, f, chunk);
    AbsorbFollows(ops, g);
    if Absorb(g).Some? {
      AbsorbedState(ops, Absorb(g).value);
    }
  }

  /** Reads that end inside transactions until more than the limit is due drop the link, and nothing has been kept. */
  lemma UnluckyReadsDrop(ops: seq<Op>, f: Follower, chunks: seq<Bytes>)
    requires Loggable(ops) && Rested(f) && f == Reset(f) && f.log + Joined(chunks) <= LogBytes(ops) && chunks != []
    requires EndInside(f.log, chunks, |chunks| - 1)
    requires Total(ScanAll(Joined(chunks)).payloads) > MAX_BUFFERED_BYTES
    ensures var r := ReadAll(f, chunks); !r.up && r.f.log == f.log
  {
    hide Loggable, LogBytes, Rested, Following, Recover, ScanAll, Total, Got, Consume, EndInside, Reset;
    var init, last := chunks[..|chunks| - 1], chunks[|chunks| - 1];
    EndInsideInit(f.log, chunks);
    assert f.log + Joined(chunks) == (f.log + Joined(init)) + last;
    NothingFlushed(ops, f, init);
    if ReadAll(f, init).up {
      LastReadDrops(ops, ReadAll(f, init).f, last, Joined(chunks));
    }
  }

  lemma LastReadDrops(ops: seq<Op>, f: Follower, chunk: Bytes, all: Bytes)
    requires Loggable(ops) && Following(ops, f) && Got(f) + f.recv + chunk == f.log + all <= LogBytes(ops)
    requires Total(ScanAll(all).payloads) > MAX_BUFFERED_BYTES
    ensures var r := Consume(f, chunk); !r.up && r.f.log == f.log
  {
    hide Loggable, LogBytes, Rested, Following, Recover, Absorb, ScanAll, Due, Frames, Total;
    var g := f.(recv := f.recv + chunk);
    MoreReceived(ops, f, chunk);
    DropsIff(ops, g);
    PendingCounted(ops, g);
    DueIsScan(g);
    var b := Frames(g.pending) + g.recv;
    assert f.log + b == f.log + all;
    assert b == (f.log + b)[|f.log|..] == all;
  }

  lemma PendingCounted(ops: seq<Op>, f: Follower)
    requires Following(ops, f)
    ensures Readable(f.pending) && f.pendingBytes == Total(f.pending)
  {
    hide LogBytes, Rested, Recover, Clean;
  }

  // ----- Two transactions, each within the limit, that full reads never deliver.

  const MEBIBYTE: nat := 1024 * 1024

  function Large(): Op { TxnOp(0, [Put([], seq(40 * MEBIBYTE, _ => 0))]) }

  function Pair(): seq<Op> { [Large(), Large()] }

  lemma LargeFacts()
    ensures LoggableOp(Large()) && |OpBytes(Large())| == 40 * MEBIBYTE + 51
    ensures OpSize(Large()) == 40 * MEBIBYTE + 27
  {
    hide Frame, Frames, NatBytes, Total;
    var ps := Payloads(OpEntries(Large()));
    assert |ps| == 3 && |ps[0]| == 9 && |ps[1]| == 9 + 40 * MEBIBYTE && |ps[2]| == 9;
    ThreeFrames(ps);
    ThreeTotal(ps);
  }

  lemma ThreeTotal(ps: seq<Bytes>)
    requires |ps| == 3
    ensures Total(ps) == |ps[0]| + |ps[1]| + |ps[2]|
  {
    hide Total;
    assert ps == [ps[0]] + ([ps[1]] + [ps[2]]);
    TotalConcat([ps[0]], [ps[1]] + [ps[2]]);
    TotalConcat([ps[1]], [ps[2]]);
    TotalOne(ps[0]);
    TotalOne(ps[1]);
    TotalOne(ps[2]);
  }

  /** Full reads end at multiples of their size. */
  lemma {:induction false} LastPieceAt(n: nat) returns (q: nat)
    requires n > 0
    ensures LastPiece(n, 65536) == 65536 * q
  {
    if n <= 65536 {
      q := 0;
    } else {
      var p := LastPieceAt(n - 65536);
      q := p + 1;
    }
  }

  lemma {:induction false} FullPieces(data: Bytes, q: nat)
    requires |data| == 65536 * q
    ensures |Pieces(data, 65536)| == q
    decreases q
  {
    if q > 0 {
      var p := LastPieceAt(|data|);
      FullPieces(data[..65536 * p], p);
    }
  }

  lemma {:induction false} PiecesAt(data: Bytes, i: nat)
    requires i < |Pieces(data, 65536)|
    ensures 65536 * i < |data| && Joined(Pieces(data, 65536)[..i]) == data[..65536 * i]
    decreases |data|
  {
    var q := LastPieceAt(|data|);
    var k, ps := 65536 * q, Pieces(data, 65536);
    FullPieces(data[..k], q);
    var init := Pieces(data[..k], 65536);
    assert ps == init + [data[k..]];
    if i < q {
      PiecesAt(data[..k], i);
      assert ps[..i] == init[..i] && data[..k][..65536 * i] == data[..65536 * i];
    } else {
      PiecesJoin(data[..k], 65536);
      assert ps[..i] == init;
    }
  }

  lemma PieceIsFull(data: Bytes, i: nat)
    requires i + 1 < |Pieces(data, 65536)|
    ensures |Pieces(data, 65536)[i]| == 65536
  {
    hide Pieces;
    PiecesAt(data, i);
    PiecesAt(data, i + 1);
    var ps := Pieces(data, 65536);
    assert ps[..i + 1][..i] == ps[..i] && ps[..i + 1][i] == ps[i];
  }

  lemma WholeOfTwo(op: Op, n: nat)
    requires LogBytes([]) == [] && |LogBytes([op])| > 0 && n < |LogBytes([op, op])|
    ensures WholeOps([op, op], n) == if |LogBytes([op])| <= n then 1 else 0
  {
    hide LogBytes;
    var ops := [op, op];
    assert ops[..1] == [op] && [op][..0] == [];
  }

  /** Every full read of two such transactions ends inside one of them. */
  lemma FullReadEndsInside(i: nat)
    requires 0 < 65536 * i < |LogBytes(Pair())|
    ensures Recover(LogBytes(Pair())[..65536 * i]).state.inside
  {
    hide LogBytes, OpBytes, Recover, LoggableOp, Large, WholeOps, Total, ScanAll;
    var op := Large();
    var ops, n := [op, op], 65536 * i;
    LargeLog();
    WholeOfTwo(op, n);
    assert ops == Pair() && ops[..1] == [op] && ops[..0] == [];
    LeftOpenIff(ops, n);
    IsLarge();
  }

  lemma IsLarge()
    ensures Large().TxnOp? && Large().mutations != []
  {
  }

  lemma LargeLog()
    ensures LogBytes([]) == [] && |LogBytes([Large()])| == 40 * MEBIBYTE + 51
    ensures |LogBytes(Pair())| == 80 * MEBIBYTE + 102 && Loggable(Pair()) && AllWithin(Pair())
    ensures Total(ScanAll(LogBytes(Pair())).payloads) > MAX_BUFFERED_BYTES
  {
    hide LogBytes, OpBytes, LoggableOp, Large, OpSize;
    var op := Large();
    assert Pair() == [op, op];
    EmptyLog();
    LargeFacts();
    SingletonLog(op);
    assert [op, op] == [op] + [op];
    LogBytesConcat([op], [op]);
    TwiceDue(op);
  }

  lemma OneOpEntries(op: Op)
    ensures LogEntries([op]) == OpEntries(op)
  {
    hide OpEntries;
    assert [op][..0] == [];
    assert [] + OpEntries(op) == OpEntries(op);
  }

  lemma TwiceDue(op: Op)
    requires LoggableOp(op)
    ensures Total(ScanAll(LogBytes([op, op])).payloads) == 2 * OpSize(op)
  {
    hide Frames, ScanAll, Total, Payloads, OpEntries, ParseHead, LogEntries;
    var ops := [op, op];
    var ps := Payloads(OpEntries(op));
    assert ops == [op] + [op];
    LogEntriesConcat([op], [op]);
    assert LogEntries([op]) == OpEntries(op) by { OneOpEntries(op); }
    PayloadsConcat(OpEntries(op), OpEntries(op));
    LoggableEntries(ops);
    ParseEmpty();
    assert LogBytes(ops) + [] == LogBytes(ops);
    ScanUnique(LogBytes(ops), ps + ps, []);
    TotalConcat(ps, ps);
  }

  lemma FullReadsEndInside()
    ensures var chunks := Pieces(LogBytes(Pair()), READ_CHUNK_BYTES);
            chunks != [] && EndInside([], chunks, |chunks| - 1)
  {
    hide LogBytes, Pair, Recover, Joined, Total, ScanAll, Loggable, AllWithin;
    var log := LogBytes(Pair());
    LargeLog();
    var chunks := Pieces(log, 65536);
    forall i | 0 < i <= |chunks| - 1 ensures Recover([] + Joined(chunks[..i])).state.inside {
      PiecesAt(log, i);
      FullReadEndsInside(i);
      assert [] + Joined(chunks[..i]) == log[..65536 * i];
    }
  }

  /**
    Each of the two transactions is within the limit, and read a byte at a time they arrive; in full reads they
    never do, and the follower is where it was.
   */
  lemma FullReadsNeverArrive(f: Follower)
    requires Rested(f) && f == Reset(f) && f.log == []
    ensures AllWithin(Pair())
    ensures Arrives(Pair(), f, Pieces(LogBytes(Pair()), 1))
    ensures var r := ReadAll(f, Pieces(LogBytes(Pair()), READ_CHUNK_BYTES)); !r.up && r.f.log == []
  {
    hide LogBytes, Rested, ReadAll, Pair, Recover, Total, ScanAll, Loggable, Joined, Arrives, Reset, Pieces;
    hide EndInside, AllWithin;
    var ops := Pair();
    LargeLog();
    ByteReadsArrive(ops, f);
    var log := LogBytes(ops);
    assert log[0..] == log && [] + log == log;
    PiecesJoin(log, READ_CHUNK_BYTES);
    FullReadsEndInside();
    UnluckyReadsDrop(ops, f, Pieces(log, READ_CHUNK_BYTES));
  }
}
