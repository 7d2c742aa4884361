/** A leader that recovered inside a transaction and wrote on, as its follower sees it. */
module OpenLog {
  import opened Bytes
  import opened Protocol
  import opened Record
  import opened Kv
  import opened Replay
  import opened Recovery
  import opened Replication
  import opened CatchUp
  import opened Reads

  function Tracked(ps: seq<Bytes>, inside: bool): bool
    decreases |ps|
  {
    if ps == [] then inside else Tracked(ps[1..], TracksInside(ps[0], inside))
  }

  function Taken(f: Follower, p: Bytes, rest: Bytes): Follower
  {
    f.(recv := rest, pending := f.pending + [p], pendingBytes := f.pendingBytes + |p|,
       inside := TracksInside(p, f.inside))
  }

  lemma AbsorbOne(f: Follower, p: Bytes, rest: Bytes)
    requires |p| <= MAX_PAYLOAD_BYTES && f.recv == Frame(p) + rest
    ensures Absorb(f) == if f.pendingBytes + |p| > MAX_BUFFERED_BYTES then None else Absorb(Taken(f, p, rest))
  {
    hide Frame, ParseHead, TracksInside;
    ParseExact(f.recv, p);
    assert f.recv[HEADER_BYTES + |p|..] == rest;
  }

  function AllTaken(f: Follower, ps: seq<Bytes>): Follower
  {
    f.(recv := [], pending := f.pending + ps, pendingBytes := f.pendingBytes + Total(ps), inside := Tracked(ps, f.inside))
  }

  lemma OneTaken(f: Follower, ps: seq<Bytes>, rest: Bytes)
    requires ps != []
    ensures AllTaken(Taken(f, ps[0], rest), ps[1..]) == AllTaken(f, ps) && Total(ps) == |ps[0]| + Total(ps[1..])
  {
    hide TracksInside, Total;
    assert ps == [ps[0]] + ps[1..];
    TotalConcat([ps[0]], ps[1..]);
    TotalOne(ps[0]);
    assert f.pending + [ps[0]] + ps[1..] == f.pending + ps;
  }

  /** Whole records are all taken, unless together they exceed the limit. */
  lemma {:induction false} AbsorbFrames(f: Follower, ps: seq<Bytes>)
    requires Readable(ps) && f.recv == Frames(ps) && f.pendingBytes <= MAX_BUFFERED_BYTES
    ensures Absorb(f) == if f.pendingBytes + Total(ps) > MAX_BUFFERED_BYTES then None else Some(AllTaken(f, ps))
    decreases |ps|
  {
    hide Frame, TracksInside, Absorb;
    if ps == [] {
      AbsorbNothing(f);
      assert f.pending + ps == f.pending;
    } else {
      hide Total, Frames, Readable, AllTaken;
      assert Readable(ps[1..]) && |ps[0]| <= MAX_PAYLOAD_BYTES by { ReadableParts(ps); }
      var rest := Frames(ps[1..]);
      FramesHead(ps);
      OneTaken(f, ps, rest);
      AbsorbOne(f, ps[0], rest);
      if f.pendingBytes + |ps[0]| <= MAX_BUFFERED_BYTES {
        AbsorbFrames(Taken(f, ps[0], rest), ps[1..]);
      }
    }
  }

  lemma ReadableParts(ps: seq<Bytes>)
    requires Readable(ps) && ps != []
    ensures Readable(ps[1..]) && |ps[0]| <= MAX_PAYLOAD_BYTES
  {
    assert ps[0] in ps;
  }

  lemma AbsorbNothing(f: Follower)
    requires f.recv == []
    ensures Absorb(f) == Some(f)
  {
    hide ParseHead;
    ParseEmpty();
  }

  // ----- The same records in any number of reads.

  /** Taking records from what is received goes on where it stopped. */
  lemma {:induction false} AbsorbParts(f: Follower, x: Bytes, y: Bytes)
    ensures Absorb(f.(recv := x + y)) ==
            match Absorb(f.(recv := x))
            case None => None
            case Some(g) => Absorb(g.(recv := g.recv + y))
    decreases |x|
  {
    hide ParseHead, TracksInside;
    if !ParseHead(x).Incomplete? {
      ParseMonotone(x, x + y);
    }
    if ParseHead(x).Ok? {
      var p := ParseHead(x).payload;
      var n := HEADER_BYTES + |p|;
      assert (x + y)[n..] == x[n..] + y;
      AbsorbParts(Buffer(f.(recv := x), p), x[n..], y);
    }
  }

  /** Only the last of these records can close a transaction. */
  predicate StaysOpen(ps: seq<Bytes>, inside: bool)
  {
    |ps| > 1 ==> TracksInside(ps[0], inside) && forall i | 0 < i < |ps| - 1 :: TracksInside(ps[i], true)
  }

  lemma OpenRest(ps: seq<Bytes>, inside: bool)
    requires |ps| > 1 && StaysOpen(ps, inside)
    ensures TracksInside(ps[0], inside) && StaysOpen(ps[1..], true)
  {
    hide TracksInside;
    var rest := ps[1..];
    assert |rest| > 1 ==> rest[0] == ps[1];
    assert forall i | 0 < i < |rest| - 1 :: rest[i] == ps[i + 1];
  }

  /** Waiting for more, with the log and the state as they were. */
  predicate Waits(f: Follower, g: Follower)
  {
    (g.inside || g.pending == []) && g.log == f.log && g.st == f.st
  }

  /** As long as the last record is not complete there is nothing to flush. */
  lemma {:induction false} CutStaysOpen(f: Follower, ps: seq<Bytes>)
    requires Readable(ps) && f.recv < Frames(ps) && StaysOpen(ps, f.inside) && (f.inside || f.pending == [])
    ensures Absorb(f).Some? ==> Waits(f, Absorb(f).value)
    decreases |ps|
  {
    hide Frame, Frames, TracksInside, Absorb, StaysOpen, Readable;
    if ps == [] {
      NoFrames();
    } else {
      assert |ps[0]| <= MAX_PAYLOAD_BYTES && Readable(ps[1..]) by { ReadableParts(ps); }
      var head, rest := Frame(ps[0]), Frames(ps[1..]);
      FramesHead(ps);
      if |f.recv| < |head| {
        assert f.recv == head[..|f.recv|];
        CutFrameIsIncomplete(ps[0], |f.recv|);
        AbsorbIncomplete(f);
      } else {
        var more := f.recv[|head|..];
        assert f.recv == head + more && more < rest;
        AbsorbOne(f, ps[0], more);
        if |ps| == 1 {
          NoFrames();
        } else {
          OpenRest(ps, f.inside);
          CutStaysOpen(Taken(f, ps[0], more), ps[1..]);
        }
      }
    }
  }

  lemma AbsorbIncomplete(f: Follower)
    requires ParseHead(f.recv).Incomplete?
    ensures Absorb(f) == Some(f)
  {
  }

  /** Reads of a part of these records: all that is received waits, or the link has dropped with nothing kept. */
  lemma {:induction false} ReadsOfPart(f: Follower, ps: seq<Bytes>, chunks: seq<Bytes>)
    requires Readable(ps) && f == Reset(f) && StaysOpen(ps, false) && Joined(chunks) < Frames(ps)
    ensures var r := ReadAll(f, chunks);
            match Absorb(f.(recv := Joined(chunks)))
            case None => !r.up && r.f.log == f.log && r.f.st.kv == f.st.kv
            case Some(g) => r.up && r.f == g && Waits(f, g)
    decreases |chunks|
  {
    hide Absorb, Frames, StaysOpen, Readable, Flush;
    var all := Joined(chunks);
    CutStaysOpen(f.(recv := all), ps);
    if chunks == [] {
      AbsorbNothing(f);
      assert f.(recv := all) == f;
    } else {
      var init, last := chunks[..|chunks| - 1], chunks[|chunks| - 1];
      ReadsOfPart(f, ps, init);
      AbsorbParts(f, Joined(init), last);
    }
  }

  lemma {:induction false} ApplyIsRun(s: State, es: seq<Entry>)
    requires Readable(Payloads(es)) && Run(s, es).Some?
    ensures ApplyPayloads(s, Payloads(es)) == (Run(s, es).value, true)
    decreases |es|
  {
    hide Step, Encode, Decode;
    if es != [] {
      var ps := Payloads(es);
      assert ps[1..] == Payloads(es[1..]);
      assert ps[0] == Encode(es[0]) && ps[0] in ps;
      ReadableFits(es[0]);
      DecodeExact(ps[0], es[0]);
      ApplyIsRun(Step(s, es[0]).value, es[1..]);
    }
  }

  lemma {:induction false} ApplyStops(s: State, ps: seq<Bytes>, p: Bytes, rest: seq<Bytes>)
    requires ApplyPayloads(s, ps).1 && StepPayload(ApplyPayloads(s, ps).0, p).None?
    ensures ApplyPayloads(s, ps + [p] + rest) == (ApplyPayloads(s, ps).0, false)
    decreases |ps|
  {
    hide StepPayload;
    var all := ps + [p] + rest;
    if ps == [] {
      assert all[0] == p;
    } else {
      assert all[0] == ps[0] && all[1..] == ps[1..] + [p] + rest;
      ApplyStops(StepPayload(s, ps[0]).value, ps[1..], p, rest);
    }
  }

  lemma {:induction false} TrackedToCommit(ps: seq<Bytes>, id: TxnId, inside: bool)
    ensures !Tracked(ps + [Encode(Commit(id))], inside)
    decreases |ps|
  {
    hide TracksInside, Encode;
    var all := ps + [Encode(Commit(id))];
    if ps == [] {
      CommitTracked(id, inside);
      assert all[1..] == [];
    } else {
      assert all[0] == ps[0] && all[1..] == ps[1..] + [Encode(Commit(id))];
      TrackedToCommit(ps[1..], id, TracksInside(ps[0], inside));
    }
  }

  lemma CommitTracked(id: TxnId, inside: bool)
    ensures !TracksInside(Encode(Commit(id)), inside)
  {
    hide NatBytes, ReadId;
    MarkerExact(Encode(Commit(id)), COMMIT_TAG, id);
  }

  /** The records recovery keeps of a torn transaction. */
  function Torn(id: TxnId, mus: seq<Mutation>): seq<Bytes> { Payloads([Begin(id)] + MutationEntries(mus)) }

  function Parted(op: Op): seq<Bytes> { Payloads(OpEntries(op)) }

  lemma BeginStops(s: State, id: TxnId)
    requires s.inside
    ensures StepPayload(s, Encode(Begin(id))).None?
  {
    hide Encode, Decode;
    DecodeExact(Encode(Begin(id)), Begin(id));
  }

  lemma PartedEnds(op: Op)
    requires op.TxnOp? && op.mutations != []
    ensures var ps := Parted(op); |ps| >= 2 && ps[0] == Encode(Begin(op.id)) && ps[|ps| - 1] == Encode(Commit(op.id))
  {
    hide Encode;
  }

  lemma OnlyCommitCloses(id: TxnId, mus: seq<Mutation>, op: Op)
    requires op.TxnOp? && op.mutations != []
    ensures StaysOpen(Torn(id, mus) + Parted(op), false)
  {
    hide Encode, TracksInside;
    var es := [Begin(id)] + MutationEntries(mus) + OpEntries(op);
    var ps := Torn(id, mus) + Parted(op);
    assert ps == Payloads(es);
    OpenTracked(es[0], false);
    forall i | 0 < i < |ps| - 1 ensures TracksInside(ps[i], true) {
      assert ps[i] == Encode(es[i]) && !es[i].Commit?;
      OpenTracked(es[i], true);
    }
  }

  lemma OpenTracked(e: Entry, inside: bool)
    requires !e.Commit? && (inside || e.Begin?)
    ensures TracksInside(Encode(e), inside)
  {
  }

  /** Once all of it is there and within the limit, it is logged and the second begin marker is refused. */
  lemma LastOfOpenLog(f: Follower, id: TxnId, mus: seq<Mutation>, op: Op)
    requires Rested(f) && f == Reset(f) && op.TxnOp? && op.mutations != [] && LoggableOp(op)
    requires Readable(Torn(id, mus)) && Total(Torn(id, mus) + Parted(op)) <= MAX_BUFFERED_BYTES
    ensures var all := Torn(id, mus) + Parted(op);
            var g := AllTaken(f, all);
            && !g.inside && g.pending == all && g.log == f.log
            && !Flush(g).1 && Flush(g).0.log == f.log + Frames(all) && Flush(g).0.st.kv == f.st.kv
  {
    hide Frames, Total, StepPayload, Torn, Parted, Encode, Run, Recover, Same, Readable;
    var torn, ps := Torn(id, mus), Parted(op);
    var all := torn + ps;
    PartedEnds(op);
    var begin, rest := ps[0], ps[1..];
    assert all == torn + [begin] + rest;
    TornOpens(f.st, id, mus);
    BeginStops(ApplyPayloads(f.st, torn).0, op.id);
    ApplyStops(f.st, torn, begin, rest);
    assert all == all[..|all| - 1] + [Encode(Commit(op.id))];
    TrackedToCommit(all[..|all| - 1], op.id, false);
    assert [] + all == all;
  }

  /**
    A leader that recovered inside a transaction and then logs another one, read in any pieces by a follower level
    with it until then: the link drops. Within the buffer limit the follower has logged all of it, refused the second
    begin marker, and is left with a log its own recovery does not accept; beyond it, it has kept nothing.
   */
  lemma {:induction false} OpenLogStopsFollower(f: Follower, id: TxnId, mus: seq<Mutation>, op: Op, chunks: seq<Bytes>)
    requires Rested(f) && f == Reset(f) && op.TxnOp? && op.mutations != [] && LoggableOp(op)
    requires Readable(Torn(id, mus)) && Joined(chunks) == Frames(Torn(id, mus) + Parted(op))
    ensures var all, r := Torn(id, mus) + Parted(op), ReadAll(f, chunks);
            && !r.up && r.f.st.kv == f.st.kv
            && if Total(all) <= MAX_BUFFERED_BYTES then r.f.log == f.log + Frames(all) && !Clean(r.f.log)
               else r.f.log == f.log
    decreases |chunks|
  {
    hide Frames, Total, Torn, Parted, Readable, Rested, Absorb, Flush, AllTaken, Clean, StaysOpen;
    var all := Torn(id, mus) + Parted(op);
    FramesNotEmpty(id, mus, op);
    var init, last := chunks[..|chunks| - 1], chunks[|chunks| - 1];
    if last == [] {
      assert Joined(init) == Joined(chunks);
      OpenLogStopsFollower(f, id, mus, op, init);
    } else {
      assert Readable(all) by { BothReadable(Torn(id, mus), op); }
      OnlyCommitCloses(id, mus, op);
      ReadsOfPart(f, all, init);
      AbsorbParts(f, Joined(init), last);
      AbsorbFrames(f.(recv := Frames(all)), all);
      TornLogStuck(f, id, mus, op);
      if Total(all) <= MAX_BUFFERED_BYTES {
        LastOfOpenLog(f, id, mus, op);
        AllTakenSame(f, Frames(all), all);
      }
    }
  }

  /**
    Until it logs another transaction nothing of what that leader writes arrives: sets and deletes are records like
    those of the torn transaction, and wait behind its begin marker.
   */
  lemma OpenLogHoldsFollower(f: Follower, id: TxnId, mus: seq<Mutation>, chunks: seq<Bytes>)
    requires f == Reset(f) && Readable(Torn(id, mus)) && Joined(chunks) <= Frames(Torn(id, mus))
    ensures var r := ReadAll(f, chunks); r.f.log == f.log && r.f.st.kv == f.st.kv
  {
    hide Frames, Torn, Parted, Readable, Absorb, ReadAll, StaysOpen, LoggableOp, Reset, Joined;
    var torn, op := Torn(id, mus), TxnOp(0, [Erase([])]);
    var ps := torn + Parted(op);
    SmallTransaction();
    assert Readable(ps) by { BothReadable(torn, op); }
    OnlyCommitCloses(id, mus, op);
    FramesConcat(torn, Parted(op));
    PartedEnds(op);
    FramesHead(Parted(op));
    ReadsOfPart(f, ps, chunks);
  }

  lemma AllTakenSame(f: Follower, recv: Bytes, ps: seq<Bytes>)
    ensures AllTaken(f.(recv := recv), ps) == AllTaken(f, ps)
  {
  }

  lemma FramesNotEmpty(id: TxnId, mus: seq<Mutation>, op: Op)
    ensures Torn(id, mus) + Parted(op) != [] && Frames(Torn(id, mus) + Parted(op)) != []
  {
    hide Encode, Frame;
    var ps := Torn(id, mus) + Parted(op);
    FramesHead(ps);
  }

  lemma BothReadable(torn: seq<Bytes>, op: Op)
    requires Readable(torn) && LoggableOp(op)
    ensures Readable(Parted(op)) && Readable(torn + Parted(op))
  {
  }

  lemma TornOpens(s: State, id: TxnId, mus: seq<Mutation>)
    requires Settled(s) && Readable(Torn(id, mus))
    ensures ApplyPayloads(s, Torn(id, mus)) == (State(s.kv, true, id, mus), true)
  {
    hide Run, Payloads, MutationEntries;
    RunBegun(s, id, mus);
    ApplyIsRun(s, [Begin(id)] + MutationEntries(mus));
  }

  lemma FramesHead(ps: seq<Bytes>)
    requires ps != []
    ensures Frames(ps) == Frame(ps[0]) + Frames(ps[1..])
  {
    hide Frame;
  }

  lemma Regroup(a: Bytes, b: Bytes, c: Bytes, d: Bytes)
    ensures a + (b + (c + d)) == a + b + c + d
  {
  }

  lemma TornLogStuck(f: Follower, id: TxnId, mus: seq<Mutation>, op: Op)
    requires Rested(f) && op.TxnOp? && op.mutations != [] && LoggableOp(op) && Readable(Torn(id, mus))
    ensures !Clean(f.log + Frames(Torn(id, mus) + Parted(op)))
  {
    hide Frames, Frame, StepPayload, Torn, Parted, Encode, Recover, Readable;
    var torn, ps, s := Torn(id, mus), Parted(op), Recover(f.log).state;
    PartedEnds(op);
    assert |ps[0]| <= MAX_PAYLOAD_BYTES by { BothReadable(torn, op); ReadableParts(ps); }
    assert Settled(s);
    TornOpens(s, id, mus);
    CleanApply(f.log, torn);
    var log := f.log + Frames(torn);
    BeginStops(Recover(log).state, op.id);
    FramesConcat(torn, ps);
    var first, rest := Frame(ps[0]), Frames(ps[1..]);
    FramesHead(ps);
    StuckStays(log, ps[0], rest);
    Regroup(f.log, Frames(torn), first, rest);
  }
}
