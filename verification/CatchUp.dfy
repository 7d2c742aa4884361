/** What a follower gains from a whole log, and what it can never receive. */
module CatchUp {
  import opened Bytes
  import opened Record
  import opened Kv
  import opened Replay
  import opened Recovery
  import opened Replication

  // ----- When the link is dropped.

  lemma {:induction false} TotalConcat(ps: seq<Bytes>, qs: seq<Bytes>)
    ensures Total(ps + qs) == Total(ps) + Total(qs)
  {
    if qs == [] {
      assert ps + qs == ps;
    } else {
      assert (ps + qs)[..|ps + qs| - 1] == ps + qs[..|qs| - 1];
      TotalConcat(ps, qs[..|qs| - 1]);
    }
  }

  lemma TotalOne(p: Bytes)
    ensures Total([p]) == |p|
  {
    var ps: seq<Bytes> := [p];
    assert ps[..0] == [];
  }

  /** What is pending once the whole records received are taken. */
  function Due(f: Follower): nat { f.pendingBytes + Total(ScanAll(f.recv).payloads) }

  /** On a leader's log the link is dropped exactly when the records pending would exceed the limit. */
  lemma {:induction false} DropsIff(ops: seq<Op>, f: Follower)
    requires Loggable(ops) && Following(ops, f)
    ensures Absorb(f).None? <==> Due(f) > 64 * 1024 * 1024
    decreases |f.recv|
  {
    hide Loggable, ParseHead, Frame, ScanAll, Got, Clean, Rested, LogBytes, Recover;
    NeverCorrupt(ops, f);
    if ParseHead(f.recv).Ok? {
      var p := ParseHead(f.recv).payload;
      var g := Buffer(f, p);
      ParseExact(f.recv, p);
      assert f.recv == Frame(p) + g.recv;
      ScanStep(p, g.recv);
      TotalConcat([p], ScanAll(g.recv).payloads);
      TotalOne(p);
      if g.pendingBytes <= MAX_BUFFERED_BYTES {
        BufferFollows(ops, f, p);
        DropsIff(ops, g);
      }
    } else {
      ScanStuck(f.recv);
    }
  }

  lemma WholeLogSettles(ops: seq<Op>)
    requires Loggable(ops)
    ensures Clean(LogBytes(ops)) && Settled(Recover(LogBytes(ops)).state)
    ensures Recover(LogBytes(ops)).state.kv == ApplyOps(map[], ops)
  {
    hide Loggable, LogBytes, Replayed, WholeOps, ApplyOps;
    var n := |LogBytes(ops)|;
    CrashRecovery(ops, n);
    WholeOpsAll(ops, n);
    assert ops[..|ops|] == ops && LogBytes(ops)[..n] == LogBytes(ops);
  }

  /** Delivering the rest of a log, in one read, brings the follower level with it and acknowledges all of it. */
  lemma DeliveringAllCatchesUp(ops: seq<Op>, f: Follower, chunk: Bytes)
    requires Loggable(ops) && Following(ops, f) && Got(f) + f.recv + chunk == LogBytes(ops)
    requires Due(f.(recv := f.recv + chunk)) <= MAX_BUFFERED_BYTES
    ensures var r := Consume(f, chunk);
            && r.up && r.f.log == LogBytes(ops) && r.f.st.kv == ApplyOps(map[], ops) && r.f.token == f.token
            && r.f.recv == [] && r.f.pending == []
            && (f.log != LogBytes(ops) ==> r.ack == Some(|LogBytes(ops)|))
  {
    hide Loggable, LogBytes, Replayed, ParseHead, Absorb, Got, Rested, ApplyOps, Frames, StepPayload, ApplyPayloads, Due;
    var g := f.(recv := f.recv + chunk);
    MoreReceived(ops, f, chunk);
    DropsIff(ops, g);
    AbsorbFollows(ops, g);
    var h := Absorb(g).value;
    WholeLogSettles(ops);
    LastRecordWhole(ops, h);
    FlushFollows(ops, h);
    if h.pending == [] {
      assert Got(h) == h.log by { NothingPending(h); }
      FollowingRests(ops, h);
      RestedMap(h);
    } else {
      FollowingRests(ops, Flush(h).0);
      RestedMap(Flush(h).0);
    }
  }

  lemma NothingPending(f: Follower)
    requires f.pending == []
    ensures Got(f) == f.log
  {
    NoFrames();
  }

  lemma RestedMap(f: Follower)
    requires Rested(f)
    ensures f.st.kv == Recover(f.log).state.kv
  {
    hide Recover;
  }

  /** With a whole log received, nothing is left in the buffer and no transaction is open. */
  lemma LastRecordWhole(ops: seq<Op>, f: Follower)
    requires Loggable(ops) && Following(ops, f) && ParseHead(f.recv) == Incomplete && Got(f) + f.recv == LogBytes(ops)
    ensures f.recv == [] && !f.inside && Got(f) == LogBytes(ops)
  {
    hide Loggable, LogBytes, ParseHead, Frames, Same;
    WholeLogSettles(ops);
    ReplayExtended(Got(f), EMPTY, f.recv);
    assert f.recv == [];
    assert Got(f) + [] == Got(f);
  }

  // ----- The size limit.

  function OpSize(op: Op): nat { Total(Payloads(OpEntries(op))) }

  /** No more is due than has been received. */
  lemma {:induction false} TotalWithin(ps: seq<Bytes>)
    ensures Total(ps) <= |Frames(ps)|
  {
    hide Frame;
    if ps != [] {
      TotalWithin(ps[1..]);
      assert ps == [ps[0]] + ps[1..];
      TotalConcat([ps[0]], ps[1..]);
      TotalOne(ps[0]);
    }
  }

  lemma DueWithin(f: Follower)
    ensures Due(f) <= f.pendingBytes + |f.recv|
  {
    hide ScanAll, Frames;
    ScanSound(f.recv);
    TotalWithin(ScanAll(f.recv).payloads);
  }

  lemma FramesInjective(ps: seq<Bytes>, qs: seq<Bytes>)
    requires Readable(ps) && Readable(qs) && Frames(ps) == Frames(qs)
    ensures ps == qs
  {
    hide Frames, ParseHead, ScanAll;
    ParseEmpty();
    assert Frames(ps) + [] == Frames(ps) && Frames(qs) + [] == Frames(qs);
    ScanUnique(Frames(ps), ps, []);
    ScanUnique(Frames(qs), qs, []);
  }

  lemma LogEntriesConcat(ops: seq<Op>, more: seq<Op>)
    ensures LogEntries(ops + more) == LogEntries(ops) + LogEntries(more)
    decreases |more|
  {
    hide OpEntries;
    if more == [] {
      assert ops + more == ops;
    } else {
      assert (ops + more)[..|ops + more| - 1] == ops + more[..|more| - 1];
      LogEntriesConcat(ops, more[..|more| - 1]);
    }
  }

  lemma {:induction false} OpWithinTotal(ops: seq<Op>, j: nat)
    requires j < |ops|
    ensures OpSize(ops[j]) <= Total(Payloads(LogEntries(ops)))
    decreases |ops|
  {
    hide OpEntries, Payloads, Total;
    var init, last := ops[..|ops| - 1], ops[|ops| - 1];
    PayloadsConcat(LogEntries(init), OpEntries(last));
    TotalConcat(Payloads(LogEntries(init)), Payloads(OpEntries(last)));
    if j < |init| {
      OpWithinTotal(init, j);
    }
  }

  /** The records flushed at once are those of whole operations, and together within the limit. */
  lemma FlushedOpsAreSmall(ops: seq<Op>, f: Follower)
    requires Loggable(ops) && Following(ops, f) && !f.inside
    ensures var k, n := WholeOps(ops, |f.log|), WholeOps(ops, |Got(f)|);
            && f.log == LogBytes(ops[..k]) && Got(f) == LogBytes(ops[..n])
            && (k <= n ==> f.pending == Payloads(LogEntries(ops[k..n])))
            && (k <= n ==> forall j | k <= j < n :: OpSize(ops[j]) <= MAX_BUFFERED_BYTES)
  {
    hide Loggable, WholeOps, Replayed, Same, ApplyOps, Payloads, LogEntries, Frames, OpSize, Total;
    var k, n := WholeOps(ops, |f.log|), WholeOps(ops, |Got(f)|);
    assert f.log <= Got(f) <= Got(f) + f.recv;
    PrefixOfRun(ops, f.log);
    PrefixOfRun(ops, Got(f));
    if k <= n {
      var added := ops[k..n];
      assert ops[..n] == ops[..k] + added;
      LogBytesConcat(ops[..k], added);
      assert Got(f)[|f.log|..] == Frames(f.pending);
      assert (LogBytes(ops[..k]) + LogBytes(added))[|f.log|..] == LogBytes(added);
      PartLoggable(ops, k, n);
      LoggableEntries(added);
      FramesInjective(f.pending, Payloads(LogEntries(added)));
      forall j | k <= j < n ensures OpSize(ops[j]) <= MAX_BUFFERED_BYTES {
        OpWithinTotal(added, j - k);
        assert added[j - k] == ops[j];
      }
    }
  }

  lemma PartLoggable(ops: seq<Op>, k: nat, n: nat)
    requires Loggable(ops) && k <= n <= |ops|
    ensures Loggable(ops[k..n])
  {
    hide LoggableOp;
  }

  /** Every operation wholly inside the log is within the limit. */
  ghost predicate WithinLimit(ops: seq<Op>, log: Bytes)
  {
    forall j | 0 <= j < |ops| && |LogBytes(ops[..j + 1])| <= |log| :: OpSize(ops[j]) <= MAX_BUFFERED_BYTES
  }

  lemma {:induction false} LongerLog(ops: seq<Op>, i: nat, j: nat)
    requires i <= j <= |ops|
    ensures |LogBytes(ops[..i])| <= |LogBytes(ops[..j])|
  {
    hide LogBytes;
    assert ops[..j] == ops[..i] + ops[i..j];
    LogBytesConcat(ops[..i], ops[i..j]);
  }

  lemma FlushWithinLimit(ops: seq<Op>, f: Follower)
    requires Loggable(ops) && Following(ops, f) && !f.inside && WithinLimit(ops, f.log)
    ensures WithinLimit(ops, Got(f))
  {
    hide Loggable, WholeOps, LogBytes, Following, OpSize, Got;
    FlushedOpsAreSmall(ops, f);
    var k, n := WholeOps(ops, |f.log|), WholeOps(ops, |Got(f)|);
    forall j | 0 <= j < |ops| && |LogBytes(ops[..j + 1])| <= |Got(f)|
      ensures OpSize(ops[j]) <= MAX_BUFFERED_BYTES
    {
      WholeOpsMost(ops, |Got(f)|, j + 1);
      if |LogBytes(ops[..j + 1])| > |f.log| {
        if j < k {
          LongerLog(ops, j + 1, k);
        }
      }
    }
  }

  lemma {:induction false} WholeOpsMost(ops: seq<Op>, n: nat, j: nat)
    requires j <= |ops| && |LogBytes(ops[..j])| <= n
    ensures j <= WholeOps(ops, n)
    decreases |ops|
  {
    hide LogBytes;
    if ops != [] && |LogBytes(ops)| > n {
      assert ops[..|ops|] == ops;
      assert ops[..|ops| - 1][..j] == ops[..j];
      WholeOpsMost(ops[..|ops| - 1], n, j);
    }
  }

  lemma ConsumeWithinLimit(ops: seq<Op>, f: Follower, chunk: Bytes)
    requires Loggable(ops) && Following(ops, f) && Got(f) + f.recv + chunk <= LogBytes(ops) && WithinLimit(ops, f.log)
    ensures WithinLimit(ops, Consume(f, chunk).f.log)
  {
    hide Loggable, Following, Got, ParseHead, Absorb, WithinLimit, LogBytes;
    var g := f.(recv := f.recv + chunk);
    MoreReceived(ops, f, chunk);
    AbsorbFollows(ops, g);
    match Absorb(g)
    case None =>
    case Some(h) =>
      if !h.inside && h.pending != [] {
        FlushWithinLimit(ops, h);
        FlushFollows(ops, h);
      }
  }

  lemma NoBytesNoSize(op: Op)
    requires OpBytes(op) == []
    ensures OpSize(op) == 0
  {
    hide OpEntries;
    NonEmptyFrames(Payloads(OpEntries(op)));
  }

  lemma EmptyWithinLimit(ops: seq<Op>)
    ensures WithinLimit(ops, [])
  {
    hide LogBytes, OpBytes, OpSize;
    forall j | 0 <= j < |ops| && |LogBytes(ops[..j + 1])| <= 0 ensures OpSize(ops[j]) <= MAX_BUFFERED_BYTES {
      LogBytesSnoc(ops[..j + 1]);
      NoBytesNoSize(ops[j]);
    }
  }

  lemma AppendWithinLimit(ops: seq<Op>, op: Op, log: Bytes)
    requires WithinLimit(ops, log) && |log| <= |LogBytes(ops)|
    ensures WithinLimit(ops + [op], log)
  {
    hide LogBytes, OpBytes, OpSize;
    var all := ops + [op];
    forall j | 0 <= j < |all| && |LogBytes(all[..j + 1])| <= |log| ensures OpSize(all[j]) <= MAX_BUFFERED_BYTES {
      if j < |ops| {
        assert all[..j + 1] == ops[..j + 1];
      } else {
        assert all[..j + 1] == all && all[..|all| - 1] == ops;
        LogBytesSnoc(all);
        NoBytesNoSize(op);
      }
    }
  }
}
