/** What survives a crash: the log of a run of operations, cut at any byte, and recovered. */
module Recovery {
  import opened Bytes
  import opened Protocol
  import opened Record
  import opened Kv
  import opened Replay

  function OpBytes(op: Op): Bytes { Frames(Payloads(OpEntries(op))) }

  function LogEntries(ops: seq<Op>): seq<Entry>
  {
    if ops == [] then [] else LogEntries(ops[..|ops| - 1]) + OpEntries(ops[|ops| - 1])
  }

  /** The bytes in the log after these operations. */
  function LogBytes(ops: seq<Op>): Bytes { Frames(Payloads(LogEntries(ops))) }

  /** Every record of the operation is within the size a reader accepts. */
  predicate LoggableOp(op: Op) { Readable(Payloads(OpEntries(op))) }

  predicate Loggable(ops: seq<Op>) { forall op <- ops :: LoggableOp(op) }

  /** How many operations lie wholly inside the first `n` bytes. */
  function WholeOps(ops: seq<Op>, n: nat): (k: nat)
    ensures k <= |ops|
  {
    if ops == [] then 0
    else if |LogBytes(ops)| <= n then |ops|
    else WholeOps(ops[..|ops| - 1], n)
  }

  // ----- Logs of concatenated runs.

  lemma PayloadsConcat(es: seq<Entry>, fs: seq<Entry>)
    ensures Payloads(es + fs) == Payloads(es) + Payloads(fs)
  {
    hide Encode;
  }

  lemma LogBytesSnoc(ops: seq<Op>)
    requires ops != []
    ensures LogBytes(ops) == LogBytes(ops[..|ops| - 1]) + OpBytes(ops[|ops| - 1])
  {
    hide Frames, Payloads, OpEntries;
    var init, last := LogEntries(ops[..|ops| - 1]), OpEntries(ops[|ops| - 1]);
    PayloadsConcat(init, last);
    FramesConcat(Payloads(init), Payloads(last));
  }

  lemma {:induction false} LogBytesConcat(ops: seq<Op>, more: seq<Op>)
    ensures LogBytes(ops + more) == LogBytes(ops) + LogBytes(more)
  {
    hide LogBytes, OpBytes;
    if more == [] {
      assert ops + more == ops;
      assert LogBytes(more) == [] by { EmptyLog(); }
    } else {
      assert (ops + more)[..|ops + more| - 1] == ops + more[..|more| - 1];
      LogBytesConcat(ops, more[..|more| - 1]);
      LogBytesSnoc(ops + more);
      LogBytesSnoc(more);
    }
  }

  lemma EmptyLog()
    ensures LogBytes([]) == []
  {
  }

  lemma SingletonLog(op: Op)
    ensures LogBytes([op]) == OpBytes(op)
  {
    hide LogBytes, OpBytes;
    EmptyLog();
    LogBytesSnoc([op]);
  }

  lemma {:induction false} LoggableEntries(ops: seq<Op>)
    requires Loggable(ops)
    ensures Readable(Payloads(LogEntries(ops)))
  {
    hide OpEntries, Payloads;
    if ops == [] {
      assert Payloads([]) == [];
    } else {
      LoggableEntries(ops[..|ops| - 1]);
      PayloadsConcat(LogEntries(ops[..|ops| - 1]), OpEntries(ops[|ops| - 1]));
      assert LoggableOp(ops[|ops| - 1]);
    }
  }

  // ----- Replaying whole operations.

  /** Outside any transaction, with nothing buffered. */
  predicate Settled(s: State) { !s.inside && s.pending == [] }

  lemma {:induction false} RunBuffered(s: State, mus: seq<Mutation>)
    requires s.inside
    ensures Run(s, MutationEntries(mus)) == Some(s.(pending := s.pending + mus))
    decreases |mus|
  {
    var es := MutationEntries(mus);
    if mus == [] {
      assert s.pending + mus == s.pending;
    } else {
      var t := s.(pending := s.pending + [mus[0]]);
      assert Step(s, es[0]) == Some(t);
      assert es[1..] == MutationEntries(mus[1..]);
      RunBuffered(t, mus[1..]);
      assert s.pending + mus == t.pending + mus[1..];
    }
  }

  lemma RunSingle(s: State, e: Entry)
    ensures Run(s, [e]) == Step(s, e)
  {
    assert [e][1..] == [];
  }

  lemma RunBegun(s: State, id: TxnId, mus: seq<Mutation>)
    requires !s.inside
    ensures Run(s, [Begin(id)] + MutationEntries(mus)) == Some(State(s.kv, true, id, mus))
  {
    RunSingle(s, Begin(id));
    RunConcat(s, [Begin(id)], MutationEntries(mus));
    RunBuffered(State(s.kv, true, id, []), mus);
    assert [] + mus == mus;
  }

  /** Replaying one whole operation does to the map what the operation did. */
  lemma RunOp(s: State, op: Op)
    requires Settled(s)
    ensures var t := Run(s, OpEntries(op));
            t.Some? && Settled(t.value) && t.value.kv == ApplyOp(s.kv, op)
  {
    hide MutationEntries;
    match op
    case SetOp(key, value) => RunSingle(s, Set(key, value)); ApplyOne(s.kv, Put(key, value));
    case DelOp(key) => RunSingle(s, Del(key)); ApplyOne(s.kv, Erase(key));
    case TxnOp(id, mus) =>
      if mus != [] {
        RunBegun(s, id, mus);
        RunConcat(s, [Begin(id)] + MutationEntries(mus), [Commit(id)]);
        RunSingle(State(s.kv, true, id, mus), Commit(id));
      }
  }

  lemma ApplyOne(m: KV, mu: Mutation)
    ensures ApplyAll(m, [mu]) == Apply(m, mu)
  {
    assert [mu][..0] == [];
  }

  lemma {:induction false} RunOps(s: State, ops: seq<Op>)
    requires Settled(s)
    ensures var t := Run(s, LogEntries(ops));
            t.Some? && Settled(t.value) && t.value.kv == ApplyOps(s.kv, ops)
  {
    hide OpEntries, Step, ApplyOp;
    if ops != [] {
      var init, last := ops[..|ops| - 1], ops[|ops| - 1];
      RunOps(s, init);
      RunConcat(s, LogEntries(init), OpEntries(last));
      RunOp(Run(s, LogEntries(init)).value, last);
    }
  }

  lemma ReplayOps(s: State, ops: seq<Op>, rest: Bytes)
    requires Settled(s) && Loggable(ops)
    ensures Run(s, LogEntries(ops)).Some?
    ensures var t := Run(s, LogEntries(ops)).value;
            var r := Replayed(rest, t);
            && Settled(t) && t.kv == ApplyOps(s.kv, ops)
            && Replayed(LogBytes(ops) + rest, s) ==
               r.(applied := r.applied + |LogEntries(ops)|, consumed := r.consumed + |LogBytes(ops)|)
  {
    hide Replayed, LogEntries, Run, ApplyOps, Loggable, Readable, Payloads, Frames, Settled;
    RunOps(s, ops);
    LoggableEntries(ops);
    ReplayFrames(s, LogEntries(ops), rest);
  }

  // ----- Replaying an operation cut short.

  /** How many records lie wholly inside the first `n` bytes. */
  function WholeRecords(ps: seq<Bytes>, n: nat): nat
  {
    if ps == [] || n < |Frame(ps[0])| then 0 else 1 + WholeRecords(ps[1..], n - |Frame(ps[0])|)
  }

  /** Cutting a run of frames leaves whole frames and less than one more. */
  lemma {:induction false} CutFrames(ps: seq<Bytes>, n: nat) returns (tail: Bytes)
    requires n <= |Frames(ps)|
    ensures WholeRecords(ps, n) <= |ps|
    ensures var j := WholeRecords(ps, n);
            && Frames(ps)[..n] == Frames(ps[..j]) + tail
            && (tail == [] || (j < |ps| && |tail| < |Frame(ps[j])| && tail == Frame(ps[j])[..|tail|]))
            && (j == |ps| ==> n == |Frames(ps)|)
    decreases |ps|
  {
    hide Frame;
    if ps == [] || n < |Frame(ps[0])| {
      tail := Frames(ps)[..n];
      assert ps[..0] == [];
      if ps != [] {
        assert tail == Frame(ps[0])[..n];
      }
    } else {
      var f := Frame(ps[0]);
      var j := WholeRecords(ps[1..], n - |f|);
      tail := CutFrames(ps[1..], n - |f|);
      assert Frames(ps)[..n] == f + Frames(ps[1..])[..n - |f|];
      assert ps[..j + 1][1..] == ps[1..][..j] && ps[..j + 1][0] == ps[0];
    }
  }

  /** A proper, non-empty part of an operation is a transaction left open. */
  lemma RunPartOfOp(s: State, op: Op, j: nat)
    requires Settled(s) && 0 < j < |OpEntries(op)|
    ensures var t := Run(s, OpEntries(op)[..j]);
            t.Some? && t.value.inside && t.value.kv == s.kv
  {
    hide Step;
    var id, mus := op.id, op.mutations;
    assert MutationEntries(mus)[..j - 1] == MutationEntries(mus[..j - 1]);
    assert OpEntries(op)[..j] == [Begin(id)] + MutationEntries(mus[..j - 1]);
    RunBegun(s, id, mus[..j - 1]);
  }

  /** Replaying the first `j` records of an operation, the rest of it left out. */
  lemma ReplayPart(s: State, op: Op, j: nat, rest: Bytes)
    requires Settled(s) && j < |OpEntries(op)| && Readable(Payloads(OpEntries(op))[..j])
    ensures var ps := Payloads(OpEntries(op))[..j]; var t := Run(s, OpEntries(op)[..j]);
            && t.Some? && t.value.kv == s.kv && (t.value.inside <==> j > 0) && (j == 0 ==> t.value == s)
            && var r := Replayed(rest, t.value);
               Replayed(Frames(ps) + rest, s) == r.(applied := r.applied + j, consumed := r.consumed + |Frames(ps)|)
  {
    hide Frame, Frames, Run, OpEntries, Replayed, Encode;
    var es := OpEntries(op)[..j];
    assert Payloads(OpEntries(op))[..j] == Payloads(es);
    if j > 0 {
      RunPartOfOp(s, op, j);
    } else {
      RunNothing(s, es);
    }
    ReplayFrames(s, es, rest);
  }

  lemma {:induction false} NonEmptyFrames(ps: seq<Bytes>)
    ensures Frames(ps) == [] <==> ps == []
  {
  }

  lemma ReplayPartOfOp(s: State, op: Op, m: nat)
    requires Settled(s) && LoggableOp(op) && m < |OpBytes(op)|
    ensures var r := Replayed(OpBytes(op)[..m], s);
            && r.state.kv == s.kv && !r.corrupt && !r.unknown
            && (r.state.inside <==> 0 < r.consumed) && (r.truncated <==> r.consumed < m)
            && (!r.state.inside ==> r.state == s)
            && (r.state.inside <==> WholeRecords(Payloads(OpEntries(op)), m) > 0)
  {
    hide Frame, Run, OpEntries, Replayed, Encode;
    var ps := Payloads(OpEntries(op));
    var j := WholeRecords(ps, m);
    var tail := CutFrames(ps, m);
    ReplayPart(s, op, j, tail);
    NonEmptyFrames(ps[..j]);
    var t := Run(s, OpEntries(op)[..j]).value;
    if tail == [] {
      ReplayNothing(t);
    } else {
      CutTail(ps[j], |tail|, t);
    }
  }

  lemma CutTail(p: Bytes, k: nat, s: State)
    requires |p| <= MAX_PAYLOAD_BYTES && 0 < k < |Frame(p)|
    ensures Replayed(Frame(p)[..k], s) == Result(s, 0, 0, true, false, false)
  {
    hide Frame, ParseHead;
    CutFrameIsIncomplete(p, k);
  }

  lemma RunNothing(s: State, es: seq<Entry>)
    requires es == []
    ensures Run(s, es) == Some(s)
  {
  }

  // ----- The crash theorem.

  /** Replay of a log cut anywhere, from any settled state, finds exactly the operations wholly written. */
  lemma {:induction false} CrashReplay(s: State, ops: seq<Op>, n: nat)
    requires Settled(s) && Loggable(ops) && n <= |LogBytes(ops)|
    ensures var k := WholeOps(ops, n);
            var r := Replayed(LogBytes(ops)[..n], s);
            && r.state.kv == ApplyOps(s.kv, ops[..k])
            && |LogBytes(ops[..k])| <= r.consumed <= n
            && (k < |ops| ==> n < |LogBytes(ops[..k + 1])|)
            && (r.state.inside <==> |LogBytes(ops[..k])| < r.consumed)
            && (!r.state.inside ==> Settled(r.state))
            && !r.corrupt && !r.unknown && (r.truncated <==> r.consumed < n)
    decreases |ops|
  {
    hide Loggable, LoggableOp, LogBytes, OpBytes, ApplyOps, Replayed, LogEntries, Run, WholeRecords, OpEntries, Payloads;
    var log := LogBytes(ops);
    if |log| <= n {
      ReplayOps(s, ops, []);
      ReplayNothing(Run(s, LogEntries(ops)).value);
      assert log[..n] == log == log + [];
      assert ops[..|ops|] == ops;
      if ops == [] {
        EmptyLog();
      }
    } else {
      if ops == [] {
        EmptyLog();
        assert false;
      }
      var init, last := ops[..|ops| - 1], ops[|ops| - 1];
      LoggableParts(ops);
      LogBytesSnoc(ops);
      var before := |LogBytes(init)|;
      var k := WholeOps(init, n);
      assert ops[..k] == init[..k];
      assert if k < |init| then ops[..k + 1] == init[..k + 1] else ops[..k + 1] == ops;
      if n <= before {
        CrashReplay(s, init, n);
        assert log[..n] == LogBytes(init)[..n];
      } else {
        WholeOpsAll(init, n);
        assert init[..k] == init;
        var part := OpBytes(last)[..n - before];
        assert log[..n] == LogBytes(init) + part;
        ReplayOps(s, init, part);
        ReplayPartOfOp(Run(s, LogEntries(init)).value, last, n - before);
      }
    }
  }

  /** For every run and every byte at which its log is cut, recovery finds the map after the operations wholly written. */
  lemma CrashRecovery(ops: seq<Op>, n: nat)
    requires Loggable(ops) && n <= |LogBytes(ops)|
    ensures var k := WholeOps(ops, n);
            var r := Recover(LogBytes(ops)[..n]);
            && r.state.kv == ApplyOps(map[], ops[..k])
            && |LogBytes(ops[..k])| <= r.consumed <= n
            && (k < |ops| ==> n < |LogBytes(ops[..k + 1])|)
            && (r.state.inside <==> |LogBytes(ops[..k])| < r.consumed)
            && (!r.state.inside ==> Settled(r.state))
            && !r.corrupt && !r.unknown && (r.truncated <==> r.consumed < n)
  {
    hide Loggable, LogBytes, ApplyOps, Replayed;
    CrashReplay(EMPTY, ops, n);
  }

  lemma LoggableParts(ops: seq<Op>)
    requires Loggable(ops) && ops != []
    ensures Loggable(ops[..|ops| - 1]) && LoggableOp(ops[|ops| - 1])
  {
    hide LoggableOp;
  }

  lemma WholeOpsAll(ops: seq<Op>, n: nat)
    requires |LogBytes(ops)| <= n
    ensures WholeOps(ops, n) == |ops|
  {
    hide LogBytes;
  }

  /** Recovering once more changes nothing, and the flag raised is the same. */
  lemma RecoveryIsIdempotent(log: Bytes)
    ensures Recover(Kept(log)) == Recover(log).(truncated := false, corrupt := false, unknown := false)
    ensures Kept(Kept(log)) == Kept(log)
  {
    hide Replayed;
    ReplayAgain(log, EMPTY);
  }

  // ----- Writing on after recovery.

  /** A log replayed to its end can be replayed on from the state reached. */
  lemma {:induction false} ReplayExtended(s: Bytes, st: State, rest: Bytes)
    requires var r := Replayed(s, st); r.consumed == |s|
    ensures var r, q := Replayed(s, st), Replayed(rest, Replayed(s, st).state);
            Replayed(s + rest, st) == q.(applied := q.applied + r.applied, consumed := q.consumed + |s|)
    decreases |s|
  {
    hide ParseHead, StepPayload;
    if s == [] {
      assert s + rest == rest;
    } else {
      var p := ParseHead(s).payload;
      var n := HEADER_BYTES + |p|;
      ParseMonotone(s, s + rest);
      assert (s + rest)[n..] == s[n..] + rest;
      ReplayExtended(s[n..], StepPayload(st, p).value, rest);
    }
  }

  /** What the kept file is, when the crash left no transaction open. */
  lemma KeptIsALog(ops: seq<Op>, n: nat)
    requires Loggable(ops) && n <= |LogBytes(ops)|
    requires !Recover(LogBytes(ops)[..n]).state.inside
    ensures Kept(LogBytes(ops)[..n]) == LogBytes(ops[..WholeOps(ops, n)])
  {
    hide Loggable, LogBytes, Recover, WholeOps, ApplyOps;
    var k := WholeOps(ops, n);
    CrashRecovery(ops, n);
    assert ops == ops[..k] + ops[k..];
    LogBytesConcat(ops[..k], ops[k..]);
  }

  /** Inside an open transaction every later operation is buffered or refused, and none reaches the map. */
  lemma {:induction false} OpenTransactionSwallows(s: State, more: seq<Op>)
    requires s.inside && Loggable(more)
    ensures Replayed(LogBytes(more), s).state.kv == s.kv
    decreases |more|
  {
    hide Loggable, LoggableOp, LogBytes, OpBytes, ParseHead, Frame;
    if more == [] {
      EmptyLog();
    } else {
      var op, rest := more[0], more[1..];
      assert more == [op] + rest;
      LogBytesConcat([op], rest);
      SingletonLog(op);
      assert LoggableOp(op) && Loggable(rest) by { LoggableSplit(more); }
      SwallowOp(s, op, LogBytes(rest));
      if StaysOpen(s, op).Some? {
        OpenTransactionSwallows(StaysOpen(s, op).value, rest);
      }
    }
  }

  lemma LoggableSplit(ops: seq<Op>)
    requires Loggable(ops) && ops != []
    ensures LoggableOp(ops[0]) && Loggable(ops[1..])
  {
    hide LoggableOp;
  }

  /** The state an operation is buffered in, or `None` if its begin marker is refused. */
  function StaysOpen(s: State, op: Op): (r: Option<State>)
    requires s.inside
    ensures r.Some? ==> r.value.inside && r.value.kv == s.kv
  {
    match op
    case SetOp(key, value) => Some(s.(pending := s.pending + [Put(key, value)]))
    case DelOp(key) => Some(s.(pending := s.pending + [Erase(key)]))
    case TxnOp(_, mus) => if mus == [] then Some(s) else None
  }

  lemma SwallowOp(s: State, op: Op, rest: Bytes)
    requires s.inside && LoggableOp(op)
    ensures var r := Replayed(OpBytes(op) + rest, s);
            r.state.kv == match StaysOpen(s, op) case Some(t) => Replayed(rest, t).state.kv case None => s.kv
  {
    hide ParseHead, Frame, Encode, Decode;
    match op
    case SetOp(key, value) =>
      RunSingle(s, Set(key, value));
      ReplayFrames(s, OpEntries(op), rest);
    case DelOp(key) =>
      RunSingle(s, Del(key));
      ReplayFrames(s, OpEntries(op), rest);
    case TxnOp(id, mus) =>
      if mus == [] {
        assert OpBytes(op) + rest == rest;
      } else {
        BeginRefused(s, op, rest);
      }
  }

  lemma BeginRefused(s: State, op: Op, rest: Bytes)
    requires s.inside && LoggableOp(op) && op.TxnOp? && op.mutations != []
    ensures Replayed(OpBytes(op) + rest, s).state == s
  {
    hide ParseHead, Frame, Encode, Decode;
    var ps := Payloads(OpEntries(op));
    assert ps[0] == Encode(Begin(op.id)) && ps[0] in ps;
    var log := OpBytes(op) + rest;
    assert log == Frame(ps[0]) + (Frames(ps[1..]) + rest);
    ParseExact(log, ps[0]);
    DecodeExact(ps[0], Begin(op.id));
  }

  /** After recovery discarded an open transaction, whatever is written later is lost at the next restart. */
  lemma WritesAfterDiscardAreLost(log: Bytes, more: seq<Op>)
    requires Recover(log).state.inside && Loggable(more)
    ensures Recover(Kept(log) + LogBytes(more)).state.kv == Recover(log).state.kv
  {
    hide Replayed, LogBytes, Loggable;
    RecoveryIsIdempotent(log);
    ReplayExtended(Kept(log), EMPTY, LogBytes(more));
    OpenTransactionSwallows(Recover(log).state, more);
  }

  /** Otherwise it is all there. */
  lemma WritesAfterCleanRecoveryAreKept(log: Bytes, more: seq<Op>)
    requires Settled(Recover(log).state) && Loggable(more)
    ensures Recover(Kept(log) + LogBytes(more)).state.kv == ApplyOps(Recover(log).state.kv, more)
  {
    hide Replayed, LogBytes, Loggable, Run, LogEntries, ApplyOps;
    RecoveryIsIdempotent(log);
    ReplayExtended(Kept(log), EMPTY, LogBytes(more));
    var s := Recover(log).state;
    ReplayOps(s, more, []);
    ReplayNothing(Run(s, LogEntries(more)).value);
    assert LogBytes(more) + [] == LogBytes(more);
  }

  ghost predicate RestartComposes(log: Bytes, more: seq<Op>)
  {
    Recover(Kept(log) + LogBytes(more)).state.kv == ApplyOps(Recover(log).state.kv, more)
  }

  /** Replay leaves mutations buffered only inside a transaction. */
  lemma {:induction false} ReplaySettles(log: Bytes, s: State)
    requires !s.inside ==> Settled(s)
    ensures var t := Replayed(log, s).state; !t.inside ==> Settled(t)
    decreases |log|
  {
    hide ParseHead, Decode;
    if log != [] && ParseHead(log).Ok? {
      var p := ParseHead(log).payload;
      if StepPayload(s, p).Some? {
        ReplaySettles(log[HEADER_BYTES + |p|..], StepPayload(s, p).value);
      }
    }
  }

  /**
    Whatever file is recovered: recover, write, recover again is sound for all later writes exactly when no
    transaction was left open.
   */
  lemma RestartComposesIff(log: Bytes)
    ensures (forall more | Loggable(more) :: RestartComposes(log, more)) <==> !Recover(log).state.inside
  {
    hide LogBytes, Replayed, LoggableOp, Kept, ApplyOps;
    ReplaySettles(log, EMPTY);
    if Recover(log).state.inside {
      var m := Recover(log).state.kv;
      var value: Bytes := if [] in m && m[[]] == [] then [0] else [];
      var more := [SetOp([], value)];
      assert LoggableOp(more[0]) by { SmallSet(value); }
      WritesAfterDiscardAreLost(log, more);
      OneSet(m, [], value);
      assert !RestartComposes(log, more);
    } else {
      forall more | Loggable(more)
        ensures RestartComposes(log, more)
      {
        WritesAfterCleanRecoveryAreKept(log, more);
      }
    }
  }

  // ----- Which cuts leave a transaction open.

  const BEGIN_RECORD_BYTES: nat := 17

  /** The cut falls inside a transaction and after its begin marker. */
  ghost predicate CutsOpen(op: Op, m: nat)
  {
    op.TxnOp? && op.mutations != [] && BEGIN_RECORD_BYTES <= m
  }

  lemma WholeRecordsOfOp(op: Op, m: nat)
    requires m < |OpBytes(op)|
    ensures var ps := Payloads(OpEntries(op)); WholeRecords(ps, m) > 0 <==> CutsOpen(op, m)
  {
    hide Frame, Encode;
    var ps := Payloads(OpEntries(op));
    assert ps != [];
    if op.TxnOp? {
      assert ps[0] == Encode(Begin(op.id));
      BeginLength(op.id);
    } else {
      assert ps[1..] == [];
      assert Frames(ps) == Frame(ps[0]) + Frames([]);
    }
  }

  lemma BeginLength(id: TxnId)
    ensures HEADER_BYTES + |Encode(Begin(id))| == BEGIN_RECORD_BYTES
  {
  }

  /**
    A log of a run cut at `n` bytes recovers inside a transaction exactly when the operation the cut falls in is
    a transaction whose begin marker is wholly written.
   */
  lemma LeftOpenIff(ops: seq<Op>, n: nat)
    requires Loggable(ops) && n <= |LogBytes(ops)|
    ensures var k := WholeOps(ops, n);
            Recover(LogBytes(ops)[..n]).state.inside <==>
            k < |ops| && |LogBytes(ops[..k])| <= n && CutsOpen(ops[k], n - |LogBytes(ops[..k])|)
  {
    hide LogBytes, OpBytes, Replayed, LoggableOp, WholeOps, ApplyOps, Run, LogEntries, CutsOpen;
    hide WholeRecords, OpEntries, Payloads;
    var k := WholeOps(ops, n);
    CrashRecovery(ops, n);
    if k == |ops| {
      assert ops[..k] == ops;
    } else {
      var before, m := LogBytes(ops[..k]), n - |LogBytes(ops[..k])|;
      LogBytesSnoc(ops[..k + 1]);
      assert ops[..k + 1][..k] == ops[..k];
      assert ops == ops[..k + 1] + ops[k + 1..];
      LogBytesConcat(ops[..k + 1], ops[k + 1..]);
      assert LogBytes(ops)[..n] == before + OpBytes(ops[k])[..m];
      ReplayOps(EMPTY, ops[..k], OpBytes(ops[k])[..m]);
      ReplayPartOfOp(Run(EMPTY, LogEntries(ops[..k])).value, ops[k], m);
      WholeRecordsOfOp(ops[k], m);
    }
  }

  /** The shortest such log: a transaction that deletes one key, cut right after its begin marker. */
  lemma CutLeavesTransactionOpen()
    ensures var ops := [TxnOp(0, [Erase([])])];
            && Loggable(ops) && BEGIN_RECORD_BYTES <= |LogBytes(ops)|
            && Recover(LogBytes(ops)[..BEGIN_RECORD_BYTES]).state.inside
            && exists more :: Loggable(more) && !RestartComposes(LogBytes(ops)[..BEGIN_RECORD_BYTES], more)
  {
    hide LogBytes, OpBytes, Recover, LoggableOp, RestartComposes;
    var op := TxnOp(0, [Erase([])]);
    var ops := [op];
    SmallTransaction();
    EmptyLog();
    SingletonLog(op);
    assert ops[..1] == ops && ops[..0] == [];
    LeftOpenIff(ops, BEGIN_RECORD_BYTES);
    RestartComposesIff(LogBytes(ops)[..BEGIN_RECORD_BYTES]);
  }

  lemma SmallTransaction()
    ensures var op := TxnOp(0, [Erase([])]); LoggableOp(op) && |OpBytes(op)| == 47
  {
    hide Frame, NatBytes, Frames;
    var op := TxnOp(0, [Erase([])]);
    var ps := Payloads(OpEntries(op));
    assert |ps| == 3 && |ps[0]| == 9 && |ps[1]| == 5 && |ps[2]| == 9;
    ThreeFrames(ps);
  }

  lemma ThreeFrames(ps: seq<Bytes>)
    requires |ps| == 3
    ensures |Frames(ps)| == 3 * HEADER_BYTES + |ps[0]| + |ps[1]| + |ps[2]|
  {
    hide Frame;
    var qs := ps[1..];
    assert Frames(qs) == Frame(qs[0]) + Frames(qs[1..]);
    assert Frames(qs[1..]) == Frame(qs[1]) + Frames(qs[1..][1..]);
  }

  lemma SmallSet(value: Value)
    requires |value| <= 1
    ensures LoggableOp(SetOp([], value))
  {
  }

  lemma OneSet(m: KV, key: Key, value: Value)
    ensures ApplyOps(m, [SetOp(key, value)]) == m[key := value]
  {
    assert [SetOp(key, value)][..0] == [];
    ApplyOne(m, Put(key, value));
  }

  // ----- Any number of lives of the process.

  /** One life: what it appended to the recovered file, and the byte at which it died. */
  datatype Life = Life(ops: seq<Op>, cut: nat)

  /** The operations still in the log after these lives. */
  function Survivors(lives: seq<Life>): seq<Op>
  {
    if lives == [] then []
    else
      var last := lives[|lives| - 1];
      var all := Survivors(lives[..|lives| - 1]) + last.ops;
      all[..WholeOps(all, last.cut)]
  }

  function Min(a: nat, b: nat): nat { if a < b then a else b }

  /** The file before the last recovery of these lives. */
  function CrashedFile(lives: seq<Life>): Bytes
  {
    if lives == [] then []
    else
      var last := lives[|lives| - 1];
      var file := Kept(CrashedFile(lives[..|lives| - 1])) + LogBytes(last.ops);
      file[..Min(last.cut, |file|)]
  }

  ghost predicate NoDiscards(lives: seq<Life>)
  {
    forall i | 0 <= i <= |lives| :: !Recover(CrashedFile(lives[..i])).state.inside
  }

  /**
    Over any number of crashes and restarts, none leaving a transaction open, the map is what the surviving
    operations make it.
   */
  lemma {:induction false} LivesCompose(lives: seq<Life>)
    requires forall l <- lives :: Loggable(l.ops)
    requires NoDiscards(lives)
    ensures Loggable(Survivors(lives))
    ensures Kept(CrashedFile(lives)) == LogBytes(Survivors(lives))
    ensures Recover(CrashedFile(lives)).state.kv == ApplyOps(map[], Survivors(lives))
  {
    hide LogBytes, Recover, LoggableOp, WholeOps, ApplyOps;
    if lives == [] {
      EmptyLog();
      RecoverNothing();
    } else {
      var init, last := lives[..|lives| - 1], lives[|lives| - 1];
      forall i | 0 <= i <= |init| ensures !Recover(CrashedFile(init[..i])).state.inside {
        assert init[..i] == lives[..i];
      }
      assert lives[..|lives|] == lives;
      LivesCompose(init);
      var all := Survivors(init) + last.ops;
      LogBytesConcat(Survivors(init), last.ops);
      var n := Min(last.cut, |LogBytes(all)|);
      assert CrashedFile(lives) == LogBytes(all)[..n];
      CrashRecovery(all, n);
      KeptIsALog(all, n);
      WholeOpsCut(all, last.cut);
    }
  }

  lemma RecoverNothing()
    ensures Recover([]) == Result(EMPTY, 0, 0, false, false, false)
    ensures ApplyOps(map[], []) == map[]
  {
  }

  lemma {:induction false} WholeOpsCut(ops: seq<Op>, n: nat)
    ensures WholeOps(ops, n) == WholeOps(ops, Min(n, |LogBytes(ops)|))
  {
    hide LogBytes;
  }

  // ----- Records larger than a reader accepts.

  /** Every record's length fits its four-byte field. */
  predicate Sizable(op: Op) { forall p <- Payloads(OpEntries(op)) :: |p| < TWO_32 }

  lemma OversizedHeader(s: Bytes, payload: Bytes, st: State)
    requires |s| >= HEADER_BYTES && ReadSize(s, 0) == |payload|
    requires MAX_PAYLOAD_BYTES < |payload| < TWO_32
    ensures Replayed(s, st) == Result(st, 0, 0, true, true, false)
  {
    hide ReadSize;
  }

  lemma OversizedStops(payload: Bytes, rest: Bytes, st: State)
    requires MAX_PAYLOAD_BYTES < |payload| < TWO_32
    ensures Replayed(Frame(payload) + rest, st) == Result(st, 0, 0, true, true, false)
  {
    hide Frame, Replayed, ReadSize, ReadNat, SizeBytes;
    HeaderOfFrame(payload, Frame(payload) + rest);
    SizeRoundTrip(|payload|);
    OversizedHeader(Frame(payload) + rest, payload, st);
  }

  /** The first record too large: all before it can be read. */
  lemma {:induction false} FirstOversized(ps: seq<Bytes>) returns (j: nat)
    requires !Readable(ps)
    ensures j < |ps| && |ps[j]| > MAX_PAYLOAD_BYTES && Readable(ps[..j])
  {
    var init := ps[..|ps| - 1];
    if Readable(init) {
      j := |init|;
    } else {
      j := FirstOversized(init);
      assert init[..j] == ps[..j];
    }
  }

  /** An operation with such a record is not applied, and a transaction is left open by it. */
  lemma OversizedOp(s: State, op: Op, rest: Bytes)
    requires Settled(s) && Sizable(op) && !LoggableOp(op)
    ensures var r := Replayed(OpBytes(op) + rest, s);
            && r.state.kv == s.kv && r.corrupt && (r.state.inside <==> op.TxnOp?) && r.consumed < |OpBytes(op)|
  {
    hide Frame, Run, OpEntries, Replayed, Payloads;
    var ps := Payloads(OpEntries(op));
    var j := FirstOversized(ps);
    OversizedSplit(ps, j, rest);
    OversizedPlace(op, j);
    ReplayPart(s, op, j, Frame(ps[j]) + (Frames(ps[j + 1..]) + rest));
    OversizedStops(ps[j], Frames(ps[j + 1..]) + rest, Run(s, OpEntries(op)[..j]).value);
  }

  lemma OversizedSplit(ps: seq<Bytes>, j: nat, rest: Bytes)
    requires j < |ps|
    ensures Frames(ps) + rest == Frames(ps[..j]) + (Frame(ps[j]) + (Frames(ps[j + 1..]) + rest))
    ensures |Frames(ps[..j])| < |Frames(ps)|
  {
    hide Frame, Frames;
    assert ps == ps[..j] + ps[j..] && ps[j..][1..] == ps[j + 1..];
    FramesConcat(ps[..j], ps[j..]);
    FramesStep(ps[j..], []);
    assert Frames(ps[j..]) + [] == Frames(ps[j..]) && Frames(ps[j + 1..]) + [] == Frames(ps[j + 1..]);
  }

  /** Markers are small, so it is the command of a write or lies between the markers of a transaction. */
  lemma OversizedPlace(op: Op, j: nat)
    requires j < |OpEntries(op)| && |Payloads(OpEntries(op))[j]| > MAX_PAYLOAD_BYTES
    ensures j > 0 <==> op.TxnOp?
  {
    hide NatBytes;
    assert op.TxnOp? ==> |Payloads(OpEntries(op))[0]| == 9;
  }

  /**
    A write with a record larger than a reader accepts is acknowledged, but it and all later writes are lost at
    restart; if it is a transaction, recovery also ends inside it, so that the next life's writes are lost too.
   */
  lemma OversizedWriteIsLost(ops: seq<Op>, op: Op, more: seq<Op>)
    requires Loggable(ops) && Sizable(op) && !LoggableOp(op)
    ensures var r := Recover(LogBytes(ops + [op] + more));
            && r.state.kv == ApplyOps(map[], ops) && r.corrupt && (r.state.inside <==> op.TxnOp?)
            && r.consumed < |LogBytes(ops + [op] + more)|
  {
    hide Replayed, LogBytes, LoggableOp, Run, LogEntries, ApplyOps, OpBytes, Sizable;
    LogBytesConcat(ops + [op], more);
    LogBytesConcat(ops, [op]);
    SingletonLog(op);
    var rest := OpBytes(op) + LogBytes(more);
    assert LogBytes(ops + [op] + more) == LogBytes(ops) + rest;
    ReplayOps(EMPTY, ops, rest);
    OversizedOp(Run(EMPTY, LogEntries(ops)).value, op, LogBytes(more));
  }

  /** So the whole log of a run is read back at restart exactly when none of its records is too large. */
  lemma WholeLogReadIff(ops: seq<Op>)
    requires forall op <- ops :: Sizable(op)
    ensures Recover(LogBytes(ops)).consumed == |LogBytes(ops)| <==> Loggable(ops)
  {
    hide Replayed, LogBytes, LoggableOp, ApplyOps, Sizable, WholeOps;
    if Loggable(ops) {
      CrashRecovery(ops, |LogBytes(ops)|);
      WholeOpsAll(ops, |LogBytes(ops)|);
      assert ops[..|ops|] == ops && LogBytes(ops)[..|LogBytes(ops)|] == LogBytes(ops);
    } else {
      var k := FirstUnloggable(ops);
      assert ops == ops[..k] + [ops[k]] + ops[k + 1..];
      OversizedWriteIsLost(ops[..k], ops[k], ops[k + 1..]);
    }
  }

  lemma {:induction false} FirstUnloggable(ops: seq<Op>) returns (k: nat)
    requires !Loggable(ops)
    ensures k < |ops| && !LoggableOp(ops[k]) && Loggable(ops[..k])
  {
    hide LoggableOp;
    var init := ops[..|ops| - 1];
    if Loggable(init) {
      k := |init|;
    } else {
      k := FirstUnloggable(init);
      assert init[..k] == ops[..k];
    }
  }
}
