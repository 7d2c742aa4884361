/** Log shipping from a leader to its followers, as steps that may come in any order. */
module Replication {
  import opened Bytes
  import opened Protocol
  import opened Record
  import opened Kv
  import opened Replay
  import opened Recovery

  type Token = nat

  const MAX_BUFFERED_BYTES: nat := 64 * 1024 * 1024
  const READ_CHUNK_BYTES: nat := 64 * 1024

  // ----- The follower.

  /** `log`, `st.kv` and `token` outlive the link; the rest belongs to it. */
  datatype Follower = Follower(
    log: Bytes, st: State, token: Option<Token>,
    recv: Bytes, pending: seq<Bytes>, pendingBytes: nat, inside: bool)

  const FRESH: Follower := Follower([], EMPTY, None, [], [], 0, false)

  /** What `linkLoop` clears after every connection. */
  function Reset(f: Follower): Follower
  {
    Follower(f.log, State(f.st.kv, false, 0, []), f.token, [], [], 0, false)
  }

  function TracksInside(payload: Bytes, inside: bool): bool
  {
    if ParseMarker(payload, BEGIN_TAG).Some? then true
    else if ParseMarker(payload, COMMIT_TAG).Some? then false
    else inside
  }

  function Buffer(f: Follower, payload: Bytes): Follower
    requires HEADER_BYTES + |payload| <= |f.recv|
  {
    f.(recv := f.recv[HEADER_BYTES + |payload|..],
       pending := f.pending + [payload],
       pendingBytes := f.pendingBytes + |payload|,
       inside := TracksInside(payload, f.inside))
  }

  /** Moves whole records from the receive buffer to the pending list; `None` drops the link. */
  function Absorb(f: Follower): Option<Follower>
    decreases |f.recv|
  {
    match ParseHead(f.recv)
    case Incomplete => Some(f)
    case Corrupt => None
    case Ok(p) =>
      var g := Buffer(f, p);
      if g.pendingBytes > MAX_BUFFERED_BYTES then None else Absorb(g)
  }

  /** Applies payloads until one is refused. */
  function ApplyPayloads(s: State, ps: seq<Bytes>): (State, bool)
    decreases |ps|
  {
    if ps == [] then (s, true)
    else
      match StepPayload(s, ps[0])
      case None => (s, false)
      case Some(t) => ApplyPayloads(t, ps[1..])
  }

  /** The log is extended first, then the records are applied. */
  function Flush(f: Follower): (Follower, bool)
  {
    var (st, ok) := ApplyPayloads(f.st, f.pending);
    var g := f.(log := f.log + Frames(f.pending), st := st);
    if ok then (g.(pending := [], pendingBytes := 0), true) else (g, false)
  }

  /** The outcome of one read: the follower, whether the link survives, and the offset acknowledged, if any. */
  datatype Received = Received(f: Follower, up: bool, ack: Option<nat>)

  function Consume(f: Follower, chunk: Bytes): Received
  {
    match Absorb(f.(recv := f.recv + chunk))
    case None => Received(Reset(f), false, None)
    case Some(g) =>
      if g.inside || g.pending == [] then Received(g, true, None)
      else
        var (h, ok) := Flush(g);
        if ok then Received(h, true, Some(|h.log|)) else Received(Reset(h), false, None)
  }

  // ----- States that differ only in the number of a transaction already over.

  predicate Same(s: State, t: State)
  {
    s.kv == t.kv && s.inside == t.inside && s.pending == t.pending && (s.inside ==> s.openId == t.openId)
  }

  lemma SameStep(s: State, t: State, payload: Bytes)
    requires Same(s, t)
    ensures match (StepPayload(s, payload), StepPayload(t, payload))
            case (None, None) => true
            case (Some(s'), Some(t')) => Same(s', t')
            case _ => false
  {
    hide Decode;
  }

  lemma {:induction false} SameApply(s: State, t: State, ps: seq<Bytes>)
    requires Same(s, t)
    ensures ApplyPayloads(s, ps).1 == ApplyPayloads(t, ps).1
    ensures Same(ApplyPayloads(s, ps).0, ApplyPayloads(t, ps).0)
    decreases |ps|
  {
    hide StepPayload, Same;
    if ps != [] {
      SameStep(s, t, ps[0]);
      match StepPayload(s, ps[0])
      case None =>
      case Some(s') => SameApply(s', StepPayload(t, ps[0]).value, ps[1..]);
    }
  }

  // ----- Logs replayed to their end.

  /** Every record of the log is whole and accepted. */
  ghost predicate Clean(log: Bytes) { Recover(log).consumed == |log| }

  /** A clean log and what its applier makes of more records. */
  lemma {:induction false} CleanApply(log: Bytes, ps: seq<Bytes>)
    requires Clean(log) && Readable(ps)
    ensures Clean(log + Frames(ps)) <==> ApplyPayloads(Recover(log).state, ps).1
    ensures Clean(log + Frames(ps)) ==> Recover(log + Frames(ps)).state == ApplyPayloads(Recover(log).state, ps).0
    decreases |ps|
  {
    hide Frame, ParseHead, StepPayload, Replayed;
    var s := Recover(log).state;
    if ps == [] {
      assert log + Frames(ps) == log;
    } else {
      var next := log + Frame(ps[0]);
      assert log + Frames(ps) == next + Frames(ps[1..]);
      CleanOne(log, ps[0]);
      if StepPayload(s, ps[0]).Some? {
        CleanApply(next, ps[1..]);
      } else {
        StuckStays(log, ps[0], Frames(ps[1..]));
      }
    }
  }

  lemma CleanOne(log: Bytes, p: Bytes)
    requires Clean(log) && |p| <= MAX_PAYLOAD_BYTES
    ensures var s := Recover(log).state;
            if StepPayload(s, p).Some?
            then Clean(log + Frame(p)) && Recover(log + Frame(p)).state == StepPayload(s, p).value
            else Recover(log + Frame(p)).unknown
  {
    hide Frame, ParseHead, StepPayload;
    ReplayExtended(log, EMPTY, Frame(p));
    ParseExact(Frame(p), p);
    assert Frame(p)[HEADER_BYTES + |p|..] == [];
  }

  /** A record refused stops replay whatever follows. */
  lemma StuckStays(log: Bytes, p: Bytes, rest: Bytes)
    requires Clean(log) && |p| <= MAX_PAYLOAD_BYTES && StepPayload(Recover(log).state, p).None?
    ensures !Clean(log + Frame(p) + rest)
  {
    hide Frame, ParseHead, StepPayload;
    assert log + Frame(p) + rest == log + (Frame(p) + rest);
    ReplayExtended(log, EMPTY, Frame(p) + rest);
    ParseExact(Frame(p) + rest, p);
  }

  /**
    Of the log of a run, a prefix of whole records is clean, and outside a transaction it is the log of a
    prefix of the run.
   */
  lemma PrefixOfRun(ops: seq<Op>, q: Bytes)
    requires Loggable(ops) && q <= LogBytes(ops)
    ensures var r := Recover(q);
            && !r.corrupt && !r.unknown
            && (Clean(q) && !r.state.inside ==>
                  Settled(r.state) && q == LogBytes(ops[..WholeOps(ops, |q|)])
                  && r.state.kv == ApplyOps(map[], ops[..WholeOps(ops, |q|)]))
  {
    hide Loggable, LogBytes, Replayed, ApplyOps, WholeOps;
    CrashRecovery(ops, |q|);
    assert LogBytes(ops)[..|q|] == q;
    if Clean(q) && !Recover(q).state.inside {
      KeptIsALog(ops, |q|);
    }
  }

  // ----- What a follower holds, against the log it follows.

  function Total(ps: seq<Bytes>): nat { if ps == [] then 0 else Total(ps[..|ps| - 1]) + |ps[|ps| - 1]| }

  ghost function Got(f: Follower): Bytes { f.log + Frames(f.pending) }

  /** Between connections: the log is a clean prefix, outside any transaction, and the map is its replay. */
  ghost predicate Rested(f: Follower)
  {
    && Clean(f.log) && !Recover(f.log).state.inside
    && Same(f.st, Recover(f.log).state) && Settled(f.st)
  }

  /** During one: log, pending records and receive buffer continue each other along the leader's log. */
  ghost predicate Following(ops: seq<Op>, f: Follower)
  {
    && Rested(f)
    && Got(f) + f.recv <= LogBytes(ops)
    && Readable(f.pending) && Clean(Got(f))
    && f.inside == Recover(Got(f)).state.inside
    && f.pendingBytes == Total(f.pending) <= MAX_BUFFERED_BYTES
  }

  lemma InsideTracked(s: State, p: Bytes)
    requires StepPayload(s, p).Some?
    ensures StepPayload(s, p).value.inside == TracksInside(p, s.inside)
  {
    hide ParseMarker;
    if ParseMarker(p, BEGIN_TAG).None? && ParseMarker(p, COMMIT_TAG).None? {
      OnlyCommands(p);
    }
  }

  lemma GotBuffer(f: Follower, p: Bytes)
    requires ParseHead(f.recv) == Ok(p)
    ensures Got(Buffer(f, p)) == Got(f) + Frame(p)
    ensures Got(Buffer(f, p)) + Buffer(f, p).recv == Got(f) + f.recv
  {
    hide Frame, ParseHead;
    ParseExact(f.recv, p);
    var n := HEADER_BYTES + |p|;
    assert f.recv == Frame(p) + f.recv[n..];
    FramesConcat(f.pending, [p]);
    SingleFrame(p);
    assert f.log + (Frames(f.pending) + Frame(p)) == Got(f) + Frame(p);
    assert (Got(f) + Frame(p)) + f.recv[n..] == Got(f) + (Frame(p) + f.recv[n..]);
  }

  lemma SingleFrame(p: Bytes)
    ensures Frames([p]) == Frame(p)
  {
    var ps: seq<Bytes> := [p];
    assert ps[1..] == [];
  }

  lemma RestedSame(f: Follower, g: Follower)
    requires Rested(f) && g.log == f.log && g.st == f.st
    ensures Rested(g)
  {
    hide Clean, Recover;
  }

  /** The record at the head of the buffer is the next one of the leader's log, so it is accepted. */
  lemma BufferFollows(ops: seq<Op>, f: Follower, p: Bytes)
    requires Loggable(ops) && Following(ops, f) && ParseHead(f.recv) == Ok(p)
    requires f.pendingBytes + |p| <= MAX_BUFFERED_BYTES
    ensures Following(ops, Buffer(f, p))
  {
    hide Frame, Loggable, LogBytes, Recover, StepPayload, TracksInside, Got, Rested, ParseHead;
    var g := Buffer(f, p);
    RestedSame(f, g);
    GotBuffer(f, p);
    var q := Got(g);
    assert q <= q + g.recv;
    PrefixOfRun(ops, q);
    CleanOne(Got(f), p);
    InsideTracked(Recover(Got(f)).state, p);
    assert g.pending[..|g.pending| - 1] == f.pending;
  }

  /** Bytes that continue a leader's log never look damaged. */
  lemma NeverCorrupt(ops: seq<Op>, f: Follower)
    requires Loggable(ops) && Following(ops, f)
    ensures !ParseHead(f.recv).Corrupt?
  {
    hide Loggable, LogBytes, ParseHead, Frames, Same;
    if ParseHead(f.recv).Corrupt? {
      var q := Got(f);
      assert f.recv != [] by { ParseEmpty(); }
      ReplayExtended(q, EMPTY, f.recv);
      PrefixOfRun(ops, q + f.recv);
      assert false;
    }
  }

  /** Absorbing keeps the follower on the leader's log; only the size limit can stop it. */
  lemma {:induction false} AbsorbFollows(ops: seq<Op>, f: Follower)
    requires Loggable(ops) && Following(ops, f)
    ensures match Absorb(f)
            case None => true
            case Some(g) =>
              && Following(ops, g) && ParseHead(g.recv) == Incomplete
              && g.log == f.log && g.st == f.st && g.token == f.token
              && Got(g) + g.recv == Got(f) + f.recv
    decreases |f.recv|
  {
    hide Loggable, Following, ParseHead, Got;
    NeverCorrupt(ops, f);
    if ParseHead(f.recv).Ok? {
      var p := ParseHead(f.recv).payload;
      var g := Buffer(f, p);
      if g.pendingBytes <= MAX_BUFFERED_BYTES {
        BufferFollows(ops, f, p);
        GotBuffer(f, p);
        AbsorbFollows(ops, g);
      }
    }
  }

  /** Flushing outside a transaction succeeds and leaves exactly the replay of the longer log. */
  lemma FlushFollows(ops: seq<Op>, f: Follower)
    requires Loggable(ops) && Following(ops, f) && !f.inside
    ensures var (g, ok) := Flush(f);
            && ok && Following(ops, g) && g.pending == [] && !g.inside
            && g.log == Got(f) && g.recv == f.recv && g.token == f.token
  {
    hide Loggable, LogBytes, Replayed, StepPayload, Frames;
    CleanApply(f.log, f.pending);
    SameApply(f.st, Recover(f.log).state, f.pending);
    var q := Got(f);
    assert q <= q + f.recv;
    PrefixOfRun(ops, q);
    var (g, ok) := Flush(f);
    assert Frames([]) == [] by { NoFrames(); }
    assert Got(g) == q;
  }

  lemma NoFrames()
    ensures Frames([]) == [] && Total([]) == 0
  {
  }

  lemma ResetRests(f: Follower)
    requires Rested(f)
    ensures Rested(Reset(f)) && Reset(f).log == f.log && Reset(f).token == f.token
  {
    hide Clean, Recover;
  }

  lemma RestedFollows(ops: seq<Op>, f: Follower)
    requires Rested(f) && f == Reset(f) && f.log <= LogBytes(ops)
    ensures Following(ops, f) && Got(f) == f.log
  {
    hide Clean, Recover, LogBytes;
    NoFrames();
    assert Got(f) == f.log && Got(f) + f.recv == f.log;
  }

  /** One read of any size, of bytes that continue the stream. */
  lemma ConsumeFollows(ops: seq<Op>, f: Follower, chunk: Bytes)
    requires Loggable(ops) && Following(ops, f)
    requires Got(f) + f.recv + chunk <= LogBytes(ops)
    ensures var r := Consume(f, chunk);
            && Rested(r.f) && r.f.token == f.token && f.log <= r.f.log
            && (if r.up then Following(ops, r.f) && Got(r.f) + r.f.recv == Got(f) + f.recv + chunk
                else r.f == Reset(f))
            && (r.ack.Some? ==> r.up && r.ack.value == |r.f.log|)
  {
    hide Loggable, Following, Rested, Got, ParseHead, Absorb;
    var g := f.(recv := f.recv + chunk);
    MoreReceived(ops, f, chunk);
    AbsorbFollows(ops, g);
    FollowingRests(ops, f);
    ResetRests(f);
    match Absorb(g)
    case None =>
    case Some(h) =>
      FollowingRests(ops, h);
      if !h.inside && h.pending != [] {
        FlushFollows(ops, h);
        FlushGot(h, Flush(h).0);
        FollowingRests(ops, Flush(h).0);
      }
  }

  lemma MoreReceived(ops: seq<Op>, f: Follower, chunk: Bytes)
    requires Following(ops, f) && Got(f) + f.recv + chunk <= LogBytes(ops)
    ensures var g := f.(recv := f.recv + chunk);
            Following(ops, g) && Got(g) == Got(f) && Got(g) + g.recv == Got(f) + f.recv + chunk
  {
    hide Clean, Recover, LogBytes, Frames;
    assert Got(f) + (f.recv + chunk) == Got(f) + f.recv + chunk;
  }

  lemma FollowingRests(ops: seq<Op>, f: Follower)
    requires Following(ops, f)
    ensures Rested(f)
  {
    hide Clean, Recover, LogBytes, Frames;
  }

  lemma FlushGot(f: Follower, g: Follower)
    requires g.log == Got(f) && g.pending == [] && g.recv == f.recv
    ensures Got(g) == g.log && Got(g) + g.recv == Got(f) + f.recv && f.log <= g.log
  {
    hide Frame;
    NoFrames();
    assert Got(g) == g.log;
  }
}
