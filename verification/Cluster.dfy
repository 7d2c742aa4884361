/** A leader, its followers and the connections between them, step by step. */
module Cluster {
  import opened Bytes
  import opened Protocol
  import opened Record
  import opened Kv
  import opened Replay
  import opened Recovery
  import opened Replication
  import opened CatchUp
  import Store

  type Id = nat

  /**
    The leader's side of one connection: the log file the handshake promised (`tok`), the one its
    reader was opened on, what it has sent of it, what is still on the wire in either direction.
   */
  datatype Session = Session(
    follower: Id, tok: Token, reader: Option<Token>, sent: nat, wire: Bytes, acks: seq<nat>, acked: nat)

  /** `files` keeps every log file there has been; `links` gives a connected follower's session. */
  datatype Sys = Sys(
    files: map<Token, seq<Op>>, current: Token, kv: KV,
    followers: map<Id, Follower>, links: map<Id, Id>, sessions: map<Id, Session>)

  datatype Step =
    | Write(op: Op)
    | Compact(entries: seq<(Key, Value)>)
    | Decide(f: Id, sid: Id)      // the handshake, both sides
    | Register(sid: Id)           // the leader opens the log and lists the session
    | Ship(sid: Id, n: nat)
    | Deliver(f: Id, n: nat)
    | DrainAcks(sid: Id, n: nat)
    | Disconnect(f: Id)
    | Restart(f: Id)
    | RestartLeader(op: Op, m: nat)   // it died with `m` bytes of its next operation written
    | Reap(sid: Id)

  /** A leader on any log that recovered to operations, and followers that have nothing. */
  ghost predicate Init(s: Sys)
  {
    && s.files.Keys == {0} && Loggable(s.files[0])
    && s == Sys(map[0 := s.files[0]], 0, ApplyOps(map[], s.files[0]), s.followers, map[], map[])
    && forall i <- s.followers :: s.followers[i] == FRESH
  }

  /** The token and offset a follower offers let the leader resume where it stopped. */
  predicate CanResume(s: Sys, f: Follower)
  {
    && f.token.Some? && |f.log| != 0
    && f.token.value == s.current && s.current in s.files
    && |f.log| <= |LogBytes(s.files[s.current])|
  }

  function Handshaken(s: Sys, f: Follower): Follower
  {
    if CanResume(s, f) then f else FRESH.(token := Some(s.current))
  }

  /** A follower started again on its own files. */
  function Restarted(f: Follower): Follower
  {
    Follower(f.log, State(Recover(f.log).state.kv, false, 0, []), f.token, [], [], 0, false)
  }

  /** The leader's log file when it died. */
  ghost function TornFile(s: Sys, op: Op, m: nat): Bytes
    requires s.current in s.files && m <= |OpBytes(op)|
  {
    LogBytes(s.files[s.current]) + OpBytes(op)[..m]
  }

  /** Recovery leaves no transaction open. */
  ghost predicate CanRestart(s: Sys, op: Op, m: nat)
  {
    && s.current in s.files && LoggableOp(op) && m <= |OpBytes(op)|
    && !Recover(TornFile(s, op, m)).state.inside
  }

  /** A leader started again on its log: every connection is gone, and the operation counts if it was wholly written. */
  ghost function LeaderRestarted(s: Sys, op: Op, m: nat): Sys
    requires CanRestart(s, op, m)
  {
    var file := TornFile(s, op, m);
    var all := s.files[s.current] + [op];
    Sys(s.files[s.current := all[..WholeOps(all, |file|)]], s.current, Recover(file).state.kv,
        map i <- s.followers :: Reset(s.followers[i]), map[], map[])
  }

  function Highest(acked: nat, acks: seq<nat>): nat
  {
    if acks == [] then acked
    else
      var a := acks[|acks| - 1];
      var h := Highest(acked, acks[..|acks| - 1]);
      if a > h then a else h
  }

  /** The leader sends up to the offset it has reached, from the file its reader is open on. */
  ghost predicate CanShip(s: Sys, sid: Id, n: nat)
  {
    && s.current in s.files
    && sid in s.sessions && s.sessions[sid].reader.Some? && s.sessions[sid].reader.value in s.files
    && s.sessions[sid].sent + n <= |LogBytes(s.files[s.current])|
    && s.sessions[sid].sent + n <= |LogBytes(s.files[s.sessions[sid].reader.value])|
  }

  ghost function Shipped(s: Sys, sid: Id, n: nat): Sys
    requires CanShip(s, sid, n)
  {
    var e := s.sessions[sid];
    var bytes := LogBytes(s.files[e.reader.value])[e.sent..e.sent + n];
    s.(sessions := s.sessions[sid := e.(sent := e.sent + n, wire := e.wire + bytes)])
  }

  /** The follower reads some of what is on the wire, at most its buffer's worth. */
  ghost predicate CanDeliver(s: Sys, f: Id, n: nat)
  {
    && f in s.followers && f in s.links && s.links[f] in s.sessions
    && 0 < n <= |s.sessions[s.links[f]].wire| && n <= READ_CHUNK_BYTES
  }

  ghost function Delivered(s: Sys, f: Id, n: nat): Sys
    requires CanDeliver(s, f, n)
  {
    var sid := s.links[f];
    var e := s.sessions[sid];
    var r := Consume(s.followers[f], e.wire[..n]);
    s.(followers := s.followers[f := r.f],
       links := if r.up then s.links else s.links - {f},
       sessions := s.sessions[sid := e.(wire := e.wire[n..],
                                        acks := e.acks + if r.ack.Some? then [r.ack.value] else [])])
  }

  ghost predicate Enabled(s: Sys, step: Step)
  {
    s.current in s.files &&
    match step
    case Write(op) => LoggableOp(op)
    case Compact(entries) => Lists(entries, s.kv)
    case Decide(f, sid) => f in s.followers && f !in s.links && sid !in s.sessions
    case Register(sid) => sid in s.sessions && s.sessions[sid].reader == None
    case Ship(sid, n) => CanShip(s, sid, n)
    case Deliver(f, n) => CanDeliver(s, f, n)
    case DrainAcks(sid, n) => sid in s.sessions && n <= |s.sessions[sid].acks|
    case Disconnect(f) => f in s.followers && f in s.links
    case Restart(f) => f in s.followers
    case RestartLeader(op, m) => CanRestart(s, op, m)
    case Reap(sid) => sid in s.sessions && sid !in s.links.Values
  }

  ghost function Do(s: Sys, step: Step): Sys
    requires Enabled(s, step)
  {
    match step
    case Write(op) => s.(files := s.files[s.current := s.files[s.current] + [op]], kv := ApplyOp(s.kv, op))
    case Compact(entries) => s.(files := s.files[s.current + 1 := Store.SetOps(entries)], current := s.current + 1)
    case Decide(f, sid) =>
      var g := Handshaken(s, s.followers[f]);
      s.(followers := s.followers[f := g], links := s.links[f := sid],
         sessions := s.sessions[sid := Session(f, s.current, None, |g.log|, [], [|g.log|], |g.log|)])
    case Register(sid) => s.(sessions := s.sessions[sid := s.sessions[sid].(reader := Some(s.current))])
    case Ship(sid, n) => Shipped(s, sid, n)
    case Deliver(f, n) => Delivered(s, f, n)
    case DrainAcks(sid, n) =>
      var e := s.sessions[sid];
      s.(sessions := s.sessions[sid := e.(acks := e.acks[n..], acked := Highest(e.acked, e.acks[..n]))])
    case Disconnect(f) => s.(followers := s.followers[f := Reset(s.followers[f])], links := s.links - {f})
    case Restart(f) => s.(followers := s.followers[f := Restarted(s.followers[f])], links := s.links - {f})
    case RestartLeader(op, m) => LeaderRestarted(s, op, m)
    case Reap(sid) => s.(sessions := s.sessions - {sid})
  }

  // ----- The invariant.

  ghost predicate FollowerOk(files: map<Token, seq<Op>>, f: Follower)
  {
    && Rested(f)
    && match f.token
       case None => f.log == []
       case Some(t) => t in files && f.log <= LogBytes(files[t])
  }

  ghost predicate LinkOk(files: map<Token, seq<Op>>, f: Follower, e: Session)
  {
    && f.token == Some(e.tok) && e.tok in files && Following(files[e.tok], f)
    && e.sent <= |LogBytes(files[e.tok])|
    && Got(f) + f.recv + e.wire == LogBytes(files[e.tok])[..e.sent]
  }

  ghost predicate AcksWithin(e: Session, n: nat)
  {
    e.acked <= n && forall i | 0 <= i < |e.acks| :: e.acks[i] <= n
  }

  ghost predicate SessionOk(s: Sys, e: Session)
  {
    && e.follower in s.followers && e.tok in s.files && (e.reader.Some? ==> e.reader.value == e.tok)
    && (e.tok == s.current ==>
          s.followers[e.follower].token == Some(s.current) && AcksWithin(e, |s.followers[e.follower].log|))
  }

  ghost predicate LeaderOk(s: Sys)
  {
    && (forall t: Token :: t in s.files <==> t <= s.current)
    && (forall t <- s.files :: Loggable(s.files[t]))
    && s.kv == ApplyOps(map[], s.files[s.current])
  }

  ghost predicate Inv(s: Sys)
  {
    && LeaderOk(s)
    && (forall i <- s.followers :: FollowerOk(s.files, s.followers[i]))
    && (forall i <- s.followers | i !in s.links :: s.followers[i] == Reset(s.followers[i]))
    && (forall i <- s.links :: i in s.followers && s.links[i] in s.sessions && s.sessions[s.links[i]].follower == i)
    && (forall i <- s.links :: LinkOk(s.files, s.followers[i], s.sessions[s.links[i]]))
    && (forall k <- s.sessions :: SessionOk(s, s.sessions[k]))
  }

  // ----- Every step keeps it.

  lemma InitInv(s: Sys)
    requires Init(s)
    ensures Inv(s)
  {
    hide Rested, Loggable, ApplyOps, LogBytes;
    FreshRests();
    assert LeaderOk(s);
    forall i <- s.followers ensures FollowerOk(s.files, s.followers[i]) && s.followers[i] == Reset(s.followers[i]) {
      assert s.followers[i] == FRESH;
    }
  }

  /** Log files only grow, and a prefix of the shorter is a prefix of the longer. */
  ghost predicate Grows(files: map<Token, seq<Op>>, more: map<Token, seq<Op>>)
  {
    forall t <- files :: t in more && LogBytes(files[t]) <= LogBytes(more[t])
  }

  lemma FollowerGrows(files: map<Token, seq<Op>>, more: map<Token, seq<Op>>, f: Follower)
    requires FollowerOk(files, f) && Grows(files, more)
    ensures FollowerOk(more, f)
  {
    hide Rested, LogBytes;
  }

  lemma LinkGrows(files: map<Token, seq<Op>>, more: map<Token, seq<Op>>, f: Follower, e: Session)
    requires LinkOk(files, f, e) && Grows(files, more)
    ensures LinkOk(more, f, e)
  {
    hide Rested, LogBytes, Got, Clean, Recover;
    var a, b := LogBytes(files[e.tok]), LogBytes(more[e.tok]);
    assert b[..e.sent] == a[..e.sent];
  }

  lemma GrowKeeps(s: Sys, t: Sys)
    requires Inv(s) && LeaderOk(t) && Grows(s.files, t.files)
    requires t == s.(files := t.files, current := t.current, kv := t.kv)
    requires t.current != s.current ==> t.current !in s.files
    ensures Inv(t)
  {
    hide LeaderOk, FollowerOk, LinkOk, Reset, Grows, LogBytes, AcksWithin;
    forall i <- t.followers ensures FollowerOk(t.files, t.followers[i]) {
      FollowerGrows(s.files, t.files, t.followers[i]);
    }
    forall i <- t.links ensures LinkOk(t.files, t.followers[i], t.sessions[t.links[i]]) {
      LinkGrows(s.files, t.files, t.followers[i], t.sessions[t.links[i]]);
    }
    forall k <- t.sessions ensures SessionOk(t, t.sessions[k]) {
      assert SessionOk(s, s.sessions[k]);
      assert t.sessions[k].tok in t.files by { SomeFile(s.files, t.files, t.sessions[k].tok); }
    }
  }

  lemma SomeFile(files: map<Token, seq<Op>>, more: map<Token, seq<Op>>, tok: Token)
    requires Grows(files, more) && tok in files
    ensures tok in more
  {
    hide LogBytes;
  }

  lemma WriteKeeps(s: Sys, op: Op)
    requires Inv(s) && Enabled(s, Write(op))
    ensures Inv(Do(s, Write(op)))
  {
    hide FollowerOk, LinkOk, SessionOk, LogBytes, LoggableOp, ApplyOp, Reset;
    var t := Do(s, Write(op));
    var ops := s.files[s.current];
    LogBytesConcat(ops, [op]);
    assert (ops + [op])[..|ops|] == ops;
    Store.StepOps(map[], ops + [op]);
    GrowKeeps(s, t);
  }

  lemma CompactKeeps(s: Sys, entries: seq<(Key, Value)>)
    requires Inv(s) && Enabled(s, Compact(entries))
    ensures Inv(Do(s, Compact(entries)))
  {
    hide FollowerOk, LinkOk, SessionOk, LogBytes, Loggable, ApplyOps, Reset, Store.SmallMap, Lists;
    var t := Do(s, Compact(entries));
    assert Store.SmallMap(map[]) by { NothingSmall(); }
    Store.ApplyOpsSmall(map[], s.files[s.current]);
    Store.SnapshotLoggable(entries, s.kv);
    Store.ListingReplays(entries, s.kv);
    GrowKeeps(s, t);
  }

  lemma NothingSmall()
    ensures Store.SmallMap(map[])
  {
  }

  lemma FreshRests()
    ensures Rested(FRESH) && FRESH == Reset(FRESH)
  {
    RecoverNothing();
  }

  lemma HandshakeLinks(s: Sys, f: Follower, e: Session)
    requires Inv(s) && FollowerOk(s.files, f) && f == Reset(f)
    requires var g := Handshaken(s, f); e.tok == s.current && e.sent == |g.log| && e.wire == []
    ensures var g := Handshaken(s, f);
            FollowerOk(s.files, g) && LinkOk(s.files, g, e) && g.token == Some(s.current)
            && (f.token == Some(s.current) ==> g.log == f.log)
  {
    hide Rested, Following, LogBytes, Got;
    var g := Handshaken(s, f);
    assert Rested(g) && g == Reset(g) by {
      if !CanResume(s, f) {
        FreshRests();
        assert g == FRESH.(token := g.token);
        RestedToken(FRESH, g.token);
      }
    }
    assert s.current in s.files;
    RestedFollows(s.files[s.current], g);
  }

  lemma RestedToken(f: Follower, token: Option<Token>)
    requires Rested(f)
    ensures Rested(f.(token := token))
  {
  }

  lemma DecideKeeps(s: Sys, f: Id, sid: Id)
    requires Inv(s) && Enabled(s, Decide(f, sid))
    ensures Inv(Do(s, Decide(f, sid)))
  {
    hide LeaderOk, FollowerOk, LinkOk, Reset, LogBytes, Handshaken;
    var t := Do(s, Decide(f, sid));
    var e := t.sessions[sid];
    var g := t.followers[f];
    HandshakeLinks(s, s.followers[f], e);
    forall k <- t.sessions ensures SessionOk(t, t.sessions[k]) {
      if k != sid {
        assert SessionOk(s, s.sessions[k]);
      }
    }
    forall i <- t.links ensures LinkOk(t.files, t.followers[i], t.sessions[t.links[i]]) {
      if i != f {
        assert s.links[i] in s.sessions;
      }
    }
    LeaderSame(s, t);
  }

  lemma LeaderSame(s: Sys, t: Sys)
    requires LeaderOk(s) && t.files == s.files && t.current == s.current && t.kv == s.kv
    ensures LeaderOk(t)
  {
    hide Loggable, ApplyOps;
  }

  /** Replacing one session, leaving every follower as it was. */
  lemma SessionKeeps(s: Sys, sid: Id, e: Session)
    requires Inv(s) && sid in s.sessions
    requires e.follower == s.sessions[sid].follower && SessionOk(s, e)
    requires s.sessions[sid].follower in s.links && s.links[e.follower] == sid ==>
               LinkOk(s.files, s.followers[e.follower], e)
    ensures Inv(s.(sessions := s.sessions[sid := e]))
  {
    hide LeaderOk, FollowerOk, LinkOk, Reset;
    var t := s.(sessions := s.sessions[sid := e]);
    LeaderSame(s, t);
    forall k <- t.sessions ensures SessionOk(t, t.sessions[k]) {
      assert SessionOk(s, if k == sid then e else s.sessions[k]);
    }
    forall i <- t.links ensures LinkOk(t.files, t.followers[i], t.sessions[t.links[i]]) {
      assert LinkOk(s.files, s.followers[i], s.sessions[s.links[i]]);
    }
  }

  lemma RegisterKeeps(s: Sys, sid: Id)
    requires Inv(s) && Enabled(s, Register(sid)) && s.sessions[sid].tok == s.current
    ensures Inv(Do(s, Register(sid)))
  {
    hide LeaderOk, FollowerOk, Following, Got, LogBytes, Reset;
    var e := s.sessions[sid];
    assert SessionOk(s, e);
    SessionKeeps(s, sid, e.(reader := Some(s.current)));
  }

  lemma ShipKeeps(s: Sys, sid: Id, n: nat)
    requires Inv(s) && Enabled(s, Ship(sid, n))
    ensures Inv(Do(s, Ship(sid, n)))
  {
    hide LeaderOk, FollowerOk, Following, Got, LogBytes, Reset;
    var e := s.sessions[sid];
    assert SessionOk(s, e);
    var log := LogBytes(s.files[e.tok]);
    var bytes := log[e.sent..e.sent + n];
    assert log[..e.sent + n] == log[..e.sent] + bytes;
    var f := s.followers[e.follower];
    if e.follower in s.links && s.links[e.follower] == sid {
      assert LinkOk(s.files, f, e);
      assert Got(f) + f.recv + (e.wire + bytes) == (Got(f) + f.recv + e.wire) + bytes;
    }
    SessionKeeps(s, sid, e.(sent := e.sent + n, wire := e.wire + bytes));
  }

  lemma {:induction false} HighestWithin(acked: nat, acks: seq<nat>, n: nat)
    requires acked <= n && forall i | 0 <= i < |acks| :: acks[i] <= n
    ensures acked <= Highest(acked, acks) <= n
  {
    if acks != [] {
      HighestWithin(acked, acks[..|acks| - 1], n);
    }
  }

  lemma DrainKeeps(s: Sys, sid: Id, n: nat)
    requires Inv(s) && Enabled(s, DrainAcks(sid, n))
    ensures Inv(Do(s, DrainAcks(sid, n)))
  {
    hide LeaderOk, FollowerOk, Following, Got, LogBytes, Reset;
    var e := s.sessions[sid];
    assert SessionOk(s, e);
    if e.tok == s.current {
      HighestWithin(e.acked, e.acks[..n], |s.followers[e.follower].log|);
    }
    SessionKeeps(s, sid, e.(acks := e.acks[n..], acked := Highest(e.acked, e.acks[..n])));
  }

  /** Replacing one follower by one with the same token and no shorter a log. */
  lemma FollowerKeeps(s: Sys, t: Sys, i: Id)
    requires Inv(s) && i in s.followers && i in t.followers
    requires t == s.(followers := s.followers[i := t.followers[i]], links := s.links - {i})
    requires FollowerOk(s.files, t.followers[i]) && t.followers[i] == Reset(t.followers[i])
    requires t.followers[i].token == s.followers[i].token && |s.followers[i].log| <= |t.followers[i].log|
    ensures Inv(t)
  {
    hide LeaderOk, FollowerOk, LinkOk, Reset;
    LeaderSame(s, t);
    forall k <- t.sessions ensures SessionOk(t, t.sessions[k]) {
      assert SessionOk(s, s.sessions[k]);
    }
    forall j <- t.links ensures LinkOk(t.files, t.followers[j], t.sessions[t.links[j]]) {
      assert LinkOk(s.files, s.followers[j], s.sessions[s.links[j]]);
    }
  }

  lemma DropKeeps(s: Sys, f: Id)
    requires Inv(s) && Enabled(s, Disconnect(f))
    ensures Inv(Do(s, Disconnect(f)))
  {
    hide LeaderOk, LinkOk, SessionOk, Rested, LogBytes;
    assert FollowerOk(s.files, s.followers[f]);
    ResetRests(s.followers[f]);
    FollowerKeeps(s, Do(s, Disconnect(f)), f);
  }

  lemma RestartRests(f: Follower)
    requires Rested(f)
    ensures Rested(Restarted(f)) && Restarted(f) == Reset(Restarted(f))
  {
    hide Replayed;
  }

  lemma RestartKeeps(s: Sys, f: Id)
    requires Inv(s) && Enabled(s, Restart(f))
    ensures Inv(Do(s, Restart(f)))
  {
    hide LeaderOk, LinkOk, SessionOk, Rested, LogBytes;
    assert FollowerOk(s.files, s.followers[f]);
    RestartRests(s.followers[f]);
    FollowerKeeps(s, Do(s, Restart(f)), f);
  }

  /** What the restarted leader has is what recovery makes of the torn file. */
  lemma LeaderRestartIsRecovery(s: Sys, op: Op, m: nat)
    requires LeaderOk(s) && CanRestart(s, op, m)
    ensures LeaderOk(LeaderRestarted(s, op, m))
    ensures Kept(TornFile(s, op, m)) == LogBytes(LeaderRestarted(s, op, m).files[s.current])
    ensures LeaderRestarted(s, op, m).files ==
            s.files[s.current := s.files[s.current] + if m == |OpBytes(op)| then [op] else []]
  {
    hide LogBytes, LoggableOp, ApplyOps, Replayed, WholeOps, Reset, OpBytes;
    var ops := s.files[s.current];
    var all, n := ops + [op], |LogBytes(ops)| + m;
    LogBytesSnoc(all);
    assert all[..|ops|] == ops && all[..|all|] == all;
    assert TornFile(s, op, m) == LogBytes(all)[..n];
    CrashRecovery(all, n);
    KeptIsALog(all, n);
    WholeOpsMost(all, n, |ops|);
    if m == |OpBytes(op)| {
      WholeOpsAll(all, n);
    } else {
      assert WholeOps(all, n) == |ops|;
      assert ops + [] == ops;
    }
  }

  lemma RestartLeaderKeeps(s: Sys, op: Op, m: nat)
    requires Inv(s) && Enabled(s, RestartLeader(op, m))
    ensures Inv(Do(s, RestartLeader(op, m)))
  {
    hide Inv, CanRestart, LeaderRestarted;
    LeaderRestartInv(s, op, m);
  }

  lemma LeaderRestartInv(s: Sys, op: Op, m: nat)
    requires Inv(s) && CanRestart(s, op, m)
    ensures Inv(LeaderRestarted(s, op, m))
  {
    hide LeaderOk, LinkOk, SessionOk, LogBytes, Rested, Reset, Recover, OpBytes, LoggableOp;
    LeaderRestartIsRecovery(s, op, m);
    var t := LeaderRestarted(s, op, m);
    LogBytesConcat(s.files[s.current], [op]);
    forall i <- t.followers ensures FollowerOk(t.files, t.followers[i]) && t.followers[i] == Reset(t.followers[i]) {
      assert FollowerOk(s.files, s.followers[i]);
      ResetRests(s.followers[i]);
      ResetSame(s.followers[i]);
      FollowerGrows(s.files, t.files, t.followers[i]);
    }
  }

  lemma ReapKeeps(s: Sys, sid: Id)
    requires Inv(s) && Enabled(s, Reap(sid))
    ensures Inv(Do(s, Reap(sid)))
  {
    hide LeaderOk, FollowerOk, LinkOk, Reset;
    var t := Do(s, Reap(sid));
    LeaderSame(s, t);
    forall i <- t.links ensures t.links[i] in t.sessions && LinkOk(t.files, t.followers[i], t.sessions[t.links[i]]) {
      assert LinkOk(s.files, s.followers[i], s.sessions[s.links[i]]);
      assert s.links[i] in s.links.Values;
    }
    forall k <- t.sessions ensures SessionOk(t, t.sessions[k]) {
      assert SessionOk(s, s.sessions[k]);
    }
  }

  /** A linked follower takes any part of what is on the wire. */
  lemma ConsumeLinked(files: map<Token, seq<Op>>, f: Follower, e: Session, n: nat)
    requires e.tok in files && LinkOk(files, f, e) && FollowerOk(files, f) && Loggable(files[e.tok]) && n <= |e.wire|
    ensures var r := Consume(f, e.wire[..n]);
            var e' := e.(wire := e.wire[n..]);
            && FollowerOk(files, r.f) && r.f.token == f.token && |f.log| <= |r.f.log|
            && (if r.up then LinkOk(files, r.f, e') else r.f == Reset(f))
            && (r.ack.Some? ==> r.up && r.ack.value == |r.f.log|)
  {
    hide Following, Got, LogBytes, Loggable, Rested, Consume, Reset;
    var log := LogBytes(files[e.tok]);
    var chunk := e.wire[..n];
    assert Got(f) + f.recv + chunk + e.wire[n..] == Got(f) + f.recv + e.wire;
    assert Got(f) + f.recv + chunk <= log[..e.sent];
    ConsumeFollows(files[e.tok], f, chunk);
    var r := Consume(f, chunk);
    if r.up {
      FollowingPrefix(files[e.tok], r.f);
    } else {
      ResetSame(f);
    }
  }

  lemma ResetSame(f: Follower)
    ensures Reset(f).log == f.log && Reset(f).token == f.token && Reset(Reset(f)) == Reset(f)
  {
  }

  lemma FollowingPrefix(ops: seq<Op>, f: Follower)
    requires Following(ops, f)
    ensures f.log <= LogBytes(ops)
  {
    hide LogBytes, Rested, Frames, Clean, Recover;
    assert f.log <= Got(f) <= Got(f) + f.recv;
  }

  lemma DeliverKeeps(s: Sys, f: Id, n: nat)
    requires Inv(s) && Enabled(s, Deliver(f, n))
    ensures Inv(Do(s, Deliver(f, n)))
  {
    hide LeaderOk, FollowerOk, LinkOk, SessionOk, LogBytes, Reset, Consume;
    var t := Do(s, Deliver(f, n));
    var sid := s.links[f];
    var e := s.sessions[sid];
    assert LinkOk(s.files, s.followers[f], e) && FollowerOk(s.files, s.followers[f]) && SessionOk(s, e);
    FileLoggable(s, e);
    ConsumeLinked(s.files, s.followers[f], e, n);
    ResetSame(s.followers[f]);
    LeaderSame(s, t);
    forall i <- t.links ensures i in t.followers && t.links[i] in t.sessions && t.sessions[t.links[i]].follower == i
                                && LinkOk(t.files, t.followers[i], t.sessions[t.links[i]]) {
      assert LinkOk(s.files, s.followers[i], s.sessions[s.links[i]]);
      if i == f {
        LinkAcks(t.files, t.followers[i], e.(wire := e.wire[n..]), t.sessions[sid]);
      }
    }
    forall k <- t.sessions ensures SessionOk(t, t.sessions[k]) {
      assert SessionOk(s, s.sessions[k]);
      SessionMoves(s, t, f, s.sessions[k], t.sessions[k]);
    }
  }

  /** Acknowledgements do not matter to a link. */
  lemma LinkAcks(files: map<Token, seq<Op>>, f: Follower, e: Session, e': Session)
    requires LinkOk(files, f, e) && e' == e.(acks := e'.acks)
    ensures LinkOk(files, f, e')
  {
    hide Following, Got, LogBytes;
  }

  lemma SessionMoves(s: Sys, t: Sys, f: Id, e: Session, e': Session)
    requires SessionOk(s, e) && t.files == s.files && t.current == s.current
    requires f in s.followers && f in t.followers && t.followers == s.followers[f := t.followers[f]]
    requires t.followers[f].token == s.followers[f].token && |s.followers[f].log| <= |t.followers[f].log|
    requires e' == e.(wire := e'.wire, acks := e'.acks)
    requires e'.acks == e.acks || (e.follower == f && e'.acks == e.acks + [|t.followers[f].log|])
    ensures SessionOk(t, e')
  {
  }

  lemma FileLoggable(s: Sys, e: Session)
    requires LeaderOk(s) && SessionOk(s, e)
    ensures e.tok in s.files && Loggable(s.files[e.tok])
  {
    hide Loggable, ApplyOps;
  }

  // ----- Runs.

  /** A run: each state follows from the one before by an enabled step. */
  ghost predicate IsRun(states: seq<Sys>, steps: seq<Step>)
  {
    && |states| == |steps| + 1 && Init(states[0])
    && forall i | 0 <= i < |steps| :: Enabled(states[i], steps[i]) && states[i + 1] == Do(states[i], steps[i])
  }

  /** No compaction falls between the handshake's decision and the opening of the log. */
  ghost predicate HandshakesUndisturbed(states: seq<Sys>, steps: seq<Step>)
    requires |states| == |steps| + 1
  {
    forall i | 0 <= i < |steps| && steps[i].Register? ::
      steps[i].sid in states[i].sessions && states[i].sessions[steps[i].sid].tok == states[i].current
  }

  ghost function Last(states: seq<Sys>): Sys
    requires states != []
  {
    states[|states| - 1]
  }

  /** A run may always be continued by an enabled step. */
  lemma Extend(states: seq<Sys>, steps: seq<Step>, step: Step) returns (states': seq<Sys>, steps': seq<Step>)
    requires IsRun(states, steps) && Enabled(Last(states), step)
    ensures IsRun(states', steps') && Last(states') == Do(Last(states), step)
    ensures states' == states + [Last(states')] && steps' == steps + [step]
    ensures HandshakesUndisturbed(states, steps)
              && (step.Register? ==> Last(states).sessions[step.sid].tok == Last(states).current)
            ==> HandshakesUndisturbed(states', steps')
  {
    hide Do, Init, Enabled;
    if step.Register? {
      RegisterKnown(Last(states), step.sid);
    }
    states', steps' := states + [Do(Last(states), step)], steps + [step];
  }

  lemma RegisterKnown(s: Sys, sid: Id)
    requires Enabled(s, Register(sid))
    ensures sid in s.sessions
  {
  }

  lemma StepKeeps(s: Sys, step: Step)
    requires Inv(s) && Enabled(s, step)
    requires step.Register? ==> s.sessions[step.sid].tok == s.current
    ensures Inv(Do(s, step))
  {
    hide Inv, Do, Enabled;
    match step
    case Write(op) => WriteKeeps(s, op);
    case Compact(entries) => CompactKeeps(s, entries);
    case Decide(f, sid) => DecideKeeps(s, f, sid);
    case Register(sid) => RegisterKeeps(s, sid);
    case Ship(sid, n) => ShipKeeps(s, sid, n);
    case Deliver(f, n) => DeliverKeeps(s, f, n);
    case DrainAcks(sid, n) => DrainKeeps(s, sid, n);
    case Disconnect(f) => DropKeeps(s, f);
    case Restart(f) => RestartKeeps(s, f);
    case RestartLeader(op, m) => RestartLeaderKeeps(s, op, m);
    case Reap(sid) => ReapKeeps(s, sid);
  }

  lemma {:induction false} RunKeeps(states: seq<Sys>, steps: seq<Step>, i: nat)
    requires IsRun(states, steps) && HandshakesUndisturbed(states, steps) && i < |states|
    ensures Inv(states[i])
  {
    hide Inv, Do, Enabled, Init;
    if i == 0 {
      InitInv(states[0]);
    } else {
      RunKeeps(states, steps, i - 1);
      assert Enabled(states[i - 1], steps[i - 1]) && states[i] == Do(states[i - 1], steps[i - 1]);
      StepKeeps(states[i - 1], steps[i - 1]);
    }
  }

  /** The operations of its log file that a follower has. */
  function Applied(s: Sys, f: Follower): seq<Op>
    requires f.token.Some? ==> f.token.value in s.files
  {
    match f.token
    case None => []
    case Some(t) => s.files[t][..WholeOps(s.files[t], |f.log|)]
  }

  /**
    In every state of every run a follower holds a prefix of its leader's log file: whole operations, byte for
    byte, and their effect.
   */
  lemma FollowersArePrefixes(states: seq<Sys>, steps: seq<Step>, i: nat, id: Id)
    requires IsRun(states, steps) && HandshakesUndisturbed(states, steps) && i < |states| && id in states[i].followers
    ensures var s, f := states[i], states[i].followers[id];
            && (f.token.Some? ==> f.token.value in s.files && f.log <= LogBytes(s.files[f.token.value]))
            && f.log == LogBytes(Applied(s, f))
            && f.st.kv == ApplyOps(map[], Applied(s, f))
            && !f.st.inside && f.st.pending == []
  {
    hide Inv, IsRun, HandshakesUndisturbed, LogBytes, WholeOps, ApplyOps;
    RunKeeps(states, steps, i);
    var s := states[i];
    OkIsPrefix(s, id);
  }

  lemma OkIsPrefix(s: Sys, id: Id)
    requires Inv(s) && id in s.followers
    ensures var f := s.followers[id];
            && (f.token.Some? ==> f.token.value in s.files && f.log <= LogBytes(s.files[f.token.value]))
            && f.log == LogBytes(Applied(s, f))
            && f.st.kv == ApplyOps(map[], Applied(s, f))
            && !f.st.inside && f.st.pending == []
  {
    hide LogBytes, WholeOps, ApplyOps, Loggable, Replayed, LinkOk, SessionOk;
    var f := s.followers[id];
    assert FollowerOk(s.files, f);
    if f.token.Some? {
      PrefixOfRun(s.files[f.token.value], f.log);
    } else {
      EmptyLog();
      RecoverNothing();
    }
  }

  /** A follower level with the current log has the leader's map. */
  lemma CaughtUpMeansEqual(states: seq<Sys>, steps: seq<Step>, i: nat, id: Id)
    requires IsRun(states, steps) && HandshakesUndisturbed(states, steps) && i < |states| && id in states[i].followers
    requires var s, f := states[i], states[i].followers[id];
             s.current in s.files && f.token == Some(s.current) && |f.log| == |LogBytes(s.files[s.current])|
    ensures states[i].followers[id].st.kv == states[i].kv
  {
    hide Inv, IsRun, HandshakesUndisturbed, LogBytes, WholeOps, ApplyOps, Loggable;
    var s, f := states[i], states[i].followers[id];
    RunKeeps(states, steps, i);
    OkIsPrefix(s, id);
    assert s.kv == ApplyOps(map[], s.files[s.current]) by { LeaderMap(s); }
    var ops := s.files[s.current];
    WholeOpsAll(ops, |f.log|);
    assert ops[..|ops|] == ops;
  }

  lemma LeaderMap(s: Sys)
    requires Inv(s)
    ensures s.kv == ApplyOps(map[], s.files[s.current])
  {
    hide ApplyOps, Loggable, FollowerOk, LinkOk, SessionOk, Reset;
  }

  // ----- Synchronous writes.

  /** The wait of `onAppend` ends because this session acknowledged the offset. */
  predicate Releases(e: Session, end: nat) { e.acked >= end }

  /** If the session streams the current log, the follower then has every byte up to the offset. */
  lemma AcknowledgedIsReplicated(states: seq<Sys>, steps: seq<Step>, i: nat, sid: Id, end: nat)
    requires IsRun(states, steps) && HandshakesUndisturbed(states, steps) && i < |states| && sid in states[i].sessions
    requires Releases(states[i].sessions[sid], end) && states[i].sessions[sid].tok == states[i].current
    ensures var s, e := states[i], states[i].sessions[sid];
            && e.follower in s.followers && s.current in s.files
            && end <= |s.followers[e.follower].log| <= |LogBytes(s.files[s.current])|
            && s.followers[e.follower].log[..end] == LogBytes(s.files[s.current])[..end]
  {
    hide IsRun, HandshakesUndisturbed, LogBytes, LinkOk, Rested, Loggable, ApplyOps;
    RunKeeps(states, steps, i);
    var s, e := states[i], states[i].sessions[sid];
    assert SessionOk(s, e);
    assert FollowerOk(s.files, s.followers[e.follower]);
  }

  /**
    A write that someone has to acknowledge is never in the log of a follower when it is made, so what releases it
    at once is a session of a replaced log that had acknowledged as much, and such a session always does.
   */
  lemma ReleasedAtOnceIffStale(states: seq<Sys>, steps: seq<Step>, i: nat, op: Op, sid: Id)
    requires IsRun(states, steps) && HandshakesUndisturbed(states, steps) && i < |steps|
    requires steps[i] == Write(op) && OpBytes(op) != [] && sid in states[i + 1].sessions
    ensures var s := states[i + 1]; s.current in s.files
    ensures var s, e := states[i + 1], states[i + 1].sessions[sid];
            var end := |LogBytes(s.files[s.current])|;
            && (Releases(e, end) <==> e.tok != s.current && e.acked >= end)
            && forall f <- s.followers | s.followers[f].token == Some(s.current) :: |s.followers[f].log| < end
  {
    hide HandshakesUndisturbed, LogBytes, LinkOk, Rested, Loggable, LoggableOp, ApplyOps, ApplyOp, OpBytes, Reset, Init;
    RunKeeps(states, steps, i);
    var s := states[i];
    assert Enabled(s, Write(op)) && states[i + 1] == Do(s, Write(op));
    var ops := s.files[s.current];
    assert (ops + [op])[..|ops|] == ops;
    LogBytesSnoc(ops + [op]);
    assert SessionOk(s, s.sessions[sid]);
    forall f <- s.followers | s.followers[f].token == Some(s.current) ensures |s.followers[f].log| <= |LogBytes(ops)| {
      assert FollowerOk(s.files, s.followers[f]);
    }
  }

  // ----- Nothing is lost on the way.

  /** The operations a run asked the leader for, and those it had wholly written when it died. */
  ghost function Asked(steps: seq<Step>): seq<Op>
  {
    if steps == [] then []
    else
      var last := steps[|steps| - 1];
      Asked(steps[..|steps| - 1]) +
      if last.Write? || (last.RestartLeader? && last.m == |OpBytes(last.op)|) then [last.op] else []
  }

  ghost predicate Keeps(step: Step) { step.Write? || (step.RestartLeader? && step.m == |OpBytes(step.op)|) }

  lemma AskedSnoc(steps: seq<Step>, step: Step)
    ensures Asked(steps + [step]) == if Keeps(step) then Asked(steps) + [step.op] else Asked(steps)
  {
    assert (steps + [step])[..|steps|] == steps;
  }

  lemma StepKv(s: Sys, step: Step)
    requires LeaderOk(s) && Enabled(s, step)
    ensures Do(s, step).kv == if Keeps(step) then ApplyOp(s.kv, step.op) else s.kv
  {
    hide LogBytes, Recover, ApplyOp, ApplyOps, Loggable, LoggableOp, WholeOps, Highest, Consume, Handshaken, OpBytes;
    if step.RestartLeader? {
      LeaderRestartIsRecovery(s, step.op, step.m);
      RestartKv(s, step.op, step.m);
    }
  }

  lemma RestartKv(s: Sys, op: Op, m: nat)
    requires LeaderOk(s) && CanRestart(s, op, m)
    ensures LeaderRestarted(s, op, m).kv == if m == |OpBytes(op)| then ApplyOp(s.kv, op) else s.kv
  {
    hide LogBytes, Recover, ApplyOp, Loggable, LoggableOp, WholeOps, OpBytes;
    LeaderRestartIsRecovery(s, op, m);
    var ops := s.files[s.current];
    assert (ops + [op])[..|ops|] == ops && ops + [] == ops;
  }

  lemma OneStep(states: seq<Sys>, steps: seq<Step>, i: nat)
    requires IsRun(states, steps) && i < |steps|
    ensures |states| == |steps| + 1 && Enabled(states[i], steps[i]) && states[i + 1] == Do(states[i], steps[i])
  {
    hide Enabled, Do, Init;
  }

  lemma WriteLeader(s: Sys, op: Op)
    requires LeaderOk(s) && Enabled(s, Write(op))
    ensures LeaderOk(Do(s, Write(op)))
  {
    hide LoggableOp, ApplyOp;
    var ops := s.files[s.current];
    assert (ops + [op])[..|ops|] == ops;
    Store.StepOps(map[], ops + [op]);
  }

  lemma CompactLeader(s: Sys, entries: seq<(Key, Value)>)
    requires LeaderOk(s) && Enabled(s, Compact(entries))
    ensures LeaderOk(Do(s, Compact(entries)))
  {
    hide Loggable, ApplyOps, Store.SmallMap, Lists;
    assert Store.SmallMap(map[]) by { NothingSmall(); }
    Store.ApplyOpsSmall(map[], s.files[s.current]);
    Store.SnapshotLoggable(entries, s.kv);
    Store.ListingReplays(entries, s.kv);
  }

  lemma StepLeader(s: Sys, step: Step)
    requires LeaderOk(s) && Enabled(s, step)
    ensures LeaderOk(Do(s, step))
  {
    hide LeaderOk, LogBytes, Recover, WholeOps, Highest, Consume, Handshaken, OpBytes, Lists, LoggableOp;
    match step
    case Write(op) => WriteLeader(s, op);
    case Compact(entries) => CompactLeader(s, entries);
    case RestartLeader(op, m) => LeaderRestartIsRecovery(s, op, m);
    case _ => LeaderSame(s, Do(s, step));
  }

  /** In every state of every run the leader's map is that of all the operations asked for, across its restarts. */
  lemma {:induction false} LeaderHasAllWrites(states: seq<Sys>, steps: seq<Step>, i: nat)
    requires IsRun(states, steps) && i < |states|
    ensures LeaderOk(states[i])
    ensures states[i].kv == ApplyOps(states[0].kv, Asked(steps[..i]))
  {
    hide IsRun, Enabled, Do, LeaderOk, ApplyOps, ApplyOp, Asked;
    RunLength(states, steps);
    if i == 0 {
      assert steps[..0] == [];
      NothingAsked(states[0].kv);
      StartLeader(states, steps);
    } else {
      LeaderHasAllWrites(states, steps, i - 1);
      OneStep(states, steps, i - 1);
      StepLeader(states[i - 1], steps[i - 1]);
      StepKv(states[i - 1], steps[i - 1]);
      assert steps[..i] == steps[..i - 1] + [steps[i - 1]];
      AskedSnoc(steps[..i - 1], steps[i - 1]);
      if Keeps(steps[i - 1]) {
        OneMore(states[0].kv, Asked(steps[..i - 1]), steps[i - 1].op);
      }
    }
  }

  lemma RunLength(states: seq<Sys>, steps: seq<Step>)
    requires IsRun(states, steps)
    ensures |states| == |steps| + 1
  {
    hide Enabled, Do, Init;
  }

  lemma StartLeader(states: seq<Sys>, steps: seq<Step>)
    requires IsRun(states, steps)
    ensures LeaderOk(states[0])
  {
    hide Enabled, Do, Loggable, ApplyOps;
  }

  lemma NothingAsked(m: KV)
    ensures ApplyOps(m, Asked([])) == m
  {
  }

  lemma OneMore(m: KV, ops: seq<Op>, op: Op)
    ensures ApplyOps(m, ops + [op]) == ApplyOp(ApplyOps(m, ops), op)
  {
    assert (ops + [op])[..|ops|] == ops;
  }

  /**
    In every state of every run every operation with readable records can be written, any listing of the map can
    replace the log, any follower can stop and start again, and so can the leader, before or after an operation.
   */
  lemma AlwaysPossible(states: seq<Sys>, steps: seq<Step>, i: nat, op: Op, entries: seq<(Key, Value)>, f: Id)
    requires IsRun(states, steps) && i < |states|
    ensures Enabled(states[i], Write(op)) <==> LoggableOp(op)
    ensures Enabled(states[i], Compact(entries)) <==> Lists(entries, states[i].kv)
    ensures Enabled(states[i], Restart(f)) <==> f in states[i].followers
    ensures LoggableOp(op) ==>
              Enabled(states[i], RestartLeader(op, 0)) && Enabled(states[i], RestartLeader(op, |OpBytes(op)|))
  {
    hide IsRun, Loggable, LoggableOp, ApplyOps, Lists, LogBytes, OpBytes, Recover;
    LeaderHasAllWrites(states, steps, i);
    if LoggableOp(op) {
      CleanRestarts(states[i], op);
    }
  }

  /** A leader that died between two operations recovers outside any transaction. */
  lemma CleanRestarts(s: Sys, op: Op)
    requires LeaderOk(s) && s.current in s.files && LoggableOp(op)
    ensures CanRestart(s, op, 0) && CanRestart(s, op, |OpBytes(op)|)
  {
    hide LogBytes, OpBytes, Recover, LoggableOp, ApplyOps;
    var ops := s.files[s.current];
    var all := ops + [op];
    assert TornFile(s, op, 0) == LogBytes(ops);
    WholeLogSettles(ops);
    assert all[..|all| - 1] == ops && all[|all| - 1] == op;
    LogBytesSnoc(all);
    assert OpBytes(op)[..|OpBytes(op)|] == OpBytes(op);
    WholeLogSettles(all);
  }

  /** A session begins with a handshake and ends when it is reaped or its leader restarts. */
  lemma SessionsEnd(s: Sys, step: Step)
    requires Enabled(s, step)
    ensures Do(s, step).sessions.Keys ==
            match step
            case Decide(_, sid) => s.sessions.Keys + {sid}
            case Reap(sid) => s.sessions.Keys - {sid}
            case RestartLeader(_, _) => {}
            case _ => s.sessions.Keys
  {
    hide LogBytes, Recover, ApplyOp, ApplyOps, Loggable, LoggableOp, WholeOps, Highest, Consume, OpBytes, CanResume;
  }

  lemma ConsumeExtends(f: Follower, chunk: Bytes)
    ensures f.log <= Consume(f, chunk).f.log && Consume(f, chunk).f.token == f.token
  {
    hide Frames, ApplyPayloads, Absorb, StepPayload, ParseHead;
    AbsorbLeaves(f.(recv := f.recv + chunk));
  }

  lemma {:induction false} AbsorbLeaves(f: Follower)
    ensures Absorb(f).Some? ==> Absorb(f).value.log == f.log && Absorb(f).value.token == f.token
    decreases |f.recv|
  {
    hide ParseHead, TracksInside;
    if ParseHead(f.recv).Ok? {
      AbsorbLeaves(Buffer(f, ParseHead(f.recv).payload));
    }
  }

  /** The step starts this follower's log over. */
  ghost predicate StartsOver(s: Sys, step: Step, id: Id)
  {
    step.Decide? && step.f == id && id in s.followers && !CanResume(s, s.followers[id])
  }

  /**
    Whatever happens to it, its connections or its leader, a follower keeps its log and only adds to it, until the
    leader answers that it has to start over.
   */
  lemma FollowersKeepTheirLogs(s: Sys, step: Step, id: Id)
    requires Enabled(s, step) && id in s.followers
    ensures var t := Do(s, step);
            && t.followers.Keys == s.followers.Keys
            && if StartsOver(s, step, id) then t.followers[id].log == [] && t.followers[id].token == Some(s.current)
               else s.followers[id].log <= t.followers[id].log && t.followers[id].token == s.followers[id].token
  {
    hide LogBytes, Recover, ApplyOp, ApplyOps, Loggable, LoggableOp, WholeOps, Highest, Consume, OpBytes, CanResume;
    if step.Deliver? {
      ConsumeExtends(s.followers[step.f], s.sessions[s.links[step.f]].wire[..step.n]);
    }
  }

  ghost predicate NoCompaction(steps: seq<Step>) { forall i | 0 <= i < |steps| :: !steps[i].Compact? }

  ghost predicate OneLog(s: Sys) { forall sid | sid in s.sessions :: s.sessions[sid].tok == s.current }

  lemma OneLogKept(s: Sys, step: Step)
    requires OneLog(s) && Enabled(s, step) && !step.Compact?
    ensures OneLog(Do(s, step))
  {
    hide LogBytes, Consume, Handshaken, ApplyOp, LoggableOp, Highest, Lists;
  }

  lemma {:induction false} AlwaysOneLog(states: seq<Sys>, steps: seq<Step>, i: nat)
    requires IsRun(states, steps) && NoCompaction(steps) && i < |states|
    ensures OneLog(states[i])
  {
    hide Do, Enabled;
    if i > 0 {
      AlwaysOneLog(states, steps, i - 1);
      OneLogKept(states[i - 1], steps[i - 1]);
    }
  }

  /** So in runs without compaction every write released by an acknowledgement is in that follower's log. */
  lemma SyncWritesAreReplicated(states: seq<Sys>, steps: seq<Step>, i: nat, sid: Id, end: nat)
    requires IsRun(states, steps) && NoCompaction(steps) && i < |states| && sid in states[i].sessions
    requires Releases(states[i].sessions[sid], end)
    ensures var s, e := states[i], states[i].sessions[sid];
            && e.follower in s.followers && s.current in s.files
            && end <= |s.followers[e.follower].log| <= |LogBytes(s.files[s.current])|
            && s.followers[e.follower].log[..end] == LogBytes(s.files[s.current])[..end]
  {
    hide Do, LogBytes, Releases, Init;
    forall n | 0 <= n < |states| ensures OneLog(states[n]) {
      AlwaysOneLog(states, steps, n);
    }
    assert HandshakesUndisturbed(states, steps) by {
      forall n | 0 <= n < |steps| && steps[n].Register?
        ensures steps[n].sid in states[n].sessions && states[n].sessions[steps[n].sid].tok == states[n].current
      {
        assert Enabled(states[n], steps[n]) && OneLog(states[n]);
      }
    }
    assert OneLog(states[i]);
    AcknowledgedIsReplicated(states, steps, i, sid, end);
  }

  // ----- Transactions too large to ship.

  ghost predicate LimitedOne(files: map<Token, seq<Op>>, f: Follower)
  {
    f.token.Some? ==> f.token.value in files && WithinLimit(files[f.token.value], f.log)
  }

  ghost predicate Limited(s: Sys) { forall i <- s.followers :: LimitedOne(s.files, s.followers[i]) }

  lemma LimitedKeeps(s: Sys, step: Step)
    requires Inv(s) && Enabled(s, step) && Limited(s)
    ensures Limited(Do(s, step))
  {
    hide WithinLimit, LogBytes, Consume, LeaderOk, SessionOk, LinkOk, Reset, Rested, Lists, LoggableOp, Highest, ApplyOp;
    hide Recover, OpBytes, WholeOps, CanRestart;
    var t := Do(s, step);
    forall i <- t.followers ensures LimitedOne(t.files, t.followers[i]) {
      var f := s.followers[i];
      assert FollowerOk(s.files, f) && LimitedOne(s.files, f);
      match step
      case Write(op) =>
        if f.token.Some? {
          AppendWithinLimit(s.files[f.token.value], op, f.log);
        }
      case Compact(_) => FreshToken(s);
      case Decide(_, _) => EmptyWithinLimit(s.files[s.current]);
      case Deliver(_, n) =>
        if i == step.f {
          LimitedDelivery(s, i, n);
        }
      case Disconnect(_) => ResetSame(f);
      case RestartLeader(op, m) => LimitedLeader(s, f, op, m);
      case _ =>
    }
  }

  lemma LimitedLeader(s: Sys, f: Follower, op: Op, m: nat)
    requires LeaderOk(s) && CanRestart(s, op, m) && FollowerOk(s.files, f) && LimitedOne(s.files, f)
    ensures LimitedOne(LeaderRestarted(s, op, m).files, Reset(f))
  {
    hide WithinLimit, LogBytes, LeaderOk, Rested, CanRestart, LeaderRestarted, OpBytes;
    LeaderRestartIsRecovery(s, op, m);
    ResetSame(f);
    if f.token == Some(s.current) {
      AppendWithinLimit(s.files[s.current], op, f.log);
      assert s.files[s.current] + [] == s.files[s.current];
    }
  }

  lemma LimitedDelivery(s: Sys, i: Id, n: nat)
    requires Inv(s) && Limited(s) && i in s.links && i in s.followers && s.links[i] in s.sessions
    requires n <= |s.sessions[s.links[i]].wire|
    ensures LimitedOne(s.files, Consume(s.followers[i], s.sessions[s.links[i]].wire[..n]).f)
  {
    hide WithinLimit, LogBytes, Consume, LeaderOk, SessionOk, LinkOk, Reset, Rested;
    var e := s.sessions[s.links[i]];
    assert LinkOk(s.files, s.followers[i], e) && SessionOk(s, e) && FollowerOk(s.files, s.followers[i]);
    LinkToken(s.files, s.followers[i], e);
    assert LimitedOne(s.files, s.followers[i]);
    LimitedRead(s, s.followers[i], e, n);
  }

  lemma LinkToken(files: map<Token, seq<Op>>, f: Follower, e: Session)
    requires LinkOk(files, f, e)
    ensures f.token == Some(e.tok) && e.tok in files
  {
    hide LogBytes, Following;
  }

  lemma LimitedRead(s: Sys, f: Follower, e: Session, n: nat)
    requires LeaderOk(s) && SessionOk(s, e) && FollowerOk(s.files, f) && LinkOk(s.files, f, e) && n <= |e.wire|
    requires e.tok in s.files && WithinLimit(s.files[e.tok], f.log)
    ensures var g := Consume(f, e.wire[..n]).f; g.token == Some(e.tok) && WithinLimit(s.files[e.tok], g.log)
  {
    hide WithinLimit, LogBytes, Consume, LeaderOk, SessionOk, Reset, Following, Rested, Got;
    FileLoggable(s, e);
    var chunk := e.wire[..n];
    assert Got(f) + f.recv + chunk + e.wire[n..] == Got(f) + f.recv + e.wire;
    ConsumeWithinLimit(s.files[e.tok], f, chunk);
    ConsumeLinked(s.files, f, e, n);
  }

  lemma FreshToken(s: Sys)
    requires LeaderOk(s)
    ensures s.current + 1 !in s.files
  {
    hide Loggable, ApplyOps;
  }

  /** No follower ever holds an operation whose records exceed the buffer: only a compaction can get it past one. */
  lemma {:induction false} OversizedNeverReplicated(states: seq<Sys>, steps: seq<Step>, i: nat)
    requires IsRun(states, steps) && HandshakesUndisturbed(states, steps) && i < |states|
    ensures Limited(states[i])
  {
    hide Inv, Do, Enabled, Init, Limited;
    if i == 0 {
      assert Limited(states[0]) by { StartLimited(states[0]); }
    } else {
      OversizedNeverReplicated(states, steps, i - 1);
      RunKeeps(states, steps, i - 1);
      assert Enabled(states[i - 1], steps[i - 1]) && states[i] == Do(states[i - 1], steps[i - 1]);
      LimitedKeeps(states[i - 1], steps[i - 1]);
    }
  }

  lemma StartLimited(s: Sys)
    requires Init(s)
    ensures Limited(s)
  {
  }
}
