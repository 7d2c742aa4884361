/** What a follower can still be brought to, from any state the cluster can reach. */
module Progress {
  import opened Bytes
  import opened Protocol
  import opened Record
  import opened Kv
  import opened Replay
  import opened Recovery
  import opened Replication
  import opened CatchUp
  import opened Reads
  import opened Cluster
  import Store

  // ----- Continuing a run.

  ghost predicate Follows(states: seq<Sys>, steps: seq<Step>, states': seq<Sys>, steps': seq<Step>)
  {
    && IsRun(states, steps) && IsRun(states', steps') && states <= states' && steps <= steps'
    && |states| == |steps| + 1 && |states'| == |steps'| + 1
    && (HandshakesUndisturbed(states, steps) ==> HandshakesUndisturbed(states', steps'))
  }

  /** Steps of connections and followers only: the leader is left alone. */
  predicate Quiet(step: Step) { !step.Write? && !step.Compact? && !step.RestartLeader? }

  ghost predicate Shipping(states: seq<Sys>, steps: seq<Step>, states': seq<Sys>, steps': seq<Step>)
  {
    Follows(states, steps, states', steps') && forall i | |steps| <= i < |steps'| :: Quiet(steps'[i])
  }

  lemma Onward(states: seq<Sys>, steps: seq<Step>, mid: seq<Sys>, midSteps: seq<Step>, step: Step)
    returns (states': seq<Sys>, steps': seq<Step>)
    requires Follows(states, steps, mid, midSteps) && Enabled(Last(mid), step)
    requires HandshakesUndisturbed(mid, midSteps) && step.Register? ==>
               Last(mid).sessions[step.sid].tok == Last(mid).current
    ensures Follows(states, steps, states', steps') && Last(states') == Do(Last(mid), step)
    ensures Shipping(states, steps, mid, midSteps) && Quiet(step) ==> Shipping(states, steps, states', steps')
    ensures HandshakesUndisturbed(mid, midSteps) ==> HandshakesUndisturbed(states', steps')
    ensures steps' == midSteps + [step] && states' == mid + [Last(states')]
  {
    hide IsRun, HandshakesUndisturbed, Enabled, Do;
    states', steps' := Extend(mid, midSteps, step);
  }

  lemma LastIndex(states: seq<Sys>, steps: seq<Step>)
    requires IsRun(states, steps)
    ensures |states| == |steps| + 1
  {
    hide Enabled, Do, Init;
  }

  lemma NoSteps(states: seq<Sys>, steps: seq<Step>)
    requires IsRun(states, steps)
    ensures Shipping(states, steps, states, steps)
  {
    hide Enabled, Do, Init, HandshakesUndisturbed;
  }

  // ----- One connection, from the handshake to the last byte sent.

  ghost predicate SameLeader(s: Sys, t: Sys) { t.files == s.files && t.current == s.current && t.kv == s.kv }

  /** The follower is connected and this is on the wire to it. */
  ghost predicate Linked(s: Sys, id: Id, f: Follower, wire: Bytes)
  {
    && s.current in s.files && id in s.followers && s.followers[id] == f
    && id in s.links && s.links[id] in s.sessions && s.sessions[s.links[id]].wire == wire
  }

  lemma {:induction false} FreshId(ids: set<Id>) returns (x: Id)
    ensures forall i <- ids :: i < x
    decreases |ids|
  {
    if ids == {} {
      x := 0;
    } else {
      var i :| i in ids;
      var y := FreshId(ids - {i});
      x := if i < y then y else i + 1;
      forall j <- ids ensures j < x {
        assert j == i || j in ids - {i};
      }
    }
  }

  lemma CurrentExists(s: Sys)
    requires Inv(s)
    ensures s.current in s.files && Loggable(s.files[s.current]) && s.kv == ApplyOps(map[], s.files[s.current])
  {
    hide FollowerOk, LinkOk, SessionOk, Reset, Loggable, ApplyOps;
  }

  lemma LastInv(states: seq<Sys>, steps: seq<Step>)
    requires IsRun(states, steps) && HandshakesUndisturbed(states, steps)
    ensures states != [] && Inv(Last(states))
  {
    hide Inv, Enabled, Do, HandshakesUndisturbed;
    RunKeeps(states, steps, |steps|);
  }

  lemma Disconnects(s: Sys, id: Id)
    requires Inv(s) && id in s.links
    ensures Enabled(s, Disconnect(id))
    ensures var t := Do(s, Disconnect(id));
            && SameLeader(s, t) && id !in t.links && id in t.followers
            && t.followers[id].log == s.followers[id].log
  {
    hide LogBytes, LeaderOk, FollowerOk, LinkOk, SessionOk;
    CurrentExists(s);
  }

  /** What a handshake leaves a follower with. */
  ghost predicate Ready(s: Sys, g: Follower)
  {
    && s.current in s.files && Rested(g) && g == Reset(g) && g.log <= LogBytes(s.files[s.current])
    && g.token == Some(s.current)
  }

  lemma HandshakenReady(s: Sys, id: Id)
    requires Inv(s) && id in s.followers && id !in s.links
    ensures Ready(s, Handshaken(s, s.followers[id]))
    ensures s.followers[id].log == [] ==> Handshaken(s, s.followers[id]).log == []
  {
    hide LogBytes, Rested, LinkOk, SessionOk, LeaderOk;
    CurrentExists(s);
    var f := s.followers[id];
    assert FollowerOk(s.files, f) && f == Reset(f);
    if !CanResume(s, f) {
      FreshRests();
      RestedToken(FRESH, Some(s.current));
    }
  }

  ghost predicate Opened(s: Sys, id: Id, sid: Id, g: Follower, reader: Option<Token>)
  {
    && s.current in s.files && id in s.followers && s.followers[id] == g
    && id in s.links && s.links[id] == sid && sid in s.sessions
    && s.sessions[sid].tok == s.current && s.sessions[sid].reader == reader
    && s.sessions[sid].sent == |g.log| && s.sessions[sid].wire == []
  }

  lemma Decides(s: Sys, id: Id, sid: Id)
    requires s.current in s.files && id in s.followers && id !in s.links && sid !in s.sessions
    ensures Enabled(s, Decide(id, sid))
    ensures var t := Do(s, Decide(id, sid)); SameLeader(s, t) && Opened(t, id, sid, Handshaken(s, s.followers[id]), None)
  {
    hide LogBytes, Handshaken;
  }

  lemma RegistersOpen(s: Sys, id: Id, sid: Id, g: Follower)
    requires Opened(s, id, sid, g, None)
    ensures Enabled(s, Register(sid))
    ensures var t := Do(s, Register(sid)); SameLeader(s, t) && Opened(t, id, sid, g, Some(s.current))
  {
    hide LogBytes;
  }

  lemma ShipsRest(s: Sys, id: Id, sid: Id, g: Follower)
    requires Opened(s, id, sid, g, Some(s.current)) && |g.log| <= |LogBytes(s.files[s.current])|
    ensures var log := LogBytes(s.files[s.current]); CanShip(s, sid, |log| - |g.log|)
    ensures var log := LogBytes(s.files[s.current]); var t := Shipped(s, sid, |log| - |g.log|);
            SameLeader(s, t) && Linked(t, id, g, log[|g.log|..])
  {
    hide LogBytes;
    var log := LogBytes(s.files[s.current]);
    assert log[|g.log|..|g.log| + (|log| - |g.log|)] == log[|g.log|..];
    assert [] + log[|g.log|..] == log[|g.log|..];
  }

  lemma ShipIs(s: Sys, sid: Id, n: nat)
    requires CanShip(s, sid, n)
    ensures Enabled(s, Ship(sid, n)) && Do(s, Ship(sid, n)) == Shipped(s, sid, n)
  {
    hide LogBytes, Shipped;
  }

  /** From any reachable state a follower can be connected and the rest of the current log sent to it. */
  lemma Connects(states: seq<Sys>, steps: seq<Step>, id: Id)
    returns (states': seq<Sys>, steps': seq<Step>, g: Follower)
    requires IsRun(states, steps) && HandshakesUndisturbed(states, steps) && id in Last(states).followers
    ensures Shipping(states, steps, states', steps') && HandshakesUndisturbed(states', steps')
    ensures SameLeader(Last(states), Last(states')) && Ready(Last(states'), g)
    ensures Linked(Last(states'), id, g, LogBytes(Last(states').files[Last(states').current])[|g.log|..])
    ensures Last(states).followers[id].log == [] ==> g.log == []
    ensures |steps'| > |steps|
  {
    hide IsRun, HandshakesUndisturbed, Enabled, Do, Inv, LogBytes, Rested, Ready, Handshaken, Shipped, CanShip;
    states', steps' := states, steps;
    NoSteps(states, steps);
    LastInv(states, steps);
    if id in Last(states).links {
      Disconnects(Last(states), id);
      states', steps' := Onward(states, steps, states', steps', Disconnect(id));
    }
    var s := Last(states');
    LastInv(states', steps');
    HandshakenReady(s, id);
    CurrentExists(s);
    g := Handshaken(s, s.followers[id]);
    var sid := FreshId(s.sessions.Keys);
    assert sid !in s.sessions;
    Decides(s, id, sid);
    states', steps' := Onward(states, steps, states', steps', Decide(id, sid));
    RegistersOpen(Last(states'), id, sid, g);
    states', steps' := Onward(states, steps, states', steps', Register(sid));
    ReadySame(s, Last(states'), g);
    ShipsRest(Last(states'), id, sid, g);
    var n := |LogBytes(Last(states').files[Last(states').current])| - |g.log|;
    ShipIs(Last(states'), sid, n);
    states', steps' := Onward(states, steps, states', steps', Ship(sid, n));
    ReadySame(s, Last(states'), g);
  }

  lemma ReadySame(s: Sys, t: Sys, g: Follower)
    requires Ready(s, g) && SameLeader(s, t)
    ensures Ready(t, g) && |g.log| <= |LogBytes(t.files[t.current])|
  {
    hide LogBytes, Rested;
  }

  // ----- Reading it.

  lemma Delivers(s: Sys, id: Id, f: Follower, chunk: Bytes, rest: Bytes)
    requires Linked(s, id, f, chunk + rest) && 0 < |chunk| <= READ_CHUNK_BYTES
    ensures CanDeliver(s, id, |chunk|)
    ensures var t, r := Delivered(s, id, |chunk|), Consume(f, chunk);
            && SameLeader(s, t) && id in t.followers && t.followers[id] == r.f
            && (if r.up then Linked(t, id, r.f, rest) else id !in t.links)
    ensures Enabled(s, Deliver(id, |chunk|)) && Do(s, Deliver(id, |chunk|)) == Delivered(s, id, |chunk|)
  {
    hide LogBytes, Consume;
    assert (chunk + rest)[..|chunk|] == chunk && (chunk + rest)[|chunk|..] == rest;
  }

  lemma {:induction false} DeliversAll(states: seq<Sys>, steps: seq<Step>, mid: seq<Sys>, midSteps: seq<Step>,
        id: Id, f: Follower, chunks: seq<Bytes>, rest: Bytes)
    returns (states': seq<Sys>, steps': seq<Step>)
    requires Follows(states, steps, mid, midSteps) && Linked(Last(mid), id, f, Joined(chunks) + rest) && Readings(chunks)
    ensures Follows(states, steps, states', steps')
    ensures states' != [] && |states'| == |steps'| + 1 && |mid| == |midSteps| + 1
    ensures mid <= states' && midSteps <= steps' && |steps'| <= |midSteps| + |chunks|
    ensures ReadAll(f, chunks).up ==> |steps'| == |midSteps| + |chunks|
    ensures forall i | |midSteps| <= i < |steps'| :: steps'[i] == Deliver(id, |chunks[i - |midSteps|]|)
    ensures HandshakesUndisturbed(mid, midSteps) ==> HandshakesUndisturbed(states', steps')
    ensures Shipping(states, steps, mid, midSteps) ==> Shipping(states, steps, states', steps')
    ensures SameLeader(Last(mid), Last(states')) && id in Last(states').followers
    ensures var r := ReadAll(f, chunks);
            && Last(states').followers[id] == r.f
            && (if r.up then Linked(Last(states'), id, r.f, rest) else id !in Last(states').links)
    decreases |chunks|
  {
    hide IsRun, HandshakesUndisturbed, Enabled, Do, Consume;
    if chunks == [] {
      states', steps' := mid, midSteps;
      assert Joined(chunks) + rest == rest;
    } else {
      var init, last := chunks[..|chunks| - 1], chunks[|chunks| - 1];
      assert Joined(chunks) + rest == Joined(init) + (last + rest);
      states', steps' := DeliversAll(states, steps, mid, midSteps, id, f, init, last + rest);
      if ReadAll(f, init).up {
        Delivers(Last(states'), id, ReadAll(f, init).f, last, rest);
        states', steps' := Onward(states, steps, states', steps', Deliver(id, |last|));
      }
    }
  }

  // ----- Who can catch up.

  /** The follower has the whole current log. */
  ghost predicate Level(s: Sys, id: Id)
  {
    && s.current in s.files && id in s.followers
    && s.followers[id].token == Some(s.current) && s.followers[id].log == LogBytes(s.files[s.current])
  }

  lemma CatchesUp(states: seq<Sys>, steps: seq<Step>, id: Id) returns (states': seq<Sys>, steps': seq<Step>)
    requires IsRun(states, steps) && HandshakesUndisturbed(states, steps) && id in Last(states).followers
    requires Last(states).current in Last(states).files && AllWithin(Last(states).files[Last(states).current])
    ensures Shipping(states, steps, states', steps') && SameLeader(Last(states), Last(states'))
    ensures Level(Last(states'), id) && Last(states').followers[id].st.kv == Last(states').kv
  {
    hide IsRun, HandshakesUndisturbed, Inv, LogBytes, Rested, AllWithin, ReadAll, Pieces, Loggable, ApplyOps, Reset;
    var mid, midSteps, g := Connects(states, steps, id);
    var s := Last(mid);
    LastInv(mid, midSteps);
    CurrentExists(s);
    var ops := s.files[s.current];
    var data := LogBytes(ops)[|g.log|..];
    ByteReadsArrive(ops, g);
    PiecesJoin(data, 1);
    assert Joined(Pieces(data, 1)) + [] == data;
    states', steps' := DeliversAll(states, steps, mid, midSteps, id, g, Pieces(data, 1), []);
  }

  lemma QuietStep(s: Sys, step: Step)
    requires Enabled(s, step) && Quiet(step)
    ensures SameLeader(s, Do(s, step))
  {
    hide LogBytes, Consume, Handshaken, Highest, Restarted, Reset;
  }

  lemma {:induction false} ShippingKeepsLeader(states: seq<Sys>, steps: seq<Step>,
        states': seq<Sys>, steps': seq<Step>, n: nat)
    requires Shipping(states, steps, states', steps') && |steps| <= n <= |steps'|
    ensures SameLeader(Last(states), states'[n])
    decreases n
  {
    hide Enabled, Do, HandshakesUndisturbed, Init;
    if n > |steps| {
      ShippingKeepsLeader(states, steps, states', steps', n - 1);
      QuietStep(states'[n - 1], steps'[n - 1]);
    }
  }

  lemma LevelIsWithin(states: seq<Sys>, steps: seq<Step>, id: Id)
    requires IsRun(states, steps) && HandshakesUndisturbed(states, steps) && Level(Last(states), id)
    ensures AllWithin(Last(states).files[Last(states).current])
  {
    hide IsRun, HandshakesUndisturbed, LogBytes, AllWithin, WithinLimit;
    LastIndex(states, steps);
    OversizedNeverReplicated(states, steps, |steps|);
    assert LimitedOne(Last(states).files, Last(states).followers[id]);
    WholeWithinLimit(Last(states).files[Last(states).current]);
  }

  /**
    From any reachable state, and with the leader left alone, some schedule brings a follower level with the
    current log exactly when no operation of that log exceeds the buffer limit.
   */
  lemma CatchUpPossibleIff(states: seq<Sys>, steps: seq<Step>, id: Id)
    requires IsRun(states, steps) && HandshakesUndisturbed(states, steps) && id in Last(states).followers
    ensures Last(states).current in Last(states).files
    ensures AllWithin(Last(states).files[Last(states).current]) <==>
            exists states', steps' :: Shipping(states, steps, states', steps') && Level(Last(states'), id)
  {
    hide IsRun, HandshakesUndisturbed, Inv, LogBytes, AllWithin, Loggable, ApplyOps;
    LastInv(states, steps);
    CurrentExists(Last(states));
    if AllWithin(Last(states).files[Last(states).current]) {
      var states', steps' := CatchesUp(states, steps, id);
    }
    if states', steps' :| Shipping(states, steps, states', steps') && Level(Last(states'), id) {
      LastIndex(states', steps');
      LastIndex(states, steps);
      ShippingKeepsLeader(states, steps, states', steps', |steps'|);
      LevelIsWithin(states', steps', id);
    }
  }

  // ----- Compaction ends a stall.

  lemma SetWithin(op: Op)
    requires LoggableOp(op) && op.SetOp?
    ensures OpSize(op) <= MAX_BUFFERED_BYTES
  {
    hide Encode;
    var ps := Payloads(OpEntries(op));
    assert ps == [ps[0]];
    TotalOne(ps[0]);
  }

  lemma SetsWithin(entries: seq<(Key, Value)>)
    requires Loggable(Store.SetOps(entries))
    ensures AllWithin(Store.SetOps(entries))
  {
    hide LoggableOp, OpSize;
    forall op <- Store.SetOps(entries) ensures OpSize(op) <= MAX_BUFFERED_BYTES {
      SetWithin(op);
    }
  }

  lemma Compacts(s: Sys, entries: seq<(Key, Value)>)
    requires s.current in s.files && Lists(entries, s.kv)
    ensures Enabled(s, Compact(entries))
    ensures var t := Do(s, Compact(entries));
            && t.followers == s.followers && t.kv == s.kv
            && t.current in t.files && t.files[t.current] == Store.SetOps(entries)
  {
    hide Lists;
  }

  /** Whatever the log held, after a compaction some schedule brings a follower level, with the leader's map. */
  lemma CompactionEndsStall(states: seq<Sys>, steps: seq<Step>, id: Id) returns (states': seq<Sys>, steps': seq<Step>)
    requires IsRun(states, steps) && HandshakesUndisturbed(states, steps) && id in Last(states).followers
    ensures Follows(states, steps, states', steps') && |steps'| > |steps| && steps'[|steps|].Compact?
    ensures forall i | |steps| < i < |steps'| :: Quiet(steps'[i])
    ensures Level(Last(states'), id) && Last(states').kv == Last(states).kv
    ensures Last(states').followers[id].st.kv == Last(states).kv
  {
    hide IsRun, HandshakesUndisturbed, Enabled, Do, Inv, LogBytes, AllWithin, Loggable, ApplyOps, Lists;
    LastInv(states, steps);
    LastIndex(states, steps);
    var s := Last(states);
    CurrentExists(s);
    var entries := SomeListing(s.kv);
    Compacts(s, entries);
    NoSteps(states, steps);
    var mid, midSteps := Onward(states, steps, states, steps, Compact(entries));
    LastInv(mid, midSteps);
    CurrentExists(Last(mid));
    SetsWithin(entries);
    states', steps' := CatchesUp(mid, midSteps, id);
    LastIndex(mid, midSteps);
  }

  // ----- Two transactions within the limit can still stall.

  predicate FullRead(steps: seq<Step>, id: Id, i: nat)
    requires i < |steps|
  {
    && steps[i].Deliver? && steps[i].f == id
    && (i + 1 < |steps| ==> steps[i].n == READ_CHUNK_BYTES)
  }

  /** Nothing but reads by the follower, all of them full but perhaps the last. */
  predicate FullReads(steps: seq<Step>, id: Id) { forall i | 0 <= i < |steps| :: FullRead(steps, id, i) }

  /**
    Whenever the current log is two transactions of 40 MiB and a follower has nothing of it, it may connect, have all
    of it on the wire, read it in full reads only, drop the link and have nothing of it again, although each of the
    two is within the limit.
   */
  lemma FullReadsStall(states: seq<Sys>, steps: seq<Step>, id: Id)
    returns (states': seq<Sys>, steps': seq<Step>, k: nat, g: Follower)
    requires IsRun(states, steps) && HandshakesUndisturbed(states, steps) && id in Last(states).followers
    requires Last(states).current in Last(states).files && Last(states).files[Last(states).current] == Pair()
    requires Last(states).followers[id].log == []
    ensures Shipping(states, steps, states', steps') && HandshakesUndisturbed(states', steps') && |steps'| > |steps|
    ensures SameLeader(Last(states), Last(states')) && AllWithin(Pair())
    ensures |steps| <= k < |steps'| && Linked(states'[k], id, g, LogBytes(Pair())) && FullReads(steps'[k..], id)
    ensures id in Last(states').followers && id !in Last(states').links && Last(states').followers[id].log == []
  {
    hide IsRun, HandshakesUndisturbed, LogBytes, Rested, AllWithin, ReadAll, Pieces, Pair, Arrives, Reset;
    var mid, midSteps;
    mid, midSteps, g := Connects(states, steps, id);
    k := |midSteps|;
    LastIndex(mid, midSteps);
    var log := LogBytes(Pair());
    assert log[0..] == log;
    FullReadsNeverArrive(g);
    PiecesJoin(log, READ_CHUNK_BYTES);
    var chunks := Pieces(log, READ_CHUNK_BYTES);
    assert Joined(chunks) + [] == log;
    states', steps' := DeliversAll(states, steps, mid, midSteps, id, g, chunks, []);
    forall i | 0 <= i < |steps'| - k ensures FullRead(steps'[k..], id, i) {
      if i + 1 < |chunks| {
        PieceIsFull(log, i);
      }
    }
  }

  /** And such a state can be reached. */
  lemma PairReached() returns (states: seq<Sys>, steps: seq<Step>)
    ensures IsRun(states, steps) && HandshakesUndisturbed(states, steps) && 0 in Last(states).followers
    ensures Last(states).current in Last(states).files && Last(states).files[Last(states).current] == Pair()
    ensures Last(states).followers[0].log == []
  {
    hide Pair, LogBytes, Loggable, ApplyOps, Total, ScanAll, AllWithin;
    LargeLog();
    states, steps := [Sys(map[0 := Pair()], 0, ApplyOps(map[], Pair()), map[0 := FRESH], map[], map[])], [];
  }

  // ----- A handshake overtaken by a compaction.

  /** A session answered "from the start" whose log has not been opened yet. */
  ghost predicate Opening(s: Sys, id: Id, sid: Id)
  {
    && s.current in s.files && id in s.followers && id in s.links && s.links[id] == sid && sid in s.sessions
    && s.sessions[sid].follower == id && s.sessions[sid].reader == None && s.sessions[sid].sent == 0
    && s.followers[id].log == []
  }

  /** The follower's log is not a prefix of the file its token names. */
  ghost predicate Astray(s: Sys, id: Id)
  {
    && id in s.followers && s.followers[id].token.Some? && s.followers[id].token.value in s.files
    && !(s.followers[id].log <= LogBytes(s.files[s.followers[id].token.value]))
  }

  /** The run goes on with the opening of this session's log, and no later opening is overtaken. */
  ghost predicate OpensNext(states: seq<Sys>, steps: seq<Step>, sid: Id, states': seq<Sys>, steps': seq<Step>)
  {
    && IsRun(states, steps) && IsRun(states', steps') && states <= states' && steps <= steps'
    && |steps| < |steps'| && steps'[|steps|] == Register(sid)
    && forall i | |steps| < i < |steps'| && steps'[i].Register? ::
         steps'[i].sid in states'[i].sessions && states'[i].sessions[steps'[i].sid].tok == states'[i].current
  }

  const FILLER: Op := SetOp([], [])

  lemma FillerFacts()
    ensures LoggableOp(FILLER) && |OpBytes(FILLER)| > 0 && OpSize(FILLER) <= MAX_BUFFERED_BYTES
  {
    assert LoggableOp(FILLER) by { SmallSet([]); }
    SetWithin(FILLER);
    NonEmptyFrames(Payloads(OpEntries(FILLER)));
  }

  /** What the overtaken session's state is while the leader writes on. */
  ghost predicate Reopened(s: Sys, id: Id, sid: Id, f: Follower, ops: seq<Op>)
  {
    && s.current in s.files && s.files[s.current] == ops
    && id in s.followers && s.followers[id] == f && id in s.links && s.links[id] == sid && sid in s.sessions
    && s.sessions[sid].reader == Some(s.current) && s.sessions[sid].sent == 0 && s.sessions[sid].wire == []
  }

  lemma WritesFiller(s: Sys, id: Id, sid: Id, f: Follower, ops: seq<Op>)
    requires Reopened(s, id, sid, f, ops)
    ensures Enabled(s, Write(FILLER))
    ensures var t := Do(s, Write(FILLER));
            && Reopened(t, id, sid, f, ops + [FILLER]) && t.current == s.current
            && forall tok <- s.files | tok != s.current :: tok in t.files && t.files[tok] == s.files[tok]
  {
    hide LogBytes, ApplyOp, LoggableOp;
    FillerFacts();
  }

  /** The new file can be made longer than any length, the old one staying as it is. */
  lemma {:induction false} WritesOn(states: seq<Sys>, steps: seq<Step>, id: Id, sid: Id, f: Follower,
        ops: seq<Op>, former: seq<Op>, n: nat)
    returns (states': seq<Sys>, steps': seq<Step>, more: seq<Op>)
    requires IsRun(states, steps) && Reopened(Last(states), id, sid, f, ops) && AllWithin(ops) && Loggable(ops)
    requires f.token.Some? && f.token.value in Last(states).files && f.token.value != Last(states).current
    requires Last(states).files[f.token.value] == former
    ensures Follows(states, steps, states', steps') && forall i | |steps| <= i < |steps'| :: steps'[i].Write?
    ensures Reopened(Last(states'), id, sid, f, more) && AllWithin(more) && Loggable(more) && |LogBytes(more)| >= n
    ensures Last(states').current == Last(states).current
    ensures f.token.value in Last(states').files && Last(states').files[f.token.value] == former
    decreases n
  {
    hide IsRun, HandshakesUndisturbed, Enabled, Do, LogBytes, LoggableOp, OpSize, OpBytes;
    if n == 0 {
      NoSteps(states, steps);
      states', steps', more := states, steps, ops;
    } else {
      var mid, midSteps, most := WritesOn(states, steps, id, sid, f, ops, former, n - 1);
      WritesFiller(Last(mid), id, sid, f, most);
      states', steps' := Onward(states, steps, mid, midSteps, Write(FILLER));
      more := most + [FILLER];
      FillerFacts();
      assert more[..|most|] == most;
      LogBytesSnoc(more);
    }
  }

  /** A follower with nothing can follow any log. */
  lemma EagerAtStart(former: seq<Op>, ops: seq<Op>, f: Follower)
    requires Following(former, f) && f.log == [] && Got(f) + f.recv == []
    ensures Eager(ops, f)
  {
    hide LogBytes, Recover, Rested;
    NonEmptyFrames(f.pending);
    assert |Got(f)| == 0 && |f.recv| == 0;
    assert f.recv == [] && Got(f) == [];
    NothingWhole(ops);
  }

  lemma {:induction false} NothingWhole(ops: seq<Op>)
    ensures LogBytes(ops[..WholeOps(ops, 0)]) == []
    decreases |ops|
  {
    hide LogBytes;
    EmptyLog();
    if ops != [] {
      if |LogBytes(ops)| == 0 {
        assert ops[..|ops|] == ops;
      } else {
        NothingWhole(ops[..|ops| - 1]);
        var k := WholeOps(ops, 0);
        assert ops[..|ops| - 1][..k] == ops[..k];
      }
    }
  }

  lemma OpeningFollows(s: Sys, id: Id, sid: Id)
    requires Inv(s) && Opening(s, id, sid)
    ensures var f, e := s.followers[id], s.sessions[sid];
            && e.tok in s.files && Following(s.files[e.tok], f) && Got(f) + f.recv == [] && e.wire == []
            && f.token == Some(e.tok) && Loggable(s.files[s.current])
  {
    hide LogBytes, Following, LeaderOk, FollowerOk, SessionOk, Reset, Got;
    CurrentExists(s);
    var f, e := s.followers[id], s.sessions[sid];
    assert LinkOk(s.files, f, e);
    assert |Got(f) + f.recv + e.wire| == 0;
  }

  lemma Reopens(s: Sys, id: Id, sid: Id)
    requires Opening(s, id, sid) && s.sessions[sid].wire == []
    ensures Enabled(s, Register(sid))
    ensures var t := Do(s, Register(sid));
            && Reopened(t, id, sid, s.followers[id], s.files[s.current]) && t.files == s.files && t.current == s.current
  {
    hide LogBytes;
  }

  lemma ShipsReopened(s: Sys, id: Id, sid: Id, f: Follower, ops: seq<Op>)
    requires Reopened(s, id, sid, f, ops)
    ensures CanShip(s, sid, |LogBytes(ops)|)
    ensures var t := Shipped(s, sid, |LogBytes(ops)|); Linked(t, id, f, LogBytes(ops)) && SameLeader(s, t)
  {
    hide LogBytes;
    var log := LogBytes(ops);
    assert log[0..|log|] == log && [] + log == log;
  }

  /** All of the new file, a byte at a time, to a follower that takes it for the old one. */
  lemma ReadsWrongFile(former: seq<Op>, ops: seq<Op>, f: Follower)
    requires Following(former, f) && f.log == [] && Got(f) + f.recv == [] && Loggable(ops) && AllWithin(ops)
    ensures var r := ReadAll(f, Pieces(LogBytes(ops), 1)); r.f.log == LogBytes(ops) && r.f.token == f.token
  {
    hide LogBytes, Following, Got, Loggable, AllWithin, ReadAll, Pieces, WholeOps;
    EagerAtStart(former, ops, f);
    var log := LogBytes(ops);
    assert [] + log == log;
    BytesArrive(ops, f, log);
    var g := ReadAll(f, Pieces(log, 1)).f;
    WholeOpsAll(ops, Position(g));
    assert ops[..|ops|] == ops;
  }

  lemma GoesAstray(states: seq<Sys>, steps: seq<Step>, id: Id, sid: Id)
    returns (states': seq<Sys>, steps': seq<Step>)
    requires IsRun(states, steps) && HandshakesUndisturbed(states, steps) && Opening(Last(states), id, sid)
    requires Last(states).sessions[sid].tok != Last(states).current
    requires AllWithin(Last(states).files[Last(states).current])
    ensures OpensNext(states, steps, sid, states', steps') && Astray(Last(states'), id)
  {
    hide IsRun, HandshakesUndisturbed, Enabled, Do, LogBytes, Inv, AllWithin, Loggable, Following, Got, ReadAll, Pieces;
    LastInv(states, steps);
    LastIndex(states, steps);
    var s := Last(states);
    OpeningFollows(s, id, sid);
    var f, tok := s.followers[id], s.sessions[sid].tok;
    var former := s.files[tok];
    Reopens(s, id, sid);
    var one, oneSteps := Extend(states, steps, Register(sid));
    var two, twoSteps, ops := WritesOn(one, oneSteps, id, sid, f, s.files[s.current], former, |LogBytes(former)| + 1);
    ShipsReopened(Last(two), id, sid, f, ops);
    ShipIs(Last(two), sid, |LogBytes(ops)|);
    var three, threeSteps := Onward(one, oneSteps, two, twoSteps, Ship(sid, |LogBytes(ops)|));
    ReadsWrongFile(former, ops, f);
    var log := LogBytes(ops);
    PiecesJoin(log, 1);
    assert Joined(Pieces(log, 1)) + [] == log;
    states', steps' := DeliversAll(one, oneSteps, three, threeSteps, id, f, Pieces(log, 1), []);
  }

  lemma OpenedInTime(states: seq<Sys>, steps: seq<Step>, id: Id, sid: Id, states': seq<Sys>, steps': seq<Step>)
    requires IsRun(states, steps) && HandshakesUndisturbed(states, steps) && Opening(Last(states), id, sid)
    requires Last(states).sessions[sid].tok == Last(states).current
    requires OpensNext(states, steps, sid, states', steps')
    ensures !Astray(Last(states'), id)
  {
    hide Enabled, Do, LogBytes, Init;
    assert HandshakesUndisturbed(states', steps') by {
      forall i | 0 <= i < |steps'| && steps'[i].Register?
        ensures steps'[i].sid in states'[i].sessions && states'[i].sessions[steps'[i].sid].tok == states'[i].current
      {
        if i < |steps| {
          assert steps'[i] == steps[i] && states'[i] == states[i];
        } else if i == |steps| {
          assert states'[i] == Last(states);
        }
      }
    }
    if id in Last(states').followers {
      FollowersArePrefixes(states', steps', |steps'|, id);
    }
  }

  /**
    A session answered "from the start" can lead its follower off the file its token names exactly when a compaction
    has overtaken it: when the log it is about to open is no longer the one it was promised.
   */
  lemma AstrayIffOvertaken(states: seq<Sys>, steps: seq<Step>, id: Id, sid: Id)
    requires IsRun(states, steps) && HandshakesUndisturbed(states, steps) && Opening(Last(states), id, sid)
    requires AllWithin(Last(states).files[Last(states).current])
    ensures Last(states).sessions[sid].tok != Last(states).current <==>
            exists states', steps' :: OpensNext(states, steps, sid, states', steps') && Astray(Last(states'), id)
  {
    hide IsRun, HandshakesUndisturbed, LogBytes, AllWithin, Astray;
    LastIndex(states, steps);
    if Last(states).sessions[sid].tok != Last(states).current {
      var states', steps' := GoesAstray(states, steps, id, sid);
    } else {
      forall states', steps' | OpensNext(states, steps, sid, states', steps') ensures !Astray(Last(states'), id) {
        OpenedInTime(states, steps, id, sid, states', steps');
      }
    }
  }
}
