/** What the unqualified claims about replication do not survive. */
module Hazards {
  import opened Bytes
  import opened Protocol
  import opened Record
  import opened Kv
  import opened Replay
  import opened Recovery
  import opened Replication
  import opened CatchUp
  import opened Cluster
  import Store

  const KEY: Key := [0]
  const A: Op := SetOp(KEY, [1])
  const B: Op := SetOp(KEY, [2])

  lemma SetFacts(value: Value)
    requires |value| == 1
    ensures LoggableOp(SetOp(KEY, value)) && |OpBytes(SetOp(KEY, value))| == 19
  {
    hide Crc32.Crc;
    var op := SetOp(KEY, value);
    var ps := Payloads(OpEntries(op));
    assert ps == [Encode(Set(KEY, value))] && |ps[0]| == 11;
    assert OpBytes(op) == Frame(ps[0]) + Frames(ps[1..]);
    NoFrames();
  }

  lemma SetApplies(m: KV, value: Value)
    requires m.Keys <= {KEY}
    ensures ApplyOp(m, SetOp(KEY, value)) == map[KEY := value]
  {
    ApplyOne(m, Put(KEY, value));
    assert m[KEY := value] == map[KEY := value];
  }

  lemma SetLog(ops: seq<Op>)
    requires forall i | 0 <= i < |ops| :: ops[i] == A || ops[i] == B
    ensures |LogBytes(ops)| == 19 * |ops| && Loggable(ops)
    decreases |ops|
  {
    hide LogBytes, OpBytes, LoggableOp;
    SetFacts([1]);
    SetFacts([2]);
    if ops == [] {
      EmptyLog();
    } else {
      SetLog(ops[..|ops| - 1]);
      LogBytesSnoc(ops);
    }
  }

  ghost function Start(): Sys { Sys(map[0 := []], 0, map[], map[0 := FRESH], map[], map[]) }

  lemma Begin() returns (states: seq<Sys>, steps: seq<Step>)
    ensures IsRun(states, steps) && HandshakesUndisturbed(states, steps) && states == [Start()]
  {
    states, steps := [Start()], [];
  }

  /** The entry `A` or `B` leaves, as compaction lists it. */
  lemma OneEntry(value: Value)
    requires |value| == 1
    ensures Lists([(KEY, value)], map[KEY := value]) && Store.SetOps([(KEY, value)]) == [SetOp(KEY, value)]
  {
    assert [(KEY, value)][0].0 == KEY;
    assert Listed([(KEY, value)], KEY);
  }

  lemma FreshFollows(ops: seq<Op>)
    ensures Following(ops, FRESH.(token := Some(0))) && Got(FRESH.(token := Some(0))) == []
  {
    hide LogBytes, Rested;
    FreshRests();
    var f := FRESH.(token := Some(0));
    RestedToken(FRESH, Some(0));
    RestedFollows(ops, f);
  }

  /** Reading all of a short log from nothing. */
  lemma ReadAll(ops: seq<Op>)
    requires forall i | 0 <= i < |ops| :: ops[i] == A || ops[i] == B
    requires 0 < |ops| < 10
    ensures var r := Consume(FRESH.(token := Some(0)), LogBytes(ops));
            r.up && r.f.log == LogBytes(ops) && r.f.st.kv == ApplyOps(map[], ops) && r.f.token == Some(0)
            && r.ack == Some(|LogBytes(ops)|)
  {
    hide LogBytes, Consume, Following, Got, ApplyOps, Loggable, Due;
    SetLog(ops);
    FreshFollows(ops);
    var f := FRESH.(token := Some(0));
    assert Got(f) + f.recv + LogBytes(ops) == LogBytes(ops);
    DueWithin(f.(recv := f.recv + LogBytes(ops)));
    DeliveringAllCatchesUp(ops, f, LogBytes(ops));
  }

  lemma TwoMaps()
    ensures One() != Two()
  {
    assert One()[KEY] != Two()[KEY];
  }

  function One(): KV { map[KEY := [1]] }

  function Two(): KV { map[KEY := [2]] }

  const LISTENING: Follower := FRESH.(token := Some(0))

  /** A leader on log 0 with these operations, and the one follower not yet connected. */
  ghost function Led(ops: seq<Op>, value: Value): Sys
  {
    Start().(files := map[0 := ops], kv := map[KEY := value])
  }

  lemma WriteFirst(value: Value)
    requires |value| == 1
    ensures Enabled(Start(), Write(SetOp(KEY, value)))
              && Do(Start(), Write(SetOp(KEY, value))) == Led([SetOp(KEY, value)], value)
  {
    hide LoggableOp, ApplyOp, LogBytes, OpBytes;
    SetFacts(value);
    SetApplies(map[], value);
    var op := SetOp(KEY, value);
    var ops: seq<Op> := [];
    assert ops + [op] == [op];
    var files: map<Token, seq<Op>> := map[0 := ops];
    assert files[0 := [op]] == map[0 := [op]];
  }

  lemma WriteMore(ops: seq<Op>, value: Value, next: Value)
    requires |next| == 1
    ensures Enabled(Led(ops, value), Write(SetOp(KEY, next)))
    ensures Do(Led(ops, value), Write(SetOp(KEY, next))) == Led(ops + [SetOp(KEY, next)], next)
  {
    hide LoggableOp, ApplyOp, LogBytes, OpBytes;
    SetFacts(next);
    SetApplies(map[KEY := value], next);
  }

  /** The follower's handshake with that leader is a full one. */
  ghost function Linked(ops: seq<Op>, value: Value, e: Session): Sys
  {
    Led(ops, value).(followers := map[0 := LISTENING], links := map[0 := 0], sessions := map[0 := e])
  }

  const OPENING: Session := Session(0, 0, None, 0, [], [0], 0)

  lemma Handshakes(ops: seq<Op>, value: Value)
    ensures Enabled(Led(ops, value), Decide(0, 0)) && Do(Led(ops, value), Decide(0, 0)) == Linked(ops, value, OPENING)
  {
    hide LogBytes;
    assert Handshaken(Led(ops, value), FRESH) == LISTENING;
  }

  /** Shipping a whole file in one step. */
  lemma ShipsAll(s: Sys, e: Session)
    requires s.sessions == map[0 := e] && e.reader == Some(s.current) && e.sent == 0 && e.wire == []
              && s.current in s.files
    ensures var log := LogBytes(s.files[s.current]);
            && Enabled(s, Ship(0, |log|))
            && Do(s, Ship(0, |log|)) == s.(sessions := map[0 := e.(sent := |log|, wire := log)])
  {
    hide LogBytes;
    var log := LogBytes(s.files[s.current]);
    assert log[0..|log|] == log && [] + log == log;
  }

  /** And delivering it in one read. */
  lemma DeliversAll(s: Sys, e: Session, ops: seq<Op>)
    requires s.followers == map[0 := LISTENING] && s.links == map[0 := 0] && s.sessions == map[0 := e]
    requires s.current in s.files && e.wire == LogBytes(ops)
    requires 0 < |ops| < 10 && forall i | 0 <= i < |ops| :: ops[i] == A || ops[i] == B
    ensures CanDeliver(s, 0, |LogBytes(ops)|)
    ensures var n := |LogBytes(ops)|;
            && Enabled(s, Deliver(0, n)) && Do(s, Deliver(0, n)) == Delivered(s, 0, n)
            && var t := Delivered(s, 0, n);
               && 0 in t.followers && t.followers.Keys == {0} && t.files == s.files && t.current == s.current && t.kv == s.kv
               && t.followers[0].log == LogBytes(ops) && t.followers[0].token == Some(0)
               && t.followers[0].st.kv == ApplyOps(map[], ops)
               && t.sessions == map[0 := e.(wire := [], acks := e.acks + [n])]
  {
    hide LogBytes, Consume, ApplyOps;
    ReadAll(ops);
    SetLog(ops);
    var log := LogBytes(ops);
    assert log[..|log|] == log && log[|log|..] == [];
  }

  lemma CompactsTo(s: Sys, value: Value)
    requires s.kv == map[KEY := value] && |value| == 1 && s.current in s.files
    ensures Enabled(s, Compact([(KEY, value)]))
    ensures Do(s, Compact([(KEY, value)])) ==
            s.(files := s.files[s.current + 1 := [SetOp(KEY, value)]], current := s.current + 1)
  {
    hide Lists;
    OneEntry(value);
  }

  /**
    A compaction between the handshake's decision and the opening of the log: the follower ends up
    with bytes that are no prefix of the file its token names.
   */
  lemma HandshakeRaceDiverges() returns (states: seq<Sys>, steps: seq<Step>)
    ensures IsRun(states, steps) && 0 in Last(states).followers
    ensures var s, f := Last(states), Last(states).followers[0];
            f.token.Some? && f.token.value in s.files && !(f.log <= LogBytes(s.files[f.token.value]))
  {
    hide IsRun, HandshakesUndisturbed, LogBytes, Enabled, Do, ApplyOps, Delivered, CanDeliver;
    states, steps := Begin();
    WriteFirst([1]);
    states, steps := Extend(states, steps, Write(A));
    WriteMore([A], [1], [2]);
    states, steps := Extend(states, steps, Write(B));
    assert [A] + [B] == [A, B];
    Handshakes([A, B], [2]);
    states, steps := Extend(states, steps, Decide(0, 0));
    var s3 := Last(states);
    CompactsTo(s3, [2]);
    states, steps := Extend(states, steps, Compact([(KEY, [2])]));
    var s4 := Last(states);
    Registers(s4, OPENING);
    states, steps := Extend(states, steps, Register(0));
    var s5 := Last(states);
    var e := OPENING.(reader := Some(1));
    ShipsAll(s5, e);
    states, steps := Extend(states, steps, Ship(0, |LogBytes([B])|));
    var s6 := Last(states);
    DeliversAll(s6, s6.sessions[0], [B]);
    states, steps := Extend(states, steps, Deliver(0, |LogBytes([B])|));
    NotAPrefix();
  }

  lemma Registers(s: Sys, e: Session)
    requires s.sessions == map[0 := e] && e.reader == None && s.current in s.files
    ensures Enabled(s, Register(0)) && Do(s, Register(0)) == s.(sessions := map[0 := e.(reader := Some(s.current))])
  {
  }

  lemma NotAPrefix()
    ensures !(LogBytes([B]) <= LogBytes([A, B]))
  {
    hide LogBytes, ApplyOps, Recover;
    SetLog([A]);
    SetLog([B]);
    assert [A, B] == [A] + [B];
    LogBytesConcat([A], [B]);
    if LogBytes([B]) <= LogBytes([A, B]) {
      assert LogBytes([A]) == LogBytes([A, B])[..19] == LogBytes([B]);
      WholeLogSettles([A]);
      WholeLogSettles([B]);
      OneSet(map[], KEY, [1]);
      OneSet(map[], KEY, [2]);
      TwoMaps();
      assert false;
    }
  }

  const THREE: seq<Op> := [A, A, A]

  /** Three writes, and a follower connected to the log that has them. */
  lemma ThreeWritesLinked() returns (states: seq<Sys>, steps: seq<Step>)
    ensures states != [] && IsRun(states, steps) && HandshakesUndisturbed(states, steps)
    ensures Last(states) == Linked(THREE, [1], OPENING.(reader := Some(0)))
  {
    hide IsRun, HandshakesUndisturbed, LogBytes, Enabled, Do, ApplyOps;
    states, steps := Begin();
    WriteFirst([1]);
    states, steps := Extend(states, steps, Write(A));
    WriteMore([A], [1], [1]);
    states, steps := Extend(states, steps, Write(A));
    assert [A] + [A] == [A, A];
    WriteMore([A, A], [1], [1]);
    states, steps := Extend(states, steps, Write(A));
    assert [A, A] + [A] == THREE;
    Handshakes(THREE, [1]);
    states, steps := Extend(states, steps, Decide(0, 0));
    Registers(Last(states), OPENING);
    states, steps := Extend(states, steps, Register(0));
  }

  /** A follower reads three writes and acknowledges them all. */
  lemma ThreeWritesAcknowledged() returns (states: seq<Sys>, steps: seq<Step>)
    ensures states != [] && IsRun(states, steps) && HandshakesUndisturbed(states, steps)
    ensures var s := Last(states);
            && s.files == map[0 := THREE] && s.current == 0 && s.kv == map[KEY := [1]]
            && s.followers.Keys == {0} && s.followers[0].st.kv == map[KEY := [1]]
            && s.sessions.Keys == {0} && s.sessions[0].acked == |LogBytes(THREE)|
  {
    hide IsRun, HandshakesUndisturbed, LogBytes, Enabled, Do, ApplyOps, Highest, Delivered, CanDeliver;
    states, steps := ThreeWritesLinked();
    ShipsAll(Last(states), OPENING.(reader := Some(0)));
    var n := |LogBytes(THREE)|;
    states, steps := Extend(states, steps, Ship(0, n));
    DeliversAll(Last(states), Last(states).sessions[0], THREE);
    ThreeSets();
    states, steps := Extend(states, steps, Deliver(0, n));
    Drains(Last(states), Last(states).sessions[0], n);
    states, steps := Extend(states, steps, DrainAcks(0, 2));
  }

  /**
    An old session, not yet reaped, releases a synchronous write to the log that replaced its own:
    no follower has the write, although every handshake was undisturbed.
   */
  lemma StaleSessionReleasesUnreplicatedWrite() returns (states: seq<Sys>, steps: seq<Step>)
    ensures IsRun(states, steps) && HandshakesUndisturbed(states, steps)
    ensures var s := Last(states);
            && 0 in s.sessions && s.current in s.files
            && Releases(s.sessions[0], |LogBytes(s.files[s.current])|)
            && steps != [] && steps[|steps| - 1] == Write(B)
            && s.kv == map[KEY := [2]]
            && forall i <- s.followers :: s.followers[i].st.kv != s.kv
  {
    hide IsRun, HandshakesUndisturbed, LogBytes, Enabled, Do;
    states, steps := ThreeWritesAcknowledged();
    CompactsTo(Last(states), [1]);
    states, steps := Extend(states, steps, Compact([(KEY, [1])]));
    LastWrite(Last(states));
    states, steps := Extend(states, steps, Write(B));
    SetLog(THREE);
    SetLog([A, B]);
    TwoMaps();
  }

  lemma Drains(s: Sys, e: Session, n: nat)
    requires s.sessions == map[0 := e] && e.acks == [0, n] && e.acked == 0 && s.current in s.files
    ensures Enabled(s, DrainAcks(0, 2)) && Do(s, DrainAcks(0, 2)) == s.(sessions := map[0 := e.(acks := [], acked := n)])
  {
    hide LogBytes, Highest;
    HighestOfTwo(n);
    assert [0, n][..2] == [0, n] && [0, n][2..] == [];
  }

  lemma LastWrite(s: Sys)
    requires s.current == 1 && 1 in s.files && s.files[1] == [A] && s.kv == map[KEY := [1]]
    ensures Enabled(s, Write(B)) && Do(s, Write(B)) == s.(files := s.files[1 := [A, B]], kv := map[KEY := [2]])
  {
    hide LoggableOp, ApplyOp, LogBytes, OpBytes;
    SetFacts([2]);
    SetApplies(map[KEY := [1]], [2]);
    assert [A] + [B] == [A, B];
  }

  lemma ThreeSets()
    ensures ApplyOps(map[], THREE) == map[KEY := [1]]
  {
    hide ApplyOp;
    SetApplies(map[], [1]);
    SetApplies(map[KEY := [1]], [1]);
    assert [A, A, A][..2] == [A, A] && [A, A][..1] == [A] && [A][..0] == [];
    assert ApplyOps(map[], [A]) == map[KEY := [1]];
    assert ApplyOps(map[], [A, A]) == map[KEY := [1]];
  }

  lemma HighestOfTwo(n: nat)
    ensures Highest(0, [0, n]) == n
  {
    var two: seq<nat> := [0, n];
    assert two[..1] == [0];
    var one: seq<nat> := [0];
    assert one[..0] == [];
    assert Highest(0, []) == 0;
    assert Highest(0, [0]) == 0;
  }
}
