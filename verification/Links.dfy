/** The two ends of a replication link as the objects that run them. */
module Links {
  import opened Bytes
  import opened Octets
  import opened Crc32
  import opened Record
  import opened Replay
  import Recovery
  import opened Replication
  import Cluster

  class FollowerLink {
    const applier: RecordApplier
    var log: Bytes
    var token: Option<Token>
    var recvBuffer: Bytes
    var pending: seq<Bytes>
    var pendingBytes: nat
    var insideTransaction: bool

    constructor (applier: RecordApplier)
      ensures this.applier == applier
      ensures View() == Follower([], applier.View(), None, [], [], 0, false)
    {
      this.applier := applier;
      log, token := [], None;
      recvBuffer, pending, pendingBytes, insideTransaction := [], [], 0, false;
    }

    ghost function View(): Follower
      reads this, applier
    {
      Follower(log, applier.View(), token, recvBuffer, pending, pendingBytes, insideTransaction)
    }

    /** One pass of the read loop; after `false` the caller drops the link and calls `EndConnection`. */
    method ConsumeChunk(table: array<u32>, chunk: Bytes) returns (up: bool, ack: Option<nat>)
      requires IsTable(table[..])
      modifies this, applier
      ensures var r := Consume(old(View()), chunk);
              && up == r.up && ack == r.ack
              && (if up then View() == r.f else Reset(View()) == r.f)
    {
      hide ParseHead, IsTable, TracksInside, StepPayload, Frames, ApplyPayloads;
      ack := None;
      recvBuffer := recvBuffer + chunk;
      ghost var start := View();
      assert start == old(View()).(recv := old(View()).recv + chunk);
      var offset := 0;
      assert recvBuffer[0..] == recvBuffer;
      while true
        invariant 0 <= offset <= |recvBuffer| && recvBuffer == start.recv
        invariant applier.View() == start.st && log == start.log && token == start.token
        invariant Absorb(start) == Absorb(View().(recv := recvBuffer[offset..]))
        decreases |recvBuffer| - offset
      {
        var parsed, next := ParseRecord(table, recvBuffer, offset);
        if parsed == Incomplete {
          break;
        }
        if parsed == Corrupt {
          return false, None;
        }
        ghost var f := View().(recv := recvBuffer[offset..]);
        var payload := parsed.payload;
        insideTransaction := TracksInside(payload, insideTransaction);
        pendingBytes := pendingBytes + |payload|;
        pending := pending + [payload];
        assert recvBuffer[offset..][HEADER_BYTES + |payload|..] == recvBuffer[next..];
        offset := next;
        assert View().(recv := recvBuffer[offset..]) == Buffer(f, payload);
        if pendingBytes > MAX_BUFFERED_BYTES {
          return false, None;
        }
      }
      recvBuffer := recvBuffer[offset..];
      up := true;
      if !insideTransaction && pending != [] {
        up := FlushPending();
        if up {
          ack := Some(|log|);
        }
      }
    }

    method FlushPending() returns (ok: bool)
      modifies this, applier
      ensures var (f, done) := Flush(old(View())); ok == done && View() == f
    {
      hide StepPayload, Frames;
      log := log + Frames(pending);
      var i := 0;
      assert pending[0..] == pending;
      while i < |pending|
        invariant 0 <= i <= |pending| && pending == old(pending)
        invariant log == old(log) + Frames(pending) && token == old(token) && recvBuffer == old(recvBuffer)
        invariant pendingBytes == old(pendingBytes) && insideTransaction == old(insideTransaction)
        invariant ApplyPayloads(old(applier.View()), pending) == ApplyPayloads(applier.View(), pending[i..])
      {
        assert pending[i..][0] == pending[i] && pending[i..][1..] == pending[i + 1..];
        var applied := applier.ApplyPayload(pending[i]);
        if !applied {
          return false;
        }
        i := i + 1;
      }
      pending, pendingBytes := [], 0;
      ok := true;
    }

    /** The part of `linkLoop` after a connection. */
    method EndConnection()
      modifies this, applier
      ensures View() == Reset(old(View()))
    {
      recvBuffer, pending, pendingBytes, insideTransaction := [], [], 0, false;
      applier.AbandonOpenTransaction();
    }

    /** The answer of the leader: resume, or start over on its log. */
    method HandshakeAnswered(full: bool, leaderToken: Token)
      modifies this, applier
      ensures View() == if full then old(View()).(log := [], st := EMPTY, token := Some(leaderToken)) else old(View())
    {
      if full {
        log := [];
        applier.kv := map[];
        applier.AbandonOpenTransaction();
        token := Some(leaderToken);
      }
    }
  }

  // ----- Acknowledgement lines.

  const ZERO: byte := 48
  const PLUS: byte := 43
  const MINUS: byte := 45
  const ACK: Bytes := [65, 67, 75, 32]
  const MAX_CONTROL_LINE: nat := 256
  const STREAM_CHUNK_BYTES: nat := 64 * 1024

  function Digits(n: nat): Bytes
  {
    if n < 10 then [ZERO + n] else Digits(n / 10) + [ZERO + n % 10]
  }

  predicate IsDigit(b: byte) { ZERO <= b < ZERO + 10 }

  /** The value of the leading digits. */
  function Value(s: Bytes, sofar: nat): nat
    decreases |s|
  {
    if s == [] || !IsDigit(s[0]) then sofar else Value(s[1..], 10 * sofar + (s[0] - ZERO))
  }

  predicate IsBlank(b: byte) { b == 32 || 9 <= b <= 13 }

  function Trimmed(s: Bytes): Bytes
    decreases |s|
  {
    if s != [] && IsBlank(s[0]) then Trimmed(s[1..]) else s
  }

  /** As `std::stoull` reads it: blanks, perhaps a sign, digits; a minus sign negates modulo 2^64. */
  function ParseOffset(s: Bytes): Option<nat>
  {
    var t := Trimmed(s);
    var negative := t != [] && t[0] == MINUS;
    var digits := if t != [] && t[0] in {PLUS, MINUS} then t[1..] else t;
    if digits == [] || !IsDigit(digits[0]) then None
    else
      var v := Value(digits, 0);
      if v >= TWO_64 then None
      else Some(if negative then (TWO_64 - v) % TWO_64 else v)
  }

  function Max(a: nat, b: nat): nat { if a < b then b else a }

  /** The effect of one line: anything that is not an acknowledgement is skipped. */
  function Noted(acked: nat, line: Bytes): nat
  {
    if ACK <= line then
      match ParseOffset(line[|ACK|..])
      case None => acked
      case Some(n) => Max(acked, n)
    else acked
  }

  /** All complete lines of the buffer, and what is left. */
  function Drain(acked: nat, buffer: Bytes): (nat, Bytes)
    decreases |buffer|
  {
    match FirstNewline(buffer)
    case None => (acked, buffer)
    case Some(i) => Drain(Noted(acked, buffer[..i]), buffer[i + 1..])
  }

  lemma FirstNewlineExtends(s: Bytes, t: Bytes)
    requires FirstNewline(s).Some?
    ensures FirstNewline(s + t) == FirstNewline(s)
  {
    var i, j := FirstNewline(s).value, FirstNewline(s + t);
    assert (s + t)[i] == NEWLINE;
    assert forall k | 0 <= k < i :: (s + t)[k] == s[k];
  }

  /** However the text arrives, the same acknowledgements are counted. */
  lemma {:induction false} DrainInParts(acked: nat, buffer: Bytes, chunk: Bytes)
    ensures Drain(acked, buffer + chunk) == Drain(Drain(acked, buffer).0, Drain(acked, buffer).1 + chunk)
    decreases |buffer|
  {
    hide Noted;
    match FirstNewline(buffer)
    case None =>
    case Some(i) =>
      FirstNewlineExtends(buffer, chunk);
      assert (buffer + chunk)[..i] == buffer[..i];
      assert (buffer + chunk)[i + 1..] == buffer[i + 1..] + chunk;
      DrainInParts(Noted(acked, buffer[..i]), buffer[i + 1..], chunk);
  }

  /** What a follower writes: `ACK`, a blank, the offset and a newline. */
  function AckLine(n: nat): Bytes { [65, 67, 75, 32] + Digits(n) + [10] }

  function AckText(acks: seq<nat>): Bytes
  {
    if acks == [] then [] else AckText(acks[..|acks| - 1]) + AckLine(acks[|acks| - 1])
  }

  lemma {:induction false} DigitsAreDigits(n: nat)
    ensures |Digits(n)| > 0 && forall i | 0 <= i < |Digits(n)| :: IsDigit(Digits(n)[i])
  {
    if n >= 10 {
      DigitsAreDigits(n / 10);
    }
  }

  lemma {:induction false} ValueSnoc(s: Bytes, d: byte, sofar: nat)
    requires IsDigit(d) && forall i | 0 <= i < |s| :: IsDigit(s[i])
    ensures Value(s + [d], sofar) == 10 * Value(s, sofar) + (d - ZERO)
    decreases |s|
  {
    if s == [] {
      assert (s + [d])[1..] == [];
    } else {
      assert (s + [d])[1..] == s[1..] + [d];
      ValueSnoc(s[1..], d, 10 * sofar + (s[0] - ZERO));
    }
  }

  lemma {:induction false} ValueOfDigits(n: nat)
    ensures Value(Digits(n), 0) == n
  {
    if n < 10 {
      assert Digits(n)[1..] == [];
    } else {
      ValueOfDigits(n / 10);
      DigitsAreDigits(n / 10);
      ValueSnoc(Digits(n / 10), ZERO + n % 10, 0);
    }
  }

  lemma NotedAck(acked: nat, n: nat)
    requires n < TWO_64
    ensures Noted(acked, ACK + Digits(n)) == Max(acked, n)
  {
    DigitsAreDigits(n);
    ValueOfDigits(n);
    assert (ACK + Digits(n))[|ACK|..] == Digits(n);
  }

  lemma DrainLine(acked: nat, n: nat)
    requires n < TWO_64
    ensures Drain(acked, AckLine(n)) == (Max(acked, n), [])
  {
    hide Noted, Digits;
    var line := AckLine(n);
    var i := |ACK| + |Digits(n)|;
    DigitsAreDigits(n);
    assert forall j | 0 <= j < i :: line[j] != NEWLINE by {
      assert forall j | |ACK| <= j < i :: line[j] == Digits(n)[j - |ACK|];
    }
    var first := FirstNewline(line);
    assert line[i] == NEWLINE;
    assert first == Some(i);
    assert line[..i] == ACK + Digits(n) && line[i + 1..] == [];
    NotedAck(acked, n);
  }

  /** The leader's counter becomes the highest acknowledgement in the text it has received. */
  lemma {:induction false} AcksArrive(acked: nat, acks: seq<nat>)
    requires forall i | 0 <= i < |acks| :: acks[i] < TWO_64
    ensures Drain(acked, AckText(acks)) == (Cluster.Highest(acked, acks), [])
    decreases |acks|
  {
    hide Drain, AckLine;
    if acks == [] {
      DrainNothing(acked);
    } else {
      var init, last := acks[..|acks| - 1], acks[|acks| - 1];
      AcksArrive(acked, init);
      DrainInParts(acked, AckText(init), AckLine(last));
      DrainLine(Cluster.Highest(acked, init), last);
      assert [] + AckLine(last) == AckLine(last);
    }
  }

  lemma DrainNothing(acked: nat)
    ensures Drain(acked, []) == (acked, [])
  {
  }

  // ----- The leader's side of a session.

  /** A read of a file gives at least a byte of what there is, and at most that. */
  function Given(n: nat, most: nat): nat { if most < n then most else if n == 0 && most > 0 then 1 else n }

  class LeaderSession {
    var sentOffset: nat
    var acked: nat
    var ackBuffer: Bytes
    ghost var sentBytes: Bytes

    /** `performHandshake`: resume from the offset asked for, or start over. */
    method Answer(token: Option<Token>, requested: nat, leaderToken: Token, leaderOffset: nat) returns (full: bool)
      modifies this
      ensures full <==> !(token == Some(leaderToken) && requested <= leaderOffset)
      ensures sentOffset == acked == if full then 0 else requested
      ensures ackBuffer == old(ackBuffer) && sentBytes == old(sentBytes)
    {
      full := !(token == Some(leaderToken) && requested <= leaderOffset);
      sentOffset := if full then 0 else requested;
      acked := sentOffset;
    }

    /**
      Sends the file from where it stopped; every byte in order, none twice, however the reads are cut. An offset
      beyond the file, as after a compaction between handshake and opening, finds nothing to send. `turns` says how
      much each read gives, or that the session stops or a call fails; turns after those go well.
     */
    method ShipPending(file: Bytes, target: nat, turns: seq<Option<nat>>) returns (ok: bool)
      modifies this
      ensures old(sentOffset) <= sentOffset <= Max(old(sentOffset), target) && (ok <==> sentOffset >= target)
      ensures if old(sentOffset) <= |file|
              then sentOffset <= |file| && sentBytes == old(sentBytes) + file[old(sentOffset)..sentOffset]
              else sentOffset == old(sentOffset) && sentBytes == old(sentBytes)
      ensures None !in turns ==> sentOffset >= target || sentOffset >= |file|
      ensures acked == old(acked) && ackBuffer == old(ackBuffer)
    {
      assert sentOffset <= |file| ==> file[sentOffset..sentOffset] == [];
      var i := 0;
      while sentOffset < target
        invariant old(sentOffset) <= sentOffset <= Max(old(sentOffset), target)
        invariant if old(sentOffset) <= |file|
                  then sentOffset <= |file| && sentBytes == old(sentBytes) + file[old(sentOffset)..sentOffset]
                  else sentOffset == old(sentOffset) && sentBytes == old(sentBytes)
        invariant acked == old(acked) && ackBuffer == old(ackBuffer)
        decreases target - sentOffset
      {
        if i < |turns| && turns[i].None? {
          return false;
        }
        var remaining := target - sentOffset;
        var want := if remaining < STREAM_CHUNK_BYTES then remaining else STREAM_CHUNK_BYTES;
        var left := if sentOffset <= |file| then |file| - sentOffset else 0;
        var n := Given(if i < |turns| then turns[i].value else want, if want < left then want else left);
        if n == 0 {
          return false;
        }
        assert file[old(sentOffset)..sentOffset + n]
            == file[old(sentOffset)..sentOffset] + file[sentOffset..sentOffset + n];
        sentBytes := sentBytes + file[sentOffset..sentOffset + n];
        sentOffset, i := sentOffset + n, i + 1;
      }
      ok := true;
    }

    method DrainAcks(chunk: Bytes) returns (ok: bool)
      modifies this
      ensures ok <==> |old(ackBuffer) + chunk| <= 256
      ensures ok ==> (acked, ackBuffer) == Drain(old(acked), old(ackBuffer) + chunk)
      ensures !ok ==> acked == old(acked)
      ensures sentOffset == old(sentOffset) && sentBytes == old(sentBytes)
    {
      hide Noted, FirstNewline;
      ackBuffer := ackBuffer + chunk;
      if |ackBuffer| > MAX_CONTROL_LINE {
        return false;
      }
      var highest: nat := 0;
      while true
        invariant sentOffset == old(sentOffset) && sentBytes == old(sentBytes) && acked == old(acked)
        invariant Drain(acked, old(ackBuffer) + chunk) == Drain(Max(acked, highest), ackBuffer)
        decreases |ackBuffer|
      {
        var newline := FirstNewline(ackBuffer);
        if newline.None? {
          break;
        }
        var line := ackBuffer[..newline.value];
        ackBuffer := ackBuffer[newline.value + 1..];
        NotedSplits(acked, highest, line);
        highest := Noted(highest, line);
      }
      if highest > acked {
        acked := highest;
      }
      ok := true;
    }
  }

  /**
    Both sides of a handshake: the follower offers its token and length, without the token if it has nothing; the
    leader decides. Together they take the protocol's step, and the session starts where the follower is.
   */
  method Handshake(link: FollowerLink, session: LeaderSession, ghost s: Cluster.Sys,
        leaderToken: Token, leaderOffset: nat)
    requires s.current in s.files && leaderToken == s.current
    requires leaderOffset == |Recovery.LogBytes(s.files[s.current])|
    requires link.View() == Reset(link.View())
    modifies link, link.applier, session
    ensures link.View() == Cluster.Handshaken(s, old(link.View()))
    ensures session.sentOffset == session.acked == |link.View().log|
    ensures session.ackBuffer == old(session.ackBuffer) && session.sentBytes == old(session.sentBytes)
  {
    hide Recovery.LogBytes;
    var token := if link.log == [] then None else link.token;
    var full := session.Answer(token, |link.log|, leaderToken, leaderOffset);
    link.HandshakeAnswered(full, leaderToken);
  }

  lemma NotedSplits(acked: nat, highest: nat, line: Bytes)
    ensures Noted(Max(acked, highest), line) == Max(acked, Noted(highest, line))
  {
  }
}
