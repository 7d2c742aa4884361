/** One client of the event loop: its buffers, flow control and registration with the poller. */
module EventLoop {
  import opened Bytes

  const MAX_LINE_LENGTH: nat := 64 * 1024
  const READ_CHUNK: nat := 16 * 1024
  const MAX_OUTPUT_BYTES: nat := 8 * 1024 * 1024
  const PAUSE_READING_ABOVE: nat := 1024 * 1024
  const CARRIAGE_RETURN: byte := 13
  const LINE_TOO_LONG: Bytes := [45, 69, 82, 82, 32, 108, 105, 110, 101, 32, 116, 111, 111, 32, 108, 111, 110, 103, 10]

  /** What one call of `read` can bring. */
  datatype Read = Data(bytes: Bytes) | EndOfFile | WouldBlock | Failed

  /** And one call of `write`; no more results are needed than there are calls. */
  datatype Write = Took(n: nat) | Full | Broken

  datatype Event = Event(readable: bool, writable: bool, closed: bool)

  /** The session: what it answers to the n-th line of this client, and whether that ends the connection. */
  type Session = (nat, Bytes) -> (Bytes, bool)

  function Stripped(line: Bytes): Bytes
  {
    if line != [] && line[|line| - 1] == CARRIAGE_RETURN then line[..|line| - 1] else line
  }

  /** The session is given a line without one carriage return at its end, and otherwise as it came. */
  lemma StrippedIs(line: Bytes)
    ensures Stripped(line + [CARRIAGE_RETURN]) == line
    ensures line == [] || line[|line| - 1] != CARRIAGE_RETURN ==> Stripped(line) == line
  {
    var more := line + [CARRIAGE_RETURN];
    assert more[..|line|] == line;
  }

  /** What the socket takes until it is full or broken. */
  function Accepted(writes: seq<Write>): nat
  {
    if writes == [] || !writes[0].Took? then 0 else writes[0].n + Accepted(writes[1..])
  }

  /** It breaks before it is full. */
  predicate Breaks(writes: seq<Write>)
  {
    writes != [] && (writes[0].Broken? || (writes[0].Took? && Breaks(writes[1..])))
  }

  function Min(a: nat, b: nat): nat { if a < b then a else b }

  function Max(a: int, b: int): int { if a < b then b else a }

  /** After `i` writes `done` of `all` bytes are sent, and what the socket takes of the rest is still to come. */
  ghost predicate Going(writes: seq<Write>, i: nat, done: nat, all: nat)
    requires i <= |writes|
  {
    && done <= all && done <= Accepted(writes)
    && (done < all ==> Accepted(writes) == done + Accepted(writes[i..]) && Breaks(writes) == Breaks(writes[i..]))
  }

  lemma StartGoing(writes: seq<Write>, all: nat)
    ensures Going(writes, 0, 0, all)
  {
    assert writes[0..] == writes;
  }

  /** More to write does not change what is taken of the first part. */
  lemma TakenFirst(unsent: Bytes, more: Bytes, taken: nat)
    requires unsent <= more
    ensures unsent[..Min(|unsent|, taken)] <= more[..Min(|more|, taken)]
  {
  }

  lemma GoOn(writes: seq<Write>, i: nat, done: nat, all: nat)
    requires i < |writes| && Going(writes, i, done, all) && done < all && !writes[i].Full?
    ensures writes[i].Broken? ==> Breaks(writes) && Accepted(writes) == done
    ensures writes[i].Took? ==> Going(writes, i + 1, done + Min(writes[i].n, all - done), all)
  {
    assert writes[i..][0] == writes[i] && writes[i..][1..] == writes[i + 1..];
  }

  lemma Stopped(writes: seq<Write>, i: nat, done: nat, all: nat)
    requires i <= |writes| && Going(writes, i, done, all) && (done == all || i == |writes| || writes[i].Full?)
    ensures done == Min(all, Accepted(writes)) && !(Breaks(writes) && Accepted(writes) < all)
  {
    if i < |writes| {
      assert writes[i..][0] == writes[i];
    }
  }

  lemma AllAccounted(sent: Bytes, unsent: Bytes, done: nat)
    requires done <= |unsent|
    ensures (sent + unsent[..done]) + unsent[done..] == sent + unsent
  {
  }

  /** The lines as they came in. */
  function Joined(lines: seq<Bytes>): Bytes
  {
    if lines == [] then [] else Joined(lines[..|lines| - 1]) + lines[|lines| - 1] + [NEWLINE]
  }

  /** The answers to them, in order. */
  function Replies(session: Session, lines: seq<Bytes>): Bytes
  {
    if lines == [] then []
    else
      var n := |lines| - 1;
      Replies(session, lines[..n]) + session(n, Stripped(lines[n])).0
  }

  predicate HasLine(s: Bytes) { FirstNewline(s).Some? }

  /** The session quit on the last of these lines. */
  predicate Quits(session: Session, lines: seq<Bytes>)
  {
    lines != [] && session(|lines| - 1, Stripped(lines[|lines| - 1])).1
  }

  class Client {
    const session: Session
    var inbuf: Bytes
    var outbuf: Bytes
    var outSent: nat
    var wantsRead: bool
    var wantsWrite: bool
    var closeAfterFlush: bool
    var readingPaused: bool
    var registered: (bool, bool)   // what the poller was last told: read, write
    var commands: nat
    var eof: bool                  // the peer has closed its side: `read` finds nothing more

    ghost var received: Bytes      // every byte read
    ghost var handled: seq<Bytes>  // every line passed to the session
    ghost var sent: Bytes          // every byte written
    ghost var tooLong: bool        // the line-too-long reply was queued
    ghost var ended: bool          // the session quit or a line was too long

    constructor (session: Session)
      ensures Valid() && received == [] && sent == [] && this.session == session && !readingPaused && !eof && !ended
    {
      this.session := session;
      inbuf, outbuf, outSent := [], [], 0;
      wantsRead, wantsWrite, closeAfterFlush, readingPaused := true, false, false, false;
      registered := (true, false);
      commands := 0;
      received, handled, sent := [], [], [];
      tooLong, ended, eof := false, false, false;
    }

    ghost function Unsent(): Bytes
      reads this`outbuf, this`outSent
      requires outSent <= |outbuf|
    {
      outbuf[outSent..]
    }

    /** On the way in nothing is lost, repeated or reordered: lines handled, then the buffer. */
    ghost predicate InputAccounted()
      reads this`received, this`handled, this`inbuf, this`commands
    {
      && commands == |handled| && received == Joined(handled) + inbuf
      && forall i | 0 <= i < |handled| :: !HasLine(handled[i])
    }

    /** Nor on the way out: bytes sent, then the unsent ones, are the replies in order. */
    ghost predicate OutputAccounted()
      reads this`outbuf, this`outSent, this`sent, this`handled, this`tooLong
    {
      && outSent <= |outbuf|
      && sent + Unsent() == Replies(session, handled) + (if tooLong then LINE_TOO_LONG else [])
    }

    ghost predicate Accounted()
      reads this`received, this`handled, this`inbuf, this`commands, this`outbuf, this`outSent, this`sent, this`tooLong
      reads this`closeAfterFlush, this`ended, this`eof
    {
      && InputAccounted() && OutputAccounted()
      && closeAfterFlush == (ended || eof)
      && ended == (tooLong || Quits(session, handled)) && !(tooLong && Quits(session, handled))
      && (tooLong ==> |inbuf| > 64 * 1024)
    }

    /** What is buffered between a read and the answers to it. */
    ghost predicate InputTaken()
      reads this`inbuf, this`eof, this`ended
    {
      !ended ==> |inbuf| <= 64 * 1024 + if eof then 0 else READ_CHUNK
    }

    /** As long as the session is not over the input buffer holds at most one line and, while paused, one read more. */
    ghost predicate InputBounded()
      reads this`inbuf, this`readingPaused, this`eof, this`ended
    {
      !ended ==> |inbuf| <= 64 * 1024 + if readingPaused && !eof then READ_CHUNK else 0
    }

    /** A complete line is left waiting only by a pause, or because the connection is over. */
    ghost predicate LinesServed()
      reads this`inbuf, this`readingPaused, this`eof, this`ended
    {
      HasLine(inbuf) ==> (readingPaused && !eof) || ended
    }

    /** A paused client still has output to drain. */
    ghost predicate PauseHasReason()
      reads this`readingPaused, this`outSent, this`outbuf
    {
      readingPaused ==> outSent < |outbuf|
    }

    /** A client with too much output waiting is not read from. */
    ghost predicate Throttled()
      reads this`readingPaused, this`outSent, this`outbuf, this`ended
    {
      !readingPaused && !ended ==> |outbuf| - outSent <= 1024 * 1024
    }

    ghost function LastReply(): nat
      reads this`handled
    {
      if handled == [] then 0 else |session(|handled| - 1, Stripped(handled[|handled| - 1])).0|
    }

    ghost predicate Interested()
      reads this`wantsRead, this`wantsWrite, this`registered, this`readingPaused, this`outSent, this`outbuf
    {
      && wantsRead == !readingPaused && wantsWrite == (outSent < |outbuf|)
      && registered == (wantsRead, wantsWrite)
    }

    ghost predicate Valid()
      reads this
    {
      && Accounted() && InputBounded() && LinesServed() && PauseHasReason() && Throttled() && Interested()
      && (closeAfterFlush ==> outSent < |outbuf|) && (eof ==> readingPaused)
      && |outbuf| - outSent <= 8 * 1024 * 1024
    }

    /** A read brings no more than was asked for, and nothing follows the end of a stream. */
    ghost predicate CanRead(read: Read)
      reads this`eof
    {
      read.Data? ==> 0 < |read.bytes| <= READ_CHUNK && !eof
    }

    method UpdateInterest()
      requires Accounted() && registered == (wantsRead, wantsWrite)
      modifies this`wantsRead, this`wantsWrite, this`registered
      ensures Interested()
    {
      var write, read := outSent < |outbuf|, !readingPaused;
      if write == wantsWrite && read == wantsRead {
        return;
      }
      wantsWrite, wantsRead := write, read;
      registered := (read, write);
    }

    method ReadFrom(read: Read) returns (ok: bool, peerClosed: bool)
      requires Accounted() && InputBounded() && CanRead(read)
      modifies this`inbuf, this`received
      ensures Accounted() && InputTaken()
      ensures if !readingPaused && read.Data? then
                received == old(received) + read.bytes && inbuf == old(inbuf) + read.bytes
              else received == old(received) && inbuf == old(inbuf)
      ensures peerClosed <==> !readingPaused && read.EndOfFile?
      ensures ok <==> readingPaused || !read.Failed?
    {
      ok, peerClosed := true, false;
      if readingPaused {
        return;
      }
      match read
      case Data(bytes) =>
        assert Joined(handled) + inbuf + bytes == Joined(handled) + (inbuf + bytes);
        inbuf := inbuf + bytes;
        received := received + bytes;
      case EndOfFile => peerClosed := true;
      case WouldBlock =>
      case Failed => ok := false;
    }

    /** Replies are queued only while no more than the limit waits, or one more to what waited. */
    ghost predicate OneReplyMore(waited: int)
      reads this`outbuf, this`outSent, this`handled
    {
      |outbuf| - outSent <= Max(waited, PAUSE_READING_ABOVE) + Max(LastReply(), |LINE_TOO_LONG|)
    }

    /** Answers the complete lines in the buffer until there is none, the session ends, or too much output waits. */
    method ProcessInput()
      requires Accounted() && PauseHasReason() && InputTaken() && Throttled()
      modifies this`inbuf, this`outbuf, this`handled, this`commands
      modifies this`closeAfterFlush, this`readingPaused, this`tooLong, this`ended
      ensures Accounted() && PauseHasReason() && outSent == old(outSent)
      ensures InputBounded() && |inbuf| <= |old(inbuf)| && (ended ==> readingPaused == old(readingPaused))
      ensures Throttled() && OneReplyMore(old(|outbuf| - outSent)) && old(outbuf) <= outbuf
      ensures readingPaused && !old(readingPaused) ==> |outbuf| - outSent > 1024 * 1024
      ensures HasLine(inbuf) ==> readingPaused || closeAfterFlush
      ensures old(handled) <= handled
      ensures old(closeAfterFlush) ==>
                && inbuf == old(inbuf) && outbuf == old(outbuf) && readingPaused == old(readingPaused)
                && ended == old(ended) && handled == old(handled)
      ensures !old(HasLine(inbuf)) ==> inbuf == old(inbuf) && readingPaused == old(readingPaused)
    {
      hide InputAccounted, OutputAccounted, FirstNewline, Quits, LastReply;
      while true
        invariant Accounted() && PauseHasReason() && old(handled) <= handled
        invariant InputTaken() && |inbuf| <= |old(inbuf)| && readingPaused == old(readingPaused)
        invariant old(outbuf) <= outbuf && Throttled()
        invariant |outbuf| - outSent <= Max(old(|outbuf| - outSent), PAUSE_READING_ABOVE)
        invariant old(closeAfterFlush) ==>
                    && closeAfterFlush && inbuf == old(inbuf) && outbuf == old(outbuf)
                    && readingPaused == old(readingPaused) && ended == old(ended) && handled == old(handled)
        invariant !old(HasLine(inbuf)) ==> inbuf == old(inbuf) && readingPaused == old(readingPaused)
        decreases |inbuf|
      {
        if closeAfterFlush {
          return;
        }
        var newline := FirstNewline(inbuf);
        if newline.None? {
          if |inbuf| > MAX_LINE_LENGTH {
            RefuseLine();
          }
          return;
        }
        var stop := AnswerNext(newline.value);
        if stop {
          return;
        }
      }
    }

    /** One line answered; then it stops if the session quit, or pauses if too much output waits. */
    method AnswerNext(newline: nat) returns (stop: bool)
      requires Accounted() && PauseHasReason() && InputTaken() && !closeAfterFlush && FirstNewline(inbuf) == Some(newline)
      modifies this`inbuf, this`outbuf, this`handled, this`commands
      modifies this`closeAfterFlush, this`readingPaused, this`ended
      ensures Accounted() && PauseHasReason() && InputTaken() && |inbuf| < |old(inbuf)|
      ensures old(handled) <= handled && old(outbuf) <= outbuf && |outbuf| == |old(outbuf)| + LastReply()
      ensures closeAfterFlush == ended && (stop <==> ended || |outbuf| - outSent > 1024 * 1024)
      ensures readingPaused == (old(readingPaused) || (!ended && |outbuf| - outSent > 1024 * 1024))
    {
      hide InputAccounted, OutputAccounted, FirstNewline, Quits, LastReply;
      var quit := AnswerLine(newline);
      if quit {
        ended, closeAfterFlush := true, true;
        return true;
      }
      stop := |outbuf| - outSent > PAUSE_READING_ABOVE;
      if stop {
        readingPaused := true;
      }
    }

    method RefuseLine()
      requires Accounted() && !ended && |inbuf| > MAX_LINE_LENGTH
      modifies this`outbuf, this`tooLong, this`ended, this`closeAfterFlush
      ensures Accounted() && closeAfterFlush && ended && outbuf == old(outbuf) + LINE_TOO_LONG
    {
      ghost var waiting := Unsent();
      QueueOutput(LINE_TOO_LONG);
      assert sent + (waiting + LINE_TOO_LONG) == sent + waiting + LINE_TOO_LONG;
      assert Replies(session, handled) + [] == Replies(session, handled);
      tooLong, ended, closeAfterFlush := true, true, true;
    }

    /** Takes the first line off the buffer and queues the session's answer to it. */
    method AnswerLine(newline: nat) returns (quit: bool)
      requires InputAccounted() && OutputAccounted() && FirstNewline(inbuf) == Some(newline) && !tooLong
      modifies this`inbuf, this`outbuf, this`handled, this`commands
      ensures InputAccounted() && OutputAccounted()
      ensures |inbuf| < |old(inbuf)| && old(handled) <= handled && old(outbuf) <= outbuf
      ensures quit == Quits(session, handled) && |outbuf| == |old(outbuf)| + LastReply()
    {
      hide FirstNewline, HasLine, Joined, Replies, Stripped;
      var line, rest := inbuf[..newline], inbuf[newline + 1..];
      NoNewlineIn(inbuf, newline);
      OneMoreLine(session, handled, line, rest);
      ghost var waiting := Unsent();
      ghost var said := Replies(session, handled);
      var answer := session(commands, Stripped(line));
      QueueOutput(answer.0);
      assert sent + (waiting + answer.0) == sent + waiting + answer.0 && said + [] == said;
      assert said + answer.0 + [] == said + answer.0;
      inbuf, handled, commands := rest, handled + [line], commands + 1;
      quit := answer.1;
    }

    method QueueOutput(text: Bytes)
      requires outSent <= |outbuf|
      modifies this`outbuf
      ensures outbuf == old(outbuf) + text && Unsent() == old(Unsent()) + text
    {
      outbuf := outbuf + text;
    }

    lemma OutputFits()
      requires OutputAccounted()
      ensures outSent <= |outbuf|
    {
    }

    twostate lemma StillAccounted()
      requires old(OutputAccounted()) && outSent <= |outbuf| && sent + Unsent() == old(sent + Unsent())
      requires handled == old(handled) && tooLong == old(tooLong)
      ensures OutputAccounted()
    {
    }

    /** The write loop: it sends what the socket takes; `false` is a connection that broke before all was sent. */
    method WriteOut(writes: seq<Write>) returns (ok: bool)
      requires OutputAccounted()
      modifies this`outSent, this`sent
      ensures OutputAccounted()
      ensures outSent == old(outSent) + Min(|old(Unsent())|, Accepted(writes))
      ensures sent == old(sent) + old(Unsent())[..Min(|old(Unsent())|, Accepted(writes))]
      ensures ok <==> !(Breaks(writes) && Accepted(writes) < |old(Unsent())|)
    {
      hide OutputAccounted, Accepted, Breaks, Going;
      ok := true;
      OutputFits();
      var i, start := 0, outSent;
      ghost var unsent := Unsent();
      StartGoing(writes, |unsent|);
      while ok && outSent < |outbuf| && i < |writes| && !writes[i].Full?
        invariant start <= outSent <= |outbuf| && i <= |writes|
        invariant ok ==> Going(writes, i, outSent - start, |unsent|)
        invariant !ok ==> Breaks(writes) && Accepted(writes) == outSent - start < |unsent|
        decreases |writes| - i, ok
        modifies this`outSent
      {
        GoOn(writes, i, outSent - start, |unsent|);
        if writes[i].Broken? {
          ok := false;
        } else {
          var left := |outbuf| - outSent;
          var n := if writes[i].n < left then writes[i].n else left;
          outSent, i := outSent + n, i + 1;
        }
      }
      if ok {
        Stopped(writes, i, outSent - start, |unsent|);
      }
      sent := sent + unsent[..outSent - start];
      AllAccounted(old(sent), unsent, outSent - start);
      assert Unsent() == unsent[outSent - start..];
      StillAccounted();
    }

    /** Nothing is taken by the socket: output and flow control stay as they were. */
    twostate predicate Held()
      reads this`inbuf, this`outbuf, this`outSent, this`sent, this`readingPaused, this`ended, this`eof
    {
      && sent == old(sent) && |outbuf| - outSent == old(|outbuf| - outSent)
      && readingPaused == old(readingPaused) && ended == old(ended) && eof == old(eof) && inbuf == old(inbuf)
    }

    /** The socket took what it would of the output: of that waiting before, first. */
    twostate predicate Wrote(writes: seq<Write>)
      requires old(outSent <= |outbuf|)
      reads this`sent
    {
      && old(sent) + old(Unsent())[..Min(|old(Unsent())|, Accepted(writes))] <= sent
      && |sent| <= |old(sent)| + Accepted(writes)
    }

    /** A read brought something and the socket took nothing. */
    twostate predicate Fed(bytes: Bytes)
      reads this`inbuf, this`outbuf, this`outSent, this`sent, this`readingPaused, this`ended, this`eof, this`received
    {
      && sent == old(sent) && eof == old(eof) && (ended ==> readingPaused == old(readingPaused))
      && received == (if old(readingPaused) then old(received) else old(received) + bytes)
      && (old(ended) ==> ended && |outbuf| - outSent == old(|outbuf| - outSent)
                         && inbuf == if old(readingPaused) then old(inbuf) else old(inbuf) + bytes)
    }

    /** Writes what the socket takes, makes room, and resumes a paused client once its output is gone. */
    method Flush(writes: seq<Write>) returns (ok: bool, ghost broken: bool)
      requires Accounted() && PauseHasReason() && LinesServed() && InputBounded() && Throttled()
      requires registered == (wantsRead, wantsWrite)
      modifies this
      ensures Accounted() && LinesServed() && InputBounded() && Throttled() && |inbuf| <= |old(inbuf)|
      ensures old(ended) ==> ended && handled == old(handled)
      ensures ok ==> PauseHasReason() && Interested() && |outbuf| - outSent <= MAX_OUTPUT_BYTES
      ensures !ok ==> broken || |outbuf| - outSent > MAX_OUTPUT_BYTES
      ensures (broken <==> Breaks(writes) && Accepted(writes) < |old(Unsent())|) && (broken ==> !ok)
      ensures sent == old(sent) + old(Unsent())[..Min(|old(Unsent())|, Accepted(writes))]
      ensures received == old(received) && eof == old(eof) && old(handled) <= handled
      ensures registered == (wantsRead, wantsWrite)
      ensures !old(readingPaused) || old(ended) ==> inbuf == old(inbuf) && (readingPaused ==> old(readingPaused))
      ensures writes == [] ==> Held()
      ensures old(outSent == |outbuf| && eof) ==> outSent == |outbuf|
      ensures eof && old(readingPaused) && outSent < |outbuf| ==> readingPaused
    {
      hide InputAccounted, OutputAccounted, HasLine, Quits, Replies;
      ok := WriteOut(writes);
      broken := !ok;
      if !ok {
        return;
      }
      Resume();
      if |outbuf| - outSent > MAX_OUTPUT_BYTES {
        ok := false;
        return;
      }
      UpdateInterest();
    }

    /** Makes room in the output buffer and, if it is now empty, lets a paused client's waiting lines be served. */
    method Resume()
      requires Accounted() && LinesServed() && InputBounded() && Throttled()
      modifies this`inbuf, this`outbuf, this`outSent, this`handled, this`commands
      modifies this`closeAfterFlush, this`readingPaused, this`tooLong, this`ended
      ensures Accounted() && LinesServed() && PauseHasReason() && old(handled) <= handled
      ensures InputBounded() && Throttled() && |inbuf| <= |old(inbuf)|
      ensures old(ended) ==> ended && handled == old(handled)
      ensures !old(readingPaused) || old(ended) ==> inbuf == old(inbuf) && (readingPaused ==> old(readingPaused))
      ensures old(PauseHasReason()) ==> Held()
      ensures eof && old(readingPaused) && outSent < |outbuf| ==> readingPaused
    {
      hide InputAccounted, OutputAccounted, HasLine;
      var drained := MakeRoom();
      if drained && readingPaused {
        readingPaused := false;
        ProcessInput();
      }
    }

    /** Forgets what has been written: all of the buffer, or its first part once that is the larger one. */
    method MakeRoom() returns (drained: bool)
      requires OutputAccounted()
      modifies this`outbuf, this`outSent
      ensures OutputAccounted() && |outbuf| - outSent == old(|outbuf| - outSent)
      ensures drained <==> outSent == |outbuf|
      ensures outSent <= |outbuf|
    {
      hide Replies;
      drained := outSent >= |outbuf|;
      if drained {
        outbuf, outSent := [], 0;
      } else if outSent > 0 && outSent > |outbuf| / 2 {
        outbuf := outbuf[outSent..];
        outSent := 0;
      }
    }

    /** Reads once and answers what it can; `None` is a broken connection, otherwise whether the peer has closed. */
    method TakeInput(read: Read) returns (peerClosed: Option<bool>)
      requires Accounted() && PauseHasReason() && LinesServed() && InputBounded() && Throttled() && CanRead(read)
      modifies this`inbuf, this`received, this`outbuf, this`handled, this`commands
      modifies this`closeAfterFlush, this`readingPaused, this`tooLong, this`ended
      ensures Accounted() && old(handled) <= handled && (old(ended) ==> ended && handled == old(handled))
      ensures received == if !old(readingPaused) && read.Data? then old(received) + read.bytes else old(received)
      ensures peerClosed.Some? ==> PauseHasReason() && LinesServed() && InputBounded()
      ensures Throttled() && old(outbuf) <= outbuf
      ensures peerClosed.None? <==> !old(readingPaused) && read.Failed?
      ensures peerClosed == Some(true) ==> read.EndOfFile? && (HasLine(inbuf) ==> ended) && !readingPaused
      ensures (ended || eof) && peerClosed.Some? ==> readingPaused == old(readingPaused)
      ensures old(ended) || eof ==> outbuf == old(outbuf)
      ensures old(ended) ==> inbuf == if !old(readingPaused) && read.Data? then old(inbuf) + read.bytes else old(inbuf)
    {
      hide InputAccounted, OutputAccounted, HasLine;
      var ok, closed := ReadFrom(read);
      if !ok {
        return None;
      }
      ProcessInput();
      peerClosed := Some(closed);
    }

    /** Reads and answers, then writes. */
    method Exchange(read: Read, writes: seq<Write>) returns (ok: bool, peerClosed: bool, ghost broken: bool)
      requires Accounted() && PauseHasReason() && LinesServed() && InputBounded() && Throttled() && CanRead(read)
      requires registered == (wantsRead, wantsWrite)
      modifies this
      ensures Accounted() && Throttled() && registered == (wantsRead, wantsWrite) && eof == old(eof)
      ensures !old(readingPaused) && read.Failed? ==> !ok && sent == old(sent)
      ensures old(readingPaused) || !read.Failed? ==> Wrote(writes)
      ensures ok ==> LinesServed() && InputBounded() && PauseHasReason() && |outbuf| - outSent <= MAX_OUTPUT_BYTES
      ensures !ok ==> broken || |outbuf| - outSent > MAX_OUTPUT_BYTES
      ensures peerClosed ==> read.EndOfFile?
      ensures ok && eof && old(readingPaused) && outSent < |outbuf| ==> readingPaused
      ensures ok && eof && old(outSent == |outbuf|) ==> outSent == |outbuf|
      ensures ok && peerClosed ==> (HasLine(inbuf) ==> ended) && (!ended ==> |inbuf| <= MAX_LINE_LENGTH)
      ensures old(received) <= received && old(sent) <= sent && old(handled) <= handled
      ensures read.Data? && writes == [] ==> Fed(read.bytes) && !broken
      ensures old(ended) ==> handled == old(handled)
    {
      hide InputAccounted, OutputAccounted, HasLine, Quits, Accepted, Replies;
      OutputFits();
      ghost var unsent := Unsent();
      var taken := TakeInput(read);
      peerClosed := taken == Some(true);
      ok := taken.Some?;
      broken := !ok;
      if !ok {
        return;
      }
      TakenFirst(unsent, Unsent(), Accepted(writes));
      ok, broken := Flush(writes);
    }

    method OnReadable(read: Read, writes: seq<Write>) returns (ok: bool, ghost broken: bool)
      requires Accounted() && PauseHasReason() && LinesServed() && InputBounded() && Throttled() && CanRead(read)
      requires registered == (wantsRead, wantsWrite)
      modifies this
      ensures Accounted() && Throttled() && registered == (wantsRead, wantsWrite)
      ensures !old(readingPaused) && read.Failed? ==> !ok && sent == old(sent)
      ensures old(readingPaused) || !read.Failed? ==> Wrote(writes)
      ensures ok ==> LinesServed() && InputBounded() && |outbuf| - outSent <= MAX_OUTPUT_BYTES
      ensures ok ==> PauseHasReason() || closeAfterFlush
      ensures ok && outSent < |outbuf| && (old(eof) ==> old(readingPaused || outSent == |outbuf|)) ==>
                (eof ==> readingPaused)
      ensures !ok ==> broken || |outbuf| - outSent > MAX_OUTPUT_BYTES
      ensures old(received) <= received && old(sent) <= sent && old(handled) <= handled
      ensures read.Data? && writes == [] ==> Fed(read.bytes) && !broken
      ensures old(ended) ==> handled == old(handled)
    {
      hide InputAccounted, OutputAccounted, HasLine, Quits, Accepted, Replies;
      var peerClosed;
      ok, peerClosed, broken := Exchange(read, writes);
      if ok && peerClosed {
        eof, closeAfterFlush, readingPaused := true, true, true;
      }
    }

    /** What an event writes: what the socket takes of the output waiting, when writable first, then after a read. */
    twostate predicate Delivered(event: Event, before: seq<Write>, read: Read, after: seq<Write>)
      requires old(outSent <= |outbuf|)
      reads this`sent
    {
      && (event.writable ==> old(sent) + old(Unsent())[..Min(|old(Unsent())|, Accepted(before))] <= sent)
      && (event.writable && !event.readable ==> |sent| <= |old(sent)| + Accepted(before))
      && (event.readable && !event.writable && (old(readingPaused) || !read.Failed?) ==> Wrote(after))
      && (!event.readable && !event.writable ==> sent == old(sent))
    }

    /** Serves what the socket is ready for; not `ok` closes the client. */
    method OnReady(event: Event, before: seq<Write>, read: Read, after: seq<Write>) returns (ok: bool, ghost broken: bool)
      requires Valid() && CanRead(read)
      modifies this
      ensures Accounted() && Throttled() && registered == (wantsRead, wantsWrite)
      ensures ok ==> LinesServed() && InputBounded() && |outbuf| - outSent <= MAX_OUTPUT_BYTES
      ensures ok ==> PauseHasReason() || closeAfterFlush
      ensures ok && outSent < |outbuf| ==> (eof ==> readingPaused)
      ensures !ok ==> broken || |outbuf| - outSent > MAX_OUTPUT_BYTES
      ensures old(received) <= received && old(sent) <= sent && old(handled) <= handled
      ensures Delivered(event, before, read, after)
      ensures event.writable && Breaks(before) && Accepted(before) < |old(Unsent())| ==> !ok
      ensures event.readable && !event.writable && !old(readingPaused) && read.Failed? ==> !ok
      ensures event == Event(true, false, false) && read.Data? && after == [] ==> Fed(read.bytes) && !broken
      ensures old(ended) ==> handled == old(handled)
    {
      hide InputAccounted, OutputAccounted, HasLine, Quits, InputBounded, LinesServed, Held;
      ok, broken := true, false;
      if event.writable {
        ok, broken := Flush(before);
        if !ok {
          return;
        }
        OutputFits();
      }
      if event.readable {
        ok, broken := OnReadable(read, after);
      }
    }

    /**
      One readiness event, with what the socket answers to each call. A client that is not closed is never left
      stuck; one closed in good order has been sent everything.
     */
    method HandleClient(event: Event, before: seq<Write>, read: Read, after: seq<Write>)
      returns (close: bool, ghost broken: bool)
      requires Valid() && CanRead(read)
      modifies this
      ensures Accounted()
      ensures !close ==> Valid()
      ensures close ==> broken || |outbuf| - outSent > 8 * 1024 * 1024 || (event.closed && !event.readable)
                        || (closeAfterFlush && outSent >= |outbuf|)
      ensures old(received) <= received && old(sent) <= sent && old(handled) <= handled
      ensures Delivered(event, before, read, after)
      ensures event.writable && Breaks(before) && Accepted(before) < |old(Unsent())| ==> close
      ensures event.readable && !event.writable && !old(readingPaused) && read.Failed? ==> close
      ensures event == Event(true, false, false) && read.Data? && after == [] ==> Fed(read.bytes) && !broken
      ensures old(ended) ==> handled == old(handled)
    {
      hide InputAccounted, OutputAccounted, HasLine, Quits, InputBounded, LinesServed, Held;
      close := true;
      var ok;
      ok, broken := OnReady(event, before, read, after);
      if !ok {
        return;
      }
      if event.closed && !event.readable {
        return;
      }
      if closeAfterFlush && outSent >= |outbuf| {
        return;
      }
      UpdateInterest();
      close := false;
    }

    // ----- The bound on the input buffer ends with the session.

    /** The session is over, its last reply is not all sent, and reading goes on. */
    ghost predicate Lingers()
      reads this
    {
      Valid() && ended && !readingPaused && !eof
    }

    /** What such a client sends is buffered, without a limit and never looked at. */
    method Overfill(n: nat)
      requires Lingers()
      modifies this
      ensures Lingers() && |inbuf| == |old(inbuf)| + n * READ_CHUNK && handled == old(handled)
    {
      hide InputAccounted, OutputAccounted, InputBounded, LinesServed, PauseHasReason, Interested, Quits;
      for i := 0 to n
        invariant Lingers() && |inbuf| == |old(inbuf)| + i * READ_CHUNK && handled == old(handled)
      {
        var close, broken := HandleClient(Event(true, false, false), [], Data(seq(READ_CHUNK, _ => 0)), []);
      }
    }
  }

  /** Any client whose session quits on its first line, with a reply the socket does not take, comes to that. */
  method QuitAndOverfill(session: Session, line: Bytes, n: nat) returns (client: Client)
    requires !HasLine(line) && |line| < READ_CHUNK
    requires session(0, Stripped(line)).1 && 0 < |session(0, Stripped(line)).0| <= MAX_OUTPUT_BYTES
    ensures fresh(client) && client.session == session && client.Lingers() && |client.inbuf| >= n * READ_CHUNK
  {
    client := new Client(session);
    var close, broken := client.HandleClient(Event(true, false, false), [], Data(line + [NEWLINE]), []);
    QuitOnFirst(session, client.handled, client.inbuf, line);
    assert client.Lingers();
    client.Overfill(n);
  }

  // ----- What the lines are.

  /** The complete lines of a text, and what follows the last of them. */
  function Split(s: Bytes): (seq<Bytes>, Bytes)
    decreases |s|
  {
    match FirstNewline(s)
    case None => ([], s)
    case Some(i) =>
      var (lines, rest) := Split(s[i + 1..]);
      ([s[..i]] + lines, rest)
  }

  lemma NoNewlineIn(s: Bytes, i: nat)
    requires FirstNewline(s) == Some(i)
    ensures i < |s| && s == s[..i] + [NEWLINE] + s[i + 1..] && !HasLine(s[..i])
  {
    hide FirstNewline;
    Around(s, i);
    assert forall j | 0 <= j < i :: s[..i][j] != NEWLINE;
  }

  lemma Around(s: Bytes, i: nat)
    requires i < |s| && s[i] == NEWLINE
    ensures s == s[..i] + [NEWLINE] + s[i + 1..]
  {
  }

  lemma OneMoreLine(session: Session, handled: seq<Bytes>, line: Bytes, rest: Bytes)
    ensures Joined(handled + [line]) + rest == Joined(handled) + (line + [NEWLINE] + rest)
    ensures Replies(session, handled + [line]) == Replies(session, handled) + session(|handled|, Stripped(line)).0
  {
    hide Stripped, Joined, Replies;
    JoinedSnoc(handled, line);
    RepliesSnoc(session, handled, line);
    Regroup(Joined(handled), line, rest);
  }

  lemma JoinedSnoc(handled: seq<Bytes>, line: Bytes)
    ensures Joined(handled + [line]) == Joined(handled) + line + [NEWLINE]
  {
    var more := handled + [line];
    assert more[..|more| - 1] == handled;
  }

  lemma RepliesSnoc(session: Session, handled: seq<Bytes>, line: Bytes)
    ensures Replies(session, handled + [line]) == Replies(session, handled) + session(|handled|, Stripped(line)).0
  {
    hide Stripped;
    var more := handled + [line];
    assert more[..|more| - 1] == handled && more[|more| - 1] == line;
  }

  lemma Regroup(front: Bytes, line: Bytes, rest: Bytes)
    ensures (front + line + [NEWLINE]) + rest == front + (line + [NEWLINE] + rest)
  {
  }

  lemma FirstNewlineAt(line: Bytes, rest: Bytes)
    requires !HasLine(line)
    ensures FirstNewline(line + [NEWLINE] + rest) == Some(|line|)
  {
    var s := line + [NEWLINE] + rest;
    assert s[|line|] == NEWLINE;
    assert forall i | 0 <= i < |line| :: s[i] == line[i];
  }

  lemma SplitLine(line: Bytes, rest: Bytes)
    requires !HasLine(line)
    ensures Split(line + [NEWLINE] + rest) == ([line] + Split(rest).0, Split(rest).1)
  {
    hide FirstNewline, HasLine;
    var s := line + [NEWLINE] + rest;
    FirstNewlineAt(line, rest);
    assert s[..|line|] == line && s[|line| + 1..] == rest;
  }

  lemma {:induction false} JoinedFront(lines: seq<Bytes>)
    requires lines != []
    ensures Joined(lines) == lines[0] + [NEWLINE] + Joined(lines[1..])
    decreases |lines|
  {
    if |lines| == 1 {
      assert lines[..0] == [] && lines[1..] == [];
      assert Joined(lines) == [] + lines[0] + [NEWLINE];
    } else {
      hide Joined;
      var init, last, tail := lines[..|lines| - 1], lines[|lines| - 1], lines[1..];
      JoinedFront(init);
      assert lines == init + [last] && tail == init[1..] + [last];
      JoinedSnoc(init, last);
      JoinedSnoc(init[1..], last);
      Regrouped(lines[0], Joined(init[1..]), last);
    }
  }

  lemma Regrouped(first: Bytes, middle: Bytes, last: Bytes)
    ensures (first + [NEWLINE] + middle) + last + [NEWLINE] == first + [NEWLINE] + (middle + last + [NEWLINE])
  {
  }

  lemma SplitNothing(s: Bytes)
    requires !HasLine(s)
    ensures Split(s) == ([], s)
  {
  }

  /** The lines handled and the buffer left are the split of all bytes received, however the reads cut them. */
  lemma {:induction false} HandledAreTheLines(handled: seq<Bytes>, inbuf: Bytes)
    requires forall i | 0 <= i < |handled| :: !HasLine(handled[i])
    ensures Split(Joined(handled) + inbuf) == (handled + Split(inbuf).0, Split(inbuf).1)
    ensures !HasLine(inbuf) ==> Split(Joined(handled) + inbuf) == (handled, inbuf)
    decreases |handled|
  {
    hide Split, HasLine;
    assert handled + [] == handled;
    if !HasLine(inbuf) {
      SplitNothing(inbuf);
    }
    var s := Joined(handled) + inbuf;
    if handled == [] {
      assert s == inbuf;
      assert handled + Split(inbuf).0 == Split(inbuf).0;
    } else {
      var tail := Joined(handled[1..]) + inbuf;
      JoinedFront(handled);
      assert s == handled[0] + [NEWLINE] + tail;
      SplitLine(handled[0], tail);
      HandledAreTheLines(handled[1..], inbuf);
      assert [handled[0]] + (handled[1..] + Split(inbuf).0) == handled + Split(inbuf).0;
    }
  }

  lemma QuitOnFirst(session: Session, handled: seq<Bytes>, inbuf: Bytes, line: Bytes)
    requires !HasLine(line) && Joined(handled) + inbuf == line + [NEWLINE]
    requires forall i | 0 <= i < |handled| :: !HasLine(handled[i])
    ensures handled == [line] || (handled == [] && HasLine(inbuf))
  {
    hide Split, FirstNewline;
    HandledAreTheLines(handled, inbuf);
    SplitLine(line, []);
    assert line + [NEWLINE] + [] == line + [NEWLINE];
    SplitNothing([]);
    assert [line] + [] == [line];
    var lines := handled + Split(inbuf).0;
    assert lines == [line];
    if handled == [] {
      FirstNewlineAt(line, []);
      assert inbuf == line + [NEWLINE] + [];
    } else {
      assert handled[0] == lines[0];
    }
  }
}
