/** Replaying a log: the record applier and the loop that feeds it. */
module Replay {
  import opened Bytes
  import opened Octets
  import opened Crc32
  import opened Protocol
  import opened Record
  import opened Kv

  /** The store's map together with the applier's own fields. */
  datatype State = State(kv: KV, inside: bool, openId: TxnId, pending: seq<Mutation>)

  const EMPTY: State := State(map[], false, 0, [])

  function ToMutation(e: Entry): Mutation
    requires e.Set? || e.Del?
  {
    if e.Set? then Put(e.key, e.value) else Erase(e.key)
  }

  /** One record; `None` is a record the applier refuses. */
  function Step(s: State, e: Entry): Option<State>
  {
    match e
    case Begin(id) => if s.inside then None else Some(State(s.kv, true, id, []))
    case Commit(id) =>
      if !s.inside || id != s.openId then None
      else Some(State(ApplyAll(s.kv, s.pending), false, s.openId, []))
    case _ =>
      if s.inside then Some(s.(pending := s.pending + [ToMutation(e)]))
      else Some(s.(kv := Apply(s.kv, ToMutation(e))))
  }

  function StepPayload(s: State, payload: Bytes): Option<State>
  {
    match Decode(payload)
    case None => None
    case Some(e) => Step(s, e)
  }

  function Run(s: State, es: seq<Entry>): Option<State>
    decreases |es|
  {
    if es == [] then Some(s)
    else
      match Step(s, es[0])
      case None => None
      case Some(t) => Run(t, es[1..])
  }

  lemma {:induction false} RunConcat(s: State, es: seq<Entry>, fs: seq<Entry>)
    ensures Run(s, es + fs) == (match Run(s, es) case None => None case Some(t) => Run(t, fs))
    decreases |es|
  {
    if es == [] {
      assert es + fs == fs;
    } else {
      assert (es + fs)[1..] == es[1..] + fs;
      match Step(s, es[0])
      case None =>
      case Some(t) => RunConcat(t, es[1..], fs);
    }
  }

  // ----- The loop over the bytes of a log.

  datatype Result = Result(state: State, applied: nat, consumed: nat, truncated: bool, corrupt: bool, unknown: bool)

  function Replayed(s: Bytes, st: State): (r: Result)
    ensures r.consumed <= |s|
    decreases |s|
  {
    if s == [] then Result(st, 0, 0, false, false, false)
    else
      match ParseHead(s)
      case Incomplete => Result(st, 0, 0, true, false, false)
      case Corrupt => Result(st, 0, 0, true, true, false)
      case Ok(p) =>
        match StepPayload(st, p)
        case None => Result(st, 0, 0, false, false, true)
        case Some(t) =>
          var r := Replayed(s[HEADER_BYTES + |p|..], t);
          r.(applied := r.applied + 1, consumed := r.consumed + HEADER_BYTES + |p|)
  }

  function Recover(log: Bytes): Result { Replayed(log, EMPTY) }

  /** What recovery leaves in the file: it is cut after the last record applied. */
  function Kept(log: Bytes): Bytes { log[..Recover(log).consumed] }

  /** Whole records the applier accepts are consumed and the rest is replayed after them. */
  lemma {:induction false} ReplayFrames(s: State, es: seq<Entry>, rest: Bytes)
    requires Readable(Payloads(es)) && Run(s, es).Some?
    ensures var r := Replayed(rest, Run(s, es).value);
            Replayed(Frames(Payloads(es)) + rest, s) ==
            r.(applied := r.applied + |es|, consumed := r.consumed + |Frames(Payloads(es))|)
    decreases |es|
  {
    hide Frame, ParseHead, Decode, Encode, Step;
    var ps := Payloads(es);
    var log := Frames(ps) + rest;
    if es == [] {
      assert log == rest;
    } else {
      var tail := Frames(ps[1..]) + rest;
      assert ps[1..] == Payloads(es[1..]);
      assert log == Frame(ps[0]) + tail;
      ParseExact(log, ps[0]);
      ReadableFits(es[0]);
      DecodeExact(ps[0], es[0]);
      assert log[HEADER_BYTES + |ps[0]|..] == tail;
      ReplayFrames(Step(s, es[0]).value, es[1..], rest);
    }
  }

  /**
    A payload damaged inside four consecutive bytes stops replay at exactly that record, with all the records
    before it applied and nothing after it.
   */
  lemma DamageStopsReplay(s: State, es: seq<Entry>, p: Bytes, q: Bytes, after: Bytes, at: nat, width: nat)
    requires Readable(Payloads(es)) && Run(s, es).Some? && |p| <= MAX_PAYLOAD_BYTES
    requires DifferInWindow(p, q, at, width) && width <= 4 && p != q
    ensures var before := Frames(Payloads(es));
            Replayed(before + (Frame(p)[..HEADER_BYTES] + q + after), s) ==
            Result(Run(s, es).value, |es|, |before|, true, true, false)
  {
    hide Frame, ParseHead, Frames, Run, Payloads, DifferInWindow;
    DamagedHead(p, q, after, at, width);
    ReplayFrames(s, es, Frame(p)[..HEADER_BYTES] + q + after);
  }

  lemma ReadableFits(e: Entry)
    requires |Encode(e)| <= MAX_PAYLOAD_BYTES
    ensures Fits(e)
  {
  }

  lemma ReplayNothing(s: State)
    ensures Replayed([], s) == Result(s, 0, 0, false, false, false)
  {
  }

  lemma ReplayedOne(s: Bytes, st: State, p: Bytes)
    requires ParseHead(s) == Ok(p) && StepPayload(st, p).Some?
    ensures var r := Replayed(s[HEADER_BYTES + |p|..], StepPayload(st, p).value);
            Replayed(s, st) == r.(applied := r.applied + 1, consumed := r.consumed + HEADER_BYTES + |p|)
  {
    hide ParseHead, StepPayload;
  }

  /** Recovering a file that recovery has cut finds the same state and cuts nothing more, whatever the file held. */
  lemma {:induction false} ReplayAgain(s: Bytes, st: State)
    ensures var r := Replayed(s, st);
            Replayed(s[..r.consumed], st) == Result(r.state, r.applied, r.consumed, false, false, false)
    decreases |s|
  {
    hide ParseHead, StepPayload;
    if s != [] && ParseHead(s).Ok? && StepPayload(st, ParseHead(s).payload).Some? {
      hide Replayed;
      var p := ParseHead(s).payload;
      var n := HEADER_BYTES + |p|;
      ReplayedOne(s, st, p);
      var r := Replayed(s, st);
      var kept := s[..r.consumed];
      ReplayAgain(s[n..], StepPayload(st, p).value);
      assert kept[n..] == s[n..][..r.consumed - n];
      KeptHead(s, kept, p);
      ReplayedOne(kept, st, p);
    } else {
      ReplayNothing(st);
    }
  }

  lemma KeptHead(s: Bytes, kept: Bytes, p: Bytes)
    requires ParseHead(s) == Ok(p) && HEADER_BYTES + |p| <= |kept| && kept <= s
    ensures ParseHead(kept) == Ok(p)
  {
    ghost var f := Frame(p);
    hide *;
    ParseExact(s, p);
    ParseExact(kept, p);
    assert f == s[..|f|] == kept[..|f|];
  }

  // ----- The source's form: an applier object and a loop that advances an offset.

  class RecordApplier {
    var kv: KV
    var insideTransaction: bool
    var openTxnId: TxnId
    var pending: seq<Mutation>
    var recordsApplied: nat
    var transactionsApplied: nat

    constructor (kv: KV)
      ensures View() == State(kv, false, 0, [])
    {
      this.kv := kv;
      insideTransaction, openTxnId, pending := false, 0, [];
      recordsApplied, transactionsApplied := 0, 0;
    }

    ghost function View(): State
      reads this
    {
      State(kv, insideTransaction, openTxnId, pending)
    }

    method ApplyPayload(payload: Bytes) returns (ok: bool)
      modifies this
      ensures ok == StepPayload(old(View()), payload).Some?
      ensures View() == if ok then StepPayload(old(View()), payload).value else old(View())
      ensures recordsApplied == old(recordsApplied) + if ok then 1 else 0
      ensures transactionsApplied ==
              old(transactionsApplied) + if ok && old(insideTransaction) && !insideTransaction then 1 else 0
    {
      hide ParseMarker, DeserializeCommand;
      var begin := ParseMarker(payload, BEGIN_TAG);
      if begin.Some? {
        if insideTransaction {
          return false;
        }
        insideTransaction, openTxnId, pending := true, begin.value, [];
        recordsApplied := recordsApplied + 1;
        return true;
      }
      var commit := ParseMarker(payload, COMMIT_TAG);
      if commit.Some? {
        if !insideTransaction || commit.value != openTxnId {
          return false;
        }
        kv := ApplyAll(kv, pending);
        pending, insideTransaction := [], false;
        transactionsApplied := transactionsApplied + 1;
        recordsApplied := recordsApplied + 1;
        return true;
      }
      var command := DeserializeCommand(payload);
      if command.None? {
        return false;
      }
      OnlyCommands(payload);
      if insideTransaction {
        pending := pending + [ToMutation(command.value)];
      } else {
        kv := Apply(kv, ToMutation(command.value));
      }
      recordsApplied := recordsApplied + 1;
      return true;
    }

    method AbandonOpenTransaction()
      modifies this
      ensures View() == State(old(kv), false, 0, [])
    {
      pending, insideTransaction, openTxnId := [], false, 0;
    }
  }

  lemma OnlyCommands(payload: Bytes)
    requires DeserializeCommand(payload).Some?
    ensures DeserializeCommand(payload).value.Set? || DeserializeCommand(payload).value.Del?
  {
  }

  /** `WriteAheadLog::replay`: returns the outcome and the file as it is left. */
  method ReplayLog(table: array<u32>, buffer: Bytes, applier: RecordApplier) returns (r: Result, file: Bytes)
    requires IsTable(table[..])
    requires applier.View() == EMPTY
    modifies applier
    ensures r == Recover(buffer) && applier.View() == r.state
    ensures file == Kept(buffer)
  {
    hide ParseHead, StepPayload, IsTable;
    var offset, applied := 0, 0;
    var truncated, corrupt, unknown := false, false, false;
    assert buffer[0..] == buffer;
    while offset < |buffer|
      invariant 0 <= offset <= |buffer|
      invariant !truncated && !corrupt && !unknown
      invariant var rest := Replayed(buffer[offset..], applier.View());
                Recover(buffer) == rest.(applied := rest.applied + applied, consumed := rest.consumed + offset)
    {
      var parsed, next := ParseRecord(table, buffer, offset);
      if parsed == Incomplete {
        truncated := true;
        break;
      }
      if parsed == Corrupt {
        truncated, corrupt := true, true;
        break;
      }
      var ok := applier.ApplyPayload(parsed.payload);
      if !ok {
        unknown := true;
        break;
      }
      assert buffer[offset..][HEADER_BYTES + |parsed.payload|..] == buffer[next..];
      applied := applied + 1;
      offset := next;
    }
    r := Result(State(applier.kv, applier.insideTransaction, applier.openTxnId, applier.pending),
                applied, offset, truncated, corrupt, unknown);
    file := buffer;
    if truncated || unknown {
      file := buffer[..offset];
    }
    assert buffer[..|buffer|] == buffer;
  }
}
