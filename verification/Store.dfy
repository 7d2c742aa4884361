/** The store of one process: write-ahead log, map, compaction, transactions. Calls do not overlap here. */
module Store {
  import opened Bytes
  import opened Protocol
  import opened Record
  import opened Kv
  import opened Replay
  import opened Recovery
  import opened Storage

  // ----- Compaction.

  function SetOps(entries: seq<(Key, Value)>): (ops: seq<Op>)
    ensures |ops| == |entries|
  {
    seq(|entries|, i requires 0 <= i < |entries| => SetOp(entries[i].0, entries[i].1))
  }

  lemma ListsInit(entries: seq<(Key, Value)>, m: KV)
    requires entries != [] && Lists(entries, m)
    ensures Lists(entries[..|entries| - 1], m - {entries[|entries| - 1].0})
  {
    var init, last := entries[..|entries| - 1], entries[|entries| - 1];
    forall k | k in m - {last.0} ensures Listed(init, k) {
      assert Listed(entries, k);
      var i :| 0 <= i < |entries| && entries[i].0 == k;
      assert init[i].0 == k;
    }
  }

  /** The map made by setting the listed entries, in whatever order they come, is the map listed. */
  lemma {:induction false} ListingReplays(entries: seq<(Key, Value)>, m: KV)
    requires Lists(entries, m)
    ensures ApplyOps(map[], SetOps(entries)) == m
    decreases |entries|
  {
    hide ApplyOps, ApplyAll;
    var ops := SetOps(entries);
    if entries == [] {
      assert forall k | k in m :: Listed(entries, k);
      assert m == map[];
      NoOps(map[]);
    } else {
      var init, last := entries[..|entries| - 1], entries[|entries| - 1];
      var rest := m - {last.0};
      ListsInit(entries, m);
      ListingReplays(init, rest);
      assert ops[..|ops| - 1] == SetOps(init);
      StepOps(map[], ops);
      ApplyOne(rest, Put(last.0, last.1));
      assert rest[last.0 := last.1] == m;
    }
  }

  const TEMP_SUFFIX: string := ".compact"

  /** Whatever instant a crash picks, the log is the old one or the new one. */
  ghost predicate OldOrNew(history: seq<Bytes>, start: nat, older: Bytes, newer: Bytes)
  {
    forall i | start <= i < |history| :: history[i] == older || history[i] == newer
  }

  method Rewrite(disk: Disk, path: Path, entries: seq<(Key, Value)>) returns (ok: bool)
    requires path in disk.files && path == disk.watched
    modifies disk
    ensures path in disk.files
    ensures disk.files[path] == if ok then LogBytes(SetOps(entries)) else old(disk.files)[path]
    ensures old(disk.failures) <= disk.failures && (ok <==> disk.failures == old(disk.failures))
    ensures old(disk.history) <= disk.history
    ensures OldOrNew(disk.history, |old(disk.history)|, old(disk.files)[path], LogBytes(SetOps(entries)))
  {
    hide LogBytes, OpBytes;
    ghost var older, newer := disk.files[path], LogBytes(SetOps(entries));
    ghost var start := |disk.history|;
    var temp := path + TEMP_SUFFIX;
    assert |temp| == |path| + 8;
    var created := disk.Attempt();
    if !created {
      return false;
    }
    disk.Create(temp);
    var written := WriteEntries(disk, path, temp, entries);
    assert OldOrNew(disk.history, start, older, newer);
    var synced := true;
    if written {
      synced := disk.Attempt();
    }
    if !written || !synced {
      disk.Unlink(temp);
      return false;
    }
    ok := disk.Rename(temp, path);
    assert OldOrNew(disk.history, start, older, newer);
    if !ok {
      disk.Unlink(temp);
    }
  }

  /** Writes the entries to the temporary file; the log itself is not touched. */
  method WriteEntries(disk: Disk, ghost path: Path, temp: Path, entries: seq<(Key, Value)>) returns (ok: bool)
    requires path in disk.files && temp in disk.files && path != temp && disk.files[temp] == []
    requires path == disk.watched
    modifies disk
    ensures path in disk.files && temp in disk.files
    ensures disk.files[path] == old(disk.files)[path]
    ensures ok ==> disk.files[temp] == LogBytes(SetOps(entries))
    ensures old(disk.failures) <= disk.failures && (ok <==> disk.failures == old(disk.failures))
    ensures old(disk.history) <= disk.history
    ensures forall i | |old(disk.history)| <= i < |disk.history| :: disk.history[i] == old(disk.files)[path]
  {
    hide LogBytes, OpBytes;
    var written := 0;
    EmptyLog();
    assert SetOps(entries)[..0] == [];
    while written < |entries|
      invariant 0 <= written <= |entries|
      invariant path in disk.files && temp in disk.files
      invariant disk.files[path] == old(disk.files)[path]
      invariant disk.files[temp] == LogBytes(SetOps(entries)[..written])
      invariant old(disk.history) <= disk.history && disk.failures == old(disk.failures)
      invariant forall i | |old(disk.history)| <= i < |disk.history| :: disk.history[i] == old(disk.files)[path]
    {
      var op := SetOp(entries[written].0, entries[written].1);
      ok := WriteAll(disk, temp, OpBytes(op));
      if !ok {
        return false;
      }
      ghost var done := SetOps(entries)[..written + 1];
      assert done[..written] == SetOps(entries)[..written] && done[written] == op;
      LogBytesSnoc(done);
      written := written + 1;
    }
    assert SetOps(entries)[..written] == SetOps(entries);
    ok := true;
  }

  // ----- The write-ahead log.

  class WriteAheadLog {
    const disk: Disk
    const path: Path
    var offset: nat

    ghost predicate Valid()
      reads this, disk
    {
      path == disk.watched && path in disk.files && offset == |disk.files[path]|
    }

    ghost function Contents(): Bytes
      reads this, disk
      requires Valid()
    {
      disk.files[path]
    }

    /** Opens the file, creating it if there is none, and appends from its end. */
    constructor (disk: Disk, path: Path)
      requires path == disk.watched
      modifies disk
      ensures this.disk == disk && this.path == path && Valid() && Contents() == old(disk.Seen())
    {
      if path !in disk.files {
        disk.Create(path);
      }
      this.disk, this.path := disk, path;
      offset := |disk.files[path]|;
    }

    /** A failed write leaves part of the batch in the file and the offset where it was. */
    method AppendBatch(payloads: seq<Bytes>) returns (ok: bool, end: nat)
      requires Valid()
      modifies this, disk
      ensures ok ==> Valid() && Contents() == old(Contents()) + Frames(payloads) && end == offset
      ensures !ok ==> offset == old(offset)
      ensures old(disk.failures) <= disk.failures && (ok <==> disk.failures == old(disk.failures))
      ensures old(disk.history) <= disk.history
      ensures forall i | |old(disk.history)| <= i < |disk.history| ::
                Grown(disk.history[i], old(disk.files)[path], Frames(payloads))
    {
      hide Frame;
      if payloads == [] {
        assert Contents() + Frames(payloads) == Contents();
        return true, offset;
      }
      var blob: Bytes := [];
      var i := 0;
      while i < |payloads|
        modifies {}
        invariant 0 <= i <= |payloads|
        invariant blob == Frames(payloads[..i])
      {
        var one := payloads[..i + 1];
        assert one == payloads[..i] + [payloads[i]];
        FramesConcat(payloads[..i], [payloads[i]]);
        OneFrame(payloads[i]);
        blob := blob + Frame(payloads[i]);
        i := i + 1;
      }
      assert payloads[..i] == payloads;
      ok := WriteAll(disk, path, blob);
      if ok {
        offset := offset + |blob|;
      }
      end := offset;
    }

    method TruncateAll()
      requires Valid()
      modifies this, disk
      ensures Valid() && Contents() == []
    {
      disk.Truncate(path, 0);
      offset := 0;
    }

    method ReopenAfterCompaction()
      requires path in disk.files && path == disk.watched
      modifies this
      ensures Valid()
    {
      offset := |disk.files[path]|;
    }
  }

  lemma OneFrame(payload: Bytes)
    ensures Frames([payload]) == Frame(payload)
  {
    var ps: seq<Bytes> := [payload];
    assert ps[1..] == [];
  }

  // ----- The store.

  /** What a crash in the middle of an operation recovers to: the map before it, or the map after. */
  ghost predicate BeforeOrAfter(h: Bytes, before: KV, after: KV)
  {
    Recover(h).state.kv == before || Recover(h).state.kv == after
  }

  ghost predicate CutOf(file: Bytes, written: seq<Op>, cut: nat)
  {
    Loggable(written) && cut <= |LogBytes(written)| && file == LogBytes(written)[..cut]
  }

  /** Replay stops early only at a record it cannot take. */
  lemma {:induction false} AllConsumed(log: Bytes, s: State)
    ensures var r := Replayed(log, s); r.truncated || r.unknown || r.consumed == |log|
    decreases |log|
  {
    hide ParseHead, StepPayload;
    if log != [] && ParseHead(log).Ok? {
      var p := ParseHead(log).payload;
      if StepPayload(s, p).Some? {
        AllConsumed(log[HEADER_BYTES + |p|..], StepPayload(s, p).value);
      }
    }
  }

  class Store {
    const log: WriteAheadLog
    var kv: KV
    var discarded: bool
    ghost var base: Bytes      // what recovery kept of the log found at start
    ghost var ops: seq<Op>     // what has been logged since

    ghost predicate Valid()
      reads this, log, log.disk
    {
      && log.Valid()
      && log.Contents() == base + LogBytes(ops)
      && Recover(base).consumed == |base|
      && discarded == Recover(base).state.inside
      && (!discarded ==> Settled(Recover(base).state))
      && kv == ApplyOps(Recover(base).state.kv, ops)
    }

    /** The log can be replayed to the map: no transaction was discarded and no record is oversized. */
    ghost predicate Durable()
      reads this
    {
      !discarded && Loggable(ops)
    }

    /** Start on any file, or on none; of a run's log cut anywhere, with the operations wholly written. */
    constructor (disk: Disk, path: Path)
      requires path == disk.watched
      modifies disk
      ensures log.disk == disk && log.path == path && Valid() && ops == [] && base == Kept(old(disk.Seen()))
      ensures kv == Recover(old(disk.Seen())).state.kv && discarded == Recover(old(disk.Seen())).state.inside
      ensures forall written, cut | CutOf(old(disk.Seen()), written, cut) ::
                && kv == ApplyOps(map[], written[..WholeOps(written, cut)])
                && (discarded <==> |LogBytes(written[..WholeOps(written, cut)])| < |base|)
    {
      hide LogBytes, Replayed, WholeOps, Loggable, ApplyOps;
      ghost var found := disk.Seen();
      var file := if path in disk.files then disk.files[path] else [];
      var r := Recover(file);
      ReplaySettles(file, EMPTY);
      RecoveryIsIdempotent(file);
      if r.truncated || r.unknown {
        assert path in disk.files by { RecoverNothing(); }
        disk.Truncate(path, r.consumed);
      } else {
        AllConsumed(file, EMPTY);
        assert file[..r.consumed] == file;
      }
      log := new WriteAheadLog(disk, path);
      kv, discarded := r.state.kv, r.state.inside;
      base, ops := Kept(file), [];
      new;
      EmptyLog();
      assert base + LogBytes(ops) == base;
      NoOps(kv);
      forall written, cut | CutOf(found, written, cut)
        ensures kv == ApplyOps(map[], written[..WholeOps(written, cut)])
        ensures discarded <==> |LogBytes(written[..WholeOps(written, cut)])| < |base|
      {
        CrashRecovery(written, cut);
      }
    }

    lemma DurableMeansRecoverable()
      requires Valid() && Durable()
      ensures Recover(log.Contents()).state.kv == kv
    {
      hide LogBytes, Replayed, Loggable, ApplyOps;
      assert Kept(base) == base;
      WritesAfterCleanRecoveryAreKept(base, ops);
    }

    /** Appends one operation to the log, then applies it: `set`, `del` and `commitTransaction` are instances. */
    method Perform(op: Op) returns (ok: bool)
      requires Valid()
      modifies this, log, log.disk
      ensures ok ==> Valid() && ops == old(ops) + [op] && base == old(base) && kv == ApplyOp(old(kv), op)
      ensures !ok ==> kv == old(kv) && base == old(base) && ops == old(ops)
      ensures old(log.disk.failures) <= log.disk.failures && (ok <==> log.disk.failures == old(log.disk.failures))
      ensures discarded == old(discarded)
      ensures old(log.disk.history) <= log.disk.history
      ensures old(Durable()) && LoggableOp(op) ==>
                forall i | |old(log.disk.history)| <= i < |log.disk.history| ::
                  BeforeOrAfter(log.disk.history[i], old(kv), ApplyOp(old(kv), op))
    {
      hide LogBytes, Frames, Replayed, Loggable, LoggableOp, ApplyOps, ApplyOp, OpEntries, Payloads, BeforeOrAfter;
      ghost var all := ops + [op];
      assert all[..|all| - 1] == ops;
      LogBytesSnoc(all);
      ghost var end: nat;
      ok, end := log.AppendBatch(Payloads(OpEntries(op)));
      forall i | |old(log.disk.history)| <= i < |log.disk.history| && old(Durable()) && LoggableOp(op)
        ensures BeforeOrAfter(log.disk.history[i], old(kv), ApplyOp(old(kv), op))
      {
        GrownIsCut(log.disk.history[i], base, ops, op);
      }
      if ok {
        kv := ApplyOp(kv, op);
        ops := all;
        StepOps(Recover(base).state.kv, all);
      }
    }

    method Set(key: Key, value: Value) returns (ok: bool)
      requires Valid()
      modifies this, log, log.disk
      ensures ok ==> Valid() && kv == old(kv)[key := value] && discarded == old(discarded)
      ensures ok ==> base == old(base) && ops == old(ops) + [SetOp(key, value)]
      ensures !ok ==> kv == old(kv)
      ensures old(log.disk.failures) <= log.disk.failures && (ok <==> log.disk.failures == old(log.disk.failures))
    {
      ok := Perform(SetOp(key, value));
      ApplyOne(old(kv), Put(key, value));
    }

    method Del(key: Key) returns (ok: bool, removed: bool)
      requires Valid()
      modifies this, log, log.disk
      ensures ok ==> Valid() && kv == old(kv) - {key} && discarded == old(discarded)
      ensures ok ==> base == old(base) && ops == old(ops) + [DelOp(key)]
      ensures ok ==> removed == (key in old(kv))
      ensures !ok ==> kv == old(kv)
      ensures old(log.disk.failures) <= log.disk.failures && (ok <==> log.disk.failures == old(log.disk.failures))
    {
      removed := key in kv;
      ok := Perform(DelOp(key));
      ApplyOne(old(kv), Erase(key));
    }

    /** An empty transaction commits without touching the log. */
    method CommitTransaction(id: TxnId, mutations: seq<Mutation>) returns (ok: bool)
      requires Valid()
      modifies this, log, log.disk
      ensures ok ==> Valid() && kv == ApplyAll(old(kv), mutations) && discarded == old(discarded)
      ensures ok ==> base == old(base) && ops == old(ops) + (if mutations == [] then [] else [TxnOp(id, mutations)])
      ensures !ok ==> kv == old(kv)
      ensures old(log.disk.failures) <= log.disk.failures && (ok <==> log.disk.failures == old(log.disk.failures))
    {
      if mutations == [] {
        return true;
      }
      ok := Perform(TxnOp(id, mutations));
    }

    /** At every instant of it the log recovers to the map; afterwards it does so even if it did not before. */
    method Compact() returns (ok: bool)
      requires Valid()
      modifies this, log, log.disk
      ensures Valid() && kv == old(kv)
      ensures ok ==> !discarded && base == [] && ApplyOps(map[], ops) == kv
      ensures ok && Loggable(old(ops)) ==> Durable()
      ensures !ok ==> base == old(base) && ops == old(ops) && discarded == old(discarded)
      ensures old(log.disk.failures) <= log.disk.failures && (ok <==> log.disk.failures == old(log.disk.failures))
      ensures old(log.disk.history) <= log.disk.history
      ensures old(Durable()) ==>
                forall i | |old(log.disk.history)| <= i < |log.disk.history| ::
                  BeforeOrAfter(log.disk.history[i], kv, kv)
    {
      hide LogBytes, Replayed, Loggable, LoggableOp, ApplyOps, SmallMap, Lists;
      var disk, path := log.disk, log.path;
      var entries := Listing(kv);
      ListingReplays(entries, kv);
      if Loggable(ops) {
        SmallAfter(base, ops);
        SnapshotLoggable(entries, kv);
        RecoverListing(entries, kv);
      }
      if Durable() {
        DurableMeansRecoverable();
      }
      ghost var start := |disk.history|;
      ok := Rewrite(disk, path, entries);
      assert OldOrNew(disk.history, start, base + LogBytes(ops), LogBytes(SetOps(entries)));
      if ok {
        log.ReopenAfterCompaction();
        base, ops, discarded := [], SetOps(entries), false;
        RecoverNothing();
        assert base + LogBytes(ops) == LogBytes(ops);
      }
    }

    method ResetForFullResync()
      requires Valid()
      modifies this, log, log.disk
      ensures Valid() && kv == map[] && base == [] && ops == [] && !discarded && log.Contents() == []
    {
      hide LogBytes, Replayed;
      kv := map[];
      log.TruncateAll();
      base, ops, discarded := [], [], false;
      EmptyLog();
      RecoverNothing();
    }
  }

  lemma NoOps(m: KV)
    ensures ApplyOps(m, []) == m
  {
  }

  lemma StepOps(m: KV, ops: seq<Op>)
    requires ops != []
    ensures ApplyOps(m, ops) == ApplyOp(ApplyOps(m, ops[..|ops| - 1]), ops[|ops| - 1])
  {
  }

  /** A log caught while one operation is being appended recovers to the map before it or after it. */
  lemma GrownIsCut(h: Bytes, base: Bytes, ops: seq<Op>, op: Op)
    requires Grown(h, base + LogBytes(ops), OpBytes(op))
    requires Recover(base).consumed == |base| && Settled(Recover(base).state)
    requires Loggable(ops) && LoggableOp(op)
    ensures var m := ApplyOps(Recover(base).state.kv, ops);
            BeforeOrAfter(h, m, ApplyOp(m, op))
  {
    hide LogBytes, OpBytes, Replayed, LoggableOp, ApplyOps, ApplyOp;
    var j :| 0 <= j <= |OpBytes(op)| && h == base + LogBytes(ops) + OpBytes(op)[..j];
    var all := ops + [op];
    assert all[..|all| - 1] == ops;
    LogBytesSnoc(all);
    var n := |LogBytes(ops)| + j;
    var cut := LogBytes(all)[..n];
    assert LogBytes(ops) + OpBytes(op)[..j] == cut;
    assert h == base + cut;
    ReplayExtended(base, EMPTY, cut);
    CrashReplay(Recover(base).state, all, n);
    WholeOpsAll(ops, n);
    assert all[..|all|] == all && all[..|ops|] == ops;
    assert WholeOps(all, n) == |all| || WholeOps(all, n) == |ops|;
    StepOps(Recover(base).state.kv, all);
  }

  // ----- Entries never grow: a map built from readable records can be written again.

  predicate Small(key: Key, value: Value) { |Encode(Set(key, value))| <= MAX_PAYLOAD_BYTES }

  ghost predicate SmallMap(m: KV) { forall k <- m :: Small(k, m[k]) }

  ghost predicate SmallMutations(mus: seq<Mutation>) { forall mu <- mus :: mu.Put? ==> Small(mu.key, mu.value) }

  lemma {:induction false} ApplyAllSmall(m: KV, mus: seq<Mutation>)
    requires SmallMap(m) && SmallMutations(mus)
    ensures SmallMap(ApplyAll(m, mus))
  {
    hide Small;
    if mus != [] {
      ApplyAllSmall(m, mus[..|mus| - 1]);
      assert mus[|mus| - 1] in mus;
    }
  }

  lemma OpSmall(op: Op)
    requires LoggableOp(op)
    ensures SmallMutations(OpMutations(op))
  {
    hide Encode;
    var es := OpEntries(op);
    forall mu <- OpMutations(op) ensures mu.Put? ==> Small(mu.key, mu.value) {
      if mu.Put? {
        var e := MutationEntry(mu);
        assert e in es by {
          if op.TxnOp? {
            var i :| 0 <= i < |op.mutations| && op.mutations[i] == mu;
            assert es[1 + i] == MutationEntries(op.mutations)[i] == e;
          }
        }
        var j :| 0 <= j < |es| && es[j] == e;
        assert Payloads(es)[j] == Encode(e) && Payloads(es)[j] in Payloads(es);
      }
    }
  }

  lemma {:induction false} ApplyOpsSmall(m: KV, ops: seq<Op>)
    requires SmallMap(m) && Loggable(ops)
    ensures SmallMap(ApplyOps(m, ops))
  {
    hide SmallMap, SmallMutations, LoggableOp, OpMutations;
    if ops != [] {
      ApplyOpsSmall(m, ops[..|ops| - 1]);
      OpSmall(ops[|ops| - 1]);
      ApplyAllSmall(ApplyOps(m, ops[..|ops| - 1]), OpMutations(ops[|ops| - 1]));
    }
  }

  lemma StepSmall(s: State, payload: Bytes)
    requires SmallMap(s.kv) && SmallMutations(s.pending) && |payload| <= MAX_PAYLOAD_BYTES
    requires StepPayload(s, payload).Some?
    ensures var t := StepPayload(s, payload).value; SmallMap(t.kv) && SmallMutations(t.pending)
  {
    hide Encode, Decode;
    var e := Decode(payload).value;
    DecodeExact(payload, e);
    if e.Commit? {
      ApplyAllSmall(s.kv, s.pending);
    }
  }

  lemma {:induction false} ReplaySmall(log: Bytes, s: State)
    requires SmallMap(s.kv) && SmallMutations(s.pending)
    ensures var t := Replayed(log, s).state; SmallMap(t.kv) && SmallMutations(t.pending)
    decreases |log|
  {
    hide ParseHead, StepPayload, SmallMap, SmallMutations;
    if log != [] && ParseHead(log).Ok? && StepPayload(s, ParseHead(log).payload).Some? {
      var p := ParseHead(log).payload;
      StepSmall(s, p);
      ReplaySmall(log[HEADER_BYTES + |p|..], StepPayload(s, p).value);
    }
  }

  lemma SmallAfter(base: Bytes, ops: seq<Op>)
    requires Loggable(ops)
    ensures SmallMap(ApplyOps(Recover(base).state.kv, ops))
  {
    hide Replayed, Loggable, ApplyOps;
    ReplaySmall(base, EMPTY);
    ApplyOpsSmall(Recover(base).state.kv, ops);
  }

  lemma SnapshotLoggable(entries: seq<(Key, Value)>, m: KV)
    requires Lists(entries, m) && SmallMap(m)
    ensures Loggable(SetOps(entries))
  {
    hide Encode;
    forall op <- SetOps(entries) ensures LoggableOp(op) {
      var i :| 0 <= i < |entries| && SetOps(entries)[i] == op;
      assert Payloads(OpEntries(op)) == [Encode(Set(op.key, op.value))];
      assert Small(op.key, m[op.key]);
    }
  }

  lemma RecoverListing(entries: seq<(Key, Value)>, m: KV)
    requires Lists(entries, m) && Loggable(SetOps(entries))
    ensures Recover(LogBytes(SetOps(entries))).state.kv == m
  {
    hide Replayed, Loggable, LogBytes, ApplyOps, WholeOps, Lists;
    var ops := SetOps(entries);
    ListingReplays(entries, m);
    CrashRecovery(ops, |LogBytes(ops)|);
    WholeOpsAll(ops, |LogBytes(ops)|);
    assert ops[..|ops|] == ops && LogBytes(ops)[..|LogBytes(ops)|] == LogBytes(ops);
  }

  // ----- Transactions buffered by a client.

  class Transaction {
    const store: Store
    const id: TxnId
    var mutations: seq<Mutation>
    var latest: map<Key, nat>
    var active: bool

    /** `latest` indexes the last mutation of every key mentioned. */
    ghost predicate Valid()
      reads this
    {
      && (forall i | 0 <= i < |mutations| :: mutations[i].key in latest && i <= latest[mutations[i].key])
      && (forall k <- latest :: latest[k] < |mutations| && mutations[latest[k]].key == k)
    }

    constructor (store: Store, id: TxnId)
      ensures this.store == store && this.id == id && active && mutations == [] && Valid()
    {
      this.store, this.id := store, id;
      mutations, latest, active := [], map[], true;
    }

    method Buffer(mu: Mutation)
      requires Valid()
      modifies this
      ensures Valid() && active == old(active)
      ensures mutations == old(mutations) + if active then [mu] else []
    {
      if !active {
        return;
      }
      mutations := mutations + [mu];
      latest := latest[mu.key := |mutations| - 1];
    }

    /** Reading through the index is reading the store with the whole buffer applied in order. */
    method Get(key: Key) returns (r: Option<Value>)
      requires Valid()
      ensures r == Lookup(ApplyAll(store.kv, mutations), key)
    {
      if key in latest {
        var mu := mutations[latest[key]];
        LastWriteWins(store.kv, mutations, latest[key]);
        return if mu.Erase? then None else Some(mu.value);
      }
      ApplyAllOther(store.kv, mutations, key);
      r := Lookup(store.kv, key);
    }

    /** What the buffer showed is what the commit installs. */
    method Commit() returns (ok: bool)
      requires Valid() && store.Valid()
      modifies this, store, store.log, store.log.disk
      ensures Valid()
      ensures ok ==> old(active) && !active && mutations == [] && store.Valid()
      ensures ok ==> store.kv == ApplyAll(old(store.kv), old(mutations))
      ensures !ok ==> store.kv == old(store.kv) && mutations == old(mutations) && active == old(active)
      ensures ok <==> old(active) && store.log.disk.failures == old(store.log.disk.failures)
    {
      hide LogBytes, Replayed, ApplyOps, ApplyAll;
      if !active {
        return false;
      }
      ok := store.CommitTransaction(id, mutations);
      if !ok {
        return false;
      }
      active, mutations, latest := false, [], map[];
    }

    method Rollback()
      requires Valid()
      modifies this
      ensures Valid() && !active && mutations == if old(active) then [] else old(mutations)
    {
      if !active {
        return;
      }
      active, mutations, latest := false, [], map[];
    }
  }

  /** The last mutation of a key decides its value. */
  lemma LastWriteWins(m: KV, mus: seq<Mutation>, i: nat)
    requires i < |mus| && forall j | i < j < |mus| :: mus[j].key != mus[i].key
    ensures Lookup(ApplyAll(m, mus), mus[i].key) == if mus[i].Erase? then None else Some(mus[i].value)
  {
    var upto, rest := mus[..i + 1], mus[i + 1..];
    assert mus == upto + rest;
    ApplyAllConcat(m, upto, rest);
    ApplyAllOther(ApplyAll(m, upto), rest, mus[i].key);
  }
}
