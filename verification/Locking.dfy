/**
  What the store's calls do under the epoch lock, the log's mutex, the leader's mutex and the shard locks, and the
  order in which they take them.
 */
module Locking {
  import opened ShardedMap

  datatype Mode = Shared | Exclusive

  /** A shard is its table and its recency list. The log is the object; its file is replaced by compaction. */
  datatype Work =
    | Append                // to the log
    | End                   // reads where the log ends
    | Truncate              // empties the log
    | Reopen                // has the log follow the file that replaced its own
    | Rewrite               // puts a new file in place of the log's
    | Look(shard: nat)
    | Change(shard: nat)
    | Tell                  // lists, reaps, counts or notifies the leader's sessions

  datatype Action = Acquire(lock: nat, mode: Mode) | Release(lock: nat) | Perform(work: Work)

  const EPOCH: nat := 0
  const LOG: nat := 1
  const SESSIONS: nat := 2     // the leader's mutex over its sessions

  function ShardLock(shard: nat): nat { 3 + shard }

  // ----- What each call does, locks aside.

  /** `mutex` is the mode with one mutex for readers and writers; `moves` says that reads update a recency list. */
  datatype Call =
    | Write(logged: bool, shards: seq<nat>, notices: nat)    // set, del, commitTransaction: shards ascending; `onAppend`
                                                             // takes the leader's mutex, again after every wait
    | Read(mutex: bool, moves: bool, shards: seq<nat>)       // get, getMany
    | Scan(mutex: bool, count: nat)                          // size, bytesUsed, snapshot: every shard
    | Compact(mutex: bool, count: nat, replaced: bool, notices: nat)   // reopened and told of only if replaced
    | Reset(count: nat, logged: bool)                        // clear, then empty the log
    | Replicate                                              // appendReplicatedRecords
    | Offset                                                 // reads the log's end
    | Sessions                                               // lists, reaps or counts sessions, notes an acknowledgement

  ghost predicate WellFormed(call: Call)
  {
    (call.Write? || call.Read?) ==> Ascending(call.shards)
  }

  function All(count: nat): (r: seq<nat>)
    ensures Ascending(r) && |r| == count
  {
    seq(count, i => i)
  }

  function Looks(shards: seq<nat>): seq<Work> { seq(|shards|, i requires 0 <= i < |shards| => Look(shards[i])) }

  function Changes(shards: seq<nat>): seq<Work> { seq(|shards|, i requires 0 <= i < |shards| => Change(shards[i])) }

  function Tells(n: nat): seq<Work> { if n == 0 then [] else [Tell] + Tells(n - 1) }

  /** A logged write is appended before it is applied and told of after that; a compaction copies before it rewrites. */
  function WorkOf(call: Call): seq<Work>
  {
    match call
    case Write(logged, shards, notices) =>
      if logged then [Append] + Changes(shards) + Tells(notices) else Changes(shards)
    case Read(_, moves, shards) => if moves then Changes(shards) else Looks(shards)
    case Scan(_, count) => Looks(All(count))
    case Compact(_, count, replaced, notices) =>
      Looks(All(count)) + [Rewrite] + if replaced then [Reopen] + Tells(notices) else []
    case Reset(count, logged) => Changes(All(count)) + if logged then [Truncate] else []
    case Replicate => [Append]
    case Offset => [End]
    case Sessions => [Tell]
  }

  // ----- And with its locks.

  function Doing(works: seq<Work>): seq<Action> { seq(|works|, i requires 0 <= i < |works| => Perform(works[i])) }

  function LockAll(shards: seq<nat>, mode: Mode): seq<Action>
  {
    if shards == [] then [] else [Acquire(ShardLock(shards[0]), mode)] + LockAll(shards[1..], mode)
  }

  function UnlockAll(shards: seq<nat>): seq<Action>
  {
    if shards == [] then [] else [Release(ShardLock(shards[0]))] + UnlockAll(shards[1..])
  }

  function Holding(shards: seq<nat>, mode: Mode, works: seq<Work>): seq<Action>
  {
    LockAll(shards, mode) + Doing(works) + UnlockAll(shards)
  }

  function Using(lock: nat, mode: Mode, inner: seq<Action>): seq<Action>
  {
    [Acquire(lock, mode)] + inner + [Release(lock)]
  }

  function Under(lock: nat, work: Work): seq<Action> { Using(lock, Exclusive, Doing([work])) }

  /** Readers too take a global mutex exclusively, and a shard whose recency list they update. */
  function ReadMode(exclusive: bool): Mode { if exclusive then Exclusive else Shared }

  function Notices(n: nat): seq<Action> { if n == 0 then [] else Under(SESSIONS, Tell) + Notices(n - 1) }

  /** The log's mutex, then the leader's, each given back before the next is asked for. */
  function LogThenSessions(work: Work, replaced: bool, notices: nat): seq<Action>
  {
    if replaced then Under(LOG, work) + Notices(notices) else []
  }

  function Program(call: Call): seq<Action>
  {
    match call
    case Write(logged, shards, notices) =>
      if logged
      then Using(EPOCH, Shared, Under(LOG, Append) + Holding(shards, Exclusive, Changes(shards)) + Notices(notices))
      else Holding(shards, Exclusive, Changes(shards))
    case Read(mutex, moves, shards) =>
      Holding(shards, ReadMode(mutex || moves), if moves then Changes(shards) else Looks(shards))
    case Scan(mutex, count) => Holding(All(count), ReadMode(mutex), Looks(All(count)))
    case Compact(mutex, count, replaced, notices) =>
      Using(EPOCH, Exclusive,
            Holding(All(count), ReadMode(mutex), Looks(All(count)))
            + (Doing([Rewrite]) + LogThenSessions(Reopen, replaced, notices)))
    case Reset(count, logged) =>
      Using(EPOCH, Exclusive,
            Holding(All(count), Exclusive, Changes(All(count))) + LogThenSessions(Truncate, logged, 0))
    case Replicate => Using(EPOCH, Shared, Under(LOG, Append))
    case Offset => Under(LOG, End)
    case Sessions => Under(SESSIONS, Tell)
  }

  // ----- The locks do not change what is done.

  function Works(actions: seq<Action>): seq<Work>
  {
    if actions == [] then []
    else (if actions[0].Perform? then [actions[0].work] else []) + Works(actions[1..])
  }

  lemma {:induction false} WorksConcat(a: seq<Action>, b: seq<Action>)
    ensures Works(a + b) == Works(a) + Works(b)
    decreases |a|
  {
    if a == [] {
      assert a + b == b;
    } else {
      assert (a + b)[1..] == a[1..] + b;
      WorksConcat(a[1..], b);
    }
  }

  lemma {:induction false} WorksDoing(works: seq<Work>)
    ensures Works(Doing(works)) == works
    decreases |works|
  {
    if works != [] {
      assert Doing(works)[1..] == Doing(works[1..]);
      WorksDoing(works[1..]);
    }
  }

  lemma {:induction false} WorksLocks(shards: seq<nat>, mode: Mode)
    ensures Works(LockAll(shards, mode)) == [] && Works(UnlockAll(shards)) == []
    decreases |shards|
  {
    if shards != [] {
      WorksLocks(shards[1..], mode);
    }
  }

  lemma WorksHolding(shards: seq<nat>, mode: Mode, works: seq<Work>)
    ensures Works(Holding(shards, mode, works)) == works
  {
    hide Works;
    WorksLocks(shards, mode);
    WorksDoing(works);
    WorksConcat(LockAll(shards, mode), Doing(works));
    WorksConcat(LockAll(shards, mode) + Doing(works), UnlockAll(shards));
  }

  lemma WorksUsing(lock: nat, mode: Mode, inner: seq<Action>)
    ensures Works(Using(lock, mode, inner)) == Works(inner)
  {
    var first: seq<Action>, last: seq<Action> := [Acquire(lock, mode)], [Release(lock)];
    assert first[1..] == [] && last[1..] == [];
    assert Works(first) == Works(first[1..]) && Works(last) == Works(last[1..]);
    WorksConcat(first, inner);
    WorksConcat(first + inner, last);
  }

  lemma WorksUnder(lock: nat, work: Work)
    ensures Works(Under(lock, work)) == [work]
  {
    hide Works, Using, Doing;
    WorksUsing(lock, Exclusive, Doing([work]));
    WorksDoing([work]);
  }

  lemma {:induction false} WorksNotices(n: nat)
    ensures Works(Notices(n)) == Tells(n)
  {
    if n > 0 {
      hide Works, Under;
      WorksNotices(n - 1);
      WorksUnder(SESSIONS, Tell);
      WorksConcat(Under(SESSIONS, Tell), Notices(n - 1));
    }
  }

  lemma WorksLogThenSessions(work: Work, replaced: bool, notices: nat)
    ensures Works(LogThenSessions(work, replaced, notices)) == if replaced then [work] + Tells(notices) else []
  {
    hide Under, Notices;
    WorksUnder(LOG, work);
    WorksNotices(notices);
    WorksConcat(Under(LOG, work), Notices(notices));
  }

  /** Without its locks the program of a call is the work of the call, in order. */
  lemma ProgramDoes(call: Call)
    ensures Works(Program(call)) == WorkOf(call)
  {
    hide Works, Using, Under, Holding, Notices, LogThenSessions, Doing, Looks, Changes, Tells, All;
    match call
    case Write(logged, shards, notices) =>
      var log, table := Under(LOG, Append), Holding(shards, Exclusive, Changes(shards));
      WorksHolding(shards, Exclusive, Changes(shards));
      WorksUnder(LOG, Append);
      WorksNotices(notices);
      WorksConcat(log, table);
      WorksConcat(log + table, Notices(notices));
      WorksUsing(EPOCH, Shared, log + table + Notices(notices));
    case Read(mutex, moves, shards) =>
      WorksHolding(shards, ReadMode(mutex || moves), if moves then Changes(shards) else Looks(shards));
    case Scan(mutex, count) => WorksHolding(All(count), ReadMode(mutex), Looks(All(count)));
    case Compact(mutex, count, replaced, notices) => CompactDoes(mutex, count, replaced, notices);
    case Reset(count, logged) =>
      var table, log := Holding(All(count), Exclusive, Changes(All(count))), LogThenSessions(Truncate, logged, 0);
      WorksHolding(All(count), Exclusive, Changes(All(count)));
      WorksLogThenSessions(Truncate, logged, 0);
      assert Tells(0) == [] by { NoTells(); }
      assert [Truncate] + [] == [Truncate];
      WorksConcat(table, log);
      WorksUsing(EPOCH, Exclusive, table + log);
    case Replicate =>
      WorksUnder(LOG, Append);
      WorksUsing(EPOCH, Shared, Under(LOG, Append));
    case Offset => WorksUnder(LOG, End);
    case Sessions => WorksUnder(SESSIONS, Tell);
  }

  lemma NoTells()
    ensures Tells(0) == []
  {
  }

  lemma CompactDoes(mutex: bool, count: nat, replaced: bool, notices: nat)
    ensures Works(Program(Compact(mutex, count, replaced, notices))) == WorkOf(Compact(mutex, count, replaced, notices))
  {
    hide Works, Using, Under, Holding, Notices, LogThenSessions, Doing, Looks, Changes, Tells, All;
    var looks := Looks(All(count));
    var table, log := Holding(All(count), ReadMode(mutex), looks), LogThenSessions(Reopen, replaced, notices);
    WorksHolding(All(count), ReadMode(mutex), looks);
    WorksDoing([Rewrite]);
    WorksLogThenSessions(Reopen, replaced, notices);
    WorksConcat(Doing([Rewrite]), log);
    WorksConcat(table, Doing([Rewrite]) + log);
    WorksUsing(EPOCH, Exclusive, table + (Doing([Rewrite]) + log));
    var rest := if replaced then [Reopen] + Tells(notices) else [];
    assert looks + ([Rewrite] + rest) == looks + [Rewrite] + rest;
  }

  // ----- The discipline: a lock is asked for only above all those held, work is done under its lock, and in the end
  // no lock is held.

  type Held = map<nat, Mode>

  /** The locks that protect a piece of work. */
  ghost predicate Guards(held: Held, work: Work)
  {
    match work
    case Append => EPOCH in held && LOG in held && held[LOG] == Exclusive
    case End => LOG in held && held[LOG] == Exclusive
    case Truncate => EPOCH in held && held[EPOCH] == Exclusive && LOG in held && held[LOG] == Exclusive
    case Reopen => EPOCH in held && held[EPOCH] == Exclusive && LOG in held && held[LOG] == Exclusive
    case Rewrite => EPOCH in held && held[EPOCH] == Exclusive
    case Look(x) => ShardLock(x) in held
    case Change(x) => ShardLock(x) in held && held[ShardLock(x)] == Exclusive
    case Tell => SESSIONS in held && held[SESSIONS] == Exclusive
  }

  ghost predicate Allowed(held: Held, action: Action)
  {
    match action
    case Acquire(lock, _) => forall h <- held :: h < lock
    case Release(lock) => lock in held
    case Perform(work) => Guards(held, work)
  }

  ghost function Next(held: Held, action: Action): Held
  {
    match action
    case Acquire(lock, mode) => held[lock := mode]
    case Release(lock) => held - {lock}
    case Perform(_) => held
  }

  ghost predicate Ordered(held: Held, actions: seq<Action>, left: Held)
    decreases |actions|
  {
    if actions == [] then held == left
    else Allowed(held, actions[0]) && Ordered(Next(held, actions[0]), actions[1..], left)
  }

  lemma {:induction false} OrderedConcat(held: Held, a: seq<Action>, middle: Held, b: seq<Action>, left: Held)
    requires Ordered(held, a, middle) && Ordered(middle, b, left)
    ensures Ordered(held, a + b, left)
    decreases |a|
  {
    if a == [] {
      assert a + b == b;
    } else {
      hide Allowed, Next;
      assert (a + b)[1..] == a[1..] + b;
      OrderedConcat(Next(held, a[0]), a[1..], middle, b, left);
    }
  }

  /** Some locks on top of those held. */
  ghost function Plus(held: Held, locks: set<nat>, mode: Mode): Held
  {
    map x | x in held.Keys + locks :: if x in locks then mode else held[x]
  }

  ghost function With(held: Held, shards: seq<nat>, mode: Mode): Held { Plus(held, Locks(shards), mode) }

  function Locks(shards: seq<nat>): set<nat> { set i | 0 <= i < |shards| :: ShardLock(shards[i]) }

  ghost predicate Below(held: Held, shards: seq<nat>)
  {
    forall h, i | h in held && 0 <= i < |shards| :: h < ShardLock(shards[i])
  }

  lemma LocksHead(shards: seq<nat>)
    requires shards != [] && Ascending(shards)
    ensures Locks(shards) == {ShardLock(shards[0])} + Locks(shards[1..]) && ShardLock(shards[0]) !in Locks(shards[1..])
  {
    forall x | x in Locks(shards) ensures x in {ShardLock(shards[0])} + Locks(shards[1..]) {
      var i :| 0 <= i < |shards| && ShardLock(shards[i]) == x;
      if i > 0 {
        assert shards[1..][i - 1] == shards[i];
      }
    }
  }

  lemma WithHead(held: Held, shards: seq<nat>, mode: Mode)
    requires shards != [] && Ascending(shards) && Below(held, shards)
    ensures var lock := ShardLock(shards[0]);
            && With(held[lock := mode], shards[1..], mode) == With(held, shards, mode)
            && With(held, shards, mode) - {lock} == With(held, shards[1..], mode)
            && lock in With(held, shards, mode)
  {
    hide Locks, Plus;
    LocksHead(shards);
    PlusOne(held, ShardLock(shards[0]), Locks(shards[1..]), mode);
  }

  lemma PlusOne(held: Held, lock: nat, locks: set<nat>, mode: Mode)
    requires lock !in held && lock !in locks
    ensures Plus(held[lock := mode], locks, mode) == Plus(held, {lock} + locks, mode)
    ensures Plus(held, {lock} + locks, mode) - {lock} == Plus(held, locks, mode)
    ensures lock in Plus(held, {lock} + locks, mode)
  {
  }

  lemma WithNone(held: Held, mode: Mode)
    ensures With(held, [], mode) == held
  {
  }

  lemma OrderedFirst(held: Held, action: Action, rest: seq<Action>, left: Held)
    requires Allowed(held, action) && Ordered(Next(held, action), rest, left)
    ensures Ordered(held, [action] + rest, left)
  {
    hide Allowed, Next;
    assert ([action] + rest)[1..] == rest;
  }

  lemma BelowRest(held: Held, shards: seq<nat>, mode: Mode)
    requires shards != [] && Ascending(shards) && Below(held, shards)
    ensures Ascending(shards[1..]) && Below(held, shards[1..])
    ensures Below(held[ShardLock(shards[0]) := mode], shards[1..]) && forall h <- held :: h < ShardLock(shards[0])
  {
  }

  lemma {:induction false} LockAllOrdered(held: Held, shards: seq<nat>, mode: Mode)
    requires Ascending(shards) && Below(held, shards)
    ensures Ordered(held, LockAll(shards, mode), With(held, shards, mode))
    decreases |shards|
  {
    hide With, Ordered, Below, Ascending;
    if shards == [] {
      WithNone(held, mode);
      assert Ordered(held, [], held) by { NothingOrdered(held); }
    } else {
      BelowRest(held, shards, mode);
      WithHead(held, shards, mode);
      var lock := ShardLock(shards[0]);
      LockAllOrdered(held[lock := mode], shards[1..], mode);
      OrderedFirst(held, Acquire(lock, mode), LockAll(shards[1..], mode), With(held, shards, mode));
    }
  }

  lemma NothingOrdered(held: Held)
    ensures Ordered(held, [], held)
  {
  }

  lemma {:induction false} UnlockAllOrdered(held: Held, shards: seq<nat>, mode: Mode)
    requires Ascending(shards) && Below(held, shards)
    ensures Ordered(With(held, shards, mode), UnlockAll(shards), held)
    decreases |shards|
  {
    hide With, Ordered, Below, Ascending;
    if shards == [] {
      WithNone(held, mode);
      NothingOrdered(held);
    } else {
      BelowRest(held, shards, mode);
      WithHead(held, shards, mode);
      UnlockAllOrdered(held, shards[1..], mode);
      OrderedFirst(With(held, shards, mode), Release(ShardLock(shards[0])), UnlockAll(shards[1..]), held);
    }
  }

  lemma {:induction false} DoingOrdered(held: Held, works: seq<Work>)
    requires forall i | 0 <= i < |works| :: Guards(held, works[i])
    ensures Ordered(held, Doing(works), held)
    decreases |works|
  {
    if works != [] {
      hide Guards;
      assert Doing(works)[1..] == Doing(works[1..]);
      DoingOrdered(held, works[1..]);
    }
  }

  /** Work on shards needs their locks, and exclusive ones to change them. */
  ghost predicate Fits(shards: seq<nat>, mode: Mode, works: seq<Work>)
  {
    works == Looks(shards) || (works == Changes(shards) && mode == Exclusive)
  }

  lemma FitsGuards(held: Held, shards: seq<nat>, mode: Mode, works: seq<Work>)
    requires Fits(shards, mode, works)
    ensures forall i | 0 <= i < |works| :: Guards(With(held, shards, mode), works[i])
  {
    forall i | 0 <= i < |works| ensures Guards(With(held, shards, mode), works[i]) {
      assert ShardLock(shards[i]) in Locks(shards);
    }
  }

  lemma HoldingOrdered(held: Held, shards: seq<nat>, mode: Mode, works: seq<Work>)
    requires Ascending(shards) && Fits(shards, mode, works) && forall h <- held :: h <= LOG
    ensures Ordered(held, Holding(shards, mode, works), held)
  {
    hide Ordered, With, Fits, Guards, Doing, LockAll, UnlockAll;
    assert Below(held, shards);
    var inside := With(held, shards, mode);
    LockAllOrdered(held, shards, mode);
    FitsGuards(held, shards, mode, works);
    DoingOrdered(inside, works);
    UnlockAllOrdered(held, shards, mode);
    OrderedConcat(held, LockAll(shards, mode), inside, Doing(works), inside);
    OrderedConcat(held, LockAll(shards, mode) + Doing(works), inside, UnlockAll(shards), held);
  }

  lemma UsingOrdered(held: Held, lock: nat, mode: Mode, inner: seq<Action>)
    requires (forall h <- held :: h < lock) && Ordered(held[lock := mode], inner, held[lock := mode])
    ensures Ordered(held, Using(lock, mode, inner), held)
  {
    var inside, rest := held[lock := mode], inner + [Release(lock)];
    assert [Release(lock)][1..] == [] && inside - {lock} == held;
    assert Ordered(inside, [Release(lock)], held);
    OrderedConcat(inside, inner, inside, [Release(lock)], held);
    assert Using(lock, mode, inner)[1..] == rest;
  }

  lemma UnderOrdered(held: Held, lock: nat, work: Work)
    requires (forall h <- held :: h < lock) && Guards(held[lock := Exclusive], work)
    ensures Ordered(held, Under(lock, work), held)
  {
    hide Guards, Ordered, Doing;
    DoingOrdered(held[lock := Exclusive], [work]);
    UsingOrdered(held, lock, Exclusive, Doing([work]));
  }

  lemma {:induction false} NoticesOrdered(mode: Mode, n: nat)
    ensures Ordered(map[EPOCH := mode], Notices(n), map[EPOCH := mode])
  {
    if n > 0 {
      hide Under;
      var epoch: Held := map[EPOCH := mode];
      UnderOrdered(epoch, SESSIONS, Tell);
      NoticesOrdered(mode, n - 1);
      OrderedConcat(epoch, Under(SESSIONS, Tell), epoch, Notices(n - 1), epoch);
    }
  }

  lemma LogThenSessionsOrdered(work: Work, replaced: bool, notices: nat)
    requires work.Reopen? || work.Truncate?
    ensures Ordered(map[EPOCH := Exclusive], LogThenSessions(work, replaced, notices), map[EPOCH := Exclusive])
  {
    hide Under, Notices;
    var epoch: Held := map[EPOCH := Exclusive];
    UnderOrdered(epoch, LOG, work);
    NoticesOrdered(Exclusive, notices);
    OrderedConcat(epoch, Under(LOG, work), epoch, Notices(notices), epoch);
  }

  /** Every call of the store and of its leader keeps the discipline and returns every lock. */
  lemma CallOrdered(call: Call)
    requires WellFormed(call)
    ensures Ordered(map[], Program(call), map[])
  {
    hide Ordered, Using, Under, Holding, Ascending, Notices, LogThenSessions, Looks, Changes, Doing;
    var none: Held := map[];
    match call
    case Write(logged, shards, notices) =>
      HoldingOrdered(none, shards, Exclusive, Changes(shards));
      WriteOrdered(shards, notices);
    case Read(mutex, moves, shards) =>
      HoldingOrdered(none, shards, ReadMode(mutex || moves), if moves then Changes(shards) else Looks(shards));
    case Scan(mutex, count) => HoldingOrdered(none, All(count), ReadMode(mutex), Looks(All(count)));
    case Compact(mutex, count, replaced, notices) => CompactOrdered(mutex, count, replaced, notices);
    case Reset(count, logged) => ResetOrdered(count, logged);
    case Replicate =>
      var epoch: Held := map[EPOCH := Shared];
      assert none[EPOCH := Shared] == epoch;
      UnderOrdered(epoch, LOG, Append);
      UsingOrdered(none, EPOCH, Shared, Under(LOG, Append));
    case Offset => UnderOrdered(none, LOG, End);
    case Sessions => UnderOrdered(none, SESSIONS, Tell);
  }

  lemma WriteOrdered(shards: seq<nat>, notices: nat)
    requires Ascending(shards)
    ensures Ordered(map[], Program(Write(true, shards, notices)), map[])
  {
    hide Ordered, Using, Under, Holding, Ascending, Notices, Looks, Changes, Doing;
    var none: Held, epoch: Held := map[], map[EPOCH := Shared];
    assert none[EPOCH := Shared] == epoch;
    var log, table := Under(LOG, Append), Holding(shards, Exclusive, Changes(shards));
    UnderOrdered(epoch, LOG, Append);
    HoldingOrdered(epoch, shards, Exclusive, Changes(shards));
    NoticesOrdered(Shared, notices);
    OrderedConcat(epoch, log, epoch, table, epoch);
    OrderedConcat(epoch, log + table, epoch, Notices(notices), epoch);
    UsingOrdered(none, EPOCH, Shared, log + table + Notices(notices));
  }

  lemma CompactOrdered(mutex: bool, count: nat, replaced: bool, notices: nat)
    ensures Ordered(map[], Program(Compact(mutex, count, replaced, notices)), map[])
  {
    hide Ordered, Using, Under, Holding, Ascending, Notices, LogThenSessions, Looks, Changes, Doing;
    var none: Held, epoch: Held := map[], map[EPOCH := Exclusive];
    assert none[EPOCH := Exclusive] == epoch;
    var table, log := Holding(All(count), ReadMode(mutex), Looks(All(count))), LogThenSessions(Reopen, replaced, notices);
    HoldingOrdered(epoch, All(count), ReadMode(mutex), Looks(All(count)));
    DoingOrdered(epoch, [Rewrite]);
    LogThenSessionsOrdered(Reopen, replaced, notices);
    OrderedConcat(epoch, Doing([Rewrite]), epoch, log, epoch);
    OrderedConcat(epoch, table, epoch, Doing([Rewrite]) + log, epoch);
    UsingOrdered(none, EPOCH, Exclusive, table + (Doing([Rewrite]) + log));
  }

  lemma ResetOrdered(count: nat, logged: bool)
    ensures Ordered(map[], Program(Reset(count, logged)), map[])
  {
    hide Ordered, Using, Under, Holding, Ascending, Notices, LogThenSessions, Looks, Changes, Doing;
    var none: Held, epoch: Held := map[], map[EPOCH := Exclusive];
    assert none[EPOCH := Exclusive] == epoch;
    var table, log := Holding(All(count), Exclusive, Changes(All(count))), LogThenSessions(Truncate, logged, 0);
    HoldingOrdered(epoch, All(count), Exclusive, Changes(All(count)));
    LogThenSessionsOrdered(Truncate, logged, 0);
    OrderedConcat(epoch, table, epoch, log, epoch);
    UsingOrdered(none, EPOCH, Exclusive, table + log);
  }

  // ----- What a call holds on the way.

  ghost function HeldAfter(actions: seq<Action>): Held
  {
    if actions == [] then map[] else Next(HeldAfter(actions[..|actions| - 1]), actions[|actions| - 1])
  }

  /** Where the epoch is neither taken nor given back it stays as it was. */
  ghost predicate NoEpoch(actions: seq<Action>)
  {
    forall i | 0 <= i < |actions| :: actions[i] != Release(EPOCH) && (actions[i].Acquire? ==> actions[i].lock != EPOCH)
  }

  lemma {:induction false} EpochStays(mode: Mode, actions: seq<Action>)
    requires actions != [] && actions[0] == Acquire(EPOCH, mode) && NoEpoch(actions[1..])
    ensures var held := HeldAfter(actions); EPOCH in held && held[EPOCH] == mode
    decreases |actions|
  {
    var init, last := actions[..|actions| - 1], actions[|actions| - 1];
    if |actions| > 1 {
      assert init[1..] == actions[1..][..|actions| - 2];
      EpochStays(mode, init);
      assert last == actions[1..][|actions| - 2];
    } else {
      assert init == [];
    }
  }

  lemma {:induction false} LocksNoEpoch(shards: seq<nat>, mode: Mode)
    ensures NoEpoch(LockAll(shards, mode)) && NoEpoch(UnlockAll(shards))
    decreases |shards|
  {
    if shards != [] {
      LocksNoEpoch(shards[1..], mode);
    }
  }

  lemma NoEpochConcat(a: seq<Action>, b: seq<Action>)
    requires NoEpoch(a) && NoEpoch(b)
    ensures NoEpoch(a + b)
  {
  }

  lemma HoldingNoEpoch(shards: seq<nat>, mode: Mode, works: seq<Work>)
    ensures NoEpoch(Holding(shards, mode, works))
  {
    LocksNoEpoch(shards, mode);
  }

  lemma UnderNoEpoch(lock: nat, work: Work)
    requires lock != EPOCH
    ensures NoEpoch(Under(lock, work))
  {
  }

  lemma {:induction false} NoticesNoEpoch(n: nat)
    ensures NoEpoch(Notices(n))
  {
    if n > 0 {
      hide NoEpoch, Under;
      UnderNoEpoch(SESSIONS, Tell);
      NoticesNoEpoch(n - 1);
      NoEpochConcat(Under(SESSIONS, Tell), Notices(n - 1));
    } else {
      assert NoEpoch([]);
    }
  }

  /** In the middle of a program that uses the epoch the epoch is held. */
  lemma UsingHoldsEpoch(mode: Mode, inner: seq<Action>, pc: nat)
    requires NoEpoch(inner) && 0 < pc < |Using(EPOCH, mode, inner)|
    ensures var held := HeldAfter(Using(EPOCH, mode, inner)[..pc]); EPOCH in held && held[EPOCH] == mode
  {
    var actions := Using(EPOCH, mode, inner)[..pc];
    assert actions[1..] == inner[..pc - 1];
    EpochStays(mode, actions);
  }

  /** The calls that need the epoch, and how. */
  function EpochMode(call: Call): (r: seq<Mode>)
  {
    match call
    case Write(logged, _, _) => if logged then [Shared] else []
    case Replicate => [Shared]
    case Compact(_, _, _, _) => [Exclusive]
    case Reset(_, _) => [Exclusive]
    case _ => []
  }

  lemma CallHoldsEpoch(call: Call, pc: nat)
    requires EpochMode(call) != [] && 0 < pc < |Program(call)|
    ensures var held := HeldAfter(Program(call)[..pc]); EPOCH in held && [held[EPOCH]] == EpochMode(call)
  {
    hide Using, Under, Holding, Notices, LogThenSessions, NoEpoch, Doing, Looks, Changes, HeldAfter;
    UnderNoEpoch(LOG, Append);
    match call
    case Write(_, shards, notices) =>
      var log, table := Under(LOG, Append), Holding(shards, Exclusive, Changes(shards));
      HoldingNoEpoch(shards, Exclusive, Changes(shards));
      NoticesNoEpoch(notices);
      NoEpochConcat(log, table);
      NoEpochConcat(log + table, Notices(notices));
      UsingHoldsEpoch(Shared, log + table + Notices(notices), pc);
    case Compact(mutex, count, replaced, notices) =>
      var table := Holding(All(count), ReadMode(mutex), Looks(All(count)));
      var rest := Doing([Rewrite]) + LogThenSessions(Reopen, replaced, notices);
      HoldingNoEpoch(All(count), ReadMode(mutex), Looks(All(count)));
      LogThenSessionsNoEpoch(Reopen, replaced, notices);
      assert NoEpoch(Doing([Rewrite])) by { DoingNoEpoch([Rewrite]); }
      NoEpochConcat(Doing([Rewrite]), LogThenSessions(Reopen, replaced, notices));
      NoEpochConcat(table, rest);
      UsingHoldsEpoch(Exclusive, table + rest, pc);
    case Reset(count, logged) =>
      var table, rest := Holding(All(count), Exclusive, Changes(All(count))), LogThenSessions(Truncate, logged, 0);
      HoldingNoEpoch(All(count), Exclusive, Changes(All(count)));
      LogThenSessionsNoEpoch(Truncate, logged, 0);
      NoEpochConcat(table, rest);
      UsingHoldsEpoch(Exclusive, table + rest, pc);
    case Replicate => UsingHoldsEpoch(Shared, Under(LOG, Append), pc);
  }

  lemma DoingNoEpoch(works: seq<Work>)
    ensures NoEpoch(Doing(works))
  {
  }

  lemma LogThenSessionsNoEpoch(work: Work, replaced: bool, notices: nat)
    ensures NoEpoch(LogThenSessions(work, replaced, notices))
  {
    hide Under, Notices, NoEpoch;
    UnderNoEpoch(LOG, work);
    NoticesNoEpoch(notices);
    NoEpochConcat(Under(LOG, work), Notices(notices));
    assert NoEpoch([]) by { NoEpochNothing(); }
  }

  lemma NoEpochNothing()
    ensures NoEpoch([])
  {
  }

  /** Only calls that hold the epoch append. */
  lemma AppendsHoldEpoch(call: Call, i: nat)
    requires i < |Program(call)| && Program(call)[i] == Perform(Append)
    ensures EpochMode(call) != []
  {
    hide Program;
    WorkIsDone(Program(call), i);
    ProgramDoes(call);
  }

  lemma {:induction false} WorkIsDone(actions: seq<Action>, i: nat)
    requires i < |actions| && actions[i].Perform?
    ensures actions[i].work in Works(actions)
    decreases |actions|
  {
    if i > 0 {
      assert actions[i] == actions[1..][i - 1];
      WorkIsDone(actions[1..], i - 1);
    }
  }

  // ----- Threads stepping through their calls, in any order the locks allow.

  /** A thread has made `pc` steps of the first of its calls. */
  datatype Thread = Thread(calls: seq<Call>, pc: nat, held: Held)

  predicate Conflict(a: Mode, b: Mode) { a.Exclusive? || b.Exclusive? }

  predicate Busy(th: Thread) { th.calls != [] && th.pc < |Program(th.calls[0])| }

  function Ahead(th: Thread): Action
    requires Busy(th)
  {
    Program(th.calls[0])[th.pc]
  }

  predicate Wants(th: Thread) { Busy(th) && Ahead(th).Acquire? }

  /** A step that a lock may allow; past its last step a call returns. */
  ghost predicate CanStep(s: seq<Thread>, t: nat)
  {
    && t < |s| && s[t].calls != []
    && (Wants(s[t]) ==>
          var lock, mode := Ahead(s[t]).lock, Ahead(s[t]).mode;
          forall u | 0 <= u < |s| && lock in s[u].held :: !Conflict(mode, s[u].held[lock]))
  }

  /** A step that every lock must allow: one may keep readers out while a writer waits. */
  ghost predicate MustStep(s: seq<Thread>, t: nat)
  {
    && CanStep(s, t)
    && (Wants(s[t]) && Ahead(s[t]).mode.Shared? ==>
          forall u | 0 <= u < |s| && Wants(s[u]) :: Ahead(s[u]) != Acquire(Ahead(s[t]).lock, Exclusive))
  }

  ghost function Stepped(th: Thread): Thread
    requires th.calls != []
  {
    if Busy(th) then th.(pc := th.pc + 1, held := Next(th.held, Ahead(th)))
    else th.(calls := th.calls[1..], pc := 0)
  }

  ghost function Do(s: seq<Thread>, t: nat): seq<Thread>
    requires CanStep(s, t)
  {
    s[t := Stepped(s[t])]
  }

  ghost predicate ThreadOk(th: Thread)
  {
    && (forall i | 0 <= i < |th.calls| :: WellFormed(th.calls[i]))
    && if th.calls == [] then th.held == map[]
       else
         var actions := Program(th.calls[0]);
         th.pc <= |actions| && th.held == HeldAfter(actions[..th.pc]) && Ordered(th.held, actions[th.pc..], map[])
  }

  ghost predicate Compatible(s: seq<Thread>)
  {
    forall t, u, lock | 0 <= t < |s| && 0 <= u < |s| && t != u && lock in s[t].held && lock in s[u].held ::
      !Conflict(s[t].held[lock], s[u].held[lock])
  }

  ghost predicate Inv(s: seq<Thread>)
  {
    (forall t | 0 <= t < |s| :: ThreadOk(s[t])) && Compatible(s)
  }

  lemma NewCallOk(calls: seq<Call>)
    requires forall i | 0 <= i < |calls| :: WellFormed(calls[i])
    ensures ThreadOk(Thread(calls, 0, map[]))
  {
    hide Ordered, Program, WellFormed;
    if calls != [] {
      CallOrdered(calls[0]);
      assert Program(calls[0])[..0] == [] && Program(calls[0])[0..] == Program(calls[0]);
    }
  }

  lemma SteppedOk(th: Thread)
    requires ThreadOk(th) && th.calls != []
    ensures ThreadOk(Stepped(th))
  {
    hide Program, WellFormed, Allowed, Next;
    var actions := Program(th.calls[0]);
    if Busy(th) {
      assert actions[th.pc..][0] == actions[th.pc] && actions[th.pc..][1..] == actions[th.pc + 1..];
      assert actions[..th.pc + 1][..th.pc] == actions[..th.pc];
    } else {
      assert actions[th.pc..] == [];
      NewCallOk(th.calls[1..]);
    }
  }

  lemma StepKeeps(s: seq<Thread>, t: nat)
    requires Inv(s) && CanStep(s, t)
    ensures Inv(Do(s, t))
  {
    hide ThreadOk, Program;
    SteppedOk(s[t]);
  }

  // ----- Some thread can always go on.

  lemma {:induction false} Highest(s: seq<Thread>, n: nat) returns (t: nat)
    requires n <= |s| && exists u :: 0 <= u < n && Wants(s[u])
    ensures t < n && Wants(s[t]) && forall u | 0 <= u < n && Wants(s[u]) :: Ahead(s[u]).lock <= Ahead(s[t]).lock
  {
    hide Program;
    if u :| 0 <= u < n - 1 && Wants(s[u]) {
      t := Highest(s, n - 1);
      if Wants(s[n - 1]) && Ahead(s[n - 1]).lock > Ahead(s[t]).lock {
        t := n - 1;
      }
    } else {
      t := n - 1;
    }
  }

  /** Whoever holds a lock and asks for another asks for a higher one. */
  lemma AsksHigher(th: Thread, lock: nat)
    requires ThreadOk(th) && lock in th.held
    ensures Busy(th) && (Wants(th) ==> lock < Ahead(th).lock)
  {
    hide Program, WellFormed, HeldAfter;
    if th.calls != [] && th.pc < |Program(th.calls[0])| {
      assert Program(th.calls[0])[th.pc..][0] == Ahead(th);
    }
  }

  lemma NoneHoldsHighest(s: seq<Thread>, t: nat)
    requires Inv(s) && t < |s| && Wants(s[t])
    requires forall u | 0 <= u < |s| && s[u].calls != [] :: Wants(s[u]) && Ahead(s[u]).lock <= Ahead(s[t]).lock
    ensures forall u | 0 <= u < |s| :: Ahead(s[t]).lock !in s[u].held
  {
    hide ThreadOk, Program;
    forall u | 0 <= u < |s| ensures Ahead(s[t]).lock !in s[u].held {
      if Ahead(s[t]).lock in s[u].held {
        AsksHigher(s[u], Ahead(s[t]).lock);
      }
    }
  }

  lemma SomeoneMustStep(s: seq<Thread>)
    requires Inv(s) && exists t :: 0 <= t < |s| && s[t].calls != []
    ensures exists t :: MustStep(s, t)
  {
    hide ThreadOk, Program;
    if t :| 0 <= t < |s| && s[t].calls != [] && !Wants(s[t]) {
      assert MustStep(s, t);
    } else {
      var any :| 0 <= any < |s| && s[any].calls != [];
      assert Wants(s[any]);
      var t := Highest(s, |s|);
      var lock := Ahead(s[t]).lock;
      NoneHoldsHighest(s, t);
      if w :| 0 <= w < |s| && Wants(s[w]) && Ahead(s[w]) == Acquire(lock, Exclusive) {
        assert MustStep(s, w);
      } else {
        assert MustStep(s, t);
      }
    }
  }

  // ----- Whole runs.

  ghost predicate IsRun(calls: seq<seq<Call>>, run: seq<seq<Thread>>, steps: seq<nat>)
  {
    && |run| == |steps| + 1 && |run[0]| == |calls|
    && (forall t | 0 <= t < |calls| :: run[0][t] == Thread(calls[t], 0, map[]))
    && forall i | 0 <= i < |steps| :: CanStep(run[i], steps[i]) && run[i + 1] == Do(run[i], steps[i])
  }

  ghost predicate AllWellFormed(calls: seq<seq<Call>>)
  {
    forall t, i | 0 <= t < |calls| && 0 <= i < |calls[t]| :: WellFormed(calls[t][i])
  }

  lemma {:induction false} RunKeeps(calls: seq<seq<Call>>, run: seq<seq<Thread>>, steps: seq<nat>, n: nat)
    requires IsRun(calls, run, steps) && n < |run| && AllWellFormed(calls)
    ensures Inv(run[n])
  {
    hide Inv, AllWellFormed, Do, CanStep;
    if n == 0 {
      StartOk(calls, run[0]);
    } else {
      RunKeeps(calls, run, steps, n - 1);
      StepKeeps(run[n - 1], steps[n - 1]);
    }
  }

  lemma StartOk(calls: seq<seq<Call>>, s: seq<Thread>)
    requires AllWellFormed(calls) && |s| == |calls|
    requires forall t | 0 <= t < |calls| :: s[t] == Thread(calls[t], 0, map[])
    ensures Inv(s)
  {
    hide ThreadOk, WellFormed, Program;
    forall t | 0 <= t < |s| ensures ThreadOk(s[t]) {
      NewCallOk(calls[t]);
    }
  }

  /**
    However many threads make whatever calls, as long as one of them has not returned from its calls some
    thread can take its next step, even where waiting writers keep readers out.
   */
  lemma NeverDeadlocked(calls: seq<seq<Call>>, run: seq<seq<Thread>>, steps: seq<nat>, n: nat)
    requires IsRun(calls, run, steps) && n < |run| && AllWellFormed(calls)
    requires exists t :: 0 <= t < |run[n]| && run[n][t].calls != []
    ensures exists t :: MustStep(run[n], t)
  {
    hide Inv, IsRun, AllWellFormed;
    RunKeeps(calls, run, steps, n);
    SomeoneMustStep(run[n]);
  }

  function StepsOf(calls: seq<Call>): nat
  {
    if calls == [] then 0 else |Program(calls[0])| + 1 + StepsOf(calls[1..])
  }

  ghost function Remaining(s: seq<Thread>): int
  {
    if s == [] then 0 else Remaining(s[..|s| - 1]) + StepsOf(s[|s| - 1].calls) - s[|s| - 1].pc
  }

  lemma {:induction false} OneLess(s: seq<Thread>, t: nat, th: Thread)
    requires t < |s| && StepsOf(th.calls) - th.pc == StepsOf(s[t].calls) - s[t].pc - 1
    ensures Remaining(s[t := th]) == Remaining(s) - 1
  {
    hide StepsOf;
    var last := |s| - 1;
    if t < last {
      OneLess(s[..last], t, th);
      assert s[t := th][..last] == s[..last][t := th];
    } else {
      assert s[t := th][..last] == s[..last];
    }
  }

  lemma SteppedLess(th: Thread)
    requires ThreadOk(th) && th.calls != []
    ensures StepsOf(Stepped(th).calls) - Stepped(th).pc == StepsOf(th.calls) - th.pc - 1
  {
    hide Program, Ordered, HeldAfter, WellFormed, Next;
  }

  /** And so, as every step is progress, every schedule ends with all the calls returned. */
  lemma {:induction false} EveryStepIsProgress(calls: seq<seq<Call>>, run: seq<seq<Thread>>, steps: seq<nat>, n: nat)
    requires IsRun(calls, run, steps) && n < |run| && AllWellFormed(calls)
    ensures Remaining(run[n]) + n == Remaining(run[0])
  {
    if n > 0 {
      hide Remaining, StepsOf, AllWellFormed, ThreadOk, Stepped;
      EveryStepIsProgress(calls, run, steps, n - 1);
      RunKeeps(calls, run, steps, n - 1);
      SteppedLess(run[n - 1][steps[n - 1]]);
      OneLess(run[n - 1], steps[n - 1], run[n][steps[n - 1]]);
    }
  }

  // ----- What the locks exclude.

  ghost predicate AboutTo(th: Thread, work: Work) { Busy(th) && Ahead(th) == Perform(work) }

  predicate OnLog(work: Work) { work.Append? || work.End? || work.Truncate? || work.Reopen? }

  /** Work that must not happen at once. */
  predicate Clash(a: Work, b: Work)
  {
    || (OnLog(a) && OnLog(b))
    || (a.Rewrite? && (b.Rewrite? || b.Append? || b.Truncate?))
    || (a.Change? && (b.Change? || b.Look?) && a.shard == b.shard)
    || (a.Tell? && b.Tell?)
  }

  lemma WorkGuarded(th: Thread, work: Work)
    requires ThreadOk(th) && AboutTo(th, work)
    ensures Guards(th.held, work)
  {
    hide Program, WellFormed, HeldAfter, Guards;
    assert Program(th.calls[0])[th.pc..][0] == Ahead(th);
  }

  /** In every state of every run no two threads are about to do work that clashes. */
  lemma WorkExcluded(calls: seq<seq<Call>>, run: seq<seq<Thread>>, steps: seq<nat>, n: nat, t: nat, u: nat,
        a: Work, b: Work)
    requires IsRun(calls, run, steps) && n < |run| && AllWellFormed(calls)
    requires t < |run[n]| && u < |run[n]| && t != u && AboutTo(run[n][t], a) && AboutTo(run[n][u], b)
    ensures !Clash(a, b) && !Clash(b, a)
  {
    hide IsRun, AllWellFormed, AboutTo, ThreadOk;
    RunKeeps(calls, run, steps, n);
    WorkGuarded(run[n][t], a);
    WorkGuarded(run[n][u], b);
  }

  /** A write that is in the log and has changes of the map still to make. */
  ghost predicate HalfDone(th: Thread)
  {
    && th.calls != []
    && var actions := Program(th.calls[0]);
       exists i, k :: 0 <= i < th.pc <= k < |actions| && actions[i] == Perform(Append)
                      && actions[k].Perform? && actions[k].work.Change?
  }

  /** The thread is at work in a call that has the store to itself. */
  ghost predicate AtWorkAlone(th: Thread)
  {
    Busy(th) && Ahead(th).Perform? && (th.calls[0].Compact? || th.calls[0].Reset?)
  }

  lemma HalfDoneHoldsEpoch(th: Thread)
    requires ThreadOk(th) && HalfDone(th)
    ensures EPOCH in th.held
  {
    hide Program, Ordered, HeldAfter, WellFormed;
    var actions := Program(th.calls[0]);
    var i, k :| 0 <= i < th.pc <= k < |actions| && actions[i] == Perform(Append)
                && actions[k].Perform? && actions[k].work.Change?;
    AppendsHoldEpoch(th.calls[0], i);
    CallHoldsEpoch(th.calls[0], th.pc);
  }

  lemma AloneHoldsEpoch(th: Thread)
    requires ThreadOk(th) && AtWorkAlone(th)
    ensures EPOCH in th.held && th.held[EPOCH] == Exclusive
  {
    hide Ordered, HeldAfter, WellFormed;
    assert Program(th.calls[0])[0].Acquire?;
    CallHoldsEpoch(th.calls[0], th.pc);
  }

  /** No compaction or reset looks at the map, changes it or replaces the log while a write is between the two. */
  lemma NoWriteHalfDone(calls: seq<seq<Call>>, run: seq<seq<Thread>>, steps: seq<nat>, n: nat, t: nat, u: nat)
    requires IsRun(calls, run, steps) && n < |run| && AllWellFormed(calls)
    requires t < |run[n]| && u < |run[n]| && t != u && HalfDone(run[n][t])
    ensures !AtWorkAlone(run[n][u])
  {
    hide IsRun, AllWellFormed, HalfDone, AtWorkAlone, ThreadOk;
    RunKeeps(calls, run, steps, n);
    HalfDoneHoldsEpoch(run[n][t]);
    if AtWorkAlone(run[n][u]) {
      AloneHoldsEpoch(run[n][u]);
    }
  }
}
