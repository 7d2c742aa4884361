/**
  Writers that log and then apply under the shared epoch lock, and compaction under the exclusive one,
  interleaved in any order. The log is the operations in it; `RecoversTo` ties it to its bytes.
 */
module Epoch {
  import opened Bytes
  import opened Protocol
  import opened Kv
  import opened Replay
  import opened Recovery
  import Store

  datatype Writer = Outside | Entered(op: Op) | Logged(op: Op) | Applied

  datatype Compactor = Resting | Blocking | Copied(entries: seq<(Key, Value)>) | Replaced | Failed

  /** `pending` has the writers that have logged and not yet applied, in the order they logged. */
  datatype Sys = Sys(kv: KV, log: seq<Op>, pending: seq<nat>, writers: seq<Writer>, compactor: Compactor)

  datatype Step =
    | Enter(w: nat, op: Op)
    | Append(w: nat)
    | ApplyToMap(w: nat)
    | Leave(w: nat)
    | Block
    | Copy(entries: seq<(Key, Value)>)
    | Replace(ok: bool)
    | Unblock

  ghost predicate AllOutside(s: Sys) { forall i | 0 <= i < |s.writers| :: s.writers[i] == Outside }

  ghost predicate Init(s: Sys)
  {
    s.kv == ApplyOps(map[], s.log) && s.pending == [] && AllOutside(s) && s.compactor == Resting
  }

  ghost predicate Enabled(s: Sys, step: Step)
  {
    match step
    case Enter(w, _) => w < |s.writers| && s.writers[w].Outside? && s.compactor.Resting?
    case Append(w) => w < |s.writers| && s.writers[w].Entered?
    case ApplyToMap(w) => w < |s.writers| && s.writers[w].Logged? && w in s.pending
    case Leave(w) => w < |s.writers| && s.writers[w].Applied?
    case Block => s.compactor.Resting? && AllOutside(s)
    case Copy(entries) => s.compactor.Blocking? && Lists(entries, s.kv)
    case Replace(_) => s.compactor.Copied?
    case Unblock => s.compactor.Replaced? || s.compactor.Failed?
  }

  function Position(pending: seq<nat>, w: nat): (i: nat)
    requires w in pending
    ensures i < |pending| && pending[i] == w
  {
    if pending[0] == w then 0 else 1 + Position(pending[1..], w)
  }

  ghost function Do(s: Sys, step: Step): Sys
    requires Enabled(s, step)
  {
    match step
    case Enter(w, op) => s.(writers := s.writers[w := Entered(op)])
    case Append(w) =>
      s.(log := s.log + [s.writers[w].op], pending := s.pending + [w], writers := s.writers[w := Logged(s.writers[w].op)])
    case ApplyToMap(w) =>
      var i := Position(s.pending, w);
      s.(kv := ApplyOp(s.kv, s.writers[w].op), pending := s.pending[..i] + s.pending[i + 1..],
         writers := s.writers[w := Applied])
    case Leave(w) => s.(writers := s.writers[w := Outside])
    case Block => s.(compactor := Blocking)
    case Copy(entries) => s.(compactor := Copied(entries))
    case Replace(ok) =>
      if ok then s.(log := Store.SetOps(s.compactor.entries), compactor := Replaced) else s.(compactor := Failed)
    case Unblock => s.(compactor := Resting)
  }

  // ----- What compaction sees.

  ghost predicate PendingOk(s: Sys)
  {
    && (forall i, j | 0 <= i < j < |s.pending| :: s.pending[i] != s.pending[j])
    && (forall i | 0 <= i < |s.pending| :: s.pending[i] < |s.writers| && s.writers[s.pending[i]].Logged?)
    && (forall w: nat | w < |s.writers| && s.writers[w].Logged? :: w in s.pending)
  }

  ghost predicate Inv(s: Sys)
  {
    && PendingOk(s)
    && (!s.compactor.Resting? ==> AllOutside(s))
    && (s.compactor.Copied? ==> Lists(s.compactor.entries, s.kv))
    && (s.compactor.Replaced? ==> ApplyOps(map[], s.log) == s.kv)
  }

  lemma StepKeeps(s: Sys, step: Step)
    requires Inv(s) && Enabled(s, step)
    ensures Inv(Do(s, step))
  {
    hide ApplyOps, ApplyOp, Lists;
    match step
    case Append(w) => assert PendingOk(Do(s, step)) by { AppendPending(s, w); }
    case ApplyToMap(w) => assert PendingOk(Do(s, step)) by { ApplyPending(s, w); }
    case Replace(ok) =>
      if ok {
        Store.ListingReplays(s.compactor.entries, s.kv);
      }
    case _ =>
  }

  lemma AppendPending(s: Sys, w: nat)
    requires PendingOk(s) && Enabled(s, Append(w))
    ensures PendingOk(Do(s, Append(w)))
  {
    hide ApplyOps, ApplyOp;
    var s' := Do(s, Append(w));
    forall v: nat | v < |s'.writers| && s'.writers[v].Logged? ensures v in s'.pending {
      if v == w {
        assert s'.pending[|s.pending|] == w;
      } else {
        assert v in s.pending;
      }
    }
  }

  lemma ApplyPending(s: Sys, w: nat)
    requires PendingOk(s) && Enabled(s, ApplyToMap(w))
    ensures PendingOk(Do(s, ApplyToMap(w)))
  {
    hide ApplyOps, ApplyOp, Position;
    var s', i := Do(s, ApplyToMap(w)), Position(s.pending, w);
    OneRemoved(s.pending, i);
    forall v: nat | v < |s'.writers| && s'.writers[v].Logged? ensures v in s'.pending {
      assert v in s.pending && v != w;
    }
  }

  lemma OneRemoved(pending: seq<nat>, i: nat)
    requires i < |pending| && forall j, k | 0 <= j < k < |pending| :: pending[j] != pending[k]
    ensures var rest := pending[..i] + pending[i + 1..];
            && (forall j, k | 0 <= j < k < |rest| :: rest[j] != rest[k])
            && (forall v: nat :: v in rest <==> v in pending && v != pending[i])
            && (forall j | 0 <= j < |rest| :: rest[j] in pending && rest[j] != pending[i])
  {
    var before, after := pending[..i], pending[i + 1..];
    assert pending == before + [pending[i]] + after;
    assert forall j | 0 <= j < |before| :: before[j] == pending[j] && before[j] != pending[i];
    assert forall j | 0 <= j < |after| :: after[j] == pending[i + 1 + j] && after[j] != pending[i];
  }

  ghost predicate IsRun(run: seq<Sys>, steps: seq<Step>)
  {
    && |run| == |steps| + 1 && Init(run[0])
    && forall i | 0 <= i < |steps| :: Enabled(run[i], steps[i]) && run[i + 1] == Do(run[i], steps[i])
  }

  lemma {:induction false} RunKeeps(run: seq<Sys>, steps: seq<Step>, n: nat)
    requires IsRun(run, steps) && n < |run|
    ensures Inv(run[n])
  {
    if n > 0 {
      hide Inv, Do, Enabled;
      RunKeeps(run, steps, n - 1);
      StepKeeps(run[n - 1], steps[n - 1]);
    }
  }

  /** The bytes of a log of acceptable records recover to the map its operations make. */
  lemma RecoversTo(log: seq<Op>)
    requires Loggable(log)
    ensures Recover(LogBytes(log)).state.kv == ApplyOps(map[], log)
  {
    hide Replayed, LogBytes, ApplyOps, Loggable, LogEntries, Run;
    ReplayOps(EMPTY, log, []);
    assert LogBytes(log) + [] == LogBytes(log);
    ReplayNothing(Run(EMPTY, LogEntries(log)).value);
  }

  /**
    Whatever the writers do, while compaction has the epoch nothing is logged and not applied, the map does not
    change under its copy, and from the replacement on the new log recovers to the map.
   */
  lemma CompactionIsExact(run: seq<Sys>, steps: seq<Step>, n: nat)
    requires IsRun(run, steps) && n < |run| && !run[n].compactor.Resting?
    ensures run[n].pending == [] && AllOutside(run[n])
    ensures run[n].compactor.Copied? ==> Lists(run[n].compactor.entries, run[n].kv)
    ensures run[n].compactor.Replaced? && Loggable(run[n].log) ==> Recover(LogBytes(run[n].log)).state.kv == run[n].kv
  {
    RunKeeps(run, steps, n);
    var s := run[n];
    hide Lists, ApplyOps, Loggable, Recover, LogBytes, IsRun;
    if s.compactor.Replaced? && Loggable(s.log) {
      RecoversTo(s.log);
    }
    NothingPending(s);
  }

  lemma NothingPending(s: Sys)
    requires PendingOk(s) && forall i | 0 <= i < |s.writers| :: !s.writers[i].Logged?
    ensures s.pending == []
  {
    if s.pending != [] {
      var w := First(s.pending);
    }
  }

  lemma First(s: seq<nat>) returns (x: nat)
    requires s != []
    ensures x in s
  {
    x := s[0];
  }

  // ----- Log order against apply order.

  ghost predicate Commute(a: Op, b: Op)
  {
    forall m: KV :: ApplyOp(ApplyOp(m, a), b) == ApplyOp(ApplyOp(m, b), a)
  }

  ghost predicate InFlight(w: Writer) { w.Entered? || w.Logged? }

  /** Operations in flight together commute. */
  ghost predicate Compatible(s: Sys)
  {
    forall v, w | 0 <= v < |s.writers| && 0 <= w < |s.writers| && v != w
                  && InFlight(s.writers[v]) && InFlight(s.writers[w]) ::
      Commute(s.writers[v].op, s.writers[w].op)
  }

  ghost function PendingOps(s: Sys): (r: seq<Op>)
    requires PendingOk(s)
    ensures |r| == |s.pending| && forall i | 0 <= i < |r| :: r[i] == s.writers[s.pending[i]].op
  {
    seq(|s.pending|, i requires 0 <= i < |s.pending| => s.writers[s.pending[i]].op)
  }

  /** What is logged and not applied, applied in log order, makes the map the log recovers to. */
  ghost predicate LogAhead(s: Sys)
    requires PendingOk(s)
  {
    ApplyOps(s.kv, PendingOps(s)) == ApplyOps(map[], s.log)
  }

  lemma StepOps(m: KV, ops: seq<Op>, op: Op)
    ensures ApplyOps(m, ops + [op]) == ApplyOp(ApplyOps(m, ops), op)
  {
    assert (ops + [op])[..|ops|] == ops;
  }

  /** An operation that commutes with those before it can be applied first. */
  lemma {:induction false} MoveFirst(m: KV, ops: seq<Op>, op: Op)
    requires forall i | 0 <= i < |ops| :: Commute(ops[i], op)
    ensures ApplyOps(m, ops + [op]) == ApplyOps(ApplyOp(m, op), ops)
    decreases |ops|
  {
    hide ApplyOps, ApplyOp;
    StepOps(m, ops, op);
    if ops == [] {
      Store.NoOps(m);
      Store.NoOps(ApplyOp(m, op));
    } else {
      var init, last := ops[..|ops| - 1], ops[|ops| - 1];
      assert ops == init + [last];
      MoveFirst(m, init, op);
      StepOps(m, init, last);
      StepOps(m, init, op);
      StepOps(ApplyOp(m, op), init, last);
      assert Commute(last, op);
    }
  }

  lemma ApplyOutOfOrder(m: KV, ops: seq<Op>, i: nat)
    requires i < |ops| && forall j | 0 <= j < i :: Commute(ops[j], ops[i])
    ensures ApplyOps(ApplyOp(m, ops[i]), ops[..i] + ops[i + 1..]) == ApplyOps(m, ops)
  {
    hide ApplyOps, ApplyOp, Commute;
    var before, after := ops[..i], ops[i + 1..];
    assert ops == (before + [ops[i]]) + after;
    MoveFirst(m, before, ops[i]);
    ApplyOpsConcat(m, before + [ops[i]], after);
    ApplyOpsConcat(ApplyOp(m, ops[i]), before, after);
  }

  lemma AheadKept(s: Sys, step: Step)
    requires Inv(s) && LogAhead(s) && Compatible(s) && Enabled(s, step)
    ensures PendingOk(Do(s, step)) && LogAhead(Do(s, step))
  {
    hide ApplyOps, ApplyOp, Lists, Commute, Compatible;
    StepKeeps(s, step);
    var s' := Do(s, step);
    match step
    case Append(w) =>
      assert PendingOps(s') == PendingOps(s) + [s.writers[w].op];
      StepOps(s.kv, PendingOps(s), s.writers[w].op);
      StepOps(map[], s.log, s.writers[w].op);
    case ApplyToMap(w) => AheadApplied(s, w);
    case Replace(ok) =>
      NothingPending(s);
      Store.NoOps(s.kv);
      if ok {
        assert ApplyOps(map[], s'.log) == s'.kv;
      }
    case Enter(_, _) => assert PendingOps(s') == PendingOps(s);
    case Leave(_) => assert PendingOps(s') == PendingOps(s);
    case _ => assert PendingOps(s') == PendingOps(s);
  }

  lemma AheadApplied(s: Sys, w: nat)
    requires Inv(s) && LogAhead(s) && Compatible(s) && Enabled(s, ApplyToMap(w)) && PendingOk(Do(s, ApplyToMap(w)))
    ensures LogAhead(Do(s, ApplyToMap(w)))
  {
    hide ApplyOps, ApplyOp, Lists, Commute;
    var s', ops, i := Do(s, ApplyToMap(w)), PendingOps(s), Position(s.pending, w);
    assert PendingOps(s') == ops[..i] + ops[i + 1..];
    forall j | 0 <= j < i ensures Commute(ops[j], ops[i]) {
      assert s.pending[j] != s.pending[i];
    }
    ApplyOutOfOrder(s.kv, ops, i);
  }

  lemma {:induction false} RunAhead(run: seq<Sys>, steps: seq<Step>, n: nat)
    requires IsRun(run, steps) && n < |run| && forall i | 0 <= i < n :: Compatible(run[i])
    ensures Inv(run[n]) && LogAhead(run[n])
  {
    RunKeeps(run, steps, n);
    hide Compatible, ApplyOps;
    if n == 0 {
      Store.NoOps(run[0].kv);
    } else {
      hide Inv, Do, Enabled;
      RunAhead(run, steps, n - 1);
      AheadKept(run[n - 1], steps[n - 1]);
    }
  }

  /** As long as operations in flight together commute, whenever nothing is half done the log recovers to the map. */
  lemma LogMatchesMap(run: seq<Sys>, steps: seq<Step>, n: nat)
    requires IsRun(run, steps) && n < |run| && forall i | 0 <= i < n :: Compatible(run[i])
    requires forall i | 0 <= i < |run[n].writers| :: !run[n].writers[i].Logged?
    ensures ApplyOps(map[], run[n].log) == run[n].kv
  {
    hide Compatible, ApplyOps, IsRun;
    RunAhead(run, steps, n);
    NothingPending(run[n]);
    assert PendingOps(run[n]) == [];
    Store.NoOps(run[n].kv);
  }

  // ----- What the writers asked for.

  /** The operation with which a writer entered last. */
  ghost function Current(steps: seq<Step>, w: nat): Option<Op>
  {
    if steps == [] then None
    else
      var last := steps[|steps| - 1];
      if last.Enter? && last.w == w then Some(last.op) else Current(steps[..|steps| - 1], w)
  }

  /** The operations in the order in which they were logged, and in which they were applied. */
  ghost function LoggedOps(steps: seq<Step>): seq<Op>
  {
    if steps == [] then []
    else
      var init, last := steps[..|steps| - 1], steps[|steps| - 1];
      LoggedOps(init) + if last.Append? && Current(init, last.w).Some? then [Current(init, last.w).value] else []
  }

  ghost function AppliedOps(steps: seq<Step>): seq<Op>
  {
    if steps == [] then []
    else
      var init, last := steps[..|steps| - 1], steps[|steps| - 1];
      AppliedOps(init) + if last.ApplyToMap? && Current(init, last.w).Some? then [Current(init, last.w).value] else []
  }

  lemma HistorySnoc(steps: seq<Step>, step: Step)
    ensures forall w: nat :: Current(steps + [step], w) ==
              if step.Enter? && step.w == w then Some(step.op) else Current(steps, w)
    ensures LoggedOps(steps + [step]) ==
            if step.Append? && Current(steps, step.w).Some? then LoggedOps(steps) + [Current(steps, step.w).value]
            else LoggedOps(steps)
    ensures AppliedOps(steps + [step]) ==
            if step.ApplyToMap? && Current(steps, step.w).Some? then AppliedOps(steps) + [Current(steps, step.w).value]
            else AppliedOps(steps)
  {
    assert (steps + [step])[..|steps|] == steps;
  }

  /** Writers do what they came for; the map has what was applied and, until it is replaced, the log what was logged. */
  ghost predicate Follows(first: Sys, s: Sys, steps: seq<Step>)
  {
    && (forall w: nat | w < |s.writers| && InFlight(s.writers[w]) :: Current(steps, w) == Some(s.writers[w].op))
    && s.kv == ApplyOps(first.kv, AppliedOps(steps))
    && ((forall i | 0 <= i < |steps| :: steps[i] != Replace(true)) ==> s.log == first.log + LoggedOps(steps))
  }

  lemma StepFollows(first: Sys, s: Sys, steps: seq<Step>, step: Step)
    requires Follows(first, s, steps) && Enabled(s, step)
    ensures Follows(first, Do(s, step), steps + [step])
  {
    hide ApplyOps, ApplyOp, Lists, Current, LoggedOps, AppliedOps, Position;
    var s', all := Do(s, step), steps + [step];
    HistorySnoc(steps, step);
    assert forall i | 0 <= i < |steps| :: all[i] == steps[i];
    assert all[|steps|] == step;
    if step.Append? {
      var op := s.writers[step.w].op;
      assert first.log + LoggedOps(steps) + [op] == first.log + (LoggedOps(steps) + [op]);
    } else if step.ApplyToMap? {
      StepOps(first.kv, AppliedOps(steps), s.writers[step.w].op);
    }
  }

  /** In every state of every run. */
  lemma {:induction false} WritersAreHeard(run: seq<Sys>, steps: seq<Step>, n: nat)
    requires IsRun(run, steps) && n < |run|
    ensures Follows(run[0], run[n], steps[..n])
  {
    if n == 0 {
      hide ApplyOps;
      Store.NoOps(run[0].kv);
      assert run[0].log + [] == run[0].log;
    } else {
      hide Do, Enabled, Follows, Init;
      WritersAreHeard(run, steps, n - 1);
      StepFollows(run[0], run[n - 1], steps[..n - 1], steps[n - 1]);
      assert steps[..n - 1] + [steps[n - 1]] == steps[..n];
    }
  }

  /** A writer that has left has logged and applied: each of its entries is followed by both, in that order. */
  ghost function Entries(steps: seq<Step>, w: nat): nat
  {
    if steps == [] then 0
    else Entries(steps[..|steps| - 1], w) + if steps[|steps| - 1].Enter? && steps[|steps| - 1].w == w then 1 else 0
  }

  ghost function Appends(steps: seq<Step>, w: nat): nat
  {
    if steps == [] then 0 else Appends(steps[..|steps| - 1], w) + if steps[|steps| - 1] == Append(w) then 1 else 0
  }

  ghost function Applies(steps: seq<Step>, w: nat): nat
  {
    if steps == [] then 0 else Applies(steps[..|steps| - 1], w) + if steps[|steps| - 1] == ApplyToMap(w) then 1 else 0
  }

  ghost predicate Balanced(writer: Writer, past: seq<Step>, w: nat)
  {
    && Entries(past, w) == Appends(past, w) + (if writer.Entered? then 1 else 0)
    && Appends(past, w) == Applies(past, w) + (if writer.Logged? then 1 else 0)
  }

  lemma CountsSnoc(past: seq<Step>, step: Step, w: nat)
    ensures var all := past + [step];
            && Entries(all, w) == Entries(past, w) + (if step.Enter? && step.w == w then 1 else 0)
            && Appends(all, w) == Appends(past, w) + (if step == Append(w) then 1 else 0)
            && Applies(all, w) == Applies(past, w) + (if step == ApplyToMap(w) then 1 else 0)
  {
    assert (past + [step])[..|past|] == past;
  }

  lemma StepBalanced(s: Sys, past: seq<Step>, step: Step, w: nat)
    requires Enabled(s, step) && w < |s.writers| && Balanced(s.writers[w], past, w)
    ensures var t := Do(s, step); |t.writers| == |s.writers| && Balanced(t.writers[w], past + [step], w)
  {
    hide ApplyOp, Lists, Position, Entries, Appends, Applies;
    CountsSnoc(past, step, w);
  }

  lemma OneStep(run: seq<Sys>, steps: seq<Step>, i: nat)
    requires IsRun(run, steps) && i < |steps|
    ensures |run| == |steps| + 1 && Enabled(run[i], steps[i]) && run[i + 1] == Do(run[i], steps[i])
  {
    hide Enabled, Do, Init;
  }

  lemma {:induction false} EachOnce(run: seq<Sys>, steps: seq<Step>, n: nat, w: nat)
    requires IsRun(run, steps) && n < |run| && w < |run[0].writers|
    ensures n <= |steps| && |run[n].writers| == |run[0].writers| && Balanced(run[n].writers[w], steps[..n], w)
  {
    if n == 0 {
      hide Do, Enabled;
      assert run[0].writers[w] == Outside;
    } else {
      hide Do, Enabled, Init, Balanced;
      EachOnce(run, steps, n - 1, w);
      OneStep(run, steps, n - 1);
      StepBalanced(run[n - 1], steps[..n - 1], steps[n - 1], w);
      assert steps[..n] == steps[..n - 1] + [steps[n - 1]];
    }
  }

  // ----- No one waits for ever.

  /** The steps of those that have the epoch. */
  predicate Inside(step: Step) { !step.Enter? && !step.Block? }

  ghost predicate AtRest(s: Sys) { AllOutside(s) && s.compactor.Resting? }

  /** As long as the epoch is held one of those who hold it can go on. */
  lemma SomeoneCanGoOn(s: Sys)
    requires Inv(s) && !AtRest(s)
    ensures exists step :: Enabled(s, step) && Inside(step)
  {
    hide ApplyOps, Lists;
    if w :| 0 <= w < |s.writers| && s.writers[w] != Outside {
      var writer := s.writers[w];
      assert Enabled(s, if writer.Entered? then Append(w) else if writer.Logged? then ApplyToMap(w) else Leave(w));
    } else if s.compactor.Blocking? {
      var entries := SomeListing(s.kv);
      assert Enabled(s, Copy(entries));
    } else {
      assert Enabled(s, if s.compactor.Copied? then Replace(true) else Unblock);
    }
  }

  /** Writers share the epoch: one outside may enter whoever else is inside, unless compaction has it. */
  lemma EpochIsShared(run: seq<Sys>, steps: seq<Step>, n: nat, w: nat, op: Op)
    requires IsRun(run, steps) && n < |run| && w < |run[0].writers|
    ensures n <= |steps| && |run[n].writers| == |run[0].writers|
    ensures run[n].writers[w] == Outside ==> (Enabled(run[n], Enter(w, op)) <==> run[n].compactor.Resting?)
    ensures run[n].compactor.Resting? ==>
              (Enabled(run[n], Block) <==> forall v: nat | v < |run[n].writers| :: run[n].writers[v] == Outside)
  {
    hide IsRun;
    EachOnce(run, steps, n, w);
  }

  function StepsOf(w: Writer): nat
  {
    match w
    case Outside => 0
    case Entered(_) => 3
    case Logged(_) => 2
    case Applied => 1
  }

  function StepsLeft(c: Compactor): nat
  {
    match c
    case Resting => 0
    case Blocking => 3
    case Copied(_) => 2
    case _ => 1
  }

  /** And every step they take brings them nearer to giving it back. */
  lemma EveryStepCounts(s: Sys, step: Step)
    requires Enabled(s, step) && Inside(step)
    ensures var t := Do(s, step);
            if step.Append? || step.ApplyToMap? || step.Leave? then
              && StepsOf(t.writers[step.w]) < StepsOf(s.writers[step.w]) && t.compactor == s.compactor
              && forall v | 0 <= v < |s.writers| && v != step.w :: t.writers[v] == s.writers[v]
            else t.writers == s.writers && StepsLeft(t.compactor) < StepsLeft(s.compactor)
  {
  }

  // ----- Commuting is also needed.

  ghost predicate TwoWriters(run: seq<Sys>, steps: seq<Step>, a: Op, b: Op)
  {
    && IsRun(run, steps) && |run[0].writers| == 2
    && forall i | 0 <= i < |steps| && steps[i].Enter? :: steps[i].op == if steps[i].w == 0 then a else b
  }

  ghost predicate Agrees(s: Sys) { AllOutside(s) ==> ApplyOps(map[], s.log) == s.kv }

  lemma {:induction false} OnlyThese(run: seq<Sys>, steps: seq<Step>, a: Op, b: Op, n: nat)
    requires TwoWriters(run, steps, a, b) && n < |run|
    ensures |run[n].writers| == 2
    ensures InFlight(run[n].writers[0]) ==> run[n].writers[0].op == a
    ensures InFlight(run[n].writers[1]) ==> run[n].writers[1].op == b
  {
    hide ApplyOps, ApplyOp, Lists;
    if n > 0 {
      OnlyThese(run, steps, a, b, n - 1);
    }
  }

  lemma CommutingAgrees(run: seq<Sys>, steps: seq<Step>, a: Op, b: Op)
    requires TwoWriters(run, steps, a, b) && Commute(a, b)
    ensures Agrees(run[|steps|])
  {
    hide ApplyOps, ApplyOp, Lists;
    assert Commute(b, a);
    forall i | 0 <= i < |steps| ensures Compatible(run[i]) {
      OnlyThese(run, steps, a, b, i);
    }
    if AllOutside(run[|steps|]) {
      LogMatchesMap(run, steps, |steps|);
    }
  }

  lemma Extend(run: seq<Sys>, steps: seq<Step>, step: Step) returns (run': seq<Sys>, steps': seq<Step>)
    requires IsRun(run, steps) && Enabled(run[|steps|], step)
    ensures IsRun(run', steps') && |run'| == |steps'| + 1 && steps' == steps + [step]
    ensures run'[0] == run[0] && run'[|steps'|] == Do(run[|steps|], step)
  {
    hide Do, Init;
    run', steps' := run + [Do(run[|steps|], step)], steps + [step];
  }

  lemma BothLog(s: Sys, a: Op, b: Op) returns (run: seq<Sys>, steps: seq<Step>)
    requires Init(s) && |s.writers| == 2
    ensures IsRun(run, steps) && |run| == |steps| + 1 && run[0] == s
    ensures steps == [Enter(0, a), Enter(1, b), Append(0), Append(1)]
    ensures run[|steps|] == s.(log := s.log + [a] + [b], pending := [0, 1], writers := [Logged(a), Logged(b)])
  {
    hide ApplyOps, ApplyOp, Lists, IsRun;
    assert s.writers == [Outside, Outside];
    JustStarted(s);
    run, steps := Extend([s], [], Enter(0, a));
    run, steps := Extend(run, steps, Enter(1, b));
    run, steps := Extend(run, steps, Append(0));
    run, steps := Extend(run, steps, Append(1));
    assert run[|steps|].writers == [Logged(a), Logged(b)] && run[|steps|].pending == [0, 1];
  }

  /** Two writers that log in one order and apply in the other: the map has the operations one way, the log the other. */
  lemma Crossing(s: Sys, a: Op, b: Op) returns (run: seq<Sys>, steps: seq<Step>)
    requires Init(s) && |s.writers| == 2
    ensures TwoWriters(run, steps, a, b) && AllOutside(run[|steps|])
    ensures run[|steps|].kv == ApplyOp(ApplyOp(s.kv, b), a)
    ensures ApplyOps(map[], run[|steps|].log) == ApplyOp(ApplyOp(s.kv, a), b)
  {
    hide ApplyOps, ApplyOp, Lists, IsRun, Init;
    run, steps := BothLog(s, a, b);
    run, steps := Extend(run, steps, ApplyToMap(1));
    run, steps := Extend(run, steps, ApplyToMap(0));
    run, steps := Extend(run, steps, Leave(0));
    run, steps := Extend(run, steps, Leave(1));
    assert run[|steps|].writers == [Outside, Outside];
    StepOps(map[], s.log, a);
    StepOps(map[], s.log + [a], b);
    StartedFrom(s);
  }

  lemma StartedFrom(s: Sys)
    requires Init(s)
    ensures s.kv == ApplyOps(map[], s.log)
  {
  }

  lemma JustStarted(s: Sys)
    requires Init(s)
    ensures IsRun([s], [])
  {
  }

  lemma {:induction false} LogFor(m: KV) returns (log: seq<Op>)
    ensures ApplyOps(map[], log) == m
    decreases |m|
  {
    if m == map[] {
      log := [];
    } else {
      hide ApplyOps;
      var k :| k in m;
      var rest := m - {k};
      assert rest.Keys == m.Keys - {k};
      log := LogFor(rest);
      StepOps(map[], log, SetOp(k, m[k]));
      OneSet(rest, k, m[k]);
      log := log + [SetOp(k, m[k])];
    }
  }

  lemma Started(s: Sys)
    requires s.kv == ApplyOps(map[], s.log) && s.pending == [] && s.writers == [Outside, Outside]
              && s.compactor == Resting
    ensures Init(s)
  {
  }

  // ----- Which operations commute.

  /** The last mutation of a key in a list. */
  function LastOn(mus: seq<Mutation>, key: Key): Option<Mutation>
  {
    if mus == [] then None
    else
      var last := mus[|mus| - 1];
      if last.key == key then Some(last) else LastOn(mus[..|mus| - 1], key)
  }

  /** Wherever two operations touch the same key, they leave it alike. */
  predicate LastAgree(a: Op, b: Op)
  {
    forall mu <- OpMutations(a) ::
      var theirs := LastOn(OpMutations(b), mu.key);
      theirs.None? || LastOn(OpMutations(a), mu.key) == theirs
  }

  function Left(mu: Mutation): Option<Value> { if mu.Put? then Some(mu.value) else None }

  /** The last mutation of a key decides what is found there. */
  lemma {:induction false} LookupAfter(m: KV, mus: seq<Mutation>, key: Key)
    ensures Lookup(ApplyAll(m, mus), key) ==
            match LastOn(mus, key)
            case None => Lookup(m, key)
            case Some(mu) => Left(mu)
  {
    if mus != [] {
      LookupAfter(m, mus[..|mus| - 1], key);
    }
  }

  lemma {:induction false} LastIsOne(mus: seq<Mutation>, key: Key)
    ensures LastOn(mus, key).Some? <==> exists mu <- mus :: mu.key == key
    ensures LastOn(mus, key).Some? ==> LastOn(mus, key).value in mus && LastOn(mus, key).value.key == key
  {
    if mus != [] {
      var init, last := mus[..|mus| - 1], mus[|mus| - 1];
      assert mus == init + [last];
      LastIsOne(init, key);
    }
  }

  lemma LookupAfterTwo(m: KV, a: Op, b: Op, key: Key)
    ensures Lookup(ApplyOp(ApplyOp(m, a), b), key) ==
            match (LastOn(OpMutations(b), key), LastOn(OpMutations(a), key))
            case (Some(mu), _) => Left(mu)
            case (None, Some(mu)) => Left(mu)
            case (None, None) => Lookup(m, key)
  {
    hide ApplyAll, LastOn;
    LookupAfter(m, OpMutations(a), key);
    LookupAfter(ApplyOp(m, a), OpMutations(b), key);
  }

  lemma SameLookups(a: KV, b: KV)
    requires forall k: Key :: Lookup(a, k) == Lookup(b, k)
    ensures a == b
  {
    forall k: Key ensures (k in a <==> k in b) && (k in a ==> a[k] == b[k]) {
      assert Lookup(a, k) == Lookup(b, k);
    }
  }

  lemma AgreeingCommute(a: Op, b: Op)
    requires LastAgree(a, b)
    ensures Commute(a, b)
  {
    hide ApplyOp, LastOn, OpMutations;
    forall m: KV ensures ApplyOp(ApplyOp(m, a), b) == ApplyOp(ApplyOp(m, b), a) {
      var ab, ba := ApplyOp(ApplyOp(m, a), b), ApplyOp(ApplyOp(m, b), a);
      forall key: Key ensures Lookup(ab, key) == Lookup(ba, key) {
        LookupAfterTwo(m, a, b, key);
        LookupAfterTwo(m, b, a, key);
        LastIsOne(OpMutations(a), key);
      }
      SameLookups(ab, ba);
    }
  }

  /** Two operations commute exactly when the last mutations of every key they share are the same. */
  lemma CommuteIff(a: Op, b: Op)
    ensures Commute(a, b) <==> LastAgree(a, b)
  {
    hide ApplyOp, LastOn, OpMutations;
    if LastAgree(a, b) {
      AgreeingCommute(a, b);
    } else {
      var mu :| mu in OpMutations(a)
                && LastOn(OpMutations(b), mu.key).Some?
                && LastOn(OpMutations(a), mu.key) != LastOn(OpMutations(b), mu.key);
      var m: KV, key := map[], mu.key;
      LastIsOne(OpMutations(a), key);
      LastIsOne(OpMutations(b), key);
      LookupAfterTwo(m, a, b, key);
      LookupAfterTwo(m, b, a, key);
      assert Lookup(ApplyOp(ApplyOp(m, a), b), key) != Lookup(ApplyOp(ApplyOp(m, b), a), key);
    }
  }

  /**
    Writers of two operations may overlap and the log still always recover to the map exactly when the last
    mutations of every key they share are the same.
   */
  lemma OverlapIsSafeIff(a: Op, b: Op)
    ensures LastAgree(a, b) <==> forall run, steps | TwoWriters(run, steps, a, b) :: Agrees(run[|steps|])
  {
    hide ApplyOps, ApplyOp, Init, Do, Enabled, LastAgree;
    CommuteIff(a, b);
    if Commute(a, b) {
      forall run, steps | TwoWriters(run, steps, a, b) ensures Agrees(run[|steps|]) {
        CommutingAgrees(run, steps, a, b);
      }
    } else {
      var m: KV :| ApplyOp(ApplyOp(m, a), b) != ApplyOp(ApplyOp(m, b), a);
      var log := LogFor(m);
      var s := Sys(m, log, [], [Outside, Outside], Resting);
      Started(s);
      var run, steps := Crossing(s, a, b);
      assert !Agrees(run[|steps|]);
    }
  }


  // ----- Two cases of it.

  ghost predicate Touches(op: Op, key: Key) { exists mu <- OpMutations(op) :: mu.key == key }

  lemma DisjointCommute(a: Op, b: Op)
    requires forall k: Key :: !(Touches(a, k) && Touches(b, k))
    ensures Commute(a, b)
  {
    hide LastOn, OpMutations;
    forall mu <- OpMutations(a) ensures LastOn(OpMutations(b), mu.key).None? {
      LastIsOne(OpMutations(b), mu.key);
      assert Touches(a, mu.key);
    }
    CommuteIff(a, b);
  }

  /** Two sets commute exactly when they are of different keys or of the same value. */
  lemma SetsCommuteIff(k: Key, v: Value, l: Key, w: Value)
    ensures Commute(SetOp(k, v), SetOp(l, w)) <==> k != l || v == w
  {
    hide Commute;
    var a, b := SetOp(k, v), SetOp(l, w);
    CommuteIff(a, b);
    assert LastOn(OpMutations(a), k) == Some(Put(k, v));
    assert LastOn(OpMutations(b), k) == if k == l then Some(Put(l, w)) else None;
    assert LastAgree(a, b) <==> k != l || v == w by {
      assert Put(k, v) in OpMutations(a);
    }
  }
}
