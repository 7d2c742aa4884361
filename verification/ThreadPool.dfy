/** The worker pool: steps of submitters and workers under one mutex and condition variable, in any order. */
module ThreadPool {

  type Task = nat

  /** `Ready` is about to take the lock and look; `Sleeping` waits on the condition variable. */
  datatype Worker = Ready | Sleeping | Running(task: Task) | Exited

  /**
    `owed` counts pushes whose `notify_one` is still to come; `owedAll` says that of `shutdown`'s
    `notify_all`.
   */
  datatype Pool = Pool(
    queue: seq<Task>, workers: seq<Worker>, stopping: bool,
    accepted: multiset<Task>, finished: multiset<Task>, owed: nat, owedAll: bool)

  datatype Step =
    | Submit(task: Task)
    | Shutdown
    | Look(w: nat, pick: nat)     // a worker with the lock: exit, take the task the policy picks, or sleep
    | Finish(w: nat)
    | Yield(w: nat)               // the task asks to be queued again, stopping or not
    | NotifyOne(w: nat)           // wakes worker `w` if it sleeps; lost if nobody does
    | NotifyAll
    | WakeSpuriously(w: nat)

  predicate Init(p: Pool)
  {
    && p.queue == [] && !p.stopping && p.accepted == multiset{} && p.finished == multiset{}
    && p.owed == 0 && !p.owedAll && |p.workers| > 0
    && forall i | 0 <= i < |p.workers| :: p.workers[i] == Ready
  }

  ghost predicate Enabled(p: Pool, step: Step)
  {
    match step
    case Submit(_) => true
    case Shutdown => true
    case Look(w, pick) => w < |p.workers| && p.workers[w] == Ready && (p.queue != [] ==> pick < |p.queue|)
    case Finish(w) => w < |p.workers| && p.workers[w].Running?
    case Yield(w) => w < |p.workers| && p.workers[w].Running?
    case NotifyOne(w) =>
      && p.owed > 0 && w < |p.workers|
      && (p.workers[w] == Sleeping || forall i | 0 <= i < |p.workers| :: p.workers[i] != Sleeping)
    case NotifyAll => p.owedAll
    case WakeSpuriously(w) => w < |p.workers| && p.workers[w] == Sleeping
  }

  function Woken(w: Worker): Worker { if w == Sleeping then Ready else w }

  function AllWoken(ws: seq<Worker>): (r: seq<Worker>)
    ensures |r| == |ws| && forall i | 0 <= i < |ws| :: r[i] == Woken(ws[i])
  {
    seq(|ws|, i requires 0 <= i < |ws| => Woken(ws[i]))
  }

  ghost function Do(p: Pool, step: Step): Pool
    requires Enabled(p, step)
  {
    match step
    case Submit(t) =>
      if p.stopping then p
      else p.(queue := p.queue + [t], accepted := p.accepted + multiset{t}, owed := p.owed + 1)
    case Shutdown => if p.stopping then p else p.(stopping := true, owedAll := true)
    case Look(w, pick) =>
      if p.queue != [] then
        p.(queue := p.queue[..pick] + p.queue[pick + 1..], workers := p.workers[w := Running(p.queue[pick])])
      else if p.stopping then p.(workers := p.workers[w := Exited])
      else p.(workers := p.workers[w := Sleeping])
    case Finish(w) => p.(workers := p.workers[w := Ready], finished := p.finished + multiset{p.workers[w].task})
    case Yield(w) => p.(workers := p.workers[w := Ready], queue := p.queue + [p.workers[w].task], owed := p.owed + 1)
    case NotifyOne(w) => p.(workers := p.workers[w := Woken(p.workers[w])], owed := p.owed - 1)
    case NotifyAll => p.(workers := AllWoken(p.workers), owedAll := false)
    case WakeSpuriously(w) => p.(workers := p.workers[w := Ready])
  }

  // ----- Tasks in the hands of workers.

  function Holds(w: Worker, t: Task): nat { if w == Running(t) then 1 else 0 }

  function InHand(ws: seq<Worker>, t: Task): nat
  {
    if ws == [] then 0 else InHand(ws[..|ws| - 1], t) + Holds(ws[|ws| - 1], t)
  }

  lemma {:induction false} InHandUpdate(ws: seq<Worker>, i: nat, w: Worker, t: Task)
    requires i < |ws|
    ensures InHand(ws[i := w], t) + Holds(ws[i], t) == InHand(ws, t) + Holds(w, t)
  {
    var init, last := ws[..|ws| - 1], |ws| - 1;
    if i == last {
      assert ws[i := w][..last] == init;
    } else {
      assert ws[i := w][..last] == init[i := w];
      InHandUpdate(init, i, w, t);
    }
  }

  lemma {:induction false} InHandSame(ws: seq<Worker>, vs: seq<Worker>, t: Task)
    requires |ws| == |vs| && forall i | 0 <= i < |ws| :: Holds(ws[i], t) == Holds(vs[i], t)
    ensures InHand(ws, t) == InHand(vs, t)
  {
    if ws != [] {
      InHandSame(ws[..|ws| - 1], vs[..|vs| - 1], t);
    }
  }

  lemma {:induction false} NothingInHand(ws: seq<Worker>, t: Task)
    requires forall i | 0 <= i < |ws| :: !ws[i].Running?
    ensures InHand(ws, t) == 0
  {
    if ws != [] {
      NothingInHand(ws[..|ws| - 1], t);
    }
  }

  // ----- The invariant.

  /** Every copy of a task accepted is queued, in a worker's hands or finished. */
  ghost predicate ConservedTask(p: Pool, t: Task)
  {
    p.accepted[t] == Copies(p.queue, t) + InHand(p.workers, t) + p.finished[t]
  }

  ghost predicate Conserved(p: Pool) { forall t :: ConservedTask(p, t) }

  predicate Awake(w: Worker) { w == Ready || w.Running? }

  ghost predicate SomeoneAwake(p: Pool) { exists i :: 0 <= i < |p.workers| && Awake(p.workers[i]) }

  /** Queued work is never left to workers that all sleep with no wake-up on its way. */
  ghost predicate NoLostWakeup(p: Pool)
  {
    p.queue != [] ==> p.owed > 0 || p.owedAll || SomeoneAwake(p)
  }

  ghost predicate Inv(p: Pool)
  {
    && |p.workers| > 0 && Conserved(p) && NoLostWakeup(p)
    && (!p.stopping ==> !p.owedAll && forall i | 0 <= i < |p.workers| :: p.workers[i] != Exited)
    && (p.stopping && !p.owedAll ==> forall i | 0 <= i < |p.workers| :: p.workers[i] != Sleeping)
    && (p.queue != [] ==> exists i :: 0 <= i < |p.workers| && p.workers[i] != Exited)
  }

  function Copies(queue: seq<Task>, t: Task): nat { multiset(queue)[t] }

  lemma TakeOne(queue: seq<Task>, pick: nat, t: Task)
    requires pick < |queue|
    ensures Copies(queue, t) == Copies(queue[..pick] + queue[pick + 1..], t) + Holds(Running(queue[pick]), t)
  {
    assert queue == queue[..pick] + [queue[pick]] + queue[pick + 1..];
  }

  lemma PutOne(queue: seq<Task>, x: Task, t: Task)
    ensures Copies(queue + [x], t) == Copies(queue, t) + Holds(Running(x), t)
  {
  }

  lemma ConservedKeeps(p: Pool, step: Step, t: Task)
    requires ConservedTask(p, t) && Enabled(p, step)
    ensures ConservedTask(Do(p, step), t)
  {
    hide InHand, Copies;
    var q := Do(p, step);
    match step
    case Submit(x) => PutOne(p.queue, x, t);
    case Shutdown =>
    case Look(w, pick) =>
      InHandUpdate(p.workers, w, q.workers[w], t);
      if p.queue != [] {
        TakeOne(p.queue, pick, t);
      }
    case Finish(w) => InHandUpdate(p.workers, w, Ready, t);
    case Yield(w) =>
      InHandUpdate(p.workers, w, Ready, t);
      PutOne(p.queue, p.workers[w].task, t);
    case NotifyOne(w) => InHandUpdate(p.workers, w, q.workers[w], t);
    case NotifyAll => InHandSame(p.workers, q.workers, t);
    case WakeSpuriously(w) => InHandUpdate(p.workers, w, Ready, t);
  }

  lemma StepKeeps(p: Pool, step: Step)
    requires Inv(p) && Enabled(p, step)
    ensures Inv(Do(p, step))
  {
    hide ConservedTask;
    var q := Do(p, step);
    forall t ensures ConservedTask(q, t) {
      ConservedKeeps(p, step, t);
    }
    match step
    case Submit(t) => assert p.workers[0] == q.workers[0];
    case Shutdown => assert q.workers == p.workers;
    case Look(w, _) =>
      assert p.queue != [] ==> Awake(q.workers[w]);
    case Finish(w) => assert Awake(q.workers[w]);
    case Yield(w) => assert Awake(q.workers[w]);
    case NotifyOne(w) =>
      if q.queue != [] {
        var i :| 0 <= i < |p.workers| && p.workers[i] != Exited;
        if p.workers[w] == Sleeping {
          assert Awake(q.workers[w]);
        } else {
          assert Awake(q.workers[i]);
        }
      }
    case NotifyAll =>
      if q.queue != [] {
        var i :| 0 <= i < |p.workers| && p.workers[i] != Exited;
        assert Awake(q.workers[i]);
      }
    case WakeSpuriously(w) => assert Awake(q.workers[w]);
  }

  // ----- Runs.

  ghost predicate IsRun(states: seq<Pool>, steps: seq<Step>)
  {
    && |states| == |steps| + 1 && Init(states[0])
    && forall i | 0 <= i < |steps| :: Enabled(states[i], steps[i]) && states[i + 1] == Do(states[i], steps[i])
  }

  lemma {:induction false} RunKeeps(states: seq<Pool>, steps: seq<Step>, i: nat)
    requires IsRun(states, steps) && i < |states|
    ensures Inv(states[i])
  {
    hide Do, Enabled;
    if i == 0 {
      forall t ensures ConservedTask(states[0], t) {
        NothingInHand(states[0].workers, t);
      }
      assert Awake(states[0].workers[0]);
    } else {
      RunKeeps(states, steps, i - 1);
      assert Enabled(states[i - 1], steps[i - 1]) && states[i] == Do(states[i - 1], steps[i - 1]);
      StepKeeps(states[i - 1], steps[i - 1]);
    }
  }

  // ----- Nobody sleeps through work.

  function Readies(ws: seq<Worker>): nat
  {
    if ws == [] then 0 else Readies(ws[..|ws| - 1]) + if ws[|ws| - 1] == Ready then 1 else 0
  }

  function IsReady(w: Worker): nat { if w == Ready then 1 else 0 }

  lemma {:induction false} ReadiesUpdate(ws: seq<Worker>, i: nat, w: Worker)
    requires i < |ws|
    ensures Readies(ws[i := w]) + IsReady(ws[i]) == Readies(ws) + IsReady(w)
  {
    var init, last := ws[..|ws| - 1], |ws| - 1;
    if i == last {
      assert ws[i := w][..last] == init;
    } else {
      assert ws[i := w][..last] == init[i := w];
      ReadiesUpdate(init, i, w);
    }
  }

  ghost predicate SomeoneSleeps(p: Pool) { exists i :: 0 <= i < |p.workers| && p.workers[i] == Sleeping }

  /** While a worker sleeps, every queued task has a worker about to look or a wake-up on its way. */
  ghost predicate Conserving(p: Pool) { SomeoneSleeps(p) ==> |p.queue| <= p.owed + Readies(p.workers) }

  lemma ConservingKept(p: Pool, step: Step)
    requires Conserving(p) && Enabled(p, step)
    ensures Conserving(Do(p, step))
  {
    hide Readies;
    var q := Do(p, step);
    if SomeoneSleeps(q) {
      var i :| 0 <= i < |q.workers| && q.workers[i] == Sleeping;
      assert p.workers[i] == Sleeping || (step.Look? && step.w == i && q.queue == []);
      match step
      case Look(w, _) => ReadiesUpdate(p.workers, w, q.workers[w]);
      case Finish(w) => ReadiesUpdate(p.workers, w, Ready);
      case Yield(w) => ReadiesUpdate(p.workers, w, Ready);
      case NotifyOne(w) => ReadiesUpdate(p.workers, w, q.workers[w]);
      case WakeSpuriously(w) => ReadiesUpdate(p.workers, w, Ready);
      case _ =>
    }
  }

  /** In every state of every run. */
  lemma {:induction false} NobodySleepsThroughWork(states: seq<Pool>, steps: seq<Step>, i: nat)
    requires IsRun(states, steps) && i < |states|
    ensures Conserving(states[i])
  {
    hide Do, Enabled, Readies;
    if i > 0 {
      NobodySleepsThroughWork(states, steps, i - 1);
      assert Enabled(states[i - 1], steps[i - 1]) && states[i] == Do(states[i - 1], steps[i - 1]);
      ConservingKept(states[i - 1], steps[i - 1]);
    }
  }

  // ----- What the submitters asked for.

  ghost predicate ShutDown(steps: seq<Step>) { exists i :: 0 <= i < |steps| && steps[i].Shutdown? }

  /** The tasks submitted before the first shutdown. */
  ghost function Submitted(steps: seq<Step>): multiset<Task>
  {
    if steps == [] then multiset{}
    else
      var init, last := steps[..|steps| - 1], steps[|steps| - 1];
      Submitted(init) + if last.Submit? && !ShutDown(init) then multiset{last.task} else multiset{}
  }

  lemma ShutDownSnoc(steps: seq<Step>, step: Step)
    ensures ShutDown(steps + [step]) <==> ShutDown(steps) || step.Shutdown?
  {
    var all := steps + [step];
    if step.Shutdown? {
      assert all[|steps|].Shutdown?;
    } else if i :| 0 <= i < |steps| && steps[i].Shutdown? {
      assert all[i].Shutdown?;
    }
  }

  ghost function Added(step: Step, stopped: bool): multiset<Task>
  {
    if step.Submit? && !stopped then multiset{step.task} else multiset{}
  }

  lemma SubmittedSnoc(steps: seq<Step>, step: Step)
    ensures Submitted(steps + [step]) == Submitted(steps) + Added(step, ShutDown(steps))
  {
    assert (steps + [step])[..|steps|] == steps;
  }

  lemma StepAccepts(p: Pool, step: Step)
    requires Enabled(p, step)
    ensures Do(p, step).accepted == p.accepted + Added(step, p.stopping)
    ensures Do(p, step).stopping <==> p.stopping || step.Shutdown?
  {
  }

  lemma OneStep(states: seq<Pool>, steps: seq<Step>, i: nat)
    requires IsRun(states, steps) && i < |steps|
    ensures Enabled(states[i], steps[i]) && states[i + 1] == Do(states[i], steps[i])
  {
    hide Enabled, Do, Init;
  }

  /** A pool stops exactly when it is told to, and accepts exactly what it is given until then. */
  lemma {:induction false} AcceptedAreSubmitted(states: seq<Pool>, steps: seq<Step>, i: nat)
    requires IsRun(states, steps) && i < |states|
    ensures states[i].accepted == Submitted(steps[..i]) && (states[i].stopping <==> ShutDown(steps[..i]))
  {
    if i > 0 {
      hide IsRun, Enabled, Do, Submitted, ShutDown, Added;
      var init, last := steps[..i - 1], steps[i - 1];
      AcceptedAreSubmitted(states, steps, i - 1);
      OneStep(states, steps, i - 1);
      StepAccepts(states[i - 1], last);
      assert steps[..i] == init + [last];
      ShutDownSnoc(init, last);
      SubmittedSnoc(init, last);
    }
  }

  /** In every state of every run each accepted task is queued, in a worker's hands or finished, exactly once. */
  lemma TasksAreConserved(states: seq<Pool>, steps: seq<Step>, i: nat, t: Task)
    requires IsRun(states, steps) && i < |states|
    ensures states[i].accepted[t] == Copies(states[i].queue, t) + InHand(states[i].workers, t) + states[i].finished[t]
  {
    hide IsRun;
    RunKeeps(states, steps, i);
    assert ConservedTask(states[i], t);
  }

  /** When all workers have left, every task ever accepted has finished. */
  lemma ShutdownDrains(states: seq<Pool>, steps: seq<Step>, i: nat)
    requires IsRun(states, steps) && i < |states|
    requires forall w | 0 <= w < |states[i].workers| :: states[i].workers[w] == Exited
    ensures states[i].stopping && states[i].queue == [] && states[i].finished == states[i].accepted
  {
    hide IsRun;
    RunKeeps(states, steps, i);
    assert states[i].workers[0] == Exited;
    forall t: Task ensures states[i].finished[t] == states[i].accepted[t] {
      NothingInHand(states[i].workers, t);
      assert ConservedTask(states[i], t);
    }
  }

  /** While there is work, or workers still to leave, some worker or some wake-up can make the next move. */
  lemma NeverStuck(states: seq<Pool>, steps: seq<Step>, i: nat)
    requires IsRun(states, steps) && i < |states|
    requires states[i].queue != [] ||
             (states[i].stopping && exists w :: 0 <= w < |states[i].workers| && states[i].workers[w] != Exited)
    ensures exists step :: Enabled(states[i], step) && OwnStep(step)
  {
    hide IsRun;
    RunKeeps(states, steps, i);
    var p := states[i];
    if p.owedAll {
      assert Enabled(p, NotifyAll);
    } else if w :| 0 <= w < |p.workers| && Awake(p.workers[w]) {
      if p.workers[w] == Ready {
        assert Enabled(p, Look(w, 0));
      } else {
        assert Enabled(p, Finish(w));
      }
    } else {
      var w :| 0 <= w < |p.workers| && p.workers[w] != Exited;
      assert !Awake(p.workers[w]) && p.workers[w] == Sleeping;
      assert Enabled(p, NotifyOne(w));
    }
  }

  // ----- And so it comes to rest.

  /** What the pool does by itself. */
  predicate OwnStep(step: Step) { step.Look? || step.Finish? || step.NotifyOne? || step.NotifyAll? }

  function Weight(w: Worker): nat { if w.Running? then 2 else if w == Ready then 1 else 0 }

  function Weights(ws: seq<Worker>): nat
  {
    if ws == [] then 0 else Weights(ws[..|ws| - 1]) + Weight(ws[|ws| - 1])
  }

  lemma {:induction false} WeightsUpdate(ws: seq<Worker>, i: nat, w: Worker)
    requires i < |ws|
    ensures Weights(ws[i := w]) + Weight(ws[i]) == Weights(ws) + Weight(w)
  {
    var init, last := ws[..|ws| - 1], |ws| - 1;
    if i == last {
      assert ws[i := w][..last] == init;
    } else {
      assert ws[i := w][..last] == init[i := w];
      WeightsUpdate(init, i, w);
    }
  }

  lemma {:induction false} WokenWeights(ws: seq<Worker>, vs: seq<Worker>)
    requires |ws| == |vs| && forall i | 0 <= i < |ws| :: vs[i] == Woken(ws[i])
    ensures Weights(vs) <= Weights(ws) + |ws|
  {
    if ws != [] {
      WokenWeights(ws[..|ws| - 1], vs[..|vs| - 1]);
    }
  }

  function Left(p: Pool): nat
  {
    2 * |p.queue| + 2 * p.owed + (if p.owedAll then |p.workers| + 1 else 0) + Weights(p.workers)
  }

  /**
    Every step of its own brings the pool nearer to rest. So without new tasks it stops moving, and as it is never
    stuck it has then no work left and, told to stop, no worker either.
   */
  lemma OwnStepsEnd(p: Pool, step: Step)
    requires Enabled(p, step) && OwnStep(step)
    ensures Left(Do(p, step)) < Left(p)
  {
    hide Weights;
    match step
    case Look(w, _) => WeightsUpdate(p.workers, w, Do(p, step).workers[w]);
    case Finish(w) => WeightsUpdate(p.workers, w, Ready);
    case NotifyOne(w) => WeightsUpdate(p.workers, w, Woken(p.workers[w]));
    case NotifyAll => WokenWeights(p.workers, AllWoken(p.workers));
  }

  ghost predicate Working(p: Pool) { p.queue != [] || exists i :: 0 <= i < |p.workers| && p.workers[i].Running? }

  lemma Extend(states: seq<Pool>, steps: seq<Step>, step: Step) returns (states': seq<Pool>, steps': seq<Step>)
    requires IsRun(states, steps) && Enabled(states[|steps|], step)
    ensures IsRun(states', steps') && steps' == steps + [step]
    ensures states' == states + [Do(states[|steps|], step)]
  {
    hide Do, Enabled, Init;
    states', steps' := states + [Do(states[|steps|], step)], steps + [step];
  }

  lemma WorkGoesOn(states: seq<Pool>, steps: seq<Step>)
    requires IsRun(states, steps) && Working(states[|steps|])
    ensures exists step :: Enabled(states[|steps|], step) && OwnStep(step)
  {
    hide IsRun;
    RunLength(states, steps);
    var p := states[|steps|];
    if p.queue != [] {
      NeverStuck(states, steps, |steps|);
    } else {
      var w :| 0 <= w < |p.workers| && p.workers[w].Running?;
      assert Enabled(p, Finish(w));
    }
  }

  lemma RunLength(states: seq<Pool>, steps: seq<Step>)
    requires IsRun(states, steps)
    ensures |states| == |steps| + 1
  {
    hide Do, Enabled, Init;
  }

  lemma OwnStepsAccept(p: Pool, step: Step)
    requires Enabled(p, step) && OwnStep(step)
    ensures Do(p, step).accepted == p.accepted
  {
  }

  /** Left to itself the pool finishes all that it has accepted. */
  lemma {:induction false} Drains(states: seq<Pool>, steps: seq<Step>) returns (states': seq<Pool>, steps': seq<Step>)
    requires IsRun(states, steps)
    ensures IsRun(states', steps') && states <= states' && steps <= steps'
    ensures forall i | |steps| <= i < |steps'| :: OwnStep(steps'[i])
    ensures var p := states'[|steps'|]; p.finished == p.accepted == states[|steps|].accepted
    decreases Left(states[|steps|])
  {
    hide IsRun, Do, Enabled, Left, Working;
    RunLength(states, steps);
    var p := states[|steps|];
    if Working(p) {
      WorkGoesOn(states, steps);
      var step :| Enabled(p, step) && OwnStep(step);
      OwnStepsEnd(p, step);
      OwnStepsAccept(p, step);
      states', steps' := Extend(states, steps, step);
      states', steps' := Drains(states', steps');
    } else {
      states', steps' := states, steps;
      AllFinished(states, steps);
    }
  }

  lemma AllFinished(states: seq<Pool>, steps: seq<Step>)
    requires IsRun(states, steps) && !Working(states[|steps|])
    ensures states[|steps|].finished == states[|steps|].accepted
  {
    hide IsRun;
    RunLength(states, steps);
    var p := states[|steps|];
    forall t: Task ensures p.finished[t] == p.accepted[t] {
      TasksAreConserved(states, steps, |steps|, t);
      NothingInHand(p.workers, t);
    }
  }

  /** So in any state of any run a task submitted before shutdown can be brought to its end. */
  lemma TaskGetsDone(states: seq<Pool>, steps: seq<Step>, task: Task) returns (states': seq<Pool>, steps': seq<Step>)
    requires IsRun(states, steps) && !ShutDown(steps)
    ensures IsRun(states', steps') && states <= states' && steps + [Submit(task)] <= steps'
    ensures states'[|steps'|].finished == Submitted(steps) + multiset{task}
  {
    hide IsRun, Do, ShutDown, Submitted;
    RunLength(states, steps);
    assert steps[..|steps|] == steps;
    AcceptedAreSubmitted(states, steps, |steps|);
    assert Enabled(states[|steps|], Submit(task));
    states', steps' := Extend(states, steps, Submit(task));
    StepAccepts(states[|steps|], Submit(task));
    states', steps' := Drains(states', steps');
  }
}
