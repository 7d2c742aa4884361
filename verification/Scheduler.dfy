/** The three-level task queue with aging. */
module Scheduler {
  import opened Bytes

  const LEVELS: nat := 3
  const HIGH: nat := 0
  const NORMAL: nat := 1
  const LOW: nat := 2

  datatype Task = Task(run: nat, priority: nat, sequence: nat)

  datatype Queue = Queue(
    levels: seq<seq<Task>>, aging: bool, threshold: nat,
    nextSequence: nat, served: nat, promotions: nat, since: nat)

  predicate Valid(q: Queue)
  {
    |q.levels| == LEVELS && q.threshold >= 1
  }

  function Push(q: Queue, t: Task): (r: Queue)
    requires Valid(q) && t.priority < LEVELS
    ensures Valid(r)
  {
    var stamped := t.(sequence := q.nextSequence + 1);
    q.(levels := q.levels[t.priority := q.levels[t.priority] + [stamped]], nextSequence := q.nextSequence + 1)
  }

  predicate Empty(q: Queue)
    requires Valid(q)
  {
    q.levels[HIGH] == [] && q.levels[NORMAL] == [] && q.levels[LOW] == []
  }

  /** A promotion is due: it serves the lowest waiting level, never the highest. */
  predicate Due(q: Queue)
    requires Valid(q)
  {
    q.aging && q.since >= q.threshold && (q.levels[LOW] != [] || q.levels[NORMAL] != [])
  }

  /** The level the next task is taken from. */
  function NextLevel(q: Queue): (level: nat)
    requires Valid(q) && !Empty(q)
    ensures level < LEVELS && q.levels[level] != []
  {
    if Due(q) then if q.levels[LOW] != [] then LOW else NORMAL
    else if q.levels[HIGH] != [] then HIGH
    else if q.levels[NORMAL] != [] then NORMAL
    else LOW
  }

  function Pop(q: Queue): (r: Queue)
    requires Valid(q) && !Empty(q)
    ensures Valid(r)
  {
    var level := NextLevel(q);
    q.(levels := q.levels[level := q.levels[level][1..]],
       served := q.served + 1,
       promotions := q.promotions + if Due(q) then 1 else 0,
       since := if Due(q) then 0 else q.since + 1)
  }

  // ----- The queue object, with the loops of the source.

  class PriorityQueue {
    var levels: seq<seq<Task>>
    const aging: bool
    const threshold: nat
    var count: nat
    var nextSequence: nat
    var served: nat
    var promotions: nat
    var since: nat

    ghost function View(): Queue
      reads this
    {
      Queue(levels, aging, threshold, nextSequence, served, promotions, since)
    }

    ghost predicate Ok()
      reads this
    {
      Valid(View()) && count == |levels[HIGH]| + |levels[NORMAL]| + |levels[LOW]|
    }

    constructor (aging: bool, threshold: nat)
      ensures Ok() && View() == Queue([[], [], []], aging, if threshold == 0 then 1 else threshold, 0, 0, 0, 0)
    {
      this.aging := aging;
      this.threshold := if threshold == 0 then 1 else threshold;
      levels, count, nextSequence, served, promotions, since := [[], [], []], 0, 0, 0, 0, 0;
    }

    method PushTask(t: Task)
      requires Ok() && t.priority < LEVELS
      modifies this
      ensures Ok() && View() == Push(old(View()), t)
    {
      nextSequence := nextSequence + 1;
      levels := levels[t.priority := levels[t.priority] + [t.(sequence := nextSequence)]];
      count := count + 1;
    }

    method PopTask() returns (r: Option<Task>)
      requires Ok()
      modifies this
      ensures Ok()
      ensures r.None? <==> old(Empty(View()))
      ensures r.None? ==> View() == old(View())
      ensures r.Some? ==> View() == Pop(old(View())) && r.value == old(levels[NextLevel(View())][0])
    {
      if count == 0 {
        return None;
      }
      if aging && since >= threshold {
        var level := LEVELS;
        while level > 1
          invariant 1 <= level <= LEVELS
          invariant View() == old(View()) && count == old(count)
          invariant forall l | level <= l < LEVELS :: levels[l] == []
        {
          level := level - 1;
          if levels[level] != [] {
            r := Some(levels[level][0]);
            levels := levels[level := levels[level][1..]];
            count, served, promotions, since := count - 1, served + 1, promotions + 1, 0;
            return;
          }
        }
      }
      var level := 0;
      while level < LEVELS
        invariant 0 <= level <= LEVELS
        invariant View() == old(View()) && count == old(count)
        invariant forall l | 0 <= l < level :: levels[l] == []
      {
        if levels[level] != [] {
          r := Some(levels[level][0]);
          levels := levels[level := levels[level][1..]];
          count, served, since := count - 1, served + 1, since + 1;
          return;
        }
        level := level + 1;
      }
      r := None;
    }
  }

  // ----- Runs of pushes and pops.

  datatype Event = Arrive(task: Task) | Serve

  predicate ProperEvent(e: Event) { e.Arrive? ==> e.task.priority < LEVELS }

  predicate Proper(es: seq<Event>) { forall i | 0 <= i < |es| :: ProperEvent(es[i]) }

  /** A pop of an empty queue changes nothing. */
  function After(q: Queue, e: Event): (r: Queue)
    requires Valid(q) && ProperEvent(e)
    ensures Valid(r)
  {
    match e
    case Arrive(t) => Push(q, t)
    case Serve => if Empty(q) then q else Pop(q)
  }

  function Serves(es: seq<Event>): nat
  {
    if es == [] then 0 else (if es[0].Serve? then 1 else 0) + Serves(es[1..])
  }

  function LowArrivals(es: seq<Event>): nat
  {
    if es == [] then 0 else (if es[0].Arrive? && es[0].task.priority == LOW then 1 else 0) + LowArrivals(es[1..])
  }

  /** The tasks a run takes from one level, in order. */
  function Taken(q: Queue, es: seq<Event>, level: nat): seq<Task>
    requires Valid(q) && Proper(es) && level < LEVELS
    decreases |es|
  {
    if es == [] then []
    else
      var rest := Taken(After(q, es[0]), es[1..], level);
      if es[0].Serve? && !Empty(q) && NextLevel(q) == level then [q.levels[level][0]] + rest else rest
  }

  /** The tasks that arrive at one level, as stamped. */
  function Arrived(q: Queue, es: seq<Event>, level: nat): seq<Task>
    requires Valid(q) && Proper(es) && level < LEVELS
    decreases |es|
  {
    if es == [] then []
    else
      var rest := Arrived(After(q, es[0]), es[1..], level);
      if es[0].Arrive? && es[0].task.priority == level then [es[0].task.(sequence := q.nextSequence + 1)] + rest else rest
  }

  function Final(q: Queue, es: seq<Event>): (r: Queue)
    requires Valid(q) && Proper(es)
    ensures Valid(r)
    decreases |es|
  {
    if es == [] then q
    else Final(After(q, es[0]), es[1..])
  }

  function Out(q: Queue, e: Event, level: nat): seq<Task>
    requires Valid(q) && level < LEVELS
  {
    if e.Serve? && !Empty(q) && NextLevel(q) == level then [q.levels[level][0]] else []
  }

  function In(q: Queue, e: Event, level: nat): seq<Task>
  {
    if e.Arrive? && e.task.priority == level then [e.task.(sequence := q.nextSequence + 1)] else []
  }

  lemma OneEvent(q: Queue, e: Event, level: nat)
    requires Valid(q) && ProperEvent(e) && level < LEVELS
    ensures Out(q, e, level) + After(q, e).levels[level] == q.levels[level] + In(q, e, level)
  {
  }

  lemma Unfold(q: Queue, es: seq<Event>, level: nat)
    requires Valid(q) && Proper(es) && level < LEVELS && es != []
    ensures var r := After(q, es[0]);
            && Taken(q, es, level) == Out(q, es[0], level) + Taken(r, es[1..], level)
            && Arrived(q, es, level) == In(q, es[0], level) + Arrived(r, es[1..], level)
            && Final(q, es) == Final(r, es[1..])
  {
    hide After, NextLevel;
  }

  lemma Chain(a: seq<Task>, b: seq<Task>, c: seq<Task>, d: seq<Task>, e: seq<Task>, f: seq<Task>, g: seq<Task>)
    requires a + b == c + d && e + f == b + g
    ensures a + e + f == c + (d + g)
  {
    assert a + e + f == a + (e + f) == a + b + g == c + d + g;
  }

  /** Each level is first in, first out: nothing is lost, duplicated or overtaken within it. */
  lemma {:induction false} LevelsAreFifo(q: Queue, es: seq<Event>, level: nat)
    requires Valid(q) && Proper(es) && level < LEVELS
    ensures Taken(q, es, level) + Final(q, es).levels[level] == q.levels[level] + Arrived(q, es, level)
    decreases |es|
  {
    if es != [] {
      hide After, Taken, Arrived, Final, Out, In;
      var r, rest := After(q, es[0]), es[1..];
      Unfold(q, es, level);
      OneEvent(q, es[0], level);
      LevelsAreFifo(r, rest, level);
      Chain(Out(q, es[0], level), r.levels[level], q.levels[level], In(q, es[0], level),
            Taken(r, rest, level), Final(r, rest).levels[level], Arrived(r, rest, level));
    }
  }

  /** So a task waiting at a position has been served once that many and one more are taken from its level. */
  lemma ServedByPosition(q: Queue, es: seq<Event>, level: nat, p: nat)
    requires Valid(q) && Proper(es) && level < LEVELS && p < |q.levels[level]| && p < |Taken(q, es, level)|
    ensures Taken(q, es, level)[p] == q.levels[level][p]
  {
    LevelsAreFifo(q, es, level);
    var both := Taken(q, es, level) + Final(q, es).levels[level];
    assert both[p] == Taken(q, es, level)[p];
    assert (q.levels[level] + Arrived(q, es, level))[p] == q.levels[level][p];
  }

  function Wait(q: Queue): nat { if q.since < q.threshold then q.threshold - q.since else 0 }

  lemma Rounds(p: nat, t: nat)
    requires p > 0
    ensures p * (t + 1) == (p - 1) * (t + 1) + t + 1
  {
  }

  /** With aging, `p` tasks ahead cost at most `p + 1` rounds of `threshold + 1` serves, whatever arrives meanwhile. */
  lemma {:induction false} LowWithin(q: Queue, es: seq<Event>, p: nat)
    requires Valid(q) && Proper(es) && q.aging && p < |q.levels[LOW]|
    requires Serves(es) >= p * (q.threshold + 1) + Wait(q) + 1
    ensures |Taken(q, es, LOW)| >= p + 1
    decreases |es|
  {
    var r := After(q, es[0]);
    if es[0].Serve? && NextLevel(q) == LOW {
      if p > 0 {
        Rounds(p, q.threshold);
        LowWithin(r, es[1..], p - 1);
      }
    } else {
      LowWithin(r, es[1..], p);
    }
  }

  /** A Low task at position `p` is among the first `(p + 1) * (threshold + 1)` served. */
  lemma LowIsServed(q: Queue, es: seq<Event>, p: nat)
    requires Valid(q) && Proper(es) && q.aging && p < |q.levels[LOW]|
    requires Serves(es) >= (p + 1) * (q.threshold + 1)
    ensures q.levels[LOW][p] in Taken(q, es, LOW)
  {
    Rounds(p + 1, q.threshold);
    LowWithin(q, es, p);
    ServedByPosition(q, es, LOW, p);
  }

  /** One event while a Normal task waits: what is ahead of it and how long until the next promotion. */
  lemma NormalWaits(q: Queue, e: Event)
    requires Valid(q) && ProperEvent(e) && q.aging && q.levels[NORMAL] != []
    ensures var r := After(q, e);
            && r.threshold == q.threshold && r.aging
            && (e.Arrive? ==>
                  && Wait(r) == Wait(q) && |r.levels[NORMAL]| >= |q.levels[NORMAL]|
                  && |r.levels[LOW]| == |q.levels[LOW]| + if e.task.priority == LOW then 1 else 0)
            && (e.Serve? ==>
                  && !Empty(q)
                  && (if Due(q) then Wait(q) == 0 && Wait(r) == q.threshold else Wait(r) == Wait(q) - 1)
                  && |r.levels[NORMAL]| == |q.levels[NORMAL]| - (if NextLevel(q) == NORMAL then 1 else 0)
                  && |r.levels[LOW]| == |q.levels[LOW]| - (if NextLevel(q) == LOW then 1 else 0)
                  && (NextLevel(q) == LOW ==> Due(q)) && (NextLevel(q) == HIGH ==> !Due(q)))
  {
  }

  lemma {:induction false} NormalWithin(q: Queue, es: seq<Event>, p: nat, ahead: nat)
    requires Valid(q) && Proper(es) && q.aging && p < |q.levels[NORMAL]|
    requires ahead == p + |q.levels[LOW]| + LowArrivals(es)
    requires Serves(es) >= ahead * (q.threshold + 1) + Wait(q) + 1
    ensures |Taken(q, es, NORMAL)| >= p + 1
    decreases |es|
  {
    hide After, NextLevel, Due, Wait;
    var r := After(q, es[0]);
    NormalWaits(q, es[0]);
    if es[0].Serve? && NextLevel(q) == NORMAL {
      if p > 0 {
        Rounds(ahead, q.threshold);
        NormalWithin(r, es[1..], p - 1, ahead - 1);
      }
    } else if es[0].Serve? && NextLevel(q) == LOW {
      Rounds(ahead, q.threshold);
      NormalWithin(r, es[1..], p, ahead - 1);
    } else {
      NormalWithin(r, es[1..], p, ahead);
    }
  }

  /** A Normal task also waits for every Low task queued or still to come: one round each. */
  lemma NormalIsServed(q: Queue, es: seq<Event>, p: nat)
    requires Valid(q) && Proper(es) && q.aging && p < |q.levels[NORMAL]|
    requires Serves(es) >= (p + |q.levels[LOW]| + LowArrivals(es) + 1) * (q.threshold + 1)
    ensures q.levels[NORMAL][p] in Taken(q, es, NORMAL)
  {
    var ahead := p + |q.levels[LOW]| + LowArrivals(es);
    Rounds(ahead + 1, q.threshold);
    NormalWithin(q, es, p, ahead);
    ServedByPosition(q, es, NORMAL, p);
  }

  // ----- The bounds are exact.

  lemma MoreRounds(p: nat, q: nat, t: nat)
    requires p <= q
    ensures p * (t + 1) <= q * (t + 1)
  {
  }

  /** A High task arrives before every serve. */
  function Crowd(n: nat): seq<Event>
  {
    if n == 0 then [] else [Arrive(Task(0, HIGH, 0)), Serve] + Crowd(n - 1)
  }

  /** One round of it. */
  function Crowded(q: Queue): (r: Queue)
    requires Valid(q)
    ensures Valid(r) && r.threshold == q.threshold && r.aging == q.aging
  {
    Pop(Push(q, Task(0, HIGH, 0)))
  }

  lemma CrowdRound(q: Queue)
    requires Valid(q)
    ensures var r := Crowded(q);
            if Due(q) then Wait(q) == 0 && Wait(r) == q.threshold else Wait(r) == if Wait(q) > 0 then Wait(q) - 1 else 0
    ensures var r := Crowded(q);
            && |r.levels[LOW]| == |q.levels[LOW]| - (if Due(q) && q.levels[LOW] != [] then 1 else 0)
            && |r.levels[NORMAL]| == |q.levels[NORMAL]| - (if Due(q) && q.levels[LOW] == [] then 1 else 0)
  {
  }

  lemma {:induction false} CrowdIs(n: nat)
    ensures Proper(Crowd(n)) && Serves(Crowd(n)) == n && LowArrivals(Crowd(n)) == 0
    decreases n
  {
    if n > 0 {
      CrowdIs(n - 1);
      var rest := Crowd(n - 1);
      assert Crowd(n)[1..] == [Serve] + rest && ([Serve] + rest)[1..] == rest;
    }
  }

  lemma CrowdTaken(q: Queue, n: nat, level: nat)
    requires Valid(q) && n > 0 && level in {NORMAL, LOW}
    ensures Proper(Crowd(n)) && Proper(Crowd(n - 1))
    ensures |Taken(q, Crowd(n), level)| ==
            |Taken(Crowded(q), Crowd(n - 1), level)| + |q.levels[level]| - |Crowded(q).levels[level]|
  {
    hide Taken, Crowd;
    CrowdIs(n);
    CrowdIs(n - 1);
    var high, rest := Arrive(Task(0, HIGH, 0)), Crowd(n - 1);
    var q1 := Push(q, high.task);
    assert Crowd(n) == [high] + ([Serve] + rest) by { CrowdUnfolds(n); }
    assert Proper([Serve] + rest);
    assert Crowd(n)[1..] == [Serve] + rest && ([Serve] + rest)[1..] == rest;
    Unfold(q, Crowd(n), level);
    Unfold(q1, [Serve] + rest, level);
  }

  lemma CrowdUnfolds(n: nat)
    requires n > 0
    ensures Crowd(n) == [Arrive(Task(0, HIGH, 0))] + ([Serve] + Crowd(n - 1))
  {
  }

  /** High tasks before every serve hold every other level back for as long as the bound says. */
  lemma {:induction false} CrowdHoldsLow(q: Queue, n: nat, p: nat)
    requires Valid(q) && q.aging && n <= p * (q.threshold + 1) + Wait(q)
    ensures Proper(Crowd(n)) && |Taken(q, Crowd(n), LOW)| <= p
    decreases n
  {
    if n > 0 {
      hide Taken, Crowd, Crowded;
      CrowdTaken(q, n, LOW);
      CrowdRound(q);
      if Due(q) && q.levels[LOW] != [] {
        Rounds(p, q.threshold);
        CrowdHoldsLow(Crowded(q), n - 1, p - 1);
      } else {
        CrowdHoldsLow(Crowded(q), n - 1, p);
      }
    }
  }

  lemma {:induction false} CrowdHoldsNormal(q: Queue, n: nat, p: nat)
    requires Valid(q) && q.aging && n <= (p + |q.levels[LOW]|) * (q.threshold + 1) + Wait(q)
    ensures Proper(Crowd(n)) && |Taken(q, Crowd(n), NORMAL)| <= p
    decreases n
  {
    if n > 0 {
      hide Taken, Crowd, Crowded;
      CrowdTaken(q, n, NORMAL);
      CrowdRound(q);
      var ahead := p + |q.levels[LOW]|;
      if Due(q) {
        Rounds(ahead, q.threshold);
        CrowdHoldsNormal(Crowded(q), n - 1, if q.levels[LOW] != [] then p else p - 1);
      } else {
        CrowdHoldsNormal(Crowded(q), n - 1, p);
      }
    }
  }

  /** A number of Low tasks arrive before that. */
  function LateCrowd(l: nat, n: nat): seq<Event>
  {
    if l == 0 then Crowd(n) else [Arrive(Task(0, LOW, 0))] + LateCrowd(l - 1, n)
  }

  lemma {:induction false} LateCrowdHoldsNormal(q: Queue, l: nat, n: nat, p: nat)
    requires Valid(q) && q.aging && n <= (p + |q.levels[LOW]| + l) * (q.threshold + 1) + Wait(q)
    ensures var es := LateCrowd(l, n);
            Proper(es) && Serves(es) == n && LowArrivals(es) == l && |Taken(q, es, NORMAL)| <= p
    decreases l
  {
    if l == 0 {
      CrowdIs(n);
      CrowdHoldsNormal(q, n, p);
    } else {
      hide Taken;
      var low, rest := Arrive(Task(0, LOW, 0)), LateCrowd(l - 1, n);
      LateCrowdHoldsNormal(Push(q, low.task), l - 1, n, p);
      TakenStep(q, low, rest);
      assert ([low] + rest)[1..] == rest;
    }
  }

  /** Whatever arrives, so many serves take more than `p` Low tasks. */
  ghost predicate LowTakenWithin(q: Queue, p: nat, n: nat)
    requires Valid(q)
  {
    forall es | Proper(es) && Serves(es) >= n :: |Taken(q, es, LOW)| > p
  }

  /** So the bound for Low tasks is exact: with so many serves any run takes the task, with fewer some run does not. */
  lemma LowServedIff(q: Queue, p: nat, n: nat)
    requires Valid(q) && q.aging && p < |q.levels[LOW]|
    ensures LowTakenWithin(q, p, n) <==> n > p * (q.threshold + 1) + Wait(q)
  {
    hide Taken, Serves;
    if n > p * (q.threshold + 1) + Wait(q) {
      forall es | Proper(es) && Serves(es) >= n ensures |Taken(q, es, LOW)| > p {
        LowWithin(q, es, p);
      }
    } else {
      CrowdIs(n);
      CrowdHoldsLow(q, n, p);
    }
  }

  lemma {:induction false} CrowdHoldsAll(q: Queue, n: nat)
    requires Valid(q) && !q.aging
    ensures Proper(Crowd(n)) && Taken(q, Crowd(n), LOW) == []
    decreases n
  {
    if n > 0 {
      hide Taken, Crowd, Crowded;
      CrowdTaken(q, n, LOW);
      CrowdRound(q);
      CrowdHoldsAll(Crowded(q), n - 1);
    }
  }

  /** Aging is what saves Low tasks, and without it nothing does. */
  lemma LowServedIffAging(q: Queue, p: nat)
    requires Valid(q) && p < |q.levels[LOW]|
    ensures (exists n: nat :: LowTakenWithin(q, p, n)) <==> q.aging
  {
    hide Taken, Serves;
    if q.aging {
      var n := p * (q.threshold + 1) + Wait(q) + 1;
      LowServedIff(q, p, n);
      assert LowTakenWithin(q, p, n);
    } else {
      forall n: nat ensures !LowTakenWithin(q, p, n) {
        CrowdIs(n);
        CrowdHoldsAll(q, n);
      }
    }
  }

  /**
    And so is that for Normal tasks, which depends on how many Low tasks are still to come: where nothing bounds
    them, no number of serves is enough.
   */
  lemma NormalServedIff(q: Queue, p: nat, l: nat, n: nat)
    requires Valid(q) && q.aging && p < |q.levels[NORMAL]|
    ensures (forall es | Proper(es) && LowArrivals(es) <= l && Serves(es) >= n :: |Taken(q, es, NORMAL)| > p) <==>
            n > (p + |q.levels[LOW]| + l) * (q.threshold + 1) + Wait(q)
  {
    hide Taken, Serves, LowArrivals;
    if n > (p + |q.levels[LOW]| + l) * (q.threshold + 1) + Wait(q) {
      forall es | Proper(es) && LowArrivals(es) <= l && Serves(es) >= n ensures |Taken(q, es, NORMAL)| > p {
        var ahead := p + |q.levels[LOW]| + LowArrivals(es);
        MoreRounds(ahead, p + |q.levels[LOW]| + l, q.threshold);
        NormalWithin(q, es, p, ahead);
      }
    } else {
      LateCrowdHoldsNormal(q, l, n, p);
    }
  }

  /** A High and a Low task arrive before every serve. */
  function Squeeze(n: nat): seq<Event>
  {
    if n == 0 then [] else [Arrive(Task(0, HIGH, 0)), Arrive(Task(0, LOW, 0)), Serve] + Squeeze(n - 1)
  }

  /** One round: a High and a Low task arrive and one task is served, which is not a Normal one. */
  lemma SqueezeRound(q: Queue)
    requires Valid(q) && q.aging
    ensures var q2 := Push(Push(q, Task(0, HIGH, 0)), Task(0, LOW, 0));
            !Empty(q2) && NextLevel(q2) != NORMAL && Pop(q2).aging
  {
  }

  lemma TakenStep(q: Queue, e: Event, es: seq<Event>)
    requires Valid(q) && Proper(es) && ProperEvent(e) && Out(q, e, NORMAL) == []
    ensures Proper([e] + es) && Taken(q, [e] + es, NORMAL) == Taken(After(q, e), es, NORMAL)
    ensures Serves([e] + es) == (if e.Serve? then 1 else 0) + Serves(es)
  {
    hide After, Taken, Out;
    assert ([e] + es)[1..] == es;
    Unfold(q, [e] + es, NORMAL);
  }

  /** So without a bound on Low arrivals aging does not save a Normal task: it can wait through any number of serves. */
  lemma {:induction false} NormalCanStarve(q: Queue, n: nat)
    requires Valid(q) && q.aging
    ensures Proper(Squeeze(n)) && Serves(Squeeze(n)) == n
    ensures Taken(q, Squeeze(n), NORMAL) == []
    decreases n
  {
    if n > 0 {
      hide Taken, Serves, NextLevel;
      var high, low, rest := Arrive(Task(0, HIGH, 0)), Arrive(Task(0, LOW, 0)), Squeeze(n - 1);
      var q1 := Push(q, high.task);
      var q2 := Push(q1, low.task);
      SqueezeRound(q);
      NormalCanStarve(Pop(q2), n - 1);
      TakenStep(q2, Serve, rest);
      TakenStep(q1, low, [Serve] + rest);
      TakenStep(q, high, [low] + ([Serve] + rest));
      assert Squeeze(n) == [high] + ([low] + ([Serve] + rest));
    }
  }

  /** Which serves of a run are promotions. */
  function Promoted(q: Queue, es: seq<Event>): seq<bool>
    requires Valid(q) && Proper(es)
    decreases |es|
  {
    if es == [] then []
    else
      var rest := Promoted(After(q, es[0]), es[1..]);
      if es[0].Serve? && !Empty(q) then [Due(q)] + rest else rest
  }

  lemma {:induction false} FirstPromotion(q: Queue, es: seq<Event>, i: nat)
    requires Valid(q) && Proper(es) && i < |Promoted(q, es)| && Promoted(q, es)[i]
    ensures i >= Wait(q)
    decreases |es|
  {
    var r := After(q, es[0]);
    if es[0].Serve? && !Empty(q) {
      if i > 0 {
        FirstPromotion(r, es[1..], i - 1);
      }
    } else {
      FirstPromotion(r, es[1..], i);
    }
  }

  /** Between two promotions there are at least `threshold` ordinary serves. */
  lemma {:induction false} PromotionsAreApart(q: Queue, es: seq<Event>, i: nat, j: nat)
    requires Valid(q) && Proper(es) && i < j < |Promoted(q, es)| && Promoted(q, es)[i] && Promoted(q, es)[j]
    ensures j - i > q.threshold
    decreases |es|
  {
    var r := After(q, es[0]);
    if es[0].Serve? && !Empty(q) {
      if i == 0 {
        FirstPromotion(r, es[1..], j - 1);
      } else {
        PromotionsAreApart(r, es[1..], i - 1, j - 1);
      }
    } else {
      PromotionsAreApart(r, es[1..], i, j);
    }
  }
}
