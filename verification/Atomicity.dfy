/**
  Commits and multi-key reads of several threads on the sharded map, interleaved one lock, one mutation, one
  key at a time. Single writes and reads are those of one key; one shard stands for the global modes.
 */
module Atomicity {
  import opened Bytes
  import opened Kv
  import opened ShardedMap

  /**
    `got` counts the locks taken so far, of those in `want`; `held` are those not yet released. A reader
    remembers how many commits there were when it was called and when it had all its locks.
   */
  datatype Thread<K, V> =
    | Idle
    | Committing(mutations: seq<Change<K, V>>, want: seq<nat>, got: nat, held: set<nat>, done: nat)
    | Reading(keys: seq<K>, want: seq<nat>, got: nat, held: set<nat>, seen: seq<Option<V>>, since: nat, at: nat)

  datatype Answer<K, V> = Answer(keys: seq<K>, values: seq<Option<V>>)

  /** `order` has the commits by the moment each held all its locks. */
  datatype Sys<K, V> = Sys(
    base: map<K, V>, kv: map<K, V>, threads: seq<Thread<K, V>>,
    order: seq<seq<Change<K, V>>>, answers: seq<Answer<K, V>>)

  datatype Step<K, V> =
    | StartCommit(t: nat, mutations: seq<Change<K, V>>)
    | StartRead(t: nat, keys: seq<K>)
    | Lock(t: nat)
    | ApplyOne(t: nat)
    | ReadOne(t: nat)
    | Unlock(t: nat, shard: nat)
    | Return(t: nat)

  /** How keys are placed on shards, and whether readers lock exclusively (as with one mutex, or eviction on). */
  datatype Config<!K> = Config(place: K -> nat, exclusiveReads: bool)

  predicate Working<K, V>(th: Thread<K, V>)
  {
    match th
    case Idle => false
    case Committing(mutations, _, _, _, done) => done < |mutations|
    case Reading(keys, _, _, _, seen, _, _) => |seen| < |keys|
  }

  predicate MayShare<K(!new), V>(c: Config<K>, a: Thread<K, V>, b: Thread<K, V>)
  {
    a.Reading? && b.Reading? && !c.exclusiveReads
  }

  predicate Holds<K, V>(th: Thread<K, V>, shard: nat) { !th.Idle? && shard in th.held }

  ghost predicate Init<K(!new), V>(s: Sys<K, V>)
  {
    s.kv == s.base && s.order == [] && s.answers == [] && forall i | 0 <= i < |s.threads| :: s.threads[i] == Idle
  }

  ghost predicate Enabled<K(!new), V>(c: Config<K>, s: Sys<K, V>, step: Step<K, V>)
  {
    && step.t < |s.threads|
    && var th := s.threads[step.t];
       match step
       case StartCommit(_, mutations) => th.Idle? && mutations != []
       case StartRead(_, _) => th.Idle?
       case Lock(t) =>
         && !th.Idle? && th.got < |th.want|
         && forall u | 0 <= u < |s.threads| && u != t :: Holds(s.threads[u], th.want[th.got])
                   ==> MayShare(c, th, s.threads[u])
       case ApplyOne(_) => th.Committing? && th.got == |th.want| && Working(th)
       case ReadOne(_) => th.Reading? && th.got == |th.want| && Working(th)
       case Unlock(_, shard) => !th.Idle? && !Working(th) && shard in th.held
       case Return(_) => !th.Idle? && !Working(th) && th.held == {}
  }

  ghost function Do<K(!new), V>(c: Config<K>, s: Sys<K, V>, step: Step<K, V>): Sys<K, V>
    requires Enabled(c, s, step)
  {
    var t := step.t;
    var th := s.threads[t];
    match step
    case StartCommit(_, mutations) =>
      s.(threads := s.threads[t := Committing(mutations, Touched(KeysOf(mutations), c.place), 0, {}, 0)])
    case StartRead(_, keys) =>
      s.(threads := s.threads[t := Reading(keys, Touched(keys, c.place), 0, {}, [], |s.order|, |s.order|)])
    case Lock(_) => Locked(s, t)
    case ApplyOne(_) =>
      s.(kv := Apply(s.kv, th.mutations[th.done]), threads := s.threads[t := th.(done := th.done + 1)])
    case ReadOne(_) =>
      s.(threads := s.threads[t := th.(seen := th.seen + [Lookup(s.kv, th.keys[|th.seen|])])])
    case Unlock(_, shard) => s.(threads := s.threads[t := th.(held := th.held - {shard})])
    case Return(_) =>
      s.(threads := s.threads[t := Idle],
         answers := if th.Reading? then s.answers + [Answer(th.keys, th.seen)] else s.answers)
  }

  /** The last lock makes a commit the newest, and fixes the commits a reader will see. */
  ghost function Locked<K(!new), V>(s: Sys<K, V>, t: nat): Sys<K, V>
    requires t < |s.threads| && !s.threads[t].Idle? && s.threads[t].got < |s.threads[t].want|
  {
    var th := s.threads[t];
    var next := th.(got := th.got + 1, held := th.held + {th.want[th.got]});
    var all := next.got == |th.want|;
    if th.Committing? then
      s.(threads := s.threads[t := next], order := if all then s.order + [th.mutations] else s.order)
    else
      s.(threads := s.threads[t := if all then next.(at := |s.order|) else next])
  }

  // ----- The map after some commits.

  ghost function After<K(!new), V>(base: map<K, V>, commits: seq<seq<Change<K, V>>>): map<K, V>
  {
    if commits == [] then base else ApplyAll(After(base, commits[..|commits| - 1]), commits[|commits| - 1])
  }

  lemma {:induction false} ApplyAllLocal<K(!new), V(!new)>(a: map<K, V>, b: map<K, V>, mutations: seq<Change<K, V>>,
        key: K)
    requires Lookup(a, key) == Lookup(b, key)
    ensures Lookup(ApplyAll(a, mutations), key) == Lookup(ApplyAll(b, mutations), key)
    decreases |mutations|
  {
    if mutations != [] {
      ApplyAllLocal(a, b, mutations[..|mutations| - 1], key);
    }
  }

  lemma ApplyFirst<K(!new), V(!new)>(m: map<K, V>, mutations: seq<Change<K, V>>, n: nat)
    requires n < |mutations|
    ensures ApplyAll(Apply(m, mutations[n]), mutations[n + 1..]) == ApplyAll(m, mutations[n..])
  {
    var first := [mutations[n]];
    assert mutations[n..] == first + mutations[n + 1..];
    ApplyAllConcat(m, first, mutations[n + 1..]);
    assert first[..0] == [];
    assert ApplyAll(m, first[..0]) == m;
  }

  // ----- The invariant.

  ghost predicate ThreadOk<K(!new), V(!new)>(c: Config<K>, s: Sys<K, V>, th: Thread<K, V>)
  {
    match th
    case Idle => true
    case Committing(mutations, want, got, held, done) =>
      && mutations != [] && Ascending(want) && got <= |want| && done <= |mutations| && (done > 0 ==> got == |want|)
      && (forall i | 0 <= i < |mutations| :: c.place(mutations[i].key) in want)
      && (Working(th) ==> forall x: nat :: x in held <==> x in want[..got])
    case Reading(keys, want, got, held, seen, since, at) =>
      && Ascending(want) && got <= |want| && |seen| <= |keys| && (|seen| > 0 ==> got == |want|) && (keys == [] ==> want == [])
      && since <= at <= |s.order|
      && (forall i | 0 <= i < |keys| :: c.place(keys[i]) in want)
      && (Working(th) ==> forall x: nat :: x in held <==> x in want[..got])
      && SeenOk(s, th)
  }

  /** What was read is as after the first `at` commits; what is still to be read has not changed since. */
  ghost predicate SeenOk<K(!new), V(!new)>(s: Sys<K, V>, th: Thread<K, V>)
    requires th.Reading? && |th.seen| <= |th.keys| && th.at <= |s.order|
  {
    var snapshot := After(s.base, s.order[..th.at]);
    && (forall i | 0 <= i < |th.seen| :: th.seen[i] == Lookup(snapshot, th.keys[i]))
    && (th.got == |th.want| && Working(th) ==>
          forall i | 0 <= i < |th.keys| :: Lookup(snapshot, th.keys[i]) == Lookup(After(s.base, s.order), th.keys[i]))
  }

  ghost predicate Exclusion<K(!new), V(!new)>(c: Config<K>, threads: seq<Thread<K, V>>)
  {
    forall t, u, x: nat | 0 <= t < |threads| && 0 <= u < |threads| && t != u ::
      Holds(threads[t], x) && Holds(threads[u], x) ==> MayShare(c, threads[t], threads[u])
  }

  /** A commit that has all its locks and mutations still to apply. */
  predicate Applying<K, V>(th: Thread<K, V>) { th.Committing? && th.got == |th.want| && Working(th) }

  /** A commit under way will complete the map at its keys. */
  ghost predicate WillComplete<K(!new), V(!new)>(c: Config<K>, s: Sys<K, V>, th: Thread<K, V>)
  {
    Applying(th) ==> forall k: K | c.place(k) in th.want ::
      Lookup(ApplyAll(s.kv, th.mutations[th.done..]), k) == Lookup(After(s.base, s.order), k)
  }

  ghost predicate InFlux<K(!new), V(!new)>(c: Config<K>, threads: seq<Thread<K, V>>, k: K)
  {
    exists t :: 0 <= t < |threads| && Applying(threads[t]) && c.place(k) in threads[t].want
  }

  /** Where no commit is under way the map is complete. */
  ghost predicate Settled<K(!new), V(!new)>(c: Config<K>, s: Sys<K, V>)
  {
    forall k: K :: InFlux(c, s.threads, k) || Lookup(s.kv, k) == Lookup(After(s.base, s.order), k)
  }

  ghost predicate Inv<K(!new), V(!new)>(c: Config<K>, s: Sys<K, V>)
  {
    && (forall t | 0 <= t < |s.threads| :: ThreadOk(c, s, s.threads[t]) && WillComplete(c, s, s.threads[t]))
    && Exclusion(c, s.threads) && Settled(c, s)
  }

  // ----- Each step keeps it.

  /** A step that changes neither the map nor the order. */
  lemma QuietKeeps<K(!new), V(!new)>(c: Config<K>, s: Sys<K, V>, t: nat, th: Thread<K, V>)
    requires Inv(c, s) && t < |s.threads| && !Applying(s.threads[t]) && !Applying(th)
    requires ThreadOk(c, s, th) && Exclusion(c, s.threads[t := th])
    ensures Inv(c, s.(threads := s.threads[t := th]))
  {
    hide ThreadOk, Exclusion, After, ApplyAll;
    var s' := s.(threads := s.threads[t := th]);
    forall u | 0 <= u < |s'.threads| ensures ThreadOk(c, s', s'.threads[u]) && WillComplete(c, s', s'.threads[u]) {
      SameThread(c, s, s', s'.threads[u]);
    }
    forall k: K ensures InFlux(c, s'.threads, k) || Lookup(s'.kv, k) == Lookup(After(s'.base, s'.order), k) {
      if u :| 0 <= u < |s.threads| && Applying(s.threads[u]) && c.place(k) in s.threads[u].want {
        assert s'.threads[u] == s.threads[u];
      }
    }
  }

  lemma SameThread<K(!new), V(!new)>(c: Config<K>, s: Sys<K, V>, s': Sys<K, V>, th: Thread<K, V>)
    requires ThreadOk(c, s, th) && s'.base == s.base && s'.order == s.order
    ensures ThreadOk(c, s', th)
  {
  }

  /** Holding no more than before cannot break exclusion; nor can a lock granted. */
  lemma ExclusionKept<K(!new), V(!new)>(c: Config<K>, threads: seq<Thread<K, V>>, t: nat, th: Thread<K, V>)
    requires Exclusion(c, threads) && t < |threads|
    requires !th.Idle? && !threads[t].Idle? ==> th.Reading? == threads[t].Reading?
    requires forall u, x: nat | 0 <= u < |threads| && u != t && Holds(th, x) && Holds(threads[u], x) ::
               Holds(threads[t], x) || MayShare(c, th, threads[u])
    ensures Exclusion(c, threads[t := th])
  {
    var threads' := threads[t := th];
    forall v, u, x: nat | 0 <= v < |threads| && 0 <= u < |threads| && v != u && Holds(threads'[v], x) && Holds(threads'[u], x)
      ensures MayShare(c, threads'[v], threads'[u])
    {
      if v == t {
        assert Holds(threads[u], x);
      } else if u == t {
        assert Holds(threads[v], x);
      }
    }
  }

  lemma StartKeeps<K(!new), V(!new)>(c: Config<K>, s: Sys<K, V>, step: Step<K, V>)
    requires Inv(c, s) && Enabled(c, s, step) && (step.StartCommit? || step.StartRead?)
    ensures Inv(c, Do(c, s, step))
  {
    hide After, ApplyAll, Exclusion;
    var th := Do(c, s, step).threads[step.t];
    if step.StartCommit? {
      PlacesTouched(c, KeysOf(step.mutations));
    } else {
      PlacesTouched(c, step.keys);
      assert step.keys == [] ==> Touched(step.keys, c.place) == [];
    }
    ExclusionKept(c, s.threads, step.t, th);
    QuietKeeps(c, s, step.t, th);
  }

  lemma PlacesTouched<K(!new)>(c: Config<K>, keys: seq<K>)
    ensures forall i | 0 <= i < |keys| :: c.place(keys[i]) in Touched(keys, c.place)
  {
    forall i | 0 <= i < |keys| ensures c.place(keys[i]) in Touched(keys, c.place) {
      assert keys[i] in keys;
    }
  }

  lemma LockExclusion<K(!new), V(!new)>(c: Config<K>, s: Sys<K, V>, t: nat)
    requires Inv(c, s) && Enabled(c, s, Lock(t))
    ensures Exclusion(c, Do(c, s, Lock(t)).threads)
  {
    hide After, ApplyAll, Exclusion, ThreadOk, WillComplete, Settled;
    ExclusionKept(c, s.threads, t, Do(c, s, Lock(t)).threads[t]);
  }

  /** All but a commit's last lock. */
  lemma LockKeeps<K(!new), V(!new)>(c: Config<K>, s: Sys<K, V>, t: nat)
    requires Inv(c, s) && Enabled(c, s, Lock(t))
    requires s.threads[t].Reading? || s.threads[t].got + 1 < |s.threads[t].want|
    ensures Inv(c, Do(c, s, Lock(t)))
  {
    hide After, ApplyAll, Exclusion;
    var th := Do(c, s, Lock(t)).threads[t];
    LockExclusion(c, s, t);
    HeldGrows(s.threads[t].want, s.threads[t].got);
    if th.Reading? {
      assert s.order[..|s.order|] == s.order;
    }
    assert ThreadOk(c, s, th);
    QuietKeeps(c, s, t, th);
  }

  lemma HeldGrows(want: seq<nat>, got: nat)
    requires got < |want|
    ensures forall x: nat :: x in want[..got + 1] <==> x in want[..got] || x == want[got]
  {
    assert want[..got + 1] == want[..got] + [want[got]];
  }

  lemma UnlockKeeps<K(!new), V(!new)>(c: Config<K>, s: Sys<K, V>, t: nat, shard: nat)
    requires Inv(c, s) && Enabled(c, s, Unlock(t, shard))
    ensures Inv(c, Do(c, s, Unlock(t, shard)))
  {
    hide After, ApplyAll, Exclusion;
    var th := Do(c, s, Unlock(t, shard)).threads[t];
    ExclusionKept(c, s.threads, t, th);
    assert ThreadOk(c, s, th);
    QuietKeeps(c, s, t, th);
  }

  lemma ReturnKeeps<K(!new), V(!new)>(c: Config<K>, s: Sys<K, V>, t: nat)
    requires Inv(c, s) && Enabled(c, s, Return(t))
    ensures Inv(c, Do(c, s, Return(t)))
  {
    hide After, ApplyAll, Exclusion;
    var quiet, s' := s.(threads := s.threads[t := Idle]), Do(c, s, Return(t));
    ExclusionKept(c, s.threads, t, Idle);
    QuietKeeps(c, s, t, Idle);
    forall u | 0 <= u < |s'.threads| ensures ThreadOk(c, s', s'.threads[u]) {
      SameThread(c, quiet, s', s'.threads[u]);
    }
  }

  /** No commit is under way in a shard that a thread at work holds. */
  lemma NotInFlux<K(!new), V(!new)>(c: Config<K>, s: Sys<K, V>, t: nat, k: K)
    requires Inv(c, s) && t < |s.threads| && Holds(s.threads[t], c.place(k)) && !Applying(s.threads[t])
    ensures !InFlux(c, s.threads, k)
  {
    hide After, ApplyAll;
    forall u | 0 <= u < |s.threads| && Applying(s.threads[u]) ensures c.place(k) !in s.threads[u].want {
      var th := s.threads[u];
      assert th.want[..th.got] == th.want;
      assert c.place(k) in th.want ==> Holds(th, c.place(k));
    }
  }

  lemma ReadKeeps<K(!new), V(!new)>(c: Config<K>, s: Sys<K, V>, t: nat)
    requires Inv(c, s) && Enabled(c, s, ReadOne(t))
    ensures Inv(c, Do(c, s, ReadOne(t)))
  {
    hide After, ApplyAll, Exclusion;
    var was, th := s.threads[t], Do(c, s, ReadOne(t)).threads[t];
    var key := was.keys[|was.seen|];
    assert was.want[..was.got] == was.want;
    assert Holds(was, c.place(key));
    NotInFlux(c, s, t, key);
    ExclusionKept(c, s.threads, t, th);
    assert ThreadOk(c, s, th);
    QuietKeeps(c, s, t, th);
  }

  /** Two commits under way touch different shards. */
  lemma ApplyingApart<K(!new), V(!new)>(c: Config<K>, s: Sys<K, V>, t: nat, u: nat, x: nat)
    requires Inv(c, s) && t < |s.threads| && u < |s.threads| && t != u
    requires Applying(s.threads[t]) && Applying(s.threads[u]) && x in s.threads[t].want
    ensures x !in s.threads[u].want
  {
    hide After, ApplyAll;
    var a, b := s.threads[t], s.threads[u];
    assert a.want[..a.got] == a.want && b.want[..b.got] == b.want;
    assert Holds(a, x) && (x in b.want ==> Holds(b, x));
  }

  lemma ApplyKeeps<K(!new), V(!new)>(c: Config<K>, s: Sys<K, V>, t: nat)
    requires Inv(c, s) && Enabled(c, s, ApplyOne(t))
    ensures Inv(c, Do(c, s, ApplyOne(t)))
  {
    hide After, ApplyAll, Exclusion;
    var was, s' := s.threads[t], Do(c, s, ApplyOne(t));
    ExclusionKept(c, s.threads, t, s'.threads[t]);
    ApplyFirst(s.kv, was.mutations, was.done);
    forall u | 0 <= u < |s'.threads| ensures ThreadOk(c, s', s'.threads[u]) && WillComplete(c, s', s'.threads[u]) {
      SameThread(c, s, s', s.threads[u]);
      if u != t && Applying(s.threads[u]) {
        OthersComplete(c, s, t, u);
      }
    }
    SettledAfterApply(c, s, t);
  }

  lemma OthersComplete<K(!new), V(!new)>(c: Config<K>, s: Sys<K, V>, t: nat, u: nat)
    requires Inv(c, s) && Enabled(c, s, ApplyOne(t)) && u < |s.threads| && u != t && Applying(s.threads[u])
    ensures WillComplete(c, Do(c, s, ApplyOne(t)), s.threads[u])
  {
    hide After, ApplyAll, Exclusion, Settled;
    var was, th, s' := s.threads[t], s.threads[u], Do(c, s, ApplyOne(t));
    var mu, rest := was.mutations[was.done], th.mutations[th.done..];
    ApplyingApart(c, s, t, u, c.place(mu.key));
    forall k: K | c.place(k) in th.want ensures Lookup(ApplyAll(s'.kv, rest), k) == Lookup(ApplyAll(s.kv, rest), k) {
      ApplyAllLocal(s'.kv, s.kv, rest, k);
    }
  }

  lemma SettledAfterApply<K(!new), V(!new)>(c: Config<K>, s: Sys<K, V>, t: nat)
    requires Inv(c, s) && Enabled(c, s, ApplyOne(t))
    ensures Settled(c, Do(c, s, ApplyOne(t)))
  {
    hide After, ApplyAll, Exclusion;
    var was, s' := s.threads[t], Do(c, s, ApplyOne(t));
    var mu := was.mutations[was.done];
    ApplyFirst(s.kv, was.mutations, was.done);
    forall k: K ensures InFlux(c, s'.threads, k) || Lookup(s'.kv, k) == Lookup(After(s'.base, s'.order), k) {
      if c.place(k) in was.want {
        if was.done + 1 < |was.mutations| {
          assert Applying(s'.threads[t]) && c.place(k) in s'.threads[t].want;
        } else {
          assert was.mutations[was.done + 1..] == [];
          NoChanges(s'.kv);
        }
      } else {
        assert k != mu.key;
        if u :| 0 <= u < |s.threads| && Applying(s.threads[u]) && c.place(k) in s.threads[u].want {
          assert s'.threads[u] == s.threads[u];
        }
      }
    }
  }

  lemma NoChanges<K(!new), V(!new)>(m: map<K, V>)
    ensures ApplyAll(m, []) == m
  {
  }

  // ----- A commit's last lock.

  lemma AfterOneMore<K(!new), V(!new)>(c: Config<K>, base: map<K, V>, order: seq<seq<Change<K, V>>>,
        mutations: seq<Change<K, V>>, want: seq<nat>, k: K)
    requires forall i | 0 <= i < |mutations| :: c.place(mutations[i].key) in want
    ensures After(base, order + [mutations]) == ApplyAll(After(base, order), mutations)
    ensures c.place(k) !in want ==> Lookup(After(base, order + [mutations]), k) == Lookup(After(base, order), k)
  {
    assert (order + [mutations])[..|order|] == order;
    if c.place(k) !in want {
      ApplyAllOther(After(base, order), mutations, k);
    }
  }

  lemma LastLockKeeps<K(!new), V(!new)>(c: Config<K>, s: Sys<K, V>, t: nat)
    requires Inv(c, s) && Enabled(c, s, Lock(t))
    requires s.threads[t].Committing? && s.threads[t].got + 1 == |s.threads[t].want|
    ensures Inv(c, Do(c, s, Lock(t)))
  {
    hide After, ApplyAll, Exclusion, ThreadOk, Settled, WillComplete;
    var s' := Do(c, s, Lock(t));
    LockExclusion(c, s, t);
    forall u | 0 <= u < |s'.threads| ensures ThreadOk(c, s', s'.threads[u]) && WillComplete(c, s', s'.threads[u]) {
      if u == t {
        NewestOk(c, s, t);
      } else {
        OthersOk(c, s, t, u);
      }
    }
    SettledAfterLock(c, s, t);
  }

  /** At the keys of a commit about to have its last lock no other commit is under way. */
  lemma AboutToCommit<K(!new), V(!new)>(c: Config<K>, s: Sys<K, V>, t: nat, k: K)
    requires Inv(c, s) && Enabled(c, s, Lock(t)) && s.threads[t].Committing?
              && s.threads[t].got + 1 == |s.threads[t].want|
    requires c.place(k) in s.threads[t].want
    ensures forall u | 0 <= u < |s.threads| && u != t :: !Holds(s.threads[u], c.place(k))
    ensures !InFlux(c, s.threads, k)
  {
    hide After, ApplyAll, Settled, WillComplete;
    var th, x := s.threads[t], c.place(k);
    HeldGrows(th.want, th.got);
    assert th.want[..th.got + 1] == th.want;
    assert Holds(th, x) || x == th.want[th.got];
    forall u | 0 <= u < |s.threads| && Applying(s.threads[u]) ensures x !in s.threads[u].want {
      var b := s.threads[u];
      assert b.want[..b.got] == b.want;
      assert x in b.want ==> Holds(b, x);
    }
  }

  lemma NewestOk<K(!new), V(!new)>(c: Config<K>, s: Sys<K, V>, t: nat)
    requires Inv(c, s) && Enabled(c, s, Lock(t)) && s.threads[t].Committing?
              && s.threads[t].got + 1 == |s.threads[t].want|
    ensures var s' := Do(c, s, Lock(t)); ThreadOk(c, s', s'.threads[t]) && WillComplete(c, s', s'.threads[t])
  {
    hide After, ApplyAll, Exclusion, InFlux;
    var th, s' := s.threads[t], Do(c, s, Lock(t));
    HeldGrows(th.want, th.got);
    assert th.mutations[0..] == th.mutations;
    forall k: K | c.place(k) in th.want
      ensures Lookup(ApplyAll(s.kv, th.mutations), k) == Lookup(After(s'.base, s'.order), k)
    {
      AboutToCommit(c, s, t, k);
      AfterOneMore(c, s.base, s.order, th.mutations, th.want, k);
      ApplyAllLocal(s.kv, After(s.base, s.order), th.mutations, k);
    }
  }

  lemma OthersOk<K(!new), V(!new)>(c: Config<K>, s: Sys<K, V>, t: nat, u: nat)
    requires Inv(c, s) && Enabled(c, s, Lock(t)) && s.threads[t].Committing?
              && s.threads[t].got + 1 == |s.threads[t].want|
    requires u < |s.threads| && u != t
    ensures var s' := Do(c, s, Lock(t)); ThreadOk(c, s', s.threads[u]) && WillComplete(c, s', s.threads[u])
  {
    hide After, ApplyAll, Exclusion, InFlux, Settled;
    var th, other, s' := s.threads[t], s.threads[u], Do(c, s, Lock(t));
    if !other.Idle? && other.got == |other.want| && Working(other) {
      assert other.want[..other.got] == other.want;
      forall k: K | c.place(k) in other.want ensures Lookup(After(s'.base, s'.order), k) == Lookup(After(s.base, s.order), k) {
        if c.place(k) in th.want {
          AboutToCommit(c, s, t, k);
          assert false;
        }
        AfterOneMore(c, s.base, s.order, th.mutations, th.want, k);
      }
    }
    if other.Reading? {
      assert s'.order[..other.at] == s.order[..other.at];
    }
  }

  lemma SettledAfterLock<K(!new), V(!new)>(c: Config<K>, s: Sys<K, V>, t: nat)
    requires Inv(c, s) && Enabled(c, s, Lock(t)) && s.threads[t].Committing?
              && s.threads[t].got + 1 == |s.threads[t].want|
    ensures Settled(c, Do(c, s, Lock(t)))
  {
    hide After, ApplyAll, Exclusion, WillComplete;
    var th, s' := s.threads[t], Do(c, s, Lock(t));
    forall k: K ensures InFlux(c, s'.threads, k) || Lookup(s'.kv, k) == Lookup(After(s'.base, s'.order), k) {
      if c.place(k) in th.want {
        assert Applying(s'.threads[t]) && c.place(k) in s'.threads[t].want;
      } else {
        AfterOneMore(c, s.base, s.order, th.mutations, th.want, k);
        if u :| 0 <= u < |s.threads| && Applying(s.threads[u]) && c.place(k) in s.threads[u].want {
          assert s'.threads[u] == s.threads[u];
        }
      }
    }
  }

  // ----- Whole runs.

  lemma StepKeeps<K(!new), V(!new)>(c: Config<K>, s: Sys<K, V>, step: Step<K, V>)
    requires Inv(c, s) && Enabled(c, s, step)
    ensures Inv(c, Do(c, s, step))
  {
    hide Inv, Do;
    match step
    case StartCommit(_, _) => StartKeeps(c, s, step);
    case StartRead(_, _) => StartKeeps(c, s, step);
    case Lock(t) =>
      if s.threads[t].Committing? && s.threads[t].got + 1 == |s.threads[t].want| {
        LastLockKeeps(c, s, t);
      } else {
        LockKeeps(c, s, t);
      }
    case ApplyOne(t) => ApplyKeeps(c, s, t);
    case ReadOne(t) => ReadKeeps(c, s, t);
    case Unlock(t, shard) => UnlockKeeps(c, s, t, shard);
    case Return(t) => ReturnKeeps(c, s, t);
  }

  ghost predicate IsRun<K(!new), V(!new)>(c: Config<K>, run: seq<Sys<K, V>>, steps: seq<Step<K, V>>)
  {
    && |run| == |steps| + 1 && Init(run[0])
    && forall i | 0 <= i < |steps| :: Enabled(c, run[i], steps[i]) && run[i + 1] == Do(c, run[i], steps[i])
  }

  lemma {:induction false} RunKeeps<K(!new), V(!new)>(c: Config<K>, run: seq<Sys<K, V>>, steps: seq<Step<K, V>>, n: nat)
    requires IsRun(c, run, steps) && n < |run|
    ensures Inv(c, run[n])
  {
    if n == 0 {
      NoChanges(run[0].base);
    } else {
      hide Inv, Do, Enabled;
      RunKeeps(c, run, steps, n - 1);
      StepKeeps(c, run[n - 1], steps[n - 1]);
    }
  }

  // ----- What the threads asked for.

  /** The mutation lists of the commits begun, and the keys of the reads begun. */
  ghost function Commits<K(!new), V(!new)>(steps: seq<Step<K, V>>): seq<seq<Change<K, V>>>
  {
    if steps == [] then []
    else
      var last := steps[|steps| - 1];
      Commits(steps[..|steps| - 1]) + if last.StartCommit? then [last.mutations] else []
  }

  ghost function Asked<K(!new), V(!new)>(steps: seq<Step<K, V>>): seq<seq<K>>
  {
    if steps == [] then []
    else
      var last := steps[|steps| - 1];
      Asked(steps[..|steps| - 1]) + if last.StartRead? then [last.keys] else []
  }

  ghost function AnsweredKeys<K(!new), V(!new)>(answers: seq<Answer<K, V>>): seq<seq<K>>
  {
    seq(|answers|, i requires 0 <= i < |answers| => answers[i].keys)
  }

  /** A commit of `m` that is not yet in the order; a read of `keys` that is not yet answered. */
  ghost function Waits<K(!new), V(!new)>(th: Thread<K, V>, m: seq<Change<K, V>>): nat
  {
    if th.Committing? && th.mutations == m && th.got < |th.want| then 1 else 0
  }

  ghost function Reads<K(!new), V(!new)>(th: Thread<K, V>, keys: seq<K>): nat
  {
    if th.Reading? && th.keys == keys then 1 else 0
  }

  ghost function Waiting<K(!new), V(!new)>(threads: seq<Thread<K, V>>, m: seq<Change<K, V>>): nat
  {
    if threads == [] then 0 else Waiting(threads[..|threads| - 1], m) + Waits(threads[|threads| - 1], m)
  }

  ghost function ReadsOpen<K(!new), V(!new)>(threads: seq<Thread<K, V>>, keys: seq<K>): nat
  {
    if threads == [] then 0 else ReadsOpen(threads[..|threads| - 1], keys) + Reads(threads[|threads| - 1], keys)
  }

  lemma {:induction false} CountsUpdate<K(!new), V(!new)>(threads: seq<Thread<K, V>>, t: nat, th: Thread<K, V>,
        m: seq<Change<K, V>>, keys: seq<K>)
    requires t < |threads|
    ensures Waiting(threads[t := th], m) + Waits(threads[t], m) == Waiting(threads, m) + Waits(th, m)
    ensures ReadsOpen(threads[t := th], keys) + Reads(threads[t], keys) == ReadsOpen(threads, keys) + Reads(th, keys)
  {
    hide Waits, Reads;
    var last := |threads| - 1;
    if t == last {
      assert threads[t := th][..last] == threads[..last];
    } else {
      assert threads[t := th][..last] == threads[..last][t := th];
      CountsUpdate(threads[..last], t, th, m, keys);
    }
  }

  lemma {:induction false} NoneWaiting<K(!new), V(!new)>(threads: seq<Thread<K, V>>, m: seq<Change<K, V>>, keys: seq<K>)
    requires forall t | 0 <= t < |threads| :: threads[t].Idle?
    ensures Waiting(threads, m) == 0 && ReadsOpen(threads, keys) == 0
  {
    if threads != [] {
      NoneWaiting(threads[..|threads| - 1], m, keys);
    }
  }

  ghost function Times<T(!new)>(s: seq<T>, x: T): nat { multiset(s)[x] }

  lemma TimesSnoc<T(!new)>(s: seq<T>, y: T, x: T)
    ensures Times(s + [y], x) == Times(s, x) + if y == x then 1 else 0
  {
  }

  /** Commits begun are in the order or waiting to be, reads begun are answered or open. */
  ghost predicate Counted<K(!new), V(!new)>(s: Sys<K, V>, steps: seq<Step<K, V>>, m: seq<Change<K, V>>, keys: seq<K>)
  {
    && Times(s.order, m) + Waiting(s.threads, m) == Times(Commits(steps), m)
    && Times(AnsweredKeys(s.answers), keys) + ReadsOpen(s.threads, keys) == Times(Asked(steps), keys)
  }

  lemma AskedSnoc<K(!new), V(!new)>(steps: seq<Step<K, V>>, step: Step<K, V>)
    ensures Commits(steps + [step]) == if step.StartCommit? then Commits(steps) + [step.mutations] else Commits(steps)
    ensures Asked(steps + [step]) == if step.StartRead? then Asked(steps) + [step.keys] else Asked(steps)
  {
    assert (steps + [step])[..|steps|] == steps;
  }

  /** What a step adds to the order and to the answers. */
  lemma StepAdds<K(!new), V(!new)>(c: Config<K>, s: Sys<K, V>, step: Step<K, V>)
    requires Inv(c, s) && Enabled(c, s, step)
    ensures var s', th := Do(c, s, step), s.threads[step.t];
            && s'.base == s.base && |s'.threads| == |s.threads| && s'.threads == s.threads[step.t := s'.threads[step.t]]
            && s'.order ==
               (if step.Lock? && th.Committing? && th.got + 1 == |th.want| then s.order + [th.mutations] else s.order)
            && AnsweredKeys(s'.answers) ==
               if step.Return? && th.Reading? then AnsweredKeys(s.answers) + [th.keys] else AnsweredKeys(s.answers)
  {
    hide Inv, Apply, Touched, After;
  }

  lemma StepCounts<K(!new), V(!new)>(c: Config<K>, s: Sys<K, V>, step: Step<K, V>, m: seq<Change<K, V>>, keys: seq<K>)
    requires Inv(c, s) && Enabled(c, s, step)
    ensures var s', th, th' := Do(c, s, step), s.threads[step.t], Do(c, s, step).threads[step.t];
            && Waits(th', m)
               + (if step.Lock? && th.Committing? && th.got + 1 == |th.want| && th.mutations == m then 1 else 0)
               == Waits(th, m) + (if step.StartCommit? && step.mutations == m then 1 else 0)
            && Reads(th', keys) + (if step.Return? && th.Reading? && th.keys == keys then 1 else 0)
               == Reads(th, keys) + (if step.StartRead? && step.keys == keys then 1 else 0)
  {
    hide Apply, After, Exclusion, Settled, WillComplete, SeenOk;
    assert ThreadOk(c, s, s.threads[step.t]);
    if step.StartCommit? {
      PlacesTouched(c, KeysOf(step.mutations));
      assert c.place(KeysOf(step.mutations)[0]) in Touched(KeysOf(step.mutations), c.place);
    }
  }

  lemma StepCounted<K(!new), V(!new)>(c: Config<K>, s: Sys<K, V>, steps: seq<Step<K, V>>, step: Step<K, V>,
        m: seq<Change<K, V>>, keys: seq<K>)
    requires Inv(c, s) && Enabled(c, s, step) && Counted(s, steps, m, keys)
    ensures Counted(Do(c, s, step), steps + [step], m, keys)
  {
    hide Inv, Enabled, Do, Waiting, ReadsOpen, Times, AnsweredKeys, Commits, Asked, Waits, Reads;
    StepThread(c, s, step);
    var s', th := Do(c, s, step), s.threads[step.t];
    StepAdds(c, s, step);
    StepCounts(c, s, step, m, keys);
    CountsUpdate(s.threads, step.t, s'.threads[step.t], m, keys);
    AskedSnoc(steps, step);
    if step.Lock? && th.Committing? {
      TimesSnoc(s.order, th.mutations, m);
    } else if step.Return? && th.Reading? {
      TimesSnoc(AnsweredKeys(s.answers), th.keys, keys);
    } else if step.StartCommit? {
      TimesSnoc(Commits(steps), step.mutations, m);
    } else if step.StartRead? {
      TimesSnoc(Asked(steps), step.keys, keys);
    }
  }

  lemma RunLength<K(!new), V(!new)>(c: Config<K>, run: seq<Sys<K, V>>, steps: seq<Step<K, V>>)
    requires IsRun(c, run, steps)
    ensures |run| == |steps| + 1
  {
    hide Init, Enabled, Do;
  }

  lemma OneStep<K(!new), V(!new)>(c: Config<K>, run: seq<Sys<K, V>>, steps: seq<Step<K, V>>, i: nat)
    requires IsRun(c, run, steps) && i < |steps|
    ensures Enabled(c, run[i], steps[i]) && run[i + 1] == Do(c, run[i], steps[i])
  {
    hide Enabled, Do, Init;
  }

  lemma NothingCounted<K(!new), V(!new)>(c: Config<K>, run: seq<Sys<K, V>>, steps: seq<Step<K, V>>,
        m: seq<Change<K, V>>, keys: seq<K>)
    requires IsRun(c, run, steps)
    ensures Counted(run[0], [], m, keys)
  {
    hide Enabled, Do;
    NoneWaiting(run[0].threads, m, keys);
  }

  lemma {:induction false} RunCounts<K(!new), V(!new)>(c: Config<K>, run: seq<Sys<K, V>>, steps: seq<Step<K, V>>, n: nat,
        m: seq<Change<K, V>>, keys: seq<K>)
    requires IsRun(c, run, steps) && n < |run|
    ensures Counted(run[n], steps[..n], m, keys)
  {
    hide IsRun, Inv, Enabled, Do, Counted;
    RunLength(c, run, steps);
    if n == 0 {
      NothingCounted(c, run, steps, m, keys);
      assert steps[..0] == [];
    } else {
      RunCounts(c, run, steps, n - 1, m, keys);
      RunKeeps(c, run, steps, n - 1);
      OneStep(c, run, steps, n - 1);
      StepCounted(c, run[n - 1], steps[..n - 1], steps[n - 1], m, keys);
      assert steps[..n - 1] + [steps[n - 1]] == steps[..n];
    }
  }

  ghost predicate AllIdle<K(!new), V(!new)>(s: Sys<K, V>) { forall t | 0 <= t < |s.threads| :: s.threads[t].Idle? }

  lemma SameTimes<T(!new)>(a: seq<T>, b: seq<T>)
    requires forall x: T :: Times(a, x) == Times(b, x)
    ensures multiset(a) == multiset(b)
  {
    forall x: T ensures multiset(a)[x] == multiset(b)[x] {
      assert Times(a, x) == Times(b, x);
    }
  }

  // ----- A call, from its first step to its return.

  predicate Starts<K, V>(step: Step<K, V>) { step.StartCommit? || step.StartRead? }

  /** Step `a` begins a call and step `b` returns from it. */
  ghost predicate Call<K(!new), V(!new)>(steps: seq<Step<K, V>>, a: nat, b: nat)
  {
    && a < b < |steps| && Starts(steps[a]) && steps[b].Return? && steps[a].t == steps[b].t
    && forall i | a < i < b && steps[i].t == steps[a].t :: !Starts(steps[i]) && !steps[i].Return?
  }

  /** What a thread is doing it was asked at step `a`; a commit with all its locks has its place in the order. */
  ghost predicate Began<K(!new), V(!new)>(s: Sys<K, V>, th: Thread<K, V>, first: Step<K, V>, since: nat)
  {
    match th
    case Idle => false
    case Committing(mutations, want, got, _, _) =>
      && first.StartCommit? && first.mutations == mutations
      && (got == |want| ==> exists p :: since <= p < |s.order| && s.order[p] == mutations)
    case Reading(keys, _, _, _, _, from, _) => first.StartRead? && first.keys == keys && from == since
  }

  lemma StepBegan<K(!new), V(!new)>(c: Config<K>, s: Sys<K, V>, step: Step<K, V>, t: nat, first: Step<K, V>, since: nat)
    requires Inv(c, s) && Enabled(c, s, step) && t < |s.threads| && since <= |s.order|
    requires Began(s, s.threads[t], first, since) && (step.t == t ==> !step.Return?)
    ensures Began(Do(c, s, step), Do(c, s, step).threads[t], first, since)
  {
    hide Inv, Apply, Touched, After;
    var s', th := Do(c, s, step), s.threads[t];
    StepAdds(c, s, step);
    assert s.order <= s'.order;
    if th.Committing? && step == Lock(t) && th.got + 1 == |th.want| {
      assert s'.order[|s.order|] == th.mutations;
    } else if th.Committing? && th.got == |th.want| {
      var p :| since <= p < |s.order| && s.order[p] == th.mutations;
      assert s'.order[p] == th.mutations;
    }
  }

  lemma StartsBegin<K(!new), V(!new)>(c: Config<K>, s: Sys<K, V>, step: Step<K, V>)
    requires Enabled(c, s, step) && Starts(step)
    ensures Began(Do(c, s, step), Do(c, s, step).threads[step.t], step, |s.order|)
  {
    if step.StartCommit? {
      PlacesTouched(c, KeysOf(step.mutations));
      assert c.place(KeysOf(step.mutations)[0]) in Touched(KeysOf(step.mutations), c.place);
    }
  }

  lemma {:induction false} OrderGrows<K(!new), V(!new)>(c: Config<K>, run: seq<Sys<K, V>>, steps: seq<Step<K, V>>,
        a: nat, n: nat)
    requires IsRun(c, run, steps) && a <= n < |run|
    ensures run[a].order <= run[n].order && run[n].base == run[a].base && |run[n].threads| == |run[a].threads|
    decreases n
  {
    hide Inv, Enabled, Do, Init;
    if a < n {
      OrderGrows(c, run, steps, a, n - 1);
      RunKeeps(c, run, steps, n - 1);
      StepAdds(c, run[n - 1], steps[n - 1]);
    }
  }

  lemma {:induction false} CallGoesOn<K(!new), V(!new)>(c: Config<K>, run: seq<Sys<K, V>>, steps: seq<Step<K, V>>,
        a: nat, b: nat, n: nat)
    requires IsRun(c, run, steps) && Call(steps, a, b) && a < n <= b
    ensures steps[a].t < |run[n].threads|
    ensures Began(run[n], run[n].threads[steps[a].t], steps[a], |run[a].order|)
    decreases n
  {
    hide Inv, Enabled, Do, Init, Began;
    var t := steps[a].t;
    OrderGrows(c, run, steps, a, n - 1);
    OrderGrows(c, run, steps, a, n);
    assert t < |run[a].threads| by { StepThread(c, run[a], steps[a]); }
    if n == a + 1 {
      StartsBegin(c, run[a], steps[a]);
    } else {
      CallGoesOn(c, run, steps, a, b, n - 1);
      RunKeeps(c, run, steps, n - 1);
      StepBegan(c, run[n - 1], steps[n - 1], t, steps[a], |run[a].order|);
    }
  }

  lemma StepThread<K(!new), V(!new)>(c: Config<K>, s: Sys<K, V>, step: Step<K, V>)
    requires Enabled(c, s, step)
    ensures step.t < |s.threads|
  {
  }

  // ----- What the callers get.

  /** What the first `n` commits make of some keys. */
  ghost function Answers<K(!new), V(!new)>(base: map<K, V>, commits: seq<seq<Change<K, V>>>, keys: seq<K>): seq<Option<V>>
  {
    seq(|keys|, i requires 0 <= i < |keys| => Lookup(After(base, commits), keys[i]))
  }

  /**
    A multi-key read answers what its keys were in one map: the one after the first `n` commits, for some `n`
    between its call and its return. A commit half applied is never seen.
   */
  lemma ReadsAreAtomic<K(!new), V(!new)>(c: Config<K>, run: seq<Sys<K, V>>, steps: seq<Step<K, V>>, a: nat, b: nat)
    requires IsRun(c, run, steps) && Call(steps, a, b) && steps[a].StartRead?
    ensures exists n: nat ::
              && |run[a].order| <= n <= |run[b].order|
              && run[b + 1].answers ==
                 run[b].answers + [Answer(steps[a].keys, Answers(run[0].kv, run[b].order[..n], steps[a].keys))]
  {
    hide Inv, After, Call, IsRun;
    RunLength(c, run, steps);
    CallEnds(steps, a, b);
    OneStep(c, run, steps, b);
    OrderGrows(c, run, steps, 0, b);
    FirstIsBase(c, run, steps);
    CallGoesOn(c, run, steps, a, b, b);
    RunKeeps(c, run, steps, b);
    ReadReturns(c, run[b], steps[b].t);
  }

  lemma CallEnds<K(!new), V(!new)>(steps: seq<Step<K, V>>, a: nat, b: nat)
    requires Call(steps, a, b)
    ensures a < b < |steps| && steps[b] == Return(steps[a].t)
  {
  }

  lemma FirstIsBase<K(!new), V(!new)>(c: Config<K>, run: seq<Sys<K, V>>, steps: seq<Step<K, V>>)
    requires IsRun(c, run, steps)
    ensures run[0].kv == run[0].base && run[0].order == []
  {
  }

  lemma ReadReturns<K(!new), V(!new)>(c: Config<K>, s: Sys<K, V>, t: nat)
    requires Inv(c, s) && Enabled(c, s, Return(t)) && s.threads[t].Reading?
    ensures var th := s.threads[t];
            && th.since <= th.at <= |s.order|
            && Do(c, s, Return(t)).answers == s.answers + [Answer(th.keys, Answers(s.base, s.order[..th.at], th.keys))]
  {
    hide After, Exclusion, Settled, WillComplete;
    var th := s.threads[t];
    assert ThreadOk(c, s, th);
    assert th.seen == Answers(s.base, s.order[..th.at], th.keys);
  }

  /** A commit takes its place in the order between its call and its return, so after every commit returned before. */
  lemma CommitsInTime<K(!new), V(!new)>(c: Config<K>, run: seq<Sys<K, V>>, steps: seq<Step<K, V>>, a: nat, b: nat)
    requires IsRun(c, run, steps) && Call(steps, a, b) && steps[a].StartCommit?
    ensures exists p :: |run[a].order| <= p < |run[b].order| && run[b].order[p] == steps[a].mutations
  {
    hide Call, IsRun, Do;
    RunLength(c, run, steps);
    CallEnds(steps, a, b);
    OneStep(c, run, steps, b);
    CallGoesOn(c, run, steps, a, b, b);
    RunKeeps(c, run, steps, b);
    assert ThreadOk(c, run[b], run[b].threads[steps[b].t]);
  }

  /**
    When no thread is in a call, every commit begun is in the order once and nothing else, every read begun is
    answered once, and the map is that of the commits one after the other.
   */
  lemma WritesAreSerial<K(!new), V(!new)>(c: Config<K>, run: seq<Sys<K, V>>, steps: seq<Step<K, V>>)
    requires IsRun(c, run, steps) && AllIdle(run[|steps|])
    ensures var s := run[|steps|];
            && s.kv == After(run[0].kv, s.order) && multiset(s.order) == multiset(Commits(steps))
            && multiset(AnsweredKeys(s.answers)) == multiset(Asked(steps))
  {
    hide After, IsRun, Times, Commits, Asked, AnsweredKeys;
    var n := |steps|;
    RunLength(c, run, steps);
    var s := run[n];
    FirstIsBase(c, run, steps);
    OrderGrows(c, run, steps, 0, n);
    RunKeeps(c, run, steps, n);
    QuietMap(c, s);
    assert steps[..n] == steps;
    forall m: seq<Change<K, V>> ensures Times(s.order, m) == Times(Commits(steps), m) {
      RunCounts(c, run, steps, n, m, []);
      NoneWaiting(s.threads, m, []);
    }
    forall keys: seq<K> ensures Times(AnsweredKeys(s.answers), keys) == Times(Asked(steps), keys) {
      RunCounts(c, run, steps, n, [], keys);
      NoneWaiting(s.threads, [], keys);
    }
    SameTimes(s.order, Commits(steps));
    SameTimes(AnsweredKeys(s.answers), Asked(steps));
  }

  lemma QuietMap<K(!new), V(!new)>(c: Config<K>, s: Sys<K, V>)
    requires Inv(c, s) && AllIdle(s)
    ensures s.kv == After(s.base, s.order)
  {
    hide After;
    var end := After(s.base, s.order);
    forall k: K ensures Lookup(s.kv, k) == Lookup(end, k) {
      assert !InFlux(c, s.threads, k);
    }
    forall k: K ensures (k in s.kv <==> k in end) && (k in s.kv ==> s.kv[k] == end[k]) {
      assert Lookup(s.kv, k) == Lookup(end, k);
    }
  }

  // ----- No call waits for ever.

  /** A thread in a call that waits for a lock. */
  predicate WantsLock<K, V>(th: Thread<K, V>) { !th.Idle? && Working(th) && th.got < |th.want| }

  lemma {:induction false} HighestWanted<K(!new), V(!new)>(threads: seq<Thread<K, V>>, n: nat) returns (t: nat)
    requires n <= |threads| && exists u :: 0 <= u < n && WantsLock(threads[u])
    ensures t < n && WantsLock(threads[t])
    ensures forall u | 0 <= u < n && WantsLock(threads[u]) ::
              threads[u].want[threads[u].got] <= threads[t].want[threads[t].got]
  {
    if u :| 0 <= u < n - 1 && WantsLock(threads[u]) {
      t := HighestWanted(threads, n - 1);
      var th := threads[n - 1];
      if WantsLock(th) && th.want[th.got] > threads[t].want[threads[t].got] {
        t := n - 1;
      }
    } else {
      t := n - 1;
    }
  }

  /** As long as a call has not returned, one of those under way can go on. */
  lemma SomeoneCanGoOn<K(!new), V(!new)>(c: Config<K>, s: Sys<K, V>)
    requires Inv(c, s) && !AllIdle(s)
    ensures exists step :: Enabled(c, s, step) && !Starts(step)
  {
    hide After, ApplyAll, Exclusion, Settled, WillComplete, SeenOk;
    var t :| 0 <= t < |s.threads| && !s.threads[t].Idle?;
    if u :| 0 <= u < |s.threads| && !s.threads[u].Idle? && !Working(s.threads[u]) {
      CanLeave(c, s, u);
    } else if u :| 0 <= u < |s.threads| && !s.threads[u].Idle? && s.threads[u].got == |s.threads[u].want| {
      assert Working(s.threads[u]);
      assert Enabled(c, s, if s.threads[u].Committing? then ApplyOne(u) else ReadOne(u));
    } else {
      assert ThreadOk(c, s, s.threads[t]);
      assert WantsLock(s.threads[t]);
      var h := HighestWanted(s.threads, |s.threads|);
      var lock := s.threads[h].want[s.threads[h].got];
      forall u | 0 <= u < |s.threads| ensures !Holds(s.threads[u], lock) {
        assert ThreadOk(c, s, s.threads[u]);
        if Holds(s.threads[u], lock) {
          HeldIsLower(s.threads[u].want, s.threads[u].got, lock);
        }
      }
      assert Enabled(c, s, Lock(h));
    }
  }

  lemma HeldIsLower(want: seq<nat>, got: nat, lock: nat)
    requires Ascending(want) && got < |want| && lock in want[..got]
    ensures lock < want[got]
  {
  }

  lemma CanLeave<K(!new), V(!new)>(c: Config<K>, s: Sys<K, V>, t: nat)
    requires t < |s.threads| && !s.threads[t].Idle? && !Working(s.threads[t])
    ensures exists step :: Enabled(c, s, step) && !Starts(step)
  {
    if s.threads[t].held == {} {
      assert Enabled(c, s, Return(t));
    } else {
      var shard :| shard in s.threads[t].held;
      assert Enabled(c, s, Unlock(t, shard));
    }
  }

  /** How many steps a call has left at most. */
  ghost function Left<K(!new), V(!new)>(th: Thread<K, V>): int
  {
    match th
    case Idle => 0
    case Committing(mutations, want, got, held, done) => 1 + |held| + 2 * (|want| - got) + |mutations| - done
    case Reading(keys, want, got, held, seen, _, _) => 1 + |held| + 2 * (|want| - got) + |keys| - |seen|
  }

  /** And every step of a call brings it nearer to its return. */
  lemma EveryStepCounts<K(!new), V(!new)>(c: Config<K>, s: Sys<K, V>, step: Step<K, V>)
    requires Inv(c, s) && Enabled(c, s, step) && !Starts(step)
    ensures 0 <= Left(Do(c, s, step).threads[step.t]) < Left(s.threads[step.t])
    ensures forall u | 0 <= u < |s.threads| && u != step.t :: Do(c, s, step).threads[u] == s.threads[u]
  {
    hide After, ApplyAll, Apply, Exclusion, Settled, WillComplete, SeenOk;
    assert ThreadOk(c, s, s.threads[step.t]);
  }

  // ----- So every call can be brought to its return.

  ghost function AllLeft<K(!new), V(!new)>(threads: seq<Thread<K, V>>): int
  {
    if threads == [] then 0 else AllLeft(threads[..|threads| - 1]) + Left(threads[|threads| - 1])
  }

  lemma {:induction false} AllLeftUpdate<K(!new), V(!new)>(threads: seq<Thread<K, V>>, t: nat, th: Thread<K, V>)
    requires t < |threads|
    ensures AllLeft(threads[t := th]) == AllLeft(threads) - Left(threads[t]) + Left(th)
  {
    hide Left;
    var last := |threads| - 1;
    if t == last {
      assert threads[t := th][..last] == threads[..last];
    } else {
      assert threads[t := th][..last] == threads[..last][t := th];
      AllLeftUpdate(threads[..last], t, th);
    }
  }

  lemma {:induction false} AllLeftPositive<K(!new), V(!new)>(c: Config<K>, s: Sys<K, V>, n: nat)
    requires Inv(c, s) && n <= |s.threads|
    ensures AllLeft(s.threads[..n]) >= 0
  {
    hide After, ApplyAll, Exclusion, Settled, WillComplete, SeenOk;
    if n > 0 {
      AllLeftPositive(c, s, n - 1);
      assert s.threads[..n][..n - 1] == s.threads[..n - 1];
      assert ThreadOk(c, s, s.threads[n - 1]);
    }
  }

  lemma Extend<K(!new), V(!new)>(c: Config<K>, run: seq<Sys<K, V>>, steps: seq<Step<K, V>>, step: Step<K, V>)
    returns (run': seq<Sys<K, V>>, steps': seq<Step<K, V>>)
    requires IsRun(c, run, steps) && |run| == |steps| + 1 && Enabled(c, run[|steps|], step)
    ensures IsRun(c, run', steps') && steps' == steps + [step] && run' == run + [Do(c, run[|steps|], step)]
  {
    hide Do, Enabled, Init;
    run', steps' := run + [Do(c, run[|steps|], step)], steps + [step];
  }

  /** From any state of any run, without new calls, to one with no call under way. */
  lemma {:induction false} RunsToIdle<K(!new), V(!new)>(c: Config<K>, run: seq<Sys<K, V>>, steps: seq<Step<K, V>>)
    returns (run': seq<Sys<K, V>>, steps': seq<Step<K, V>>)
    requires IsRun(c, run, steps)
    ensures IsRun(c, run', steps') && run <= run' && steps <= steps' && AllIdle(run'[|steps'|])
    ensures forall i | |steps| <= i < |steps'| :: !Starts(steps'[i])
    decreases AllLeft(run[|steps|].threads)
  {
    hide IsRun, Inv, Enabled, Do, AllLeft, Left, AllIdle;
    RunLength(c, run, steps);
    var s := run[|steps|];
    RunKeeps(c, run, steps, |steps|);
    if AllIdle(s) {
      run', steps' := run, steps;
    } else {
      SomeoneCanGoOn(c, s);
      var step :| Enabled(c, s, step) && !Starts(step);
      StepThread(c, s, step);
      EveryStepCounts(c, s, step);
      StepAdds(c, s, step);
      AllLeftUpdate(s.threads, step.t, Do(c, s, step).threads[step.t]);
      AllLeftPositive(c, s, |s.threads|);
      assert s.threads[..|s.threads|] == s.threads;
      run', steps' := Extend(c, run, steps, step);
      RunLength(c, run', steps');
      run', steps' := RunsToIdle(c, run', steps');
    }
  }

  /** In any state of any run a thread that is in no call can commit whatever it likes. */
  lemma AnyCommit<K(!new), V(!new)>(c: Config<K>, run: seq<Sys<K, V>>, steps: seq<Step<K, V>>, t: nat,
        mutations: seq<Change<K, V>>)
    returns (run': seq<Sys<K, V>>, steps': seq<Step<K, V>>)
    requires IsRun(c, run, steps) && t < |run[|steps|].threads| && run[|steps|].threads[t].Idle? && mutations != []
    ensures IsRun(c, run', steps') && run <= run' && steps + [StartCommit(t, mutations)] <= steps'
    ensures AllIdle(run'[|steps'|]) && forall i | |steps| < i < |steps'| :: !Starts(steps'[i])
  {
    hide IsRun, Do, AllIdle;
    RunLength(c, run, steps);
    assert Enabled(c, run[|steps|], StartCommit(t, mutations));
    run', steps' := Extend(c, run, steps, StartCommit(t, mutations));
    run', steps' := RunsToIdle(c, run', steps');
  }

  /** And read whatever it likes. */
  lemma AnyRead<K(!new), V(!new)>(c: Config<K>, run: seq<Sys<K, V>>, steps: seq<Step<K, V>>, t: nat, keys: seq<K>)
    returns (run': seq<Sys<K, V>>, steps': seq<Step<K, V>>)
    requires IsRun(c, run, steps) && t < |run[|steps|].threads| && run[|steps|].threads[t].Idle?
    ensures IsRun(c, run', steps') && run <= run' && steps + [StartRead(t, keys)] <= steps'
    ensures AllIdle(run'[|steps'|]) && forall i | |steps| < i < |steps'| :: !Starts(steps'[i])
  {
    hide IsRun, Do, AllIdle;
    RunLength(c, run, steps);
    assert Enabled(c, run[|steps|], StartRead(t, keys));
    run', steps' := Extend(c, run, steps, StartRead(t, keys));
    run', steps' := RunsToIdle(c, run', steps');
  }
}
