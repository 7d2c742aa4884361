/**
  The sharded map: one map spread over shards by key, in any of its lock modes, with or without eviction. Calls
  do not overlap here.
 */
module ShardedMap {
  import opened Bytes
  import opened Kv
  import opened LruCache
  import opened Shards

  datatype LockMode = Unlocked | GlobalMutex | GlobalShared | Sharded

  type Count = n: nat | n > 0 witness 1

  const ENTRY_OVERHEAD_BYTES := 192

  // ----- Shards that together are one map.

  /** Each key is in its own shard or nowhere, and the shards together hold these contents. */
  ghost predicate Spread<K(!new), V(!new)>(shards: seq<Shard<K, V>>, place: K -> nat, contents: map<K, V>)
  {
    && (forall k: K :: place(k) < |shards|)
    && (forall i, k: K | 0 <= i < |shards| ::
          Lookup(shards[i].m, k) == if place(k) == i then Lookup(contents, k) else None)
  }

  ghost predicate EachOk<K(!new), V(!new)>(shards: seq<Shard<K, V>>, cost: (K, V) -> nat, evicting: bool)
  {
    forall i | 0 <= i < |shards| :: ShardOk(shards[i], cost) && shards[i].policy.Some? == evicting
  }

  ghost predicate EachWithin<K(!new), V(!new)>(shards: seq<Shard<K, V>>, budget: nat)
  {
    forall i | 0 <= i < |shards| :: WithinBudget(shards[i], budget)
  }

  lemma ReplaceShard<K(!new), V(!new)>(shards: seq<Shard<K, V>>, place: K -> nat, contents: map<K, V>, i: nat,
        sh: Shard<K, V>, after: map<K, V>)
    requires Spread(shards, place, contents) && i < |shards|
    requires forall k: K :: Lookup(sh.m, k) == if place(k) == i then Lookup(after, k) else None
    requires forall k: K :: place(k) != i ==> Lookup(after, k) == Lookup(contents, k)
    ensures Spread(shards[i := sh], place, after)
  {
  }

  lemma ChangeSpreads<K(!new), V(!new)>(shards: seq<Shard<K, V>>, place: K -> nat, contents: map<K, V>,
        cost: (K, V) -> nat, mu: Change<K, V>)
    requires Spread(shards, place, contents)
    ensures var i := place(mu.key); Spread(shards[i := ChangeEntry(shards[i], cost, mu)], place, Apply(contents, mu))
  {
    var i := place(mu.key);
    var sh := ChangeEntry(shards[i], cost, mu);
    forall k: K ensures Lookup(sh.m, k) == if place(k) == i then Lookup(Apply(contents, mu), k) else None {
      assert Lookup(shards[i].m, k) == if place(k) == i then Lookup(contents, k) else None;
    }
    ReplaceShard(shards, place, contents, i, sh, Apply(contents, mu));
  }

  function Dropped<K(==), V>(m: map<K, V>, was: map<K, V>, now: map<K, V>): map<K, V> { m - (was.Keys - now.Keys) }

  lemma InShard<K(!new), V(!new)>(shards: seq<Shard<K, V>>, place: K -> nat, contents: map<K, V>, i: nat)
    requires Spread(shards, place, contents) && i < |shards|
    ensures forall k: K :: k in shards[i].m <==> place(k) == i && k in contents
    ensures forall k: K | k in shards[i].m :: k in contents && shards[i].m[k] == contents[k]
  {
    forall k: K
      ensures (k in shards[i].m <==> place(k) == i && k in contents) && (k in shards[i].m ==> shards[i].m[k] == contents[k])
    {
      assert Lookup(shards[i].m, k) == if place(k) == i then Lookup(contents, k) else None;
    }
  }

  lemma DropSpreads<K(!new), V(!new)>(shards: seq<Shard<K, V>>, place: K -> nat, contents: map<K, V>, i: nat,
        sh: Shard<K, V>)
    requires Spread(shards, place, contents) && i < |shards| && PartOf(sh.m, shards[i].m)
    ensures var after := Dropped(contents, shards[i].m, sh.m);
            && Spread(shards[i := sh], place, after) && PartOf(after, contents)
            && (forall k: K :: place(k) != i ==> Lookup(after, k) == Lookup(contents, k))
  {
    var after := Dropped(contents, shards[i].m, sh.m);
    assert (forall k: K :: place(k) != i ==> Lookup(after, k) == Lookup(contents, k))
        && (forall k: K :: Lookup(sh.m, k) == if place(k) == i then Lookup(after, k) else None) by {
      hide Spread;
      InShard(shards, place, contents, i);
    }
    ReplaceShard(shards, place, contents, i, sh, after);
  }

  lemma DropCounts<K(!new), V(!new)>(shards: seq<Shard<K, V>>, place: K -> nat, contents: map<K, V>, i: nat,
        sh: Shard<K, V>)
    requires Spread(shards, place, contents) && i < |shards| && PartOf(sh.m, shards[i].m)
    ensures |Dropped(contents, shards[i].m, sh.m)| + |shards[i].m| == |contents| + |sh.m|
  {
    hide Spread;
    var was, now := shards[i].m.Keys, sh.m.Keys;
    InShard(shards, place, contents, i);
    assert Dropped(contents, shards[i].m, sh.m).Keys == contents.Keys - (was - now);
    CountRemaining(contents.Keys, was, now);
  }

  lemma CountRemaining<K>(all: set<K>, was: set<K>, now: set<K>)
    requires now <= was <= all
    ensures |all - (was - now)| + |was| == |all| + |now|
  {
    assert was == now + (was - now);
  }

  // ----- Counting and listing.

  /** The part of the map in the first `n` shards. */
  ghost function FirstShards<K(!new), V>(contents: map<K, V>, place: K -> nat, n: nat): map<K, V>
  {
    map k | k in contents && place(k) < n :: contents[k]
  }

  lemma NextShard<K(!new), V(!new)>(shards: seq<Shard<K, V>>, place: K -> nat, contents: map<K, V>, n: nat)
    requires Spread(shards, place, contents) && n < |shards|
    ensures FirstShards(contents, place, n + 1) == FirstShards(contents, place, n) + shards[n].m
    ensures FirstShards(contents, place, n).Keys !! shards[n].m.Keys
  {
    hide Spread;
    InShard(shards, place, contents, n);
    var more := FirstShards(contents, place, n + 1);
    forall k: K ensures k in more <==> k in FirstShards(contents, place, n) + shards[n].m {
    }
  }

  lemma AllShards<K(!new), V(!new)>(shards: seq<Shard<K, V>>, place: K -> nat, contents: map<K, V>)
    requires Spread(shards, place, contents)
    ensures FirstShards(contents, place, |shards|) == contents && FirstShards(contents, place, 0) == map[]
  {
  }

  lemma NextSize<K(!new), V(!new)>(shards: seq<Shard<K, V>>, place: K -> nat, contents: map<K, V>, n: nat)
    requires Spread(shards, place, contents) && n < |shards|
    ensures |FirstShards(contents, place, n + 1)| == |FirstShards(contents, place, n)| + |shards[n].m|
  {
    hide Spread, FirstShards;
    NextShard(shards, place, contents, n);
    assert FirstShards(contents, place, n + 1).Keys == FirstShards(contents, place, n).Keys + shards[n].m.Keys;
  }

  lemma OnlyShard<K(!new), V(!new)>(shards: seq<Shard<K, V>>, place: K -> nat, contents: map<K, V>)
    requires Spread(shards, place, contents) && |shards| == 1
    ensures shards[0].m == contents
  {
    hide Spread, FirstShards;
    AllShards(shards, place, contents);
    NextShard(shards, place, contents, 0);
  }

  lemma ListsUnion<K(!new), V(!new)>(xs: seq<(K, V)>, a: map<K, V>, ys: seq<(K, V)>, b: map<K, V>)
    requires Lists(xs, a) && Lists(ys, b) && a.Keys !! b.Keys
    ensures Lists(xs + ys, a + b)
  {
    forall k | k in a + b ensures Listed(xs + ys, k) {
      if k in a {
        assert Listed(xs, k);
        var i :| 0 <= i < |xs| && xs[i].0 == k;
        assert (xs + ys)[i].0 == k;
      } else {
        assert Listed(ys, k);
        var i :| 0 <= i < |ys| && ys[i].0 == k;
        assert (xs + ys)[|xs| + i].0 == k;
      }
    }
    forall i, j | 0 <= i < j < |xs + ys| ensures (xs + ys)[i].0 != (xs + ys)[j].0 {
      if i < |xs| <= j {
        assert xs[i].0 in a && ys[j - |xs|].0 in b;
      }
    }
  }

  // ----- Which shards a batch touches, as the lock order has them: ascending, each once.

  ghost predicate Ascending(s: seq<nat>) { forall i, j | 0 <= i < j < |s| :: s[i] < s[j] }

  function InsertSorted(s: seq<nat>, n: nat): (r: seq<nat>)
    requires Ascending(s)
    ensures Ascending(r) && forall x: nat :: x in r <==> x in s || x == n
  {
    if s == [] then [n]
    else if n < s[0] then [n] + s
    else if n == s[0] then s
    else
      var rest := InsertSorted(s[1..], n);
      assert forall i | 0 <= i < |rest| :: rest[i] in rest;
      assert s == [s[0]] + s[1..];
      [s[0]] + rest
  }

  function Touched<K(!new)>(keys: seq<K>, place: K -> nat): (r: seq<nat>)
    ensures Ascending(r)
    ensures forall x: nat :: x in r <==> exists k :: k in keys && place(k) == x
  {
    if keys == [] then []
    else
      assert keys == keys[..|keys| - 1] + [keys[|keys| - 1]];
      InsertSorted(Touched(keys[..|keys| - 1], place), place(keys[|keys| - 1]))
  }

  // ----- The bytes held.

  function BytesIn<K(!new, ==), V(!new)>(sh: Shard<K, V>): nat { if sh.policy.Some? then Charged(sh.policy.value) else 0 }

  ghost function BytesInFirst<K(!new), V(!new)>(shards: seq<Shard<K, V>>, n: nat): nat
    requires n <= |shards|
  {
    if n == 0 then 0 else BytesInFirst(shards, n - 1) + BytesIn(shards[n - 1])
  }

  /** A shard whose every entry fits the budget is within it, single entry or not. */
  lemma FittingShard<K(!new), V(!new)>(sh: Shard<K, V>, cost: (K, V) -> nat, budget: nat)
    requires ShardOk(sh, cost) && WithinBudget(sh, budget)
    requires forall k: K | k in sh.m :: cost(k, sh.m[k]) <= budget
    ensures BytesIn(sh) <= budget
  {
    if sh.policy.Some? {
      var l := sh.policy.value;
      if |l.order| == 1 {
        assert l.order[0] in l.order && l.order[..0] == [];
        assert Total([], l.sizes) == 0;
      }
    }
  }

  lemma {:induction false} BytesBounded<K(!new), V(!new)>(shards: seq<Shard<K, V>>, n: nat, budget: nat)
    requires n <= |shards| && forall i | 0 <= i < |shards| :: BytesIn(shards[i]) <= budget
    ensures BytesInFirst(shards, n) <= n * budget
  {
    hide BytesIn;
    if n > 0 {
      BytesBounded(shards, n - 1, budget);
      Distribute(budget, n - 1, 1);
    }
  }

  lemma NothingHeld<K(!new), V(!new)>(sh: Shard<K, V>, cost: (K, V) -> nat)
    requires ShardOk(sh, cost) && sh.m == map[]
    ensures BytesIn(sh) == 0
  {
    if sh.policy.Some? {
      assert forall k: K :: k !in sh.policy.value.order;
    }
  }

  /** What each shard may hold. */
  function Budget(limit: nat, shards: Count): nat { if limit / shards == 0 then 1 else limit / shards }

  lemma ShareFits(limit: nat, shards: Count)
    ensures Budget(limit, shards) > 1 ==> shards * Budget(limit, shards) <= limit
  {
    var share := limit / shards;
    assert limit == shards * share + limit % shards;
  }

  /**
    The memory limit holds whenever every entry held fits a shard's share of it. An entry that does not fit is
    kept all the same when it is its shard's only one, and a share of nothing is rounded up to one byte; no
    entry fits that, so the bound still needs no condition on the limit itself.
   */
  lemma LimitHolds<K(!new), V(!new)>(shards: seq<Shard<K, V>>, cost: (K, V) -> nat, limit: nat)
    requires |shards| > 0 && limit > 0 && EachOk(shards, cost, true) && EachWithin(shards, Budget(limit, |shards|))
    requires forall k: K, v: V :: cost(k, v) > 1
    requires forall i, k: K | 0 <= i < |shards| && k in shards[i].m :: cost(k, shards[i].m[k]) <= Budget(limit, |shards|)
    ensures BytesInFirst(shards, |shards|) <= limit
  {
    hide Budget, BytesInFirst, BytesIn, ShardOk, WithinBudget;
    var budget := Budget(limit, |shards|);
    if budget > 1 {
      forall i | 0 <= i < |shards| ensures BytesIn(shards[i]) <= budget {
        FittingShard(shards[i], cost, budget);
      }
      BytesBounded(shards, |shards|, budget);
      ShareFits(limit, |shards|);
    } else {
      forall i | 0 <= i < |shards| ensures BytesIn(shards[i]) <= 0 {
        assert forall k: K :: k !in shards[i].m;
        NothingHeld(shards[i], cost);
      }
      BytesBounded(shards, |shards|, 0);
    }
  }

  // ----- What a client asks and is told.

  datatype Request<K, V> =
    | GetOne(key: K) | GetAll(keys: seq<K>) | SetOne(key: K, value: V) | DelOne(key: K)
    | Batch(mutations: seq<Change<K, V>>) | Count | List | Empty

  datatype Reply<K, V> =
    | Value(value: Option<V>) | Values(values: seq<Option<V>>) | Done
    | Removed(removed: bool) | Counted(n: nat) | Entries(entries: seq<(K, V)>)

  function Next<K(==), V>(m: map<K, V>, request: Request<K, V>): map<K, V>
  {
    match request
    case SetOne(key, value) => m[key := value]
    case DelOne(key) => m - {key}
    case Batch(mutations) => ApplyAll(m, mutations)
    case Empty => map[]
    case _ => m
  }

  function Served<K(==), V>(m: map<K, V>, requests: seq<Request<K, V>>): map<K, V>
  {
    if requests == [] then m else Next(Served(m, requests[..|requests| - 1]), requests[|requests| - 1])
  }

  ghost predicate Exact<K(!new), V(!new)>(m: map<K, V>, request: Request<K, V>, reply: Reply<K, V>)
  {
    match request
    case GetOne(key) => reply == Value(Lookup(m, key))
    case GetAll(keys) =>
      reply.Values? && |reply.values| == |keys| && forall i | 0 <= i < |keys| :: reply.values[i] == Lookup(m, keys[i])
    case DelOne(key) => reply == Removed(key in m)
    case Count => reply == Counted(|m|)
    case List => reply.Entries? && Lists(reply.entries, m)
    case _ => reply.Done?
  }

  /** What one map says; with eviction on, what some part of it says, so that a hit is always right. */
  ghost predicate Faithful<K(!new), V(!new)>(m: map<K, V>, request: Request<K, V>, reply: Reply<K, V>, evicting: bool)
  {
    if evicting then exists part :: PartOf(part, m) && Exact(part, request, reply) else Exact(m, request, reply)
  }

  class ShardedMap<K(!new, ==), V(!new, ==)> {
    const mode: LockMode
    const count: Count
    const maxMemoryBytes: nat
    const shardBudgetBytes: nat
    const hash: K -> nat
    const keyBytes: K -> nat
    const valueBytes: V -> nat
    var shards: seq<Shard<K, V>>
    var evictions: nat
    ghost var contents: map<K, V>     // what the shards hold
    ghost var unbounded: map<K, V>    // what they would hold if nothing were ever evicted

    function EntryBytes(key: K, value: V): nat { keyBytes(key) + valueBytes(value) + ENTRY_OVERHEAD_BYTES }

    function ShardFor(key: K): nat { And(hash(key), count - 1) }

    function Place(key: K): nat { if mode.Sharded? then ShardFor(key) else 0 }

    /** What a table weighs. */
    ghost function Bytes(m: map<K, V>): nat { Weight(m, (k: K, v: V) => keyBytes(k) + valueBytes(v) + 192) }

    /** The part of a map that is placed on one shard. */
    ghost function OnShard(m: map<K, V>, i: nat): map<K, V> { map k | k in m && Place(k) == i :: m[k] }

    /** It fits the shard's share of the memory limit. */
    ghost predicate FitsShare(m: map<K, V>, i: nat)
    {
      maxMemoryBytes == 0 || Bytes(OnShard(m, i)) <= maxMemoryBytes / count
    }

    ghost predicate Shaped()
    {
      && (exists k :: count == Power(k))
      && (!mode.Sharded? ==> count == 1)
      && (maxMemoryBytes > 0 ==> shardBudgetBytes == Budget(maxMemoryBytes, count))
    }

    ghost predicate Valid()
      reads this
    {
      && Shaped() && |shards| == count
      && Spread(shards, Place, contents)
      && EachOk(shards, EntryBytes, maxMemoryBytes > 0) && EachWithin(shards, shardBudgetBytes)
      && PartOf(contents, unbounded) && (maxMemoryBytes == 0 ==> contents == unbounded)
    }

    /** The mask picks the shard by remainder, so every key has one. */
    lemma PlaceIsModulo(key: K)
      requires Shaped()
      ensures Place(key) == hash(key) % count < count
    {
      var k :| count == Power(k);
      MaskIsModulo(hash(key), k);
    }

    constructor (mode: LockMode, shardCount: nat, maxMemoryBytes: nat, hash: K -> nat, keyBytes: K -> nat,
          valueBytes: V -> nat)
      requires shardCount <= TWO_64 / 2
      ensures Valid() && contents == map[] && unbounded == map[] && evictions == 0
      ensures this.mode == mode && this.maxMemoryBytes == maxMemoryBytes
      ensures this.hash == hash && this.keyBytes == keyBytes && this.valueBytes == valueBytes
      ensures mode.Sharded? ==> count >= shardCount && forall k :: shardCount <= Power(k) ==> count <= Power(k)
    {
      var n := 1;
      if mode.Sharded? {
        n := RoundUpToPowerOfTwo(shardCount);
      } else {
        assert Power(0) == 1;
      }
      this.mode, this.count, this.maxMemoryBytes := mode, n, maxMemoryBytes;
      this.shardBudgetBytes := if maxMemoryBytes == 0 then 0 else Budget(maxMemoryBytes, n);
      this.hash, this.keyBytes, this.valueBytes := hash, keyBytes, valueBytes;
      this.shards := seq(n, _ => Shard(map[], if maxMemoryBytes == 0 then None else Some(NoKeys())));
      this.evictions, this.contents, this.unbounded := 0, map[], map[];
      new;
      forall k: K ensures Place(k) < count {
        PlaceIsModulo(k);
      }
    }

    lemma ShardBytes(shards: seq<Shard<K, V>>, contents: map<K, V>, i: nat)
      requires Spread(shards, Place, contents) && EachOk(shards, EntryBytes, true) && i < |shards|
      ensures shards[i].m == OnShard(contents, i) && shards[i].policy.Some?
      ensures Charged(shards[i].policy.value) == Bytes(OnShard(contents, i))
      ensures |shards[i].policy.value.order| == |OnShard(contents, i)|
    {
      hide Spread, ShardOk, Charged, Weight;
      InShard(shards, Place, contents, i);
      ChargedIsWeight(shards[i], EntryBytes);
      WeightSame(shards[i].m, EntryBytes, (k: K, v: V) => keyBytes(k) + valueBytes(v) + 192);
    }

    lemma ShareIsBudget()
      requires Shaped() && maxMemoryBytes > 0
      ensures maxMemoryBytes / count <= shardBudgetBytes
      ensures shardBudgetBytes > 1 ==> shardBudgetBytes == maxMemoryBytes / count
    {
    }

    /** No shard holds more than its share of the limit, unless it holds a single entry. */
    lemma ShardsWithinShare(i: nat)
      requires Valid() && i < count
      ensures FitsShare(contents, i) || |OnShard(contents, i)| == 1
    {
      hide Spread, ShardOk, Charged, Weight, Shaped, PartOf;
      if maxMemoryBytes > 0 {
        ShardBytes(shards, contents, i);
        ShareIsBudget();
        assert WithinBudget(shards[i], shardBudgetBytes);
        AtLeastOverhead(OnShard(contents, i));
      }
    }

    lemma AtLeastOverhead(m: map<K, V>)
      ensures if m == map[] then Bytes(m) == 0 else Bytes(m) > 1
    {
    }

    /** A hit is also what an unbounded map would say, and becomes its shard's most recently used entry. */
    method Get(key: K) returns (value: Option<V>)
      requires Valid()
      modifies this`shards
      ensures Valid()
      ensures value == Lookup(contents, key) && (value.Some? ==> value == Lookup(unbounded, key))
      ensures shards == Touching(old(shards), key)
      ensures value.Some? && maxMemoryBytes > 0 ==> Newest(old(shards), shards, key)
    {
      hide ShardOk, WithinBudget, Shaped;
      var i := Place(key);
      InShard(shards, Place, contents, i);
      TouchingKeeps(shards, contents, key);
      if key !in shards[i].m {
        return None;
      }
      value := Some(shards[i].m[key]);
      if maxMemoryBytes > 0 {
        TouchingIsUse(shards, contents, key);
      }
      if shards[i].policy.Some? {
        shards := shards[i := TouchEntry(shards[i], key)];
      }
    }

    /** The key is now its shard's most recently used one, and the others are in the order they were in. */
    ghost predicate Newest(was: seq<Shard<K, V>>, now: seq<Shard<K, V>>, key: K)
    {
      var i := Place(key);
      && i < |now| == |was| && now[i].policy.Some? && was[i].policy.Some?
      && now[i].policy.value.order == [key] + Without(was[i].policy.value.order, key)
    }

    lemma TouchingIsUse(shards: seq<Shard<K, V>>, contents: map<K, V>, key: K)
      requires Spread(shards, Place, contents) && EachOk(shards, EntryBytes, true) && key in contents
      ensures Newest(shards, Touching(shards, key), key)
    {
      var i := Place(key);
      FoundInShard(shards, Place, contents, key);
      assert ShardOk(shards[i], EntryBytes) && key in shards[i].m;
    }

    function Touching(shards: seq<Shard<K, V>>, key: K): (r: seq<Shard<K, V>>)
      ensures |r| == |shards|
    {
      if Place(key) < |shards| then shards[Place(key) := TouchEntry(shards[Place(key)], key)] else shards
    }

    /** Each key found becomes its shard's most recently used, in the order asked. */
    function TouchingAll(shards: seq<Shard<K, V>>, keys: seq<K>): (r: seq<Shard<K, V>>)
      ensures |r| == |shards|
    {
      if keys == [] then shards else Touching(TouchingAll(shards, keys[..|keys| - 1]), keys[|keys| - 1])
    }

    lemma TouchingKeeps(shards: seq<Shard<K, V>>, contents: map<K, V>, key: K)
      requires Spread(shards, Place, contents)
      requires EachOk(shards, EntryBytes, maxMemoryBytes > 0) && EachWithin(shards, shardBudgetBytes)
      ensures Spread(Touching(shards, key), Place, contents)
      ensures EachOk(Touching(shards, key), EntryBytes, maxMemoryBytes > 0)
      ensures EachWithin(Touching(shards, key), shardBudgetBytes)
      ensures maxMemoryBytes == 0 || key !in contents ==> Touching(shards, key) == shards
    {
      hide ShardOk, WithinBudget, TouchEntry;
      var i := Place(key);
      FoundInShard(shards, Place, contents, key);
      TouchMiss(shards[i], EntryBytes, key);
      TouchKeepsOk(shards[i], EntryBytes, key);
      TouchKeepsBudget(shards[i], EntryBytes, key, shardBudgetBytes);
    }

    /** The new entry stays; what else its shard drops is its least recently used entries, and is counted. */
    method Set(key: K, value: V)
      requires Valid()
      modifies this
      ensures Valid()
      ensures unbounded == old(unbounded)[key := value]
      ensures PartOf(contents, old(contents)[key := value]) && Lookup(contents, key) == Some(value)
      ensures |contents| + evictions == |old(contents)[key := value]| + old(evictions)
      ensures forall i | 0 <= i < count && i != Place(key) :: shards[i] == old(shards)[i]
      ensures maxMemoryBytes > 0 ==>
                var full := PutEntry(old(shards)[Place(key)], EntryBytes, key, value);
                KeptFirst(full, shards[Place(key)], Kept(full.policy.value, shardBudgetBytes))
      ensures FitsShare(old(contents)[key := value], Place(key)) ==>
                contents == old(contents)[key := value] && evictions == old(evictions)
    {
      hide ShardOk, Spread, EachOk, EachWithin, WithinBudget, Shaped, KeptFirst, Kept, Dropped, PartOf, Insert;
      hide Bytes, OnShard, Charged;
      var i := Place(key);
      InRange(key);
      var full := PutEntry(shards[i], EntryBytes, key, value);
      PutSpreads(key, value);
      ghost var put, all := shards[i := full], contents[key := value];
      if maxMemoryBytes > 0 {
        ShardBytes(put, all, i);
        ShareIsBudget();
      }
      var sh, evicted := EvictIfNeeded(full, EntryBytes, shardBudgetBytes);
      EvictSpreads(put, Place, all, EntryBytes, maxMemoryBytes > 0, i, sh);
      PutFirst(shards[i], EntryBytes, key, value);
      FirstStays(full, EntryBytes, sh, shardBudgetBytes, key);
      assert put[i := sh] == shards[i := sh];
      StillWithin(shards, i, sh, shardBudgetBytes);
      shards, evictions := shards[i := sh], evictions + evicted;
      contents, unbounded := Dropped(all, full.m, sh.m), unbounded[key := value];
      FoundInShard(shards, Place, contents, key);
      PartOfPut(contents, all, old(contents), old(unbounded), key, value);
    }

    lemma InRange(key: K)
      requires Valid()
      ensures Place(key) < |shards| && ShardOk(shards[Place(key)], EntryBytes)
      ensures shards[Place(key)].policy.Some? == (maxMemoryBytes > 0)
    {
    }

    lemma PutSpreads(key: K, value: V)
      requires Valid()
      ensures Place(key) < |shards|
      ensures var i := Place(key); var full := PutEntry(shards[i], EntryBytes, key, value);
              && ShardOk(full, EntryBytes) && full.policy.Some? == (maxMemoryBytes > 0)
              && Spread(shards[i := full], Place, contents[key := value])
              && EachOk(shards[i := full], EntryBytes, maxMemoryBytes > 0)
    {
      hide ShardOk;
      var mu := Put(key, value);
      ChangeKeepsOk(shards[Place(key)], EntryBytes, mu);
      ChangeSpreads(shards, Place, contents, EntryBytes, mu);
    }

    method Del(key: K) returns (removed: bool)
      requires Valid()
      modifies this`shards, this`contents, this`unbounded
      ensures Valid()
      ensures contents == old(contents) - {key} && unbounded == old(unbounded) - {key}
      ensures removed == (key in old(contents))
      ensures forall i | 0 <= i < count && i != Place(key) :: shards[i] == old(shards)[i]
    {
      hide ShardOk, Spread, EachOk, WithinBudget, Shaped, Forget;
      var i := Place(key);
      InRange(key);
      FoundInShard(shards, Place, contents, key);
      removed := key in shards[i].m;
      EraseSpreads(key);
      shards := shards[i := EraseEntry(shards[i], key)];
      contents, unbounded := contents - {key}, unbounded - {key};
    }

    lemma EraseSpreads(key: K)
      requires Valid()
      ensures Place(key) < |shards|
      ensures var i := Place(key); var after := shards[i := EraseEntry(shards[i], key)];
              && Spread(after, Place, contents - {key}) && EachOk(after, EntryBytes, maxMemoryBytes > 0)
              && EachWithin(after, shardBudgetBytes)
    {
      hide ShardOk, WithinBudget;
      var mu := Change<K, V>.Erase(key);
      ChangeKeepsOk(shards[Place(key)], EntryBytes, mu);
      ChangeSpreads(shards, Place, contents, EntryBytes, mu);
      EraseKeepsBudget(shards[Place(key)], EntryBytes, key, shardBudgetBytes);
    }

    /** Counts every key once, in every mode. */
    method Size() returns (total: nat)
      requires Valid()
      ensures total == |contents|
    {
      hide ShardOk, EachOk, EachWithin, Spread, FirstShards, PartOf;
      AllShards(shards, Place, contents);
      if mode.GlobalMutex? {
        OnlyShard(shards, Place, contents);
        return |shards[0].m|;
      }
      total := 0;
      for i := 0 to |shards|
        invariant total == |FirstShards(contents, Place, i)|
      {
        NextSize(shards, Place, contents, i);
        total := total + |shards[i].m|;
      }
    }

    /** One answer a key, all of the same map. */
    method GetMany(keys: seq<K>) returns (results: seq<Option<V>>)
      requires Valid()
      modifies this`shards
      ensures Valid()
      ensures |results| == |keys| && forall i | 0 <= i < |keys| :: results[i] == Lookup(contents, keys[i])
      ensures shards == TouchingAll(old(shards), keys)
    {
      hide ShardOk, EachOk, EachWithin, Spread, PartOf, Shaped;
      results := [];
      var now := shards;
      var n := 0;
      while n < |keys|
        invariant n <= |keys| && |now| == count && |results| == n
        invariant Spread(now, Place, contents) && EachOk(now, EntryBytes, maxMemoryBytes > 0)
                  && EachWithin(now, shardBudgetBytes)
        invariant forall i | 0 <= i < n :: results[i] == Lookup(contents, keys[i])
        invariant now == TouchingAll(shards, keys[..n])
        modifies {}
      {
        var key := keys[n];
        assert keys[..n + 1][..n] == keys[..n];
        FoundInShard(now, Place, contents, key);
        TouchingKeeps(now, contents, key);
        var i := Place(key);
        if key in now[i].m {
          results := results + [Some(now[i].m[key])];
          now := Touching(now, key);
        } else {
          results := results + [None];
        }
        n := n + 1;
      }
      assert keys[..n] == keys;
      shards := now;
    }

    /** Lists every entry once, in every mode. */
    method Snapshot() returns (entries: seq<(K, V)>)
      requires Valid()
      ensures Lists(entries, contents)
    {
      hide ShardOk, EachOk, EachWithin, Spread, FirstShards, PartOf;
      AllShards(shards, Place, contents);
      if mode.Unlocked? || mode.GlobalMutex? {
        OnlyShard(shards, Place, contents);
        entries := Listing(shards[0].m);
        return;
      }
      entries := [];
      for i := 0 to |shards|
        invariant Lists(entries, FirstShards(contents, Place, i))
      {
        NextShard(shards, Place, contents, i);
        var more := Listing(shards[i].m);
        ListsUnion(entries, FirstShards(contents, Place, i), more, shards[i].m);
        entries := entries + more;
      }
    }

    /** The bytes charged, within the limit whenever every entry held fits a shard's share of it. */
    method BytesUsed() returns (total: nat)
      requires Valid()
      ensures total == if maxMemoryBytes == 0 then 0 else Bytes(contents)
      ensures maxMemoryBytes > 0 && AllFit(contents) ==> total <= maxMemoryBytes
    {
      if maxMemoryBytes == 0 {
        return 0;
      }
      hide EachOk, EachWithin, Spread, PartOf, Bytes, BytesIn, AllFit;
      HeldBytes();
      if mode.GlobalMutex? {
        assert BytesInFirst(shards, 0) == 0;
        return BytesIn(shards[0]);
      }
      total := 0;
      for i := 0 to |shards|
        invariant total == BytesInFirst(shards, i)
      {
        total := total + BytesIn(shards[i]);
      }
    }

    /** Every entry fits a shard's share of the limit. */
    ghost predicate AllFit(m: map<K, V>) { forall k | k in m :: EntryBytes(k, m[k]) <= shardBudgetBytes }

    lemma HeldBytes()
      requires Valid() && maxMemoryBytes > 0
      ensures BytesInFirst(shards, count) == Bytes(contents) && (AllFit(contents) ==> Bytes(contents) <= maxMemoryBytes)
    {
      hide EachOk, EachWithin, Spread, PartOf, Bytes, BytesIn, BytesInFirst, FirstShards, Shaped;
      BytesInAll(|shards|);
      AllShards(shards, Place, contents);
      if AllFit(contents) {
        LimitKept();
      }
    }

    /** The whole batch is applied, in order; then the shards it touched drop what they must. */
    method ApplyAtomically(mutations: seq<Change<K, V>>)
      requires Valid()
      modifies this
      ensures Valid()
      ensures unbounded == ApplyAll(old(unbounded), mutations)
      ensures PartOf(contents, ApplyAll(old(contents), mutations))
      ensures |contents| + evictions == |ApplyAll(old(contents), mutations)| + old(evictions)
      ensures forall i | 0 <= i < count && i !in Touched(KeysOf(mutations), Place) :: shards[i] == old(shards)[i]
      ensures var all := ApplyAll(old(contents), mutations);
              forall i: nat | i < count && FitsShare(all, i) :: OnShard(contents, i) == OnShard(all, i)
      ensures var all := ApplyAll(old(contents), mutations);
              (forall i: nat | i < count :: FitsShare(all, i)) ==> contents == all && evictions == old(evictions)
    {
      hide ShardOk, EachOk, Spread, PartOf, Shaped, ApplyAll, WithinBudget, ChangeEntry, Touched, Dropped;
      hide OnShard, FitsShare, BytesIn;
      TouchedInRange(mutations);
      var applied := ChangeAll(mutations);
      var touched := Touched(KeysOf(mutations), Place);
      ghost var all := ApplyAll(contents, mutations);
      PartOfAll(contents, unbounded, mutations);
      var now, evicted, held := EvictTouched(applied, touched, all);
      PartOfTrans(held, all, ApplyAll(unbounded, mutations));
      forall i: nat | i < count && FitsShare(all, i) ensures OnShard(held, i) == OnShard(all, i) {
        ShareKept(applied, all, now, held, i);
      }
      if forall i: nat | i < count :: FitsShare(all, i) {
        AllKept(now, all, held);
      }
      shards, evictions := now, evictions + evicted;
      contents, unbounded := held, ApplyAll(unbounded, mutations);
    }

    /** A shard that fits its share is left as it is. */
    lemma ShareKept(applied: seq<Shard<K, V>>, all: map<K, V>, now: seq<Shard<K, V>>, held: map<K, V>, i: nat)
      requires Shaped() && |applied| == |now| == count && i < count && FitsShare(all, i)
      requires Spread(applied, Place, all) && EachOk(applied, EntryBytes, maxMemoryBytes > 0)
      requires Spread(now, Place, held) && (maxMemoryBytes == 0 ==> held == all)
      requires BytesIn(applied[i]) <= shardBudgetBytes ==> now[i] == applied[i]
      ensures OnShard(held, i) == OnShard(all, i)
    {
      hide Spread, ShardOk, Charged, Bytes;
      if maxMemoryBytes > 0 {
        ShareIsBudget();
        ShardBytes(applied, all, i);
        InShard(now, Place, held, i);
      }
    }

    lemma AllKept(now: seq<Shard<K, V>>, all: map<K, V>, held: map<K, V>)
      requires |now| == count && Spread(now, Place, held) && PartOf(held, all)
      requires forall i: nat | i < count :: OnShard(held, i) == OnShard(all, i)
      ensures held == all
    {
      forall k: K ensures k in held <==> k in all {
        assert k in OnShard(held, Place(k)) <==> k in OnShard(all, Place(k));
      }
    }

    lemma TouchedInRange(mutations: seq<Change<K, V>>)
      requires Valid()
      ensures forall x: nat | x in Touched(KeysOf(mutations), Place) :: x < count
    {
      forall x: nat | x in Touched(KeysOf(mutations), Place) ensures x < count {
        var k :| k in KeysOf(mutations) && Place(k) == x;
      }
    }

    method ChangeAll(mutations: seq<Change<K, V>>) returns (now: seq<Shard<K, V>>)
      requires Valid()
      ensures |now| == count && Spread(now, Place, ApplyAll(contents, mutations))
                && EachOk(now, EntryBytes, maxMemoryBytes > 0)
      ensures forall i | 0 <= i < count && i !in Touched(KeysOf(mutations), Place) :: now[i] == shards[i]
    {
      hide ShardOk, EachOk, Spread, PartOf, Shaped, WithinBudget, ChangeEntry;
      now := shards;
      var n := 0;
      while n < |mutations|
        invariant n <= |mutations| && |now| == count
        invariant Spread(now, Place, ApplyAll(contents, mutations[..n])) && EachOk(now, EntryBytes, maxMemoryBytes > 0)
        invariant forall i | 0 <= i < count && i !in Touched(KeysOf(mutations), Place) :: now[i] == shards[i]
      {
        var mu := mutations[n];
        assert mutations[..n + 1][..n] == mutations[..n];
        assert KeysOf(mutations)[n] == mu.key;
        FoundInShard(now, Place, ApplyAll(contents, mutations[..n]), mu.key);
        ChangeSpreads(now, Place, ApplyAll(contents, mutations[..n]), EntryBytes, mu);
        ChangeEachOk(now, EntryBytes, maxMemoryBytes > 0, Place(mu.key), mu);
        now := now[Place(mu.key) := ChangeEntry(now[Place(mu.key)], EntryBytes, mu)];
        n := n + 1;
      }
      assert mutations[..n] == mutations;
    }

    method EvictTouched(applied: seq<Shard<K, V>>, touched: seq<nat>, ghost all: map<K, V>)
      returns (now: seq<Shard<K, V>>, evicted: nat, ghost held: map<K, V>)
      requires |applied| == count && Spread(applied, Place, all) && EachOk(applied, EntryBytes, maxMemoryBytes > 0)
      requires forall x: nat | x in touched :: x < count
      ensures |now| == count && Spread(now, Place, held) && EachOk(now, EntryBytes, maxMemoryBytes > 0)
      ensures PartOf(held, all) && |held| + evicted == |all| && (maxMemoryBytes == 0 ==> held == all)
      ensures forall i | 0 <= i < count ::
                if i in touched then WithinBudget(now[i], shardBudgetBytes) else now[i] == applied[i]
      ensures forall i | 0 <= i < count && BytesIn(applied[i]) <= shardBudgetBytes :: now[i] == applied[i]
    {
      hide ShardOk, EachOk, Spread, PartOf, WithinBudget, Dropped, Kept, KeptFirst;
      now, evicted, held := applied, 0, all;
      PartOfSelf(all);
      for n := 0 to |touched|
        invariant |now| == count && Spread(now, Place, held) && EachOk(now, EntryBytes, maxMemoryBytes > 0)
        invariant PartOf(held, all) && |held| + evicted == |all| && (maxMemoryBytes == 0 ==> held == all)
        invariant forall i | 0 <= i < count ::
                    if i in touched[..n] then WithinBudget(now[i], shardBudgetBytes) else now[i] == applied[i]
        invariant forall i | 0 <= i < count && BytesIn(applied[i]) <= shardBudgetBytes :: now[i] == applied[i]
      {
        var i := touched[n];
        assert i in touched;
        AnyOk(now, EntryBytes, maxMemoryBytes > 0, i);
        var sh, dropped := EvictIfNeeded(now[i], EntryBytes, shardBudgetBytes);
        EvictSpreads(now, Place, held, EntryBytes, maxMemoryBytes > 0, i, sh);
        ghost var after := Dropped(held, now[i].m, sh.m);
        PartOfTrans(after, held, all);
        assert touched[..n + 1] == touched[..n] + [i];
        now, evicted, held := now[i := sh], evicted + dropped, after;
      }
      assert touched[..|touched|] == touched;
    }

    method Clear()
      requires Valid()
      modifies this`shards, this`contents, this`unbounded
      ensures Valid() && contents == map[] && unbounded == map[]
      ensures forall i | 0 <= i < count :: shards[i].m == map[] && (maxMemoryBytes > 0
                ==> shards[i].policy == Some(NoKeys()))
    {
      hide ShardOk, WithinBudget;
      var now := [];
      while |now| < |shards|
        invariant |now| <= |shards|
        invariant forall i | 0 <= i < |now| :: now[i] == Shard(map[], if maxMemoryBytes > 0 then Some(NoKeys()) else None)
        modifies {}
      {
        var sh := ClearShard(shards[|now|], EntryBytes);
        now := now + [sh];
      }
      forall i | 0 <= i < |now| ensures ShardOk(now[i], EntryBytes) && WithinBudget(now[i], shardBudgetBytes) {
        EmptyOk<K, V>(maxMemoryBytes > 0, EntryBytes, shardBudgetBytes);
      }
      shards, contents, unbounded := now, map[], map[];
    }

    method Serve(request: Request<K, V>) returns (reply: Reply<K, V>)
      requires Valid()
      modifies this
      ensures Valid() && unbounded == Next(old(unbounded), request) && Exact(old(contents), request, reply)
    {
      hide Shaped, Spread, EachOk, EachWithin, PartOf, Lists, ApplyAll, Touched, TouchingAll;
      match request
      case GetOne(key) => var value := Get(key); reply := Value(value);
      case GetAll(keys) => var values := GetMany(keys); reply := Values(values);
      case SetOne(key, value) => Set(key, value); reply := Done;
      case DelOne(key) => var removed := Del(key); reply := Removed(removed);
      case Batch(mutations) => ApplyAtomically(mutations); reply := Done;
      case Count => var n := Size(); reply := Counted(n);
      case List => var entries := Snapshot(); reply := Entries(entries);
      case Empty => Clear(); reply := Done;
    }

    lemma ContentsPart()
      requires Valid()
      ensures PartOf(contents, unbounded) && (maxMemoryBytes == 0 ==> contents == unbounded)
    {
    }

    /** Any requests in a row, in any mode and over any number of shards, are answered as by one map. */
    method ServeAll(requests: seq<Request<K, V>>) returns (replies: seq<Reply<K, V>>)
      requires Valid()
      modifies this
      ensures Valid() && unbounded == Served(old(unbounded), requests) && |replies| == |requests|
      ensures forall i | 0 <= i < |requests| ::
                Faithful(Served(old(unbounded), requests[..i]), requests[i], replies[i], maxMemoryBytes > 0)
    {
      hide Exact, Next, Valid, PartOf;
      replies := [];
      while |replies| < |requests|
        invariant Valid() && |replies| <= |requests| && unbounded == Served(old(unbounded), requests[..|replies|])
        invariant forall i | 0 <= i < |replies| ::
                    Faithful(Served(old(unbounded), requests[..i]), requests[i], replies[i], maxMemoryBytes > 0)
      {
        var n := |replies|;
        ghost var was := contents;
        ContentsPart();
        var reply := Serve(requests[n]);
        assert Exact(was, requests[n], reply);
        assert requests[..n + 1][..n] == requests[..n];
        replies := replies + [reply];
      }
      assert requests[..|replies|] == requests;
    }

    lemma BytesUnion(a: map<K, V>, b: map<K, V>)
      requires a.Keys !! b.Keys
      ensures Bytes(a + b) == Bytes(a) + Bytes(b)
    {
      hide Weight;
      WeightUnion(a + b, a, b, (k: K, v: V) => keyBytes(k) + valueBytes(v) + 192);
    }

    lemma NextBytes(n: nat)
      requires Valid() && maxMemoryBytes > 0 && n < count
      ensures Bytes(FirstShards(contents, Place, n + 1)) == Bytes(FirstShards(contents, Place, n)) + BytesIn(shards[n])
    {
      hide ShardOk, WithinBudget, Spread, PartOf, Shaped, Charged, FirstShards, OnShard, Bytes;
      NextShard(shards, Place, contents, n);
      ShardBytes(shards, contents, n);
      BytesUnion(FirstShards(contents, Place, n), shards[n].m);
    }

    lemma {:induction false} BytesInAll(n: nat)
      requires Valid() && maxMemoryBytes > 0 && n <= count
      ensures BytesInFirst(shards, n) == Bytes(FirstShards(contents, Place, n))
    {
      if n == 0 {
        assert FirstShards(contents, Place, 0) == map[];
      } else {
        hide ShardOk, EachOk, EachWithin, Spread, PartOf, Shaped, FirstShards, Bytes, BytesIn;
        BytesInAll(n - 1);
        NextBytes(n - 1);
      }
    }

    lemma LimitKept()
      requires Valid() && maxMemoryBytes > 0
      requires forall k: K | k in contents :: EntryBytes(k, contents[k]) <= shardBudgetBytes
      ensures BytesInFirst(shards, count) <= maxMemoryBytes
    {
      hide ShardOk, WithinBudget, Spread;
      forall i, k: K | 0 <= i < |shards| && k in shards[i].m ensures EntryBytes(k, shards[i].m[k]) <= shardBudgetBytes {
        InShard(shards, Place, contents, i);
      }
      LimitHolds(shards, EntryBytes, maxMemoryBytes);
    }
  }

  lemma EmptyOk<K(!new), V(!new)>(evicting: bool, cost: (K, V) -> nat, budget: nat)
    ensures var sh := Shard<K, V>.Shard(map[], if evicting then Some(NoKeys()) else None);
            ShardOk(sh, cost) && WithinBudget(sh, budget)
  {
  }

  lemma NoneLeft<K(!new)>(l: Lru<K>)
    requires Ok(l) && l.sizes == map[]
    ensures l == NoKeys()
  {
    SameCount(l.order, l.sizes.Keys);
  }

  /** Walking the table in any order, the policy is told of every key and ends up empty. */
  method ClearShard<K(!new, ==), V(!new)>(sh: Shard<K, V>, ghost cost: (K, V) -> nat) returns (r: Shard<K, V>)
    requires ShardOk(sh, cost)
    ensures r == Shard(map[], if sh.policy.Some? then Some(NoKeys()) else None)
  {
    if sh.policy.None? {
      return Shard(map[], None);
    }
    hide Without;
    var l, left := sh.policy.value, sh.m.Keys;
    while left != {}
      invariant Ok(l) && l.sizes.Keys == left
      decreases left
    {
      var k :| k in left;
      ForgetOk(l, k);
      l, left := Forget(l, k), left - {k};
    }
    NoneLeft(l);
    r := Shard(map[], Some(l));
  }

  function KeysOf<K, V>(mutations: seq<Change<K, V>>): (r: seq<K>)
    ensures |r| == |mutations| && forall i | 0 <= i < |r| :: r[i] == mutations[i].key
  {
    seq(|mutations|, i requires 0 <= i < |mutations| => mutations[i].key)
  }

  lemma ChangeEachOk<K(!new), V(!new)>(shards: seq<Shard<K, V>>, cost: (K, V) -> nat, evicting: bool, i: nat,
        mu: Change<K, V>)
    requires EachOk(shards, cost, evicting) && i < |shards|
    ensures EachOk(shards[i := ChangeEntry(shards[i], cost, mu)], cost, evicting)
  {
    hide ShardOk;
    ChangeKeepsOk(shards[i], cost, mu);
  }

  lemma AnyOk<K(!new), V(!new)>(shards: seq<Shard<K, V>>, cost: (K, V) -> nat, evicting: bool, i: nat)
    requires EachOk(shards, cost, evicting) && i < |shards|
    ensures ShardOk(shards[i], cost) && shards[i].policy.Some? == evicting
  {
  }

  lemma PartOfSelf<K(!new), V(!new)>(m: map<K, V>)
    ensures PartOf(m, m)
  {
  }

  lemma PartOfTrans<K(!new), V(!new)>(a: map<K, V>, b: map<K, V>, c: map<K, V>)
    requires PartOf(a, b) && PartOf(b, c)
    ensures PartOf(a, c)
  {
  }

  lemma {:induction false} PartOfAll<K(!new), V(!new)>(a: map<K, V>, b: map<K, V>, mutations: seq<Change<K, V>>)
    requires PartOf(a, b)
    ensures PartOf(ApplyAll(a, mutations), ApplyAll(b, mutations))
    decreases |mutations|
  {
    if mutations != [] {
      PartOfAll(a, b, mutations[..|mutations| - 1]);
    }
  }

  lemma TouchMiss<K(!new), V(!new)>(sh: Shard<K, V>, cost: (K, V) -> nat, key: K)
    requires ShardOk(sh, cost)
    ensures sh.policy.None? || key !in sh.m ==> TouchEntry(sh, key) == sh
    ensures TouchEntry(sh, key).policy.Some? == sh.policy.Some?
  {
  }

  lemma EraseKeepsBudget<K(!new), V(!new)>(sh: Shard<K, V>, cost: (K, V) -> nat, key: K, budget: nat)
    requires ShardOk(sh, cost) && WithinBudget(sh, budget)
    ensures WithinBudget(EraseEntry(sh, key), budget)
  {
    hide Charged, Without;
    if sh.policy.Some? && key in sh.policy.value.sizes {
      ChargedForget(sh.policy.value, key);
    }
  }

  lemma EvictSpreads<K(!new), V(!new)>(shards: seq<Shard<K, V>>, place: K -> nat, all: map<K, V>, cost: (K, V) -> nat,
        evicting: bool, i: nat, sh: Shard<K, V>)
    requires Spread(shards, place, all) && EachOk(shards, cost, evicting) && i < |shards|
    requires ShardOk(sh, cost) && sh.policy.Some? == evicting && PartOf(sh.m, shards[i].m)
    ensures var after := Dropped(all, shards[i].m, sh.m);
            && Spread(shards[i := sh], place, after) && EachOk(shards[i := sh], cost, evicting)
            && PartOf(after, all) && |after| + |shards[i].m| == |all| + |sh.m|
            && (sh == shards[i] ==> after == all)
  {
    hide ShardOk, Spread;
    DropSpreads(shards, place, all, i, sh);
    DropCounts(shards, place, all, i, sh);
  }

  lemma StillWithin<K(!new), V(!new)>(shards: seq<Shard<K, V>>, i: nat, sh: Shard<K, V>, budget: nat)
    requires EachWithin(shards, budget) && WithinBudget(sh, budget) && i < |shards|
    ensures EachWithin(shards[i := sh], budget)
  {
    hide WithinBudget;
  }

  lemma FoundInShard<K(!new), V(!new)>(shards: seq<Shard<K, V>>, place: K -> nat, contents: map<K, V>, key: K)
    requires Spread(shards, place, contents)
    ensures place(key) < |shards| && Lookup(contents, key) == Lookup(shards[place(key)].m, key)
  {
  }

  lemma PartOfPut<K(!new), V(!new)>(now: map<K, V>, all: map<K, V>, contents: map<K, V>, unbounded: map<K, V>, key: K,
        value: V)
    requires all == contents[key := value] && PartOf(now, all) && PartOf(contents, unbounded)
    ensures PartOf(now, unbounded[key := value])
  {
  }

  lemma PutFirst<K(!new), V(!new)>(sh: Shard<K, V>, cost: (K, V) -> nat, key: K, value: V)
    ensures var full := PutEntry(sh, cost, key, value);
            full.policy.Some? ==> full.policy.value.order != [] && full.policy.value.order[0] == key
  {
  }

  lemma FirstStays<K(!new), V(!new)>(full: Shard<K, V>, cost: (K, V) -> nat, sh: Shard<K, V>, budget: nat, key: K)
    requires ShardOk(full, cost) && key in full.m
    requires full.policy.None? ==> sh == full
    requires full.policy.Some? ==> sh.policy.Some? && KeptFirst(full, sh, Kept(full.policy.value, budget))
    requires full.policy.Some? ==> full.policy.value.order != [] && full.policy.value.order[0] == key
    ensures Lookup(sh.m, key) == Lookup(full.m, key)
  {
    hide ShardOk, Kept;
    if full.policy.Some? {
      var l := full.policy.value;
      assert l.order[..Kept(l, budget)][0] == key;
    }
  }
}
