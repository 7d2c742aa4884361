/** One shard: a table and, with eviction on, its recency policy; and how keys are spread over shards. */
module Shards {
  import opened Bytes
  import opened Kv
  import opened LruCache

  // ----- The number of shards is a power of two, so that a mask picks a shard.

  function Power(k: nat): (p: nat)
    ensures p > 0
  {
    if k == 0 then 1 else 2 * Power(k - 1)
  }

  lemma {:induction false} PowerMonotone(j: nat, k: nat)
    requires j <= k
    ensures Power(j) <= Power(k)
  {
    if j < k {
      PowerMonotone(j, k - 1);
    }
  }

  /** The least power of two that is enough; past 2^63 the machine word overflows to 0 and the loop cannot end. */
  method RoundUpToPowerOfTwo(n: nat) returns (power: nat)
    requires n <= TWO_64 / 2
    ensures n <= power < TWO_64
    ensures exists k :: power == Power(k)
    ensures forall k :: n <= Power(k) ==> power <= Power(k)
  {
    if n <= 1 {
      assert Power(0) == 1;
      return 1;
    }
    power := 1;
    ghost var k := 0;
    while power < n
      invariant power == Power(k) && power < TWO_64
      invariant forall j | 0 <= j < k :: Power(j) < n
      decreases 2 * n - power
    {
      power, k := Wrapped(2 * power), k + 1;
    }
    forall j: nat | n <= Power(j) ensures power <= Power(j) {
      if k <= j {
        PowerMonotone(k, j);
      }
    }
  }

  lemma {:induction false} PowerSum(j: nat, k: nat)
    ensures Power(j + k) == Power(j) * Power(k)
  {
    if k != 0 {
      PowerSum(j, k - 1);
    }
  }

  lemma SmallPower()
    ensures Power(7) == 128
  {
  }

  lemma TopPower()
    ensures Power(63) == TWO_64 / 2
  {
    hide Power;
    SmallPower();
    PowerSum(7, 7);
    PowerSum(14, 7);
    PowerSum(21, 21);
    PowerSum(42, 21);
  }

  /** The values the loop variable takes. */
  function Doubled(k: nat): nat { if k == 0 then 1 else Wrapped(2 * Doubled(k - 1)) }

  function Wrapped(n: nat): nat { n % TWO_64 }

  lemma WrappedSmall(n: nat)
    ensures n < TWO_64 ==> Wrapped(n) == n
    ensures n == TWO_64 || n == 0 ==> Wrapped(n) == 0
  {
  }

  lemma {:induction false} DoubledIsPower(k: nat)
    ensures Doubled(k) == if k < 64 then Power(k) else 0
  {
    hide Power, Wrapped;
    PowerStep(k);
    if k != 0 {
      DoubledIsPower(k - 1);
      WrappedSmall(2 * Doubled(k - 1));
      TopPower();
      if k < 64 {
        PowerMonotone(k, 63);
      }
    }
  }

  lemma PowerStep(k: nat)
    ensures Power(k) == if k == 0 then 1 else 2 * Power(k - 1)
  {
  }

  /** The loop reaches the requested count exactly when that is at most 2^63. */
  lemma RoundUpEndsIff(n: nat)
    ensures (exists k :: Doubled(k) >= n) <==> n <= TWO_64 / 2
  {
    TopPower();
    DoubledIsPower(63);
    forall k: nat ensures Doubled(k) <= TWO_64 / 2 {
      DoubledIsPower(k);
      if k < 64 {
        PowerMonotone(k, 63);
      }
    }
  }

  /** Bitwise and. */
  function And(a: nat, b: nat): nat
  {
    if a == 0 || b == 0 then 0 else a % 2 * (b % 2) + 2 * And(a / 2, b / 2)
  }

  lemma ModuloDoubled(h: nat, p: nat)
    requires p > 0
    ensures h % (2 * p) == h % 2 + 2 * (h / 2 % p)
  {
    var q, r := h / 2 / p, h / 2 % p;
    assert h / 2 == p * q + r;
    assert h == 2 * p * q + (2 * r + h % 2);
    DivisionIsUnique(h, 2 * p, q, 2 * r + h % 2);
  }

  lemma DivisionIsUnique(h: nat, d: nat, q: nat, r: nat)
    requires h == d * q + r && r < d
    ensures h % d == r
  {
    var q', r' := h / d, h % d;
    assert h == d * q' + r';
    if q > q' {
      Distribute(d, q', q - q');
      AtLeastOnce(d, q - q');
    } else if q < q' {
      Distribute(d, q, q' - q);
      AtLeastOnce(d, q' - q);
    }
  }

  lemma Distribute(d: nat, m: nat, n: nat)
    ensures d * (m + n) == d * m + d * n
  {
  }

  lemma AtLeastOnce(d: nat, n: nat)
    requires n > 0
    ensures d * n >= d
  {
  }

  /** The mask takes the remainder. */
  lemma {:induction false} MaskIsModulo(h: nat, k: nat)
    ensures And(h, Power(k) - 1) == h % Power(k)
  {
    if k == 0 {
      assert Power(0) == 1;
    } else {
      var p := Power(k - 1);
      MaskIsModulo(h / 2, k - 1);
      ModuloDoubled(h, p);
      assert (2 * p - 1) / 2 == p - 1 && (2 * p - 1) % 2 == 1;
    }
  }

  // ----- One shard.

  datatype Shard<K, V> = Shard(m: map<K, V>, policy: Option<Lru<K>>)

  /** The policy knows exactly the shard's keys, each with the size of its entry. */
  ghost predicate ShardOk<K(!new), V(!new)>(sh: Shard<K, V>, cost: (K, V) -> nat)
  {
    sh.policy.Some? ==>
      && Ok(sh.policy.value)
      && (forall k: K :: k in sh.m <==> k in sh.policy.value.sizes)
      && (forall k: K | k in sh.m :: k in sh.policy.value.sizes && sh.policy.value.sizes[k] == cost(k, sh.m[k]))
  }

  ghost predicate WithinBudget<K(!new), V>(sh: Shard<K, V>, budget: nat)
  {
    sh.policy.Some? ==> Charged(sh.policy.value) <= budget || |sh.policy.value.order| <= 1
  }

  function PutEntry<K(!new, ==), V(!new)>(sh: Shard<K, V>, cost: (K, V) -> nat, key: K, value: V): Shard<K, V>
  {
    Shard(sh.m[key := value], if sh.policy.None? then None else Some(Insert(sh.policy.value, key, cost(key, value))))
  }

  function EraseEntry<K(!new, ==), V(!new)>(sh: Shard<K, V>, key: K): Shard<K, V>
  {
    Shard(sh.m - {key}, if sh.policy.None? then None else Some(Forget(sh.policy.value, key)))
  }

  function TouchEntry<K(!new, ==), V(!new)>(sh: Shard<K, V>, key: K): Shard<K, V>
  {
    sh.(policy := if sh.policy.None? then None else Some(Touch(sh.policy.value, key)))
  }

  function ChangeEntry<K(!new, ==), V(!new)>(sh: Shard<K, V>, cost: (K, V) -> nat, mu: Change<K, V>): Shard<K, V>
  {
    match mu
    case Put(key, value) => PutEntry(sh, cost, key, value)
    case Erase(key) => EraseEntry(sh, key)
  }

  lemma ChangeKeepsOk<K(!new), V(!new)>(sh: Shard<K, V>, cost: (K, V) -> nat, mu: Change<K, V>)
    requires ShardOk(sh, cost)
    ensures ShardOk(ChangeEntry(sh, cost, mu), cost) && ChangeEntry(sh, cost, mu).m == Apply(sh.m, mu)
  {
    hide Ok, Without;
    if sh.policy.Some? {
      match mu
      case Put(key, value) => InsertOk(sh.policy.value, key, cost(key, value));
      case Erase(key) => ForgetOk(sh.policy.value, key);
    }
  }

  lemma TouchKeepsOk<K(!new), V(!new)>(sh: Shard<K, V>, cost: (K, V) -> nat, key: K)
    requires ShardOk(sh, cost)
    ensures ShardOk(TouchEntry(sh, key), cost) && TouchEntry(sh, key).m == sh.m
  {
    hide Ok, Without;
    if sh.policy.Some? {
      TouchOk(sh.policy.value, key);
    }
  }

  lemma TouchKeepsBudget<K(!new), V(!new)>(sh: Shard<K, V>, cost: (K, V) -> nat, key: K, budget: nat)
    requires ShardOk(sh, cost) && WithinBudget(sh, budget)
    ensures WithinBudget(TouchEntry(sh, key), budget)
  {
    hide Charged, Without;
    if sh.policy.Some? {
      var l := sh.policy.value;
      ChargedTouch(l, key);
      TouchOk(l, key);
      SameCount(l.order, l.sizes.Keys);
      SameCount(Touch(l, key).order, l.sizes.Keys);
    }
  }

  // ----- Eviction.

  /** The keys an eviction pass leaves: the most recently used that fit, and the first in any case. */
  function Kept<K(!new, ==)>(l: Lru<K>, budget: nat): (n: nat)
    ensures n <= |l.order| && (l.order != [] ==> n > 0)
    decreases |l.order|
  {
    if Charged(l) > budget && |l.order| > 1 then Kept(Evict(l), budget) else |l.order|
  }

  lemma {:induction false} KeptIsMost<K(!new)>(l: Lru<K>, budget: nat)
    requires Ok(l)
    ensures Total(l.order[..Kept(l, budget)], l.sizes) <= budget || Kept(l, budget) <= 1
    ensures forall n | Kept(l, budget) < n <= |l.order| :: Total(l.order[..n], l.sizes) > budget
    decreases |l.order|
  {
    hide Ok, Total;
    assert l.order[..|l.order|] == l.order;
    if Charged(l) > budget && |l.order| > 1 {
      var e, init := Evict(l), l.order[..|l.order| - 1];
      EvictOk(l);
      KeptIsMost(e, budget);
      forall n | 0 <= n < |l.order| ensures Total(e.order[..n], e.sizes) == Total(l.order[..n], l.sizes) {
        NotVictim(l);
        assert e.order[..n] == l.order[..n];
        forall k: K | k in l.order[..n] ensures k != Victim(l) {
        }
        TotalAgree(l.order[..n], e.sizes, l.sizes);
      }
    }
  }

  // ----- What a shard is charged is what its entries weigh.

  ghost function Weight<K(!new), V(!new)>(m: map<K, V>, cost: (K, V) -> nat): nat
    decreases |m|
  {
    if m == map[] then 0
    else
      var k :| k in m;
      cost(k, m[k]) + Weight(m - {k}, cost)
  }

  /** Whichever entry is taken first. */
  lemma {:induction false} WeightRemove<K(!new), V(!new)>(m: map<K, V>, cost: (K, V) -> nat, key: K)
    requires key in m
    ensures Weight(m, cost) == cost(key, m[key]) + Weight(m - {key}, cost)
    decreases |m|
  {
    var k :| k in m && Weight(m, cost) == cost(k, m[k]) + Weight(m - {k}, cost);
    if k != key {
      var rest := m - {k};
      WeightRemove(rest, cost, key);
      WeightRemove(m - {key}, cost, k);
      assert rest - {key} == m - {key} - {k};
    }
  }

  lemma {:induction false} WeightSame<K(!new), V(!new)>(m: map<K, V>, cost: (K, V) -> nat, other: (K, V) -> nat)
    requires forall k <- m :: cost(k, m[k]) == other(k, m[k])
    ensures Weight(m, cost) == Weight(m, other)
    decreases |m|
  {
    if m != map[] {
      var k :| k in m && Weight(m, cost) == cost(k, m[k]) + Weight(m - {k}, cost);
      WeightRemove(m, other, k);
      WeightSame(m - {k}, cost, other);
    }
  }

  /** The map is made of these two. */
  ghost predicate MadeOf<K(!new), V(!new)>(m: map<K, V>, a: map<K, V>, b: map<K, V>)
  {
    && a.Keys !! b.Keys && m.Keys == a.Keys + b.Keys
    && (forall k <- a :: m[k] == a[k]) && (forall k <- b :: m[k] == b[k])
  }

  lemma MadeOfRest<K(!new), V(!new)>(m: map<K, V>, a: map<K, V>, b: map<K, V>, k: K)
    requires MadeOf(m, a, b) && k in b
    ensures MadeOf(m - {k}, a, b - {k}) && k in m && m[k] == b[k] && |b - {k}| < |b|
  {
    assert (m - {k}).Keys == m.Keys - {k} && (b - {k}).Keys == b.Keys - {k};
  }

  lemma MadeOfOne<K(!new), V(!new)>(m: map<K, V>, a: map<K, V>, cost: (K, V) -> nat)
    requires MadeOf(m, a, map[])
    ensures m == a && Weight<K, V>(map[], cost) == 0
  {
    assert m.Keys == a.Keys;
  }

  lemma {:induction false} WeightUnion<K(!new), V(!new)>(m: map<K, V>, a: map<K, V>, b: map<K, V>, cost: (K, V) -> nat)
    requires MadeOf(m, a, b)
    ensures Weight(m, cost) == Weight(a, cost) + Weight(b, cost)
    decreases |b|
  {
    hide Weight, MadeOf;
    if b == map[] {
      MadeOfOne(m, a, cost);
    } else {
      var k :| k in b;
      MadeOfRest(m, a, b, k);
      WeightRemove(b, cost, k);
      WeightUnion(m - {k}, a, b - {k}, cost);
      WeightRemove(m, cost, k);
    }
  }

  lemma {:induction false} TotalIsWeight<K(!new), V(!new)>(order: seq<K>, sizes: map<K, nat>, m: map<K, V>,
        cost: (K, V) -> nat)
    requires Distinct(order) && (forall k: K :: k in order <==> k in m)
    requires forall k <- m :: k in sizes && sizes[k] == cost(k, m[k])
    ensures Total(order, sizes) == Weight(m, cost)
    decreases |order|
  {
    if order == [] {
      assert m == map[];
    } else {
      var init, last := order[..|order| - 1], order[|order| - 1];
      assert last in order;
      ButTheLast(order, |order|);
      assert order[..|order|] == order;
      TotalIsWeight(init, sizes, m - {last}, cost);
      WeightRemove(m, cost, last);
    }
  }

  lemma ChargedIsWeight<K(!new), V(!new)>(sh: Shard<K, V>, cost: (K, V) -> nat)
    requires ShardOk(sh, cost) && sh.policy.Some?
    ensures Charged(sh.policy.value) == Weight(sh.m, cost) && |sh.policy.value.order| == |sh.m|
  {
    var l := sh.policy.value;
    TotalIsWeight(l.order, l.sizes, sh.m, cost);
    assert l.sizes.Keys == sh.m.Keys;
    SameCount(l.order, l.sizes.Keys);
  }

  ghost predicate PartOf<K(!new), V(!new)>(a: map<K, V>, b: map<K, V>)
  {
    forall k: K | k in a :: k in b && b[k] == a[k]
  }

  /** Keeps the keys among the first `n` of the list. */
  ghost predicate KeptFirst<K(!new), V(!new)>(was: Shard<K, V>, sh: Shard<K, V>, n: nat)
    requires was.policy.Some? && sh.policy.Some?
  {
    var l := was.policy.value;
    && n <= |l.order| && sh.policy.value.order == l.order[..n]
    && (forall k: K :: k in sh.m <==> k in was.m && k in l.order[..n])
    && PartOf(sh.m, was.m)
  }

  lemma EvictKeepsOk<K(!new), V(!new)>(sh: Shard<K, V>, cost: (K, V) -> nat)
    requires sh.policy.Some? && ShardOk(sh, cost) && sh.policy.value.order != []
    ensures var l := sh.policy.value;
            Victim(l) in sh.m && ShardOk(Shard(sh.m - {Victim(l)}, Some(Evict(l))), cost)
  {
    hide Ok;
    EvictOk(sh.policy.value);
  }

  lemma ButTheLast<K(!new)>(order: seq<K>, n: nat)
    requires 0 < n <= |order| && Distinct(order)
    ensures order[..n][..n - 1] == order[..n - 1]
    ensures forall k: K :: k in order[..n - 1] <==> k in order[..n] && k != order[n - 1]
  {
    var most, all := order[..n - 1], order[..n];
    assert all == most + [order[n - 1]];
    assert forall i | 0 <= i < n - 1 :: most[i] != order[n - 1];
  }

  lemma EvictKeepsFirst<K(!new), V(!new)>(was: Shard<K, V>, cost: (K, V) -> nat, sh: Shard<K, V>, n: nat)
    requires was.policy.Some? && sh.policy.Some? && ShardOk(was, cost) && KeptFirst(was, sh, n) && n > 0
    ensures var l := sh.policy.value;
            l.order != [] && KeptFirst(was, Shard(sh.m - {Victim(l)}, Some(Evict(l))), n - 1)
  {
    var order := was.policy.value.order;
    ButTheLast(order, n);
    hide Distinct;
    assert Victim(sh.policy.value) == order[n - 1];
  }

  lemma EvictOnce<K(!new), V(!new)>(was: Shard<K, V>, cost: (K, V) -> nat, sh: Shard<K, V>, budget: nat)
    requires was.policy.Some? && sh.policy.Some? && ShardOk(was, cost) && ShardOk(sh, cost)
    requires KeptFirst(was, sh, |sh.policy.value.order|)
    requires Charged(sh.policy.value) > budget && |sh.policy.value.order| > 1
    ensures var l := sh.policy.value; var next := Shard(sh.m - {Victim(l)}, Some(Evict(l)));
            && ShardOk(next, cost) && KeptFirst(was, next, |Evict(l).order|) && |Evict(l).order| == |l.order| - 1
            && |next.m| == |sh.m| - 1 && Kept(Evict(l), budget) == Kept(l, budget)
  {
    hide ShardOk, KeptFirst, Charged;
    EvictKeepsOk(sh, cost);
    EvictKeepsFirst(was, cost, sh, |sh.policy.value.order|);
  }

  /** `evictIfNeeded`: drops entries from the cold end while the shard is over budget and has another. */
  method EvictIfNeeded<K(!new, ==), V(!new)>(sh: Shard<K, V>, ghost cost: (K, V) -> nat, budget: nat)
        returns (r: Shard<K, V>, evicted: nat)
    requires ShardOk(sh, cost)
    ensures ShardOk(r, cost) && WithinBudget(r, budget) && r.policy.Some? == sh.policy.Some?
    ensures |r.m| + evicted == |sh.m| && PartOf(r.m, sh.m)
    ensures sh.policy.None? ==> r == sh
    ensures sh.policy.Some? ==> KeptFirst(sh, r, Kept(sh.policy.value, budget))
    ensures sh.policy.Some? && Charged(sh.policy.value) <= budget ==> r == sh && evicted == 0
  {
    r, evicted := sh, 0;
    if sh.policy.None? {
      return;
    }
    hide ShardOk, KeptFirst, Charged, Evict;
    KeptAll(sh, cost);
    while Charged(r.policy.value) > budget && |r.policy.value.order| > 1
      invariant r.policy.Some? && ShardOk(r, cost)
      invariant KeptFirst(sh, r, |r.policy.value.order|) && PartOf(r.m, sh.m)
      invariant Kept(r.policy.value, budget) == Kept(sh.policy.value, budget)
      invariant |r.m| + evicted == |sh.m|
      invariant Charged(sh.policy.value) <= budget ==> r == sh && evicted == 0
      decreases |r.policy.value.order|
    {
      EvictOnce(sh, cost, r, budget);
      var victim := Victim(r.policy.value);
      r, evicted := Shard(r.m - {victim}, Some(Evict(r.policy.value))), evicted + 1;
    }
  }

  lemma KeptAll<K(!new), V(!new)>(sh: Shard<K, V>, cost: (K, V) -> nat)
    requires sh.policy.Some? && ShardOk(sh, cost)
    ensures KeptFirst(sh, sh, |sh.policy.value.order|)
  {
    assert sh.policy.value.order[..|sh.policy.value.order|] == sh.policy.value.order;
  }
}
