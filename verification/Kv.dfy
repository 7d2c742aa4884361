/** The store's contents as one map, and the mutations of it. */
module Kv {
  import opened Bytes
  import opened Protocol

  type KV = map<Key, Value>

  datatype Change<K, V> = Put(key: K, value: V) | Erase(key: K)

  type Mutation = Change<Key, Value>

  function Lookup<K(==), V>(m: map<K, V>, key: K): Option<V> { if key in m then Some(m[key]) else None }

  function Apply<K(==), V>(m: map<K, V>, mu: Change<K, V>): map<K, V>
  {
    match mu
    case Put(key, value) => m[key := value]
    case Erase(key) => m - {key}
  }

  function ApplyAll<K(==), V>(m: map<K, V>, mus: seq<Change<K, V>>): map<K, V>
  {
    if mus == [] then m else Apply(ApplyAll(m, mus[..|mus| - 1]), mus[|mus| - 1])
  }

  lemma {:induction false} ApplyAllConcat<K, V>(m: map<K, V>, mus: seq<Change<K, V>>, nus: seq<Change<K, V>>)
    ensures ApplyAll(m, mus + nus) == ApplyAll(ApplyAll(m, mus), nus)
  {
    if nus == [] {
      assert mus + nus == mus;
    } else {
      assert (mus + nus)[..|mus + nus| - 1] == mus + nus[..|nus| - 1];
      ApplyAllConcat(m, mus, nus[..|nus| - 1]);
    }
  }

  /** Mutations of other keys leave a key alone. */
  lemma {:induction false} ApplyAllOther<K, V>(m: map<K, V>, mus: seq<Change<K, V>>, key: K)
    requires forall mu <- mus :: mu.key != key
    ensures Lookup(ApplyAll(m, mus), key) == Lookup(m, key)
  {
    if mus != [] {
      ApplyAllOther(m, mus[..|mus| - 1], key);
      assert mus[|mus| - 1] in mus;
    }
  }

  // ----- A map as a list of its entries.

  ghost predicate Listed<K, V>(entries: seq<(K, V)>, key: K)
  {
    exists i :: 0 <= i < |entries| && entries[i].0 == key
  }

  /** The entries list the map, every key once. */
  ghost predicate Lists<K, V>(entries: seq<(K, V)>, m: map<K, V>)
  {
    && (forall i, j | 0 <= i < j < |entries| :: entries[i].0 != entries[j].0)
    && (forall i | 0 <= i < |entries| :: entries[i].0 in m && m[entries[i].0] == entries[i].1)
    && (forall k | k in m :: Listed(entries, k))
  }

  /** Any order will do: the source walks its hash tables. */
  method Listing<K(==), V>(m: map<K, V>) returns (entries: seq<(K, V)>)
    ensures Lists(entries, m)
  {
    entries := [];
    var left := m.Keys;
    while left != {}
      invariant left <= m.Keys
      invariant forall i, j | 0 <= i < j < |entries| :: entries[i].0 != entries[j].0
      invariant forall i | 0 <= i < |entries| ::
                  entries[i].0 in m && entries[i].0 !in left && m[entries[i].0] == entries[i].1
      invariant forall k | k in m :: k in left || Listed(entries, k)
    {
      var k :| k in left;
      ghost var was := entries;
      entries := entries + [(k, m[k])];
      left := left - {k};
      forall q | q in m ensures q in left || Listed(entries, q) {
        if q == k {
          assert entries[|was|].0 == q;
        } else if Listed(was, q) {
          var i :| 0 <= i < |was| && was[i].0 == q;
          assert entries[i].0 == q;
        }
      }
    }
  }

  lemma {:induction false} SomeListing<K, V>(m: map<K, V>) returns (entries: seq<(K, V)>)
    ensures Lists(entries, m)
    decreases |m|
  {
    if m == map[] {
      entries := [];
    } else {
      hide Lists;
      var k :| k in m;
      var rest := m - {k};
      assert rest.Keys == m.Keys - {k};
      var init := SomeListing(rest);
      entries := init + [(k, m[k])];
      OneMoreListed(init, rest, k, m[k]);
      assert rest[k := m[k]] == m;
    }
  }

  lemma OneMoreListed<K, V>(entries: seq<(K, V)>, m: map<K, V>, key: K, value: V)
    requires Lists(entries, m) && key !in m
    ensures Lists(entries + [(key, value)], m[key := value])
  {
    var all := entries + [(key, value)];
    forall q | q in m[key := value] ensures Listed(all, q) {
      if q == key {
        assert all[|entries|].0 == q;
      } else {
        assert Listed(entries, q);
        var i :| 0 <= i < |entries| && entries[i].0 == q;
        assert all[i].0 == q;
      }
    }
  }

  // ----- What a client asks of the store.

  datatype Op =
    | SetOp(key: Key, value: Value)
    | DelOp(key: Key)
    | TxnOp(id: TxnId, mutations: seq<Mutation>)

  function OpMutations(op: Op): seq<Mutation>
  {
    match op
    case SetOp(key, value) => [Put(key, value)]
    case DelOp(key) => [Erase(key)]
    case TxnOp(_, mutations) => mutations
  }

  function ApplyOp(m: KV, op: Op): KV { ApplyAll(m, OpMutations(op)) }

  function ApplyOps(m: KV, ops: seq<Op>): KV
  {
    if ops == [] then m else ApplyOp(ApplyOps(m, ops[..|ops| - 1]), ops[|ops| - 1])
  }

  lemma {:induction false} ApplyOpsConcat(m: KV, ops: seq<Op>, more: seq<Op>)
    ensures ApplyOps(m, ops + more) == ApplyOps(ApplyOps(m, ops), more)
  {
    if more == [] {
      assert ops + more == ops;
    } else {
      assert (ops + more)[..|ops + more| - 1] == ops + more[..|more| - 1];
      ApplyOpsConcat(m, ops, more[..|more| - 1]);
    }
  }

  // ----- What the store writes to its log for it.

  function MutationEntry(mu: Mutation): Entry
  {
    match mu
    case Put(key, value) => Set(key, value)
    case Erase(key) => Del(key)
  }

  function MutationEntries(mus: seq<Mutation>): (r: seq<Entry>)
    ensures |r| == |mus|
  {
    seq(|mus|, i requires 0 <= i < |mus| => MutationEntry(mus[i]))
  }

  /** A transaction is bracketed by its markers; an empty one is not logged. */
  function OpEntries(op: Op): seq<Entry>
  {
    match op
    case SetOp(key, value) => [Set(key, value)]
    case DelOp(key) => [Del(key)]
    case TxnOp(id, mutations) =>
      if mutations == [] then [] else [Begin(id)] + MutationEntries(mutations) + [Commit(id)]
  }

  function Payloads(es: seq<Entry>): (r: seq<Bytes>)
    ensures |r| == |es|
  {
    seq(|es|, i requires 0 <= i < |es| => Encode(es[i]))
  }
}
