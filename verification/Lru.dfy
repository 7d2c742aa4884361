/** The exact least-recently-used policy of one shard. */
module LruCache {
  import opened Bytes

  /** Keys from the most to the least recently used, and the size charged for each. */
  datatype Lru<K> = Lru(order: seq<K>, sizes: map<K, nat>)

  function NoKeys<K(!new, ==)>(): Lru<K> { Lru([], map[]) }

  predicate Distinct<K(!new, ==)>(s: seq<K>) { forall i, j | 0 <= i < j < |s| :: s[i] != s[j] }

  /** The list and the table hold the same keys, each once. */
  ghost predicate Ok<K(!new)>(l: Lru<K>)
  {
    Distinct(l.order) && (forall k: K :: k in l.order <==> k in l.sizes)
  }

  function Without<K(!new, ==)>(s: seq<K>, key: K): (r: seq<K>)
    ensures forall k: K :: k in r <==> k in s && k != key
    ensures forall i | 0 <= i < |r| :: r[i] != key && r[i] in s
    ensures |r| <= |s|
  {
    if s == [] then []
    else
      var init, last := s[..|s| - 1], s[|s| - 1];
      if last == key then Without(init, key) else Without(init, key) + [last]
  }

  lemma {:induction false} WithoutDistinct<K(!new)>(s: seq<K>, key: K)
    requires Distinct(s)
    ensures Distinct(Without(s, key))
  {
    if s != [] {
      var init, last := s[..|s| - 1], s[|s| - 1];
      WithoutDistinct(init, key);
      assert last !in init;
      assert last !in Without(init, key);
    }
  }

  function Touch<K(!new, ==)>(l: Lru<K>, key: K): Lru<K>
  {
    if key in l.sizes then l.(order := [key] + Without(l.order, key)) else l
  }

  function Insert<K(!new, ==)>(l: Lru<K>, key: K, size: nat): Lru<K>
  {
    Lru([key] + Without(l.order, key), l.sizes[key := size])
  }

  function Forget<K(!new, ==)>(l: Lru<K>, key: K): Lru<K>
  {
    if key in l.sizes then Lru(Without(l.order, key), l.sizes - {key}) else l
  }

  function Victim<K(!new, ==)>(l: Lru<K>): K
    requires l.order != []
  {
    l.order[|l.order| - 1]
  }

  function Evict<K(!new, ==)>(l: Lru<K>): Lru<K>
    requires l.order != []
  {
    Lru(l.order[..|l.order| - 1], l.sizes - {Victim(l)})
  }

  lemma TouchOk<K(!new)>(l: Lru<K>, key: K)
    requires Ok(l)
    ensures Ok(Touch(l, key))
  {
    WithoutDistinct(l.order, key);
  }

  lemma InsertOk<K(!new)>(l: Lru<K>, key: K, size: nat)
    requires Ok(l)
    ensures Ok(Insert(l, key, size))
  {
    WithoutDistinct(l.order, key);
    var rest := Without(l.order, key);
    assert forall i | 0 <= i < |rest| :: rest[i] != key;
  }

  lemma ForgetOk<K(!new)>(l: Lru<K>, key: K)
    requires Ok(l)
    ensures Ok(Forget(l, key))
  {
    WithoutDistinct(l.order, key);
  }

  lemma EvictOk<K(!new)>(l: Lru<K>)
    requires Ok(l) && l.order != []
    ensures Ok(Evict(l)) && Victim(l) in l.sizes
  {
    var init := l.order[..|l.order| - 1];
    assert l.order == init + [Victim(l)];
    assert Victim(l) !in init;
  }

  // ----- What the order means: a run of uses, seen from outside.

  datatype Use<K> = Inserted(key: K, size: nat) | Accessed(key: K) | Erased(key: K) | Evicted

  predicate Uses<K(!new, ==)>(u: Use<K>, key: K) { (u.Inserted? || u.Accessed?) && u.key == key }

  function After<K(!new, ==)>(l: Lru<K>, u: Use<K>): Lru<K>
  {
    match u
    case Inserted(k, n) => Insert(l, k, n)
    case Accessed(k) => Touch(l, k)
    case Erased(k) => Forget(l, k)
    case Evicted => if l.order == [] then l else Evict(l)
  }

  function Run<K(!new, ==)>(us: seq<Use<K>>): Lru<K>
  {
    if us == [] then NoKeys() else After(Run(us[..|us| - 1]), us[|us| - 1])
  }

  /** One more than the time of the key's last use; 0 if it was never used. */
  function LastUse<K(!new, ==)>(us: seq<Use<K>>, key: K): (t: nat)
    ensures t <= |us|
  {
    if us == [] then 0
    else if Uses(us[|us| - 1], key) then |us|
    else LastUse(us[..|us| - 1], key)
  }

  ghost predicate Descending<K(!new)>(s: seq<K>, us: seq<Use<K>>)
  {
    forall i, j | 0 <= i < j < |s| :: LastUse(us, s[i]) > LastUse(us, s[j])
  }

  lemma {:induction false} WithoutDescending<K(!new)>(s: seq<K>, us: seq<Use<K>>, key: K)
    requires Descending(s, us)
    ensures Descending(Without(s, key), us)
  {
    if s != [] {
      var init, last := s[..|s| - 1], s[|s| - 1];
      WithoutDescending(init, us, key);
      var r := Without(init, key);
      forall i | 0 <= i < |r| ensures LastUse(us, r[i]) > LastUse(us, last) {
        assert r[i] in init;
        var j :| 0 <= j < |init| && init[j] == r[i];
        assert s[j] == init[j];
      }
    }
  }

  /** Keys the last event did not use keep their order. */
  lemma OthersDescending<K(!new)>(s: seq<K>, us: seq<Use<K>>)
    requires us != [] && Descending(s, us[..|us| - 1])
    requires forall i | 0 <= i < |s| :: !Uses(us[|us| - 1], s[i])
    ensures Descending(s, us)
  {
    forall i, j | 0 <= i < j < |s| ensures LastUse(us, s[i]) > LastUse(us, s[j]) {
      assert LastUse(us, s[i]) == LastUse(us[..|us| - 1], s[i]);
      assert LastUse(us, s[j]) == LastUse(us[..|us| - 1], s[j]);
    }
  }

  lemma UsedNowFirst<K(!new)>(s: seq<K>, us: seq<Use<K>>, key: K)
    requires us != [] && Uses(us[|us| - 1], key) && key !in s && Descending(s, us)
    ensures Descending([key] + s, us)
  {
    var n := us[..|us| - 1];
    forall j | 0 <= j < |s| ensures LastUse(us, key) > LastUse(us, s[j]) {
      assert s[j] in s && !Uses(us[|us| - 1], s[j]);
      assert LastUse(us, s[j]) == LastUse(n, s[j]);
    }
  }

  /** Over any run, list and table agree and the list is in exact order of last use, most recent first. */
  lemma {:induction false} OrderIsRecency<K(!new)>(us: seq<Use<K>>)
    ensures Ok(Run(us)) && Descending(Run(us).order, us)
    decreases |us|
  {
    hide LastUse;
    if us != [] {
      var init, u := us[..|us| - 1], us[|us| - 1];
      var l := Run(init);
      OrderIsRecency(init);
      match u
      case Inserted(k, n) =>
        InsertOk(l, k, n);
        WithoutDescending(l.order, init, k);
        OthersDescending(Without(l.order, k), us);
        UsedNowFirst(Without(l.order, k), us, k);
      case Accessed(k) =>
        TouchOk(l, k);
        WithoutDescending(l.order, init, k);
        OthersDescending(Without(l.order, k), us);
        UsedNowFirst(Without(l.order, k), us, k);
        if k !in l.sizes {
          OthersDescending(l.order, us);
        }
      case Erased(k) =>
        ForgetOk(l, k);
        WithoutDescending(l.order, init, k);
        OthersDescending(Without(l.order, k), us);
        OthersDescending(l.order, us);
      case Evicted =>
        OthersDescending(l.order, us);
        if l.order != [] {
          EvictOk(l);
        }
    }
  }

  /** So the victim is the key whose last use is longest ago. */
  lemma VictimIsLeastRecentlyUsed<K(!new)>(us: seq<Use<K>>, key: K)
    requires Run(us).order != [] && key in Run(us).sizes && key != Victim(Run(us))
    ensures LastUse(us, Victim(Run(us))) < LastUse(us, key)
  {
    hide Run, LastUse;
    OrderIsRecency(us);
    var l := Run(us);
    var i :| 0 <= i < |l.order| && l.order[i] == key;
  }

  // ----- The byte counter.

  function Total<K(!new, ==)>(s: seq<K>, sizes: map<K, nat>): nat
  {
    if s == [] then 0
    else
      var k := s[|s| - 1];
      Total(s[..|s| - 1], sizes) + if k in sizes then sizes[k] else 0
  }

  function Charged<K(!new, ==)>(l: Lru<K>): nat { Total(l.order, l.sizes) }

  lemma {:induction false} TotalAgree<K(!new)>(s: seq<K>, a: map<K, nat>, b: map<K, nat>)
    requires forall k: K | k in s :: (k in a <==> k in b) && (k in a ==> a[k] == b[k])
    ensures Total(s, a) == Total(s, b)
  {
    if s != [] {
      assert s[|s| - 1] in s;
      forall k: K | k in s[..|s| - 1] ensures k in s {
      }
      TotalAgree(s[..|s| - 1], a, b);
    }
  }

  lemma TotalSnoc<K(!new)>(init: seq<K>, last: K, sizes: map<K, nat>)
    ensures Total(init + [last], sizes) == Total(init, sizes) + if last in sizes then sizes[last] else 0
  {
    assert (init + [last])[..|init|] == init;
  }

  lemma WithoutSnoc<K(!new)>(init: seq<K>, last: K, key: K)
    ensures Without(init + [last], key) == if last == key then Without(init, key) else Without(init, key) + [last]
  {
    assert (init + [last])[..|init|] == init;
  }

  lemma {:induction false} TotalWithout<K(!new)>(s: seq<K>, sizes: map<K, nat>, key: K)
    requires Distinct(s) && key in sizes
    ensures Total(s, sizes) == Total(Without(s, key), sizes) + if key in s then sizes[key] else 0
  {
    if s != [] {
      hide Without, Total;
      var init, last := s[..|s| - 1], s[|s| - 1];
      assert s == init + [last];
      TotalWithout(init, sizes, key);
      WithoutSnoc(init, last, key);
      TotalSnoc(init, last, sizes);
      TotalSnoc(Without(init, key), last, sizes);
    }
  }

  lemma {:induction false} TotalFront<K(!new)>(key: K, s: seq<K>, sizes: map<K, nat>)
    ensures Total([key] + s, sizes) == Total(s, sizes) + if key in sizes then sizes[key] else 0
  {
    var all := [key] + s;
    if s == [] {
      assert all[..0] == [];
      assert Total([], sizes) == 0;
    } else {
      assert all[..|all| - 1] == [key] + s[..|s| - 1];
      TotalFront(key, s[..|s| - 1], sizes);
    }
  }

  lemma ChargedTouch<K(!new)>(l: Lru<K>, key: K)
    requires Ok(l)
    ensures Charged(Touch(l, key)) == Charged(l)
  {
    if key in l.sizes {
      TotalWithout(l.order, l.sizes, key);
      TotalFront(key, Without(l.order, key), l.sizes);
    }
  }

  lemma ChargedInsert<K(!new)>(l: Lru<K>, key: K, size: nat)
    requires Ok(l)
    ensures Charged(Insert(l, key, size)) == Charged(l) - (if key in l.sizes then l.sizes[key] else 0) + size
  {
    var rest := Without(l.order, key);
    var sizes := l.sizes[key := size];
    TotalFront(key, rest, sizes);
    TotalAgree(rest, l.sizes, sizes);
    if key in l.sizes {
      TotalWithout(l.order, l.sizes, key);
    } else {
      WithoutAbsent(l.order, key);
    }
  }

  lemma {:induction false} WithoutAbsent<K(!new)>(s: seq<K>, key: K)
    requires key !in s
    ensures Without(s, key) == s
  {
    if s != [] {
      assert s == s[..|s| - 1] + [s[|s| - 1]];
      WithoutAbsent(s[..|s| - 1], key);
    }
  }

  lemma ChargedForget<K(!new)>(l: Lru<K>, key: K)
    requires Ok(l) && key in l.sizes
    ensures Charged(Forget(l, key)) == Charged(l) - l.sizes[key]
  {
    TotalWithout(l.order, l.sizes, key);
    TotalAgree(Without(l.order, key), l.sizes, l.sizes - {key});
  }

  lemma ChargedEvict<K(!new)>(l: Lru<K>)
    requires Ok(l) && l.order != []
    ensures Charged(Evict(l)) == Charged(l) - l.sizes[Victim(l)]
  {
    EvictOk(l);
    var init := l.order[..|l.order| - 1];
    TotalAgree(init, l.sizes, l.sizes - {Victim(l)});
  }

  /** As many table entries as list nodes. */
  lemma {:induction false} SameCount<K(!new)>(s: seq<K>, keys: set<K>)
    requires Distinct(s) && forall k: K :: k in s <==> k in keys
    ensures |keys| == |s|
    decreases |s|
  {
    if s == [] {
      assert keys == {};
    } else {
      var init, last := s[..|s| - 1], s[|s| - 1];
      assert s == init + [last] && last in s;
      assert last !in init;
      SameCount(init, keys - {last});
    }
  }

  // ----- The object: a linked list of nodes and a table of where they are.

  datatype Node<K> = Node(id: nat, key: K)

  datatype Entry = Entry(node: nat, bytes: nat)

  /** The nodes hold these keys, in this order. */
  ghost predicate Keyed<K(!new)>(nodes: seq<Node<K>>, order: seq<K>)
  {
    |nodes| == |order| && forall i | 0 <= i < |nodes| :: nodes[i].key == order[i]
  }

  ghost predicate DistinctIds<K(!new)>(nodes: seq<Node<K>>, next: nat)
  {
    && (forall i, j | 0 <= i < j < |nodes| :: nodes[i].id != nodes[j].id)
    && (forall i | 0 <= i < |nodes| :: nodes[i].id < next)
  }

  /** Every table entry points at the node that holds its key. */
  ghost predicate Indexed<K(!new)>(nodes: seq<Node<K>>, index: map<K, Entry>)
  {
    forall i | 0 <= i < |nodes| :: nodes[i].key in index && index[nodes[i].key].node == nodes[i].id
  }

  ghost predicate Sized<K(!new)>(index: map<K, Entry>, sizes: map<K, nat>)
  {
    index.Keys == sizes.Keys && forall k <- index :: sizes[k] == index[k].bytes
  }

  /** Unlinks the node with this identity. */
  function Unlink<K(!new, ==)>(nodes: seq<Node<K>>, id: nat): (r: seq<Node<K>>)
    ensures |r| <= |nodes| && forall i | 0 <= i < |r| :: r[i].id != id && r[i] in nodes
  {
    if nodes == [] then []
    else
      var init, last := nodes[..|nodes| - 1], nodes[|nodes| - 1];
      if last.id == id then Unlink(init, id) else Unlink(init, id) + [last]
  }

  lemma {:induction false} UnlinkIsWithout<K(!new)>(nodes: seq<Node<K>>, order: seq<K>, id: nat, key: K)
    requires Keyed(nodes, order) && forall i | 0 <= i < |nodes| :: nodes[i].id == id <==> order[i] == key
    ensures Keyed(Unlink(nodes, id), Without(order, key))
    decreases |nodes|
  {
    if nodes != [] {
      UnlinkIsWithout(nodes[..|nodes| - 1], order[..|order| - 1], id, key);
    }
  }

  lemma {:induction false} UnlinkDistinct<K(!new)>(nodes: seq<Node<K>>, id: nat, next: nat)
    requires DistinctIds(nodes, next)
    ensures DistinctIds(Unlink(nodes, id), next)
    decreases |nodes|
  {
    if nodes != [] {
      var init, last := nodes[..|nodes| - 1], nodes[|nodes| - 1];
      UnlinkDistinct(init, id, next);
      var rest := Unlink(init, id);
      forall i | 0 <= i < |rest| ensures rest[i].id != last.id {
        var j :| 0 <= j < |init| && init[j] == rest[i];
        assert nodes[j] == init[j];
      }
    }
  }

  /** The concrete fields stand for this list and table. */
  ghost predicate Stands<K(!new)>(nodes: seq<Node<K>>, index: map<K, Entry>, bytes: nat, next: nat, l: Lru<K>)
  {
    && Keyed(nodes, l.order) && Sized(index, l.sizes) && Ok(l)
    && Indexed(nodes, index) && DistinctIds(nodes, next) && bytes == Charged(l)
  }

  /** An entry's node is where the list has its key, and nowhere else. */
  lemma NodeOf<K(!new)>(nodes: seq<Node<K>>, index: map<K, Entry>, bytes: nat, next: nat, l: Lru<K>, key: K)
    requires Stands(nodes, index, bytes, next, l) && key in index
    ensures forall i | 0 <= i < |nodes| :: nodes[i].id == index[key].node <==> l.order[i] == key
    ensures index[key].node < next
  {
    hide Charged;
    assert key in l.sizes && key in l.order;
    var j :| 0 <= j < |l.order| && l.order[j] == key;
    assert nodes[j].id == index[key].node;
    forall i | 0 <= i < |nodes| ensures nodes[i].id == index[key].node <==> l.order[i] == key {
      if i < j {
        assert nodes[i].id != nodes[j].id;
      } else if j < i {
        assert nodes[j].id != nodes[i].id;
      }
    }
  }

  /** What unlinking a key's node leaves. */
  lemma Unlinked<K(!new)>(nodes: seq<Node<K>>, index: map<K, Entry>, bytes: nat, next: nat, l: Lru<K>, key: K)
    requires Stands(nodes, index, bytes, next, l) && key in index
    ensures var rest := Unlink(nodes, index[key].node);
            Keyed(rest, Without(l.order, key)) && Indexed(rest, index) && DistinctIds(rest, next)
  {
    hide Charged, Ok, Unlink, Without;
    var rest := Unlink(nodes, index[key].node);
    NodeOf(nodes, index, bytes, next, l, key);
    UnlinkIsWithout(nodes, l.order, index[key].node, key);
    UnlinkDistinct(nodes, index[key].node, next);
    forall i | 0 <= i < |rest| ensures rest[i].key in index && index[rest[i].key].node == rest[i].id {
      assert rest[i] in nodes;
    }
  }

  lemma PushKeeps<K(!new)>(rest: seq<Node<K>>, order: seq<K>, index: map<K, Entry>, next: nat, node: Node<K>)
    requires Keyed(rest, order) && Indexed(rest, index) && DistinctIds(rest, next)
    requires node.key in index && index[node.key].node == node.id < next
    requires forall i | 0 <= i < |rest| :: rest[i].id != node.id
    ensures Keyed([node] + rest, [node.key] + order) && Indexed([node] + rest, index) && DistinctIds([node] + rest, next)
  {
  }

  lemma MoveStands<K(!new)>(nodes: seq<Node<K>>, index: map<K, Entry>, bytes: nat, next: nat, l: Lru<K>, key: K)
    requires Stands(nodes, index, bytes, next, l) && key in index
    ensures var id := index[key].node;
            Stands([Node(id, key)] + Unlink(nodes, id), index, bytes, next, Touch(l, key))
  {
    hide Charged, Unlink, Ok, Without, Keyed, Indexed, DistinctIds;
    Unlinked(nodes, index, bytes, next, l, key);
    NodeOf(nodes, index, bytes, next, l, key);
    PushKeeps(Unlink(nodes, index[key].node), Without(l.order, key), index, next, Node(index[key].node, key));
    TouchOk(l, key);
    ChargedTouch(l, key);
  }

  lemma ChargedResize<K(!new)>(l: Lru<K>, key: K, size: nat)
    requires Ok(l) && key in l.sizes
    ensures Charged(l.(sizes := l.sizes[key := size])) == Charged(l) - l.sizes[key] + size
    ensures Charged(l) >= l.sizes[key]
  {
    var sizes := l.sizes[key := size];
    TotalWithout(l.order, l.sizes, key);
    TotalWithout(l.order, sizes, key);
    TotalAgree(Without(l.order, key), l.sizes, sizes);
  }

  lemma ResizeStands<K(!new)>(nodes: seq<Node<K>>, index: map<K, Entry>, bytes: nat, next: nat, l: Lru<K>, key: K,
        size: nat)
    requires Stands(nodes, index, bytes, next, l) && key in index
    ensures bytes >= index[key].bytes
    ensures Stands(nodes, index[key := index[key].(bytes := size)], bytes - index[key].bytes + size, next,
                   l.(sizes := l.sizes[key := size]))
  {
    hide Charged, Keyed, DistinctIds;
    ChargedResize(l, key, size);
  }

  lemma PushStands<K(!new)>(nodes: seq<Node<K>>, index: map<K, Entry>, bytes: nat, next: nat, l: Lru<K>, key: K,
        size: nat)
    requires Stands(nodes, index, bytes, next, l) && key !in index
    ensures Stands([Node(next, key)] + nodes, index[key := Entry(next, size)], bytes + size, next + 1, Insert(l, key, size))
  {
    hide Charged, Without;
    InsertOk(l, key, size);
    ChargedInsert(l, key, size);
    assert key !in l.sizes && key !in l.order;
    WithoutAbsent(l.order, key);
    forall i | 0 <= i < |nodes| ensures nodes[i].key != key {
      assert l.order[i] in l.order;
    }
  }

  lemma ForgetStands<K(!new)>(nodes: seq<Node<K>>, index: map<K, Entry>, bytes: nat, next: nat, l: Lru<K>, key: K)
    requires Stands(nodes, index, bytes, next, l) && key in index
    ensures bytes >= index[key].bytes
    ensures Stands(Unlink(nodes, index[key].node), index - {key}, bytes - index[key].bytes, next, Forget(l, key))
  {
    hide Charged, Unlink, Ok, Without;
    Unlinked(nodes, index, bytes, next, l, key);
    ForgetOk(l, key);
    ChargedForget(l, key);
  }

  lemma EvictStands<K(!new)>(nodes: seq<Node<K>>, index: map<K, Entry>, bytes: nat, next: nat, l: Lru<K>)
    requires Stands(nodes, index, bytes, next, l) && nodes != []
    ensures var node := nodes[|nodes| - 1];
            && l.order != [] && node.key == Victim(l) && node.key in index && bytes >= index[node.key].bytes
            && Stands(nodes[..|nodes| - 1], index - {node.key}, bytes - index[node.key].bytes, next, Evict(l))
  {
    hide Charged, Ok;
    EvictOk(l);
    ChargedEvict(l);
    NotVictim(l);
  }

  lemma NotVictim<K(!new)>(l: Lru<K>)
    requires Ok(l) && l.order != []
    ensures forall i | 0 <= i < |l.order| - 1 :: l.order[i] != Victim(l)
  {
  }

  class LruPolicy<K(!new, ==)> {
    var recency: seq<Node<K>>
    var index: map<K, Entry>
    var bytes: nat
    var nextNode: nat
    ghost var view: Lru<K>

    ghost predicate Valid()
      reads this
    {
      Stands(recency, index, bytes, nextNode, view)
    }

    constructor ()
      ensures Valid() && view == NoKeys()
    {
      recency, index, bytes, nextNode, view := [], map[], 0, 0, NoKeys();
    }

    lemma SameKeys()
      requires Valid()
      ensures index.Keys == view.sizes.Keys && |recency| == |view.order|
    {
    }

    /** `splice`: the node itself moves, so the table stays good. */
    method MoveToFront(key: K)
      requires Valid() && key in index
      modifies this`recency, this`view
      ensures Valid() && view == Touch(old(view), key)
    {
      hide Stands;
      MoveStands(recency, index, bytes, nextNode, view, key);
      var id := index[key].node;
      recency := [Node(id, key)] + Unlink(recency, id);
      view := Touch(view, key);
    }

    method OnAccess(key: K)
      requires Valid()
      modifies this
      ensures Valid() && view == Touch(old(view), key)
    {
      hide Stands, Without;
      SameKeys();
      if key in index {
        MoveToFront(key);
      }
    }

    method OnInsert(key: K, size: nat)
      requires Valid()
      modifies this
      ensures Valid() && view == Insert(old(view), key, size)
    {
      hide Stands, Without, Unlink;
      assert key in index <==> key in view.sizes by { SameKeys(); }
      if key in index {
        MoveToFront(key);
        ResizeStands(recency, index, bytes, nextNode, view, key, size);
        bytes := bytes - index[key].bytes + size;
        index := index[key := index[key].(bytes := size)];
        view := view.(sizes := view.sizes[key := size]);
        return;
      }
      PushStands(recency, index, bytes, nextNode, view, key, size);
      recency := [Node(nextNode, key)] + recency;
      index := index[key := Entry(nextNode, size)];
      bytes, nextNode := bytes + size, nextNode + 1;
      view := Insert(view, key, size);
    }

    method OnErase(key: K)
      requires Valid()
      modifies this
      ensures Valid() && view == Forget(old(view), key)
    {
      hide Stands, Without, Unlink;
      assert key in index <==> key in view.sizes by { SameKeys(); }
      if key !in index {
        return;
      }
      ForgetStands(recency, index, bytes, nextNode, view, key);
      var e := index[key];
      bytes := bytes - e.bytes;
      recency := Unlink(recency, e.node);
      index := index - {key};
      view := Forget(view, key);
    }

    method EvictOne() returns (victim: Option<K>)
      requires Valid()
      modifies this
      ensures Valid()
      ensures victim.None? <==> old(view).order == []
      ensures if victim.Some? then victim.value == Victim(old(view)) && view == Evict(old(view)) else view == old(view)
    {
      hide Stands;
      SameKeys();
      if recency == [] {
        return None;
      }
      EvictStands(recency, index, bytes, nextNode, view);
      var node := recency[|recency| - 1];
      recency := recency[..|recency| - 1];
      if node.key in index {
        bytes := bytes - index[node.key].bytes;
        index := index - {node.key};
      }
      view := Evict(view);
      victim := Some(node.key);
    }

    /** `entries()` is the number of keys, and `bytes()` what they are charged. */
    method Entries() returns (n: nat, charged: nat)
      requires Valid()
      ensures n == |view.order| && charged == Charged(view)
    {
      SameCount(view.order, index.Keys);
      n, charged := |index|, bytes;
    }
  }
}
