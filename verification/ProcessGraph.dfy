/** The process graph as the code runs it: a node table, a multimap of live processes by pid and a
    deque of insertions, all updated in place. */
module ProcessGraphs {
  import opened Base
  import opened Multimaps
  import opened ProcessModel

  type Table = map<Key, Node>

  /** The deque lists exactly the keys of the table, each once. */
  ghost predicate Lists(order: seq<Key>, nodes: Table) {
    && NoRepeats(order)
    && (forall key :: key in order <==> key in nodes)
    && (forall key | key in nodes :: nodes[key].key == key)
  }

  /** The un-exited nodes with their pids. */
  ghost function LivePids(nodes: Table): map<Key, int> {
    map key | key in nodes && nodes[key].exitedAt.None? :: key.pid
  }

  ghost function NodesOf(nodes: Table, order: seq<Key>): (r: seq<Node>)
    requires forall key | key in order :: key in nodes
    ensures |r| == |order| && forall k | 0 <= k < |order| :: r[k] == nodes[order[k]]
  {
    seq(|order|, k requires 0 <= k < |order| => nodes[order[k]])
  }

  // ---------- The table and the deque against the list ----------

  lemma {:induction false} ListingSize<T>(order: seq<T>, keys: set<T>)
    requires NoRepeats(order) && forall key :: key in order <==> key in keys
    ensures |order| == |keys|
  {
    if order == [] {
      assert keys == {};
    } else {
      assert order[0] in keys;
      assert forall k | 0 < k < |order| :: order[k] != order[0];
      ListingSize(order[1..], keys - {order[0]});
    }
  }

  lemma TableIndex(nodes: Table, order: seq<Key>, key: Key)
    requires Lists(order, nodes)
    ensures var k := IndexOf(NodesOf(nodes, order), key);
            && (k.Some? <==> key in nodes)
            && (k.Some? ==> order[k.value] == key && NodesOf(nodes, order)[k.value] == nodes[key])
  {
    if key in nodes {
      var k :| 0 <= k < |order| && order[k] == key;
      assert HasAt(NodesOf(nodes, order), key, k);
    }
  }

  /** Changing a node in the table changes it at its place in the list. */
  lemma TableUpdate(nodes: Table, order: seq<Key>, key: Key, node: Node)
    requires Lists(order, nodes) && key in nodes && node.key == key
    ensures var k := IndexOf(NodesOf(nodes, order), key);
            && Lists(order, nodes[key := node])
            && k.Some?
            && NodesOf(nodes[key := node], order) == NodesOf(nodes, order)[k.value := node]
  {
    TableIndex(nodes, order, key);
  }

  lemma TableAppend(nodes: Table, order: seq<Key>, node: Node)
    requires Lists(order, nodes) && node.key !in nodes
    ensures Lists(order + [node.key], nodes[node.key := node])
    ensures NodesOf(nodes[node.key := node], order + [node.key]) == NodesOf(nodes, order) + [node]
  {
    var nodes', order' := nodes[node.key := node], order + [node.key];
    assert forall key :: key in order' <==> key in nodes';
  }

  lemma TablePop(nodes: Table, order: seq<Key>)
    requires Lists(order, nodes) && order != []
    ensures order[0] in nodes
    ensures Lists(order[1..], nodes - {order[0]})
    ensures NodesOf(nodes - {order[0]}, order[1..]) == NodesOf(nodes, order)[1..]
  {
    hide NodesOf;
    var nodes', order' := nodes - {order[0]}, order[1..];
    assert order[0] in order;
    forall key ensures key in order' <==> key in nodes' {
      RestHolds(order, key);
    }
    var rest, list := NodesOf(nodes', order'), NodesOf(nodes, order);
    forall k | 0 <= k < |rest| ensures rest[k] == list[k + 1] {
      assert order'[k] == order[k + 1];
    }
    assert rest == list[1..];
  }

  lemma RestHolds(order: seq<Key>, key: Key)
    requires NoRepeats(order) && order != []
    ensures key in order[1..] <==> key in order && key != order[0]
  {
    if key in order {
      var k :| 0 <= k < |order| && order[k] == key;
      if k > 0 {
        assert order[1..][k - 1] == key;
      }
    }
  }

  // ---------- The multimap against the list ----------

  lemma BucketIsLive(nodes: Table, order: seq<Key>, active: Multimap<int, Key>, pid: int)
    requires Lists(order, nodes) && Agrees(active, LivePids(nodes))
    ensures LiveKeys(NodesOf(nodes, order), pid) == set key | key in Bucket(active, pid)
    ensures UniqueLive(NodesOf(nodes, order), pid)
            == if |Bucket(active, pid)| == 1 then Some(Bucket(active, pid)[0]) else None
  {
    hide NodesOf, UniqueLive;
    var list, bucket := NodesOf(nodes, order), Bucket(active, pid);
    forall key ensures key in LiveKeys(list, pid) <==> key in bucket {
      if key in bucket {
        var k :| 0 <= k < |order| && order[k] == key;
        assert list[k] == nodes[key];
      }
    }
    if |bucket| == 1 {
      assert LiveKeys(list, pid) == {bucket[0]};
      assert bucket[0] in LiveKeys(list, pid);
    } else if bucket == [] {
      assert LiveKeys(list, pid) == {};
    } else {
      assert NoRepeats(bucket);
      assert bucket[0] in LiveKeys(list, pid) && bucket[1] in LiveKeys(list, pid);
    }
  }

  lemma Unindexed(nodes: Table, active: Multimap<int, Key>, key: Key)
    requires Agrees(active, LivePids(nodes))
    ensures var bucket := Without(Bucket(active, key.pid), key);
            Agrees(active[key.pid := bucket], LivePids(nodes) - {key})
  {
    if key in LivePids(nodes) {
      RemovedAgrees(active, LivePids(nodes), key);
    } else {
      var bucket := Bucket(active, key.pid);
      assert key !in bucket;
      WithoutNothing(bucket, key);
      assert LivePids(nodes) - {key} == LivePids(nodes);
      var active' := active[key.pid := bucket];
      assert forall pid :: Bucket(active', pid) == Bucket(active, pid);
    }
  }

  lemma {:induction false} WithoutNothing<T>(s: seq<T>, x: T)
    requires x !in s
    ensures Without(s, x) == s
  {
    if s != [] {
      WithoutNothing(s[1..], x);
      assert s == [s[0]] + s[1..];
    }
  }

  /** The loop that erases the first pair of a process from its bucket. */
  method EraseFirst(bucket: seq<Key>, key: Key) returns (kept: seq<Key>)
    requires NoRepeats(bucket)
    ensures kept == Without(bucket, key)
  {
    var n := 0;
    while n < |bucket|
      invariant 0 <= n <= |bucket|
      invariant key !in bucket[..n]
    {
      if bucket[n] == key {
        WithoutAt(bucket, key, n);
        return bucket[..n] + bucket[n + 1..];
      }
      n := n + 1;
    }
    assert bucket[..n] == bucket;
    WithoutNothing(bucket, key);
    kept := bucket;
  }

  lemma {:induction false} WithoutAt<T>(s: seq<T>, x: T, n: nat)
    requires NoRepeats(s) && n < |s| && s[n] == x && x !in s[..n]
    ensures Without(s, x) == s[..n] + s[n + 1..]
  {
    if n == 0 {
      WithoutNothing(s[1..], x);
    } else {
      WithoutAt(s[1..], x, n - 1);
      assert s[0] in s[..n];
      assert s[..n] == [s[0]] + s[1..][..n - 1];
    }
  }

  // ---------- The graph ----------

  class ProcessGraph {
    const maxNodes: nat
    var nodes: Table
    var active: Multimap<int, Key>
    var order: seq<Key>
    var health: Health

    ghost predicate Valid()
      reads this
    {
      maxNodes > 0 && Lists(order, nodes) && Agrees(active, LivePids(nodes))
    }

    /** The list the three tables stand for. */
    ghost function Abs(): Graph
      reads this
      requires Valid()
    {
      Graph(NodesOf(nodes, order), health)
    }

    constructor (maxNodes: nat)
      requires maxNodes > 0
      ensures Valid() && this.maxNodes == maxNodes && Abs() == EMPTY
    {
      this.maxNodes := maxNodes;
      nodes, active, order := map[], map[], [];
      health := Health(0, 0, 0, 0, 0);
    }

    method UniqueActiveKeyForPid(pid: int) returns (key: Option<Key>)
      requires Valid()
      ensures key == UniqueLive(Abs().nodes, pid)
    {
      hide Agrees, Lists, UniqueLive;
      BucketIsLive(nodes, order, active, pid);
      var bucket := Bucket(active, pid);
      key := if |bucket| == 1 then Some(bucket[0]) else None;
    }

    method UnindexActive(key: Key)
      requires Agrees(active, LivePids(nodes))
      modifies this`active
      ensures Agrees(active, LivePids(nodes) - {key})
    {
      Unindexed(nodes, active, key);
      assert NoRepeats(Bucket(active, key.pid));
      var kept := EraseFirst(Bucket(active, key.pid), key);
      active := active[key.pid := kept];
    }

    /** Every key of the deque has a node, so each round evicts one. */
    method EvictOldest()
      requires Valid() && order != []
      modifies this
      ensures Valid()
      ensures Abs() == Graph(old(Abs()).nodes[1..], old(health).(evicted := old(health).evicted + 1))
    {
      hide Agrees, Lists, NodesOf, LivePids;
      TablePop(nodes, order);
      var oldest := order[0];
      order := order[1..];
      LiveWithout(nodes, oldest);
      if nodes[oldest].exitedAt.None? {
        UnindexActive(oldest);
      }
      nodes := nodes - {oldest};
      health := health.(evicted := health.evicted + 1);
    }

    /** Evicts the oldest nodes until there is a place. */
    method EvictIfNeeded()
      requires Valid()
      modifies this
      ensures Valid()
      ensures var before, kept := old(Abs()), Kept(old(Abs()).nodes, maxNodes);
              Abs() == Graph(kept, before.health.(evicted := before.health.evicted + |before.nodes| - |kept|))
    {
      hide Agrees, Lists, NodesOf, LivePids;
      ghost var all := Abs().nodes;
      TableSize();
      while |nodes| >= maxNodes && order != []
        invariant Valid() && |nodes| == |order| == |Abs().nodes| <= |all|
        invariant Abs().nodes == all[|all| - |order|..]
        invariant |order| >= maxNodes - 1 || |order| == |all|
        invariant health == old(health).(evicted := old(health).evicted + |all| - |order|)
        decreases |order|
      {
        assert all[|all| - |order|..][1..] == all[|all| - |order| + 1..];
        EvictOldest();
        TableSize();
      }
    }

    /** Resolves the parent of a new node and counts a refused link. */
    method ResolveParent(event: Event) returns (parent: Option<Key>)
      requires Valid()
      modifies this`health
      ensures Valid()
      ensures var g := old(Abs());
              var link := LinkOf(g.nodes, event);
              && parent == link.parent
              && Abs() == g.(health := g.health.(ambiguousParents := g.health.ambiguousParents + link.ambiguous,
                                                 invalidParents := g.health.invalidParents + link.invalid))
    {
      hide Agrees, Lists, NodesOf, LiveKeys, UniqueLive, LivePids, IndexOf;
      if event.parentTgid.None? || event.parentTgid.value <= 0 {
        return None;
      }
      var pid := event.parentTgid.value;
      var parentKey := InstanceKey(pid, event.parentStartTime, event.parentPlatformKey);
      var resolved;
      if parentKey.Durable() {
        resolved := Some(parentKey);
      } else {
        resolved := UniqueActiveKeyForPid(pid);
        if resolved.None? {
          BucketEmpty(nodes, order, active, pid);
          if Bucket(active, pid) != [] {
            health := health.(ambiguousParents := health.ambiguousParents + 1);
          }
        }
      }
      if resolved.None? {
        return None;
      }
      var parentStart := event.parentStartTime;
      TableIndex(nodes, order, resolved.value);
      if parentStart.None? && resolved.value in nodes && nodes[resolved.value].startedAt != 0 {
        parentStart := Some(nodes[resolved.value].startedAt);
      }
      if StartsBefore(ChildStart(event), parentStart) {
        health := health.(invalidParents := health.invalidParents + 1);
        return None;
      }
      parent := resolved;
    }

    method InsertNode(event: Event, key: Key)
      requires Valid() && key !in nodes
      modifies this
      ensures Valid() && Abs() == Insert(old(Abs()), maxNodes, event, key)
    {
      hide Agrees, Lists, NodesOf, LinkOf, Kept, LivePids;
      EvictIfNeeded();
      var parent := ResolveParent(event);
      var node := FreshNode(event, key, parent);
      NoneBack(old(nodes), old(order), nodes, order, maxNodes);
      TableAppend(nodes, order, node);
      LiveWith(nodes, active, node);
      nodes := nodes[key := node];
      order := order + [key];
      active := active[key.pid := Bucket(active, key.pid) + [key]];
    }

    /** Takes one event. */
    method Observe(event: Event) returns (ok: bool)
      requires Valid()
      modifies this
      ensures Valid() && (Abs(), ok) == Step(old(Abs()), maxNodes, event)
    {
      hide Agrees, Lists, NodesOf, LivePids, UniqueLive, IndexOf, Insert;
      var key := KeyFrom(event);
      if key.None? && event.kind.Exit? && event.tgid.Some? && event.tgid.value > 0 {
        key := UniqueActiveKeyForPid(event.tgid.value);
        if key.None? {
          health := health.(ambiguousExits := health.ambiguousExits + 1);
          return false;
        }
      }
      if key.None? {
        health := health.(rejectedIdentity := health.rejectedIdentity + 1);
        return false;
      }
      TableIndex(nodes, order, key.value);
      if event.kind.Exit? {
        if key.value !in nodes {
          return false;
        }
        MarkExited(key.value, event);
        return true;
      }
      if key.value in nodes {
        SetDetails(key.value, event);
        return true;
      }
      InsertNode(event, key.value);
      ok := true;
    }

    method MarkExited(key: Key, event: Event)
      requires Valid() && key in nodes
      modifies this
      ensures Valid()
      ensures var g := old(Abs());
              var k := IndexOf(g.nodes, key);
              k.Some? && Abs() == g.(nodes := g.nodes[k.value := g.nodes[k.value].(exitedAt := Some(event.at), exitCode := event.exitCode)])
    {
      hide Agrees, Lists, NodesOf, LivePids, IndexOf;
      TableIndex(nodes, order, key);
      KeyOfNode(nodes, order, key);
      var node := nodes[key].(exitedAt := Some(event.at), exitCode := event.exitCode);
      TableUpdate(nodes, order, key, node);
      LiveAfterExit(nodes, key, node);
      UnindexActive(key);
      nodes := nodes[key := node];
    }

    method SetDetails(key: Key, event: Event)
      requires Valid() && key in nodes
      modifies this`nodes
      ensures Valid()
      ensures var g := old(Abs());
              var k := IndexOf(g.nodes, key);
              k.Some? && Abs() == g.(nodes := g.nodes[k.value := g.nodes[k.value].(details := event.details)])
    {
      hide Agrees, Lists, NodesOf, LivePids, IndexOf;
      TableIndex(nodes, order, key);
      KeyOfNode(nodes, order, key);
      var node := nodes[key].(details := event.details);
      TableUpdate(nodes, order, key, node);
      LiveUnchanged(nodes, key, node);
      nodes := nodes[key := node];
    }

    /** Counts the live nodes one by one. */
    method ActiveCount() returns (count: nat)
      ensures count == |LivePids(nodes)|
    {
      hide LivePids;
      count := 0;
      var left := nodes.Keys;
      LiveIn(nodes);
      while left != {}
        invariant left <= nodes.Keys
        invariant count + |LiveOf(nodes, left)| == |LivePids(nodes)|
        decreases left
      {
        var key :| key in left;
        LiveOfLess(nodes, left, key);
        if nodes[key].exitedAt.None? {
          count := count + 1;
        }
        left := left - {key};
      }
    }

    lemma TableSize()
      requires Valid()
      ensures |nodes| == |order| == |Abs().nodes|
    {
      ListingSize(order, nodes.Keys);
    }
  }

  ghost function LiveOf(nodes: Table, keys: set<Key>): set<Key>
    requires keys <= nodes.Keys
  {
    set key | key in keys && nodes[key].exitedAt.None?
  }

  lemma LiveIn(nodes: Table)
    ensures LiveOf(nodes, nodes.Keys) == LivePids(nodes).Keys && |LiveOf(nodes, {})| == 0
  {
    assert LiveOf(nodes, {}) == {};
  }

  lemma LiveOfLess(nodes: Table, keys: set<Key>, key: Key)
    requires keys <= nodes.Keys && key in keys
    ensures |LiveOf(nodes, keys)| == |LiveOf(nodes, keys - {key})| + if nodes[key].exitedAt.None? then 1 else 0
  {
    var less := LiveOf(nodes, keys - {key});
    assert LiveOf(nodes, keys) == if nodes[key].exitedAt.None? then less + {key} else less;
  }

  lemma LiveWithout(nodes: Table, key: Key)
    requires key in nodes
    ensures LivePids(nodes - {key}) == LivePids(nodes) - {key}
    ensures nodes[key].exitedAt.Some? ==> LivePids(nodes - {key}) == LivePids(nodes)
  {
  }

  lemma LiveWith(nodes: Table, active: Multimap<int, Key>, node: Node)
    requires Agrees(active, LivePids(nodes)) && node.key !in nodes && node.exitedAt.None?
    ensures Agrees(active[node.key.pid := Bucket(active, node.key.pid) + [node.key]], LivePids(nodes[node.key := node]))
  {
    AddedAgrees(active, LivePids(nodes), node.key, node.key.pid);
    assert LivePids(nodes[node.key := node]) == LivePids(nodes)[node.key := node.key.pid];
  }

  lemma LiveAfterExit(nodes: Table, key: Key, node: Node)
    requires key in nodes && node.exitedAt.Some?
    ensures LivePids(nodes[key := node]) == LivePids(nodes) - {key}
  {
  }

  lemma LiveUnchanged(nodes: Table, key: Key, node: Node)
    requires key in nodes && node.exitedAt == nodes[key].exitedAt
    ensures LivePids(nodes[key := node]) == LivePids(nodes)
  {
  }

  lemma KeyOfNode(nodes: Table, order: seq<Key>, key: Key)
    requires Lists(order, nodes) && key in nodes
    ensures nodes[key].key == key
  {
  }

  lemma BucketEmpty(nodes: Table, order: seq<Key>, active: Multimap<int, Key>, pid: int)
    requires Lists(order, nodes) && Agrees(active, LivePids(nodes))
    ensures Bucket(active, pid) == [] <==> LiveKeys(NodesOf(nodes, order), pid) == {}
  {
    hide Agrees, LiveKeys, UniqueLive, NodesOf;
    BucketIsLive(nodes, order, active, pid);
    var bucket := Bucket(active, pid);
    if bucket != [] {
      assert bucket[0] in bucket;
      assert bucket[0] in LiveKeys(NodesOf(nodes, order), pid);
    }
  }

  /** Eviction brings no key back. */
  lemma NoneBack(nodes: Table, order: seq<Key>, nodes': Table, order': seq<Key>, max: nat)
    requires max > 0 && Lists(order, nodes) && Lists(order', nodes')
    requires NodesOf(nodes', order') == Kept(NodesOf(nodes, order), max)
    ensures nodes'.Keys <= nodes.Keys
  {
    hide NodesOf, NoRepeats, Kept;
    var list, kept := NodesOf(nodes, order), NodesOf(nodes', order');
    forall key | key in nodes' ensures key in nodes {
      var k :| 0 <= k < |order'| && order'[k] == key;
      assert kept[k].key == key;
      var j := KeptWas(list, max, k);
      assert list[j] == nodes[order[j]] && order[j] in order;
    }
  }

  lemma KeptWas(list: seq<Node>, max: nat, k: nat) returns (j: nat)
    requires max > 0 && k < |Kept(list, max)|
    ensures j < |list| && list[j] == Kept(list, max)[k]
  {
    j := k + |list| - |Kept(list, max)|;
  }
}
