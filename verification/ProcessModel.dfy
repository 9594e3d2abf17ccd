/** The process graph as one list of nodes, oldest first. Every lookup is a scan of the list; this is
    what the node table, the active multimap and the insertion deque of the code have to agree with. */
module ProcessModel {
  import opened Base

  datatype Key = Key(pid: int, startTime: Option<nat>, platformKey: Option<nat>) {
    predicate Durable() { pid > 0 && (platformKey.Some? || startTime.Some?) }
  }

  /** What a later start event of the same process overwrites. */
  datatype Details = Details(
    uid: Option<nat>, gid: Option<nat>, session: Option<nat>, user: string, integrity: string, elevated: Option<bool>,
    comm: string, executable: string, commandLine: string, directory: string)

  datatype Node = Node(
    key: Key, parent: Option<Key>, parentPid: Option<int>, details: Details,
    startedAt: nat, exitedAt: Option<nat>, exitCode: Option<int>)

  datatype EventType = Start | Exit

  datatype Event = Event(
    kind: EventType, at: nat, pid: Option<int>, tgid: Option<int>, parentPid: Option<int>, parentTgid: Option<int>,
    startTime: Option<nat>, platformKey: Option<nat>, parentStartTime: Option<nat>, parentPlatformKey: Option<nat>,
    details: Details, exitCode: Option<int>)

  datatype Health = Health(
    rejectedIdentity: nat, ambiguousParents: nat, invalidParents: nat, ambiguousExits: nat, evicted: nat)

  datatype Graph = Graph(nodes: seq<Node>, health: Health)

  const EMPTY: Graph := Graph([], Health(0, 0, 0, 0, 0))

  /** The start time only identifies a process that has no platform key. */
  function InstanceKey(pid: int, startTime: Option<nat>, platformKey: Option<nat>): Key {
    Key(pid, if platformKey.Some? then None else startTime, platformKey)
  }

  function KeyFrom(event: Event): Option<Key> {
    if event.tgid.None? || event.tgid.value <= 0 then None
    else
      var key := InstanceKey(event.tgid.value, event.startTime, event.platformKey);
      if key.Durable() then Some(key) else None
  }

  // ---------- Scans of the list ----------

  ghost predicate HasAt(nodes: seq<Node>, key: Key, k: nat) { k < |nodes| && nodes[k].key == key }

  ghost function IndexOf(nodes: seq<Node>, key: Key): (r: Option<nat>)
    ensures r.Some? ==> HasAt(nodes, key, r.value)
    ensures r.None? ==> forall k :: !HasAt(nodes, key, k)
  {
    if exists k :: HasAt(nodes, key, k) then
      var k :| HasAt(nodes, key, k);
      Some(k)
    else None
  }

  /** The processes of a pid that have not exited. */
  ghost function LiveKeys(nodes: seq<Node>, pid: int): set<Key> {
    set k | 0 <= k < |nodes| && nodes[k].exitedAt.None? && nodes[k].key.pid == pid :: nodes[k].key
  }

  /** The only live process of a pid. */
  ghost function UniqueLive(nodes: seq<Node>, pid: int): (r: Option<Key>)
    ensures r.Some? ==> LiveKeys(nodes, pid) == {r.value}
    ensures r.None? ==> forall key :: LiveKeys(nodes, pid) != {key}
  {
    if exists key :: LiveKeys(nodes, pid) == {key} then
      var key :| LiveKeys(nodes, pid) == {key};
      Some(key)
    else None
  }

  // ---------- One event ----------

  /** The parent of a new node, and the increments of the two counters of refused links. */
  datatype Link = Link(parent: Option<Key>, ambiguous: nat, invalid: nat)

  ghost function ResolvedParent(nodes: seq<Node>, event: Event, pid: int): Option<Key> {
    var key := InstanceKey(pid, event.parentStartTime, event.parentPlatformKey);
    if key.Durable() then Some(key) else UniqueLive(nodes, pid)
  }

  ghost function ParentStart(nodes: seq<Node>, event: Event, parent: Key): Option<nat> {
    if event.parentStartTime.Some? then event.parentStartTime
    else
      var k := IndexOf(nodes, parent);
      if k.Some? && nodes[k.value].startedAt != 0 then Some(nodes[k.value].startedAt) else None
  }

  function ChildStart(event: Event): Option<nat> {
    if event.startTime.Some? then event.startTime else if event.at != 0 then Some(event.at) else None
  }

  predicate StartsBefore(child: Option<nat>, parent: Option<nat>) {
    child.Some? && parent.Some? && parent.value > child.value
  }

  ghost function LinkOf(nodes: seq<Node>, event: Event): Link {
    if event.parentTgid.None? || event.parentTgid.value <= 0 then Link(None, 0, 0)
    else
      var pid := event.parentTgid.value;
      var parent := ResolvedParent(nodes, event, pid);
      if parent.None? then Link(None, if LiveKeys(nodes, pid) != {} then 1 else 0, 0)
      else if StartsBefore(ChildStart(event), ParentStart(nodes, event, parent.value)) then Link(None, 0, 1)
      else Link(parent, 0, 0)
  }

  function FreshNode(event: Event, key: Key, parent: Option<Key>): Node {
    Node(key, parent, if event.parentTgid.Some? then event.parentTgid else event.parentPid, event.details, event.at, None, None)
  }

  /** The nodes that stay when a new one needs a place. */
  function Kept(nodes: seq<Node>, max: nat): seq<Node>
    requires max > 0
  {
    if |nodes| >= max then nodes[|nodes| - (max - 1)..] else nodes
  }

  ghost function Insert(g: Graph, max: nat, event: Event, key: Key): Graph
    requires max > 0
  {
    var kept := Kept(g.nodes, max);
    var link := LinkOf(kept, event);
    Graph(kept + [FreshNode(event, key, link.parent)],
          g.health.(ambiguousParents := g.health.ambiguousParents + link.ambiguous,
                    invalidParents := g.health.invalidParents + link.invalid,
                    evicted := g.health.evicted + |g.nodes| - |kept|))
  }

  ghost function ExitKey(nodes: seq<Node>, event: Event): Option<Key> {
    if KeyFrom(event).Some? then KeyFrom(event)
    else if event.kind.Exit? && event.tgid.Some? && event.tgid.value > 0 then UniqueLive(nodes, event.tgid.value)
    else None
  }

  ghost function Step(g: Graph, max: nat, event: Event): (Graph, bool)
    requires max > 0
  {
    var key := ExitKey(g.nodes, event);
    if key.None? then
      if event.kind.Exit? && event.tgid.Some? && event.tgid.value > 0
      then (g.(health := g.health.(ambiguousExits := g.health.ambiguousExits + 1)), false)
      else (g.(health := g.health.(rejectedIdentity := g.health.rejectedIdentity + 1)), false)
    else
      var k := IndexOf(g.nodes, key.value);
      if event.kind.Exit? then
        if k.None? then (g, false)
        else (g.(nodes := g.nodes[k.value := g.nodes[k.value].(exitedAt := Some(event.at), exitCode := event.exitCode)]), true)
      else if k.Some? then (g.(nodes := g.nodes[k.value := g.nodes[k.value].(details := event.details)]), true)
      else (Insert(g, max, event, key.value), true)
  }

  ghost function After(events: seq<Event>, max: nat): Graph
    requires max > 0
  {
    if events == [] then EMPTY
    else Step(After(events[..|events| - 1], max), max, events[|events| - 1]).0
  }
}
