/** Which process a new node of the graph is linked to, and why a link is refused, in terms of the event that
    inserts the node and the nodes there are. */
module ParentLinks {
  import opened Base
  import opened Multimaps
  import opened ProcessModel
  import opened ProcessRuns

  // ---------- The parent an event means ----------

  /** The event itself says which process the parent is: its pid with a platform key, or else with a start time. */
  predicate Names(event: Event, p: Key) {
    && event.parentTgid == Some(p.pid) && p.pid > 0
    && p.platformKey == event.parentPlatformKey
    && (if p.platformKey.Some? then p.startTime.None? else p.startTime.Some? && p.startTime == event.parentStartTime)
  }

  predicate NamesNone(event: Event) { event.parentPlatformKey.None? && event.parentStartTime.None? }

  ghost predicate Means(nodes: seq<Node>, event: Event, p: Key) {
    Names(event, p) || (NamesNone(event) && event.parentTgid == Some(p.pid) && p.pid > 0 && Alone(nodes, p))
  }

  /** Two live processes share the pid the event gives, and the event does not say which one it means. */
  ghost predicate Doubtful(nodes: seq<Node>, event: Event) {
    && NamesNone(event) && event.parentTgid.Some? && event.parentTgid.value > 0
    && exists j, k :: LiveAt(nodes, event.parentTgid.value, j) && LiveAt(nodes, event.parentTgid.value, k)
                      && nodes[j].key != nodes[k].key
  }

  predicate ChildStarted(event: Event, at: nat) {
    event.startTime == Some(at) || (event.startTime.None? && at == event.at && at != 0)
  }

  ghost predicate ParentStarted(nodes: seq<Node>, event: Event, p: Key, at: nat) {
    || event.parentStartTime == Some(at)
    || (event.parentStartTime.None? && at != 0 && exists k: nat :: HasAt(nodes, p, k) && nodes[k].startedAt == at)
  }

  /** The parent is known to have started after the child. */
  ghost predicate TooLate(nodes: seq<Node>, event: Event, p: Key) {
    exists child: nat, parent: nat :: ChildStarted(event, child) && ParentStarted(nodes, event, p, parent) && parent > child
  }

  // ---------- The link is that parent ----------

  lemma MeansIs(nodes: seq<Node>, event: Event, p: Key)
    ensures Means(nodes, event, p)
            <==> event.parentTgid.Some? && event.parentTgid.value > 0
                 && ResolvedParent(nodes, event, event.parentTgid.value) == Some(p)
  {
    hide UniqueLive, Alone, LiveKeys;
    AloneIs(nodes, p);
    if event.parentTgid.Some? && NamesNone(event) && UniqueLive(nodes, event.parentTgid.value) == Some(p) {
      UniqueIsOfPid(nodes, event.parentTgid.value, p);
    }
  }

  lemma DoubtfulIs(nodes: seq<Node>, event: Event)
    ensures Doubtful(nodes, event)
            <==> && event.parentTgid.Some? && event.parentTgid.value > 0
                 && ResolvedParent(nodes, event, event.parentTgid.value).None? && LiveKeys(nodes, event.parentTgid.value) != {}
  {
    hide LiveKeys;
    if event.parentTgid.Some? && event.parentTgid.value > 0 && NamesNone(event) {
      TwoLive(nodes, event.parentTgid.value);
    }
  }

  lemma TwoLive(nodes: seq<Node>, pid: int)
    ensures (exists j, k :: LiveAt(nodes, pid, j) && LiveAt(nodes, pid, k) && nodes[j].key != nodes[k].key)
            <==> UniqueLive(nodes, pid).None? && LiveKeys(nodes, pid) != {}
  {
    var live := LiveKeys(nodes, pid);
    if j, k :| LiveAt(nodes, pid, j) && LiveAt(nodes, pid, k) && nodes[j].key != nodes[k].key {
      assert nodes[j].key in live && nodes[k].key in live;
    }
    if UniqueLive(nodes, pid).None? && live != {} {
      var a :| a in live;
      assert live != {a};
      var b :| b in live && b != a;
      var j: nat :| j < |nodes| && nodes[j].exitedAt.None? && nodes[j].key.pid == pid && nodes[j].key == a;
      var k: nat :| k < |nodes| && nodes[k].exitedAt.None? && nodes[k].key.pid == pid && nodes[k].key == b;
      assert LiveAt(nodes, pid, j) && LiveAt(nodes, pid, k);
    }
  }

  lemma TooLateIs(nodes: seq<Node>, event: Event, p: Key)
    requires NoRepeats(Keys(nodes))
    ensures TooLate(nodes, event, p) <==> StartsBefore(ChildStart(event), ParentStart(nodes, event, p))
  {
    hide IndexOf;
    var child, parent := ChildStart(event), ParentStart(nodes, event, p);
    forall at: nat ensures ChildStarted(event, at) <==> child == Some(at) {}
    forall at: nat ensures ParentStarted(nodes, event, p, at) <==> parent == Some(at) { ParentStartIs(nodes, event, p, at); }
  }

  lemma ParentStartIs(nodes: seq<Node>, event: Event, p: Key, at: nat)
    requires NoRepeats(Keys(nodes))
    ensures ParentStarted(nodes, event, p, at) <==> ParentStart(nodes, event, p) == Some(at)
  {
    hide IndexOf;
    var found := IndexOf(nodes, p);
    forall k: nat | HasAt(nodes, p, k) ensures found == Some(k) {
      assert Keys(nodes)[k] == p;
      if found.Some? {
        assert Keys(nodes)[found.value] == p;
      }
    }
  }

  /** A node is linked to a process exactly when that is the one its event means and it did not start too late. */
  lemma LinkedIff(nodes: seq<Node>, event: Event, p: Key)
    requires NoRepeats(Keys(nodes))
    ensures LinkOf(nodes, event).parent == Some(p) <==> Means(nodes, event, p) && !TooLate(nodes, event, p)
  {
    hide Means, TooLate, ResolvedParent, ParentStart, ChildStart, StartsBefore, LiveKeys;
    MeansIs(nodes, event, p);
    TooLateIs(nodes, event, p);
  }

  /** A link is counted as ambiguous exactly when it is doubtful, and as invalid exactly when the process meant
      started too late. */
  lemma RefusedIff(nodes: seq<Node>, event: Event)
    requires NoRepeats(Keys(nodes))
    ensures var link := LinkOf(nodes, event);
            && link.ambiguous == (if Doubtful(nodes, event) then 1 else 0)
            && link.invalid == (if exists p :: Means(nodes, event, p) && TooLate(nodes, event, p) then 1 else 0)
  {
    hide Means, TooLate, Doubtful, ResolvedParent, ParentStart, ChildStart, StartsBefore, LiveKeys;
    DoubtfulIs(nodes, event);
    forall p
      ensures Means(nodes, event, p)
              <==> event.parentTgid.Some? && event.parentTgid.value > 0
                   && ResolvedParent(nodes, event, event.parentTgid.value) == Some(p)
      ensures TooLate(nodes, event, p) <==> StartsBefore(ChildStart(event), ParentStart(nodes, event, p))
    {
      MeansIs(nodes, event, p);
      TooLateIs(nodes, event, p);
    }
  }

  // ---------- Over every sequence of events ----------

  /** The nodes event n finds when it inserts one: those before it, without the ones that make place. */
  ghost function FoundBy(events: seq<Event>, max: nat, n: nat): seq<Node>
    requires max > 0 && n < |events|
  {
    Kept(After(events[..n], max).nodes, max)
  }

  /** Event n inserts a node. */
  predicate InsertsAt(events: seq<Event>, max: nat, n: nat)
    requires n < |events|
  {
    events[n].kind.Start? && KeyFrom(events[n]).Some? && KeyFrom(events[n]).value !in Last(Inserted(events[..n], max), max)
  }

  lemma KeptUnrepeated(nodes: seq<Node>, max: nat)
    requires max > 0 && NoRepeats(Keys(nodes))
    ensures NoRepeats(Keys(Kept(nodes, max)))
  {
    var kept := Kept(nodes, max);
    var from := |nodes| - |kept|;
    forall i, j | 0 <= i < j < |kept| ensures Keys(kept)[i] != Keys(kept)[j] {
      assert Keys(nodes)[from + i] == Keys(kept)[i] && Keys(nodes)[from + j] == Keys(kept)[j];
    }
  }

  /** What an event makes of the graph, from the events alone. */
  lemma StepIs(events: seq<Event>, max: nat)
    requires max > 0 && events != []
    ensures var n := |events| - 1;
            var g, g' := After(events[..n], max), After(events, max);
            if InsertsAt(events, max, n) then KeyFrom(events[n]).Some? && g' == Insert(g, max, events[n], KeyFrom(events[n]).value)
            else && g'.health.ambiguousParents == g.health.ambiguousParents
                 && g'.health.invalidParents == g.health.invalidParents
                 && |g'.nodes| == |g.nodes|
                 && forall k | 0 <= k < |g.nodes| :: SameOrigin(g.nodes[k], g'.nodes[k])
  {
    hide Insert, IndexOf, UniqueLive, Last, Inserted;
    var n := |events| - 1;
    var g, event := After(events[..n], max), events[n];
    HoldsTheLatestInsertions(events[..n], max);
    var key := ExitKey(g.nodes, event);
    if key.Some? {
      IndexIs(g.nodes, key.value);
    }
  }

  predicate SameOrigin(a: Node, b: Node) { b.key == a.key && b.parent == a.parent && b.parentPid == a.parentPid && b.startedAt == a.startedAt }

  ghost function Doubts(events: seq<Event>, max: nat): nat
    requires max > 0
  {
    if events == [] then 0
    else
      var n := |events| - 1;
      Doubts(events[..n], max) + if InsertsAt(events, max, n) && Doubtful(FoundBy(events, max, n), events[n]) then 1 else 0
  }

  ghost function LateParents(events: seq<Event>, max: nat): nat
    requires max > 0
  {
    if events == [] then 0
    else
      var n := |events| - 1;
      var late := exists p :: Means(FoundBy(events, max, n), events[n], p) && TooLate(FoundBy(events, max, n), events[n], p);
      LateParents(events[..n], max) + if InsertsAt(events, max, n) && late then 1 else 0
  }

  /** Each counter of refused links is the number of insertions that met its condition. */
  lemma {:induction false} RefusalsAreCounted(events: seq<Event>, max: nat)
    requires max > 0
    ensures After(events, max).health.ambiguousParents == Doubts(events, max)
    ensures After(events, max).health.invalidParents == LateParents(events, max)
  {
    hide Step, InsertsAt, Doubtful, Means, TooLate, LinkOf;
    if events != [] {
      var n := |events| - 1;
      RefusalsAreCounted(events[..n], max);
      StepIs(events, max);
      HoldsTheLatestInsertions(events[..n], max);
      KeptUnrepeated(After(events[..n], max).nodes, max);
      RefusedIff(FoundBy(events, max, n), events[n]);
    }
  }

  /** Every process the graph holds was inserted by some event, has the parent that event means unless it
      started too late, and no other. */
  lemma {:induction false} ParentsAreMeant(events: seq<Event>, max: nat, k: nat) returns (n: nat)
    requires max > 0 && k < |After(events, max).nodes|
    ensures n < |events| && InsertsAt(events, max, n)
    ensures var node := After(events, max).nodes[k];
            && Identifies(events[n], node.key) && node.startedAt == events[n].at
            && node.parentPid == (if events[n].parentTgid.Some? then events[n].parentTgid else events[n].parentPid)
            && (forall p :: node.parent == Some(p)
                  <==> Means(FoundBy(events, max, n), events[n], p) && !TooLate(FoundBy(events, max, n), events[n], p))
  {
    hide Step, InsertsAt, Means, TooLate, LinkOf, FoundBy;
    var m := |events| - 1;
    var before := events[..m];
    var g, g' := After(before, max), After(events, max);
    StepIs(events, max);
    if InsertsAt(events, max, m) {
      HoldsTheLatestInsertions(before, max);
      KeptUnrepeated(g.nodes, max);
      FoundIs(events, max, m);
      if k == |g'.nodes| - 1 {
        n := m;
        KeyIs(events[m], g'.nodes[k].key);
        forall p ensures g'.nodes[k].parent == Some(p)
                 <==> Means(FoundBy(events, max, n), events[n], p) && !TooLate(FoundBy(events, max, n), events[n], p)
        {
          LinkedIff(FoundBy(events, max, m), events[m], p);
        }
      } else {
        var j := k + |g.nodes| - |Kept(g.nodes, max)|;
        assert g'.nodes[k] == g.nodes[j];
        n := ParentsAreMeant(before, max, j);
        Earlier(events, max, n, m);
      }
    } else {
      n := ParentsAreMeant(before, max, k);
      Earlier(events, max, n, m);
    }
  }

  lemma FoundIs(events: seq<Event>, max: nat, n: nat)
    requires max > 0 && n < |events|
    ensures FoundBy(events, max, n) == Kept(After(events[..n], max).nodes, max)
  {
  }

  /** What an event found does not depend on the events after it. */
  lemma Earlier(events: seq<Event>, max: nat, n: nat, m: nat)
    requires max > 0 && n < m <= |events|
    ensures events[..m][n] == events[n] && FoundBy(events[..m], max, n) == FoundBy(events, max, n)
    ensures InsertsAt(events[..m], max, n) == InsertsAt(events, max, n)
  {
    assert events[..m][..n] == events[..n];
  }

  /** So a process whose event gives both start times is linked to a parent that started no later. */
  lemma ParentsStartFirst(events: seq<Event>, max: nat, k: nat) returns (n: nat)
    requires max > 0 && k < |After(events, max).nodes| && After(events, max).nodes[k].parent.Some?
    ensures n < |events| && Identifies(events[n], After(events, max).nodes[k].key)
    ensures events[n].parentTgid == Some(After(events, max).nodes[k].parent.value.pid)
    ensures forall child: nat, parent: nat | ChildStarted(events[n], child)
              && ParentStarted(FoundBy(events, max, n), events[n], After(events, max).nodes[k].parent.value, parent) :: parent <= child
  {
    hide After, FoundBy, Alone;
    n := ParentsAreMeant(events, max, k);
  }
}
