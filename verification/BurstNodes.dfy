/** The burst detectors read the process graph: which of its nodes an event is about. */
module BurstNodes {
  import opened Base
  import opened ProcessModel
  import opened ProcessRuns
  import opened ParentLinks
  import Bursts

  /** The keys an event can mean: by platform key, or by start time. */
  predicate CanMean(event: Event, key: Key) {
    && event.tgid == Some(key.pid)
    && (|| (event.platformKey.Some? && key == Key(key.pid, None, event.platformKey))
        || (event.startTime.Some? && key == Key(key.pid, event.startTime, None)))
  }

  /** Every process of the graph has either a platform key or a start time. */
  lemma KeysHaveOneName(events: seq<Event>, max: nat, k: nat)
    requires max > 0 && k < |After(events, max).nodes|
    ensures var key := After(events, max).nodes[k].key; key.pid > 0 && (key.startTime.Some? <==> key.platformKey.None?)
  {
    hide After, FoundBy, Means, TooLate, InsertsAt;
    var n := ParentsAreMeant(events, max, k);
  }

  lemma {:induction false} FoundIfNamed(event: Event, nodes: seq<Node>, k: nat)
    requires k < |nodes| && Bursts.Names(event, nodes[k])
    ensures Bursts.NodeFor(event, nodes).Some?
    decreases |nodes|
  {
    hide Bursts.Names;
    if !Bursts.Names(event, nodes[0]) {
      FoundIfNamed(event, nodes[1..], k - 1);
    }
  }

  lemma {:induction false} FoundIsNamed(event: Event, nodes: seq<Node>) returns (k: nat)
    requires Bursts.NodeFor(event, nodes).Some?
    ensures k < |nodes| && Bursts.NodeFor(event, nodes) == Some(nodes[k]) && Bursts.Names(event, nodes[k])
  {
    hide Bursts.Names;
    if Bursts.Names(event, nodes[0]) {
      k := 0;
    } else {
      var j := FoundIsNamed(event, nodes[1..]);
      k := j + 1;
    }
  }

  /** Of the graph after it, a start event that identifies a process finds a node the detectors take it for, and that
      is the process itself, or one that has its pid and start time instead of its platform key. An event that gives
      only one of the two finds the process itself. */
  lemma StartFindsItsNode(events: seq<Event>, max: nat)
    requires max > 0 && events != [] && events[|events| - 1].kind.Start? && Identified(events[|events| - 1])
    ensures var event := events[|events| - 1];
            var node := Bursts.NodeFor(event, After(events, max).nodes);
            && node.Some? && node.value in After(events, max).nodes && CanMean(event, node.value.key)
            && (event.platformKey.None? || event.startTime.None? ==> Identifies(event, node.value.key))
  {
    hide After, Bursts.NodeFor;
    var event, nodes := events[|events| - 1], After(events, max).nodes;
    var k := StartedIsHeld(events, max);
    KeyIs(event, nodes[k].key);
    FoundIfNamed(event, nodes, k);
    var j := FoundIsNamed(event, nodes);
    KeysHaveOneName(events, max, j);
  }

  /** After a start event the graph holds the process it identifies. */
  lemma StartedIsHeld(events: seq<Event>, max: nat) returns (k: nat)
    requires max > 0 && events != [] && events[|events| - 1].kind.Start? && Identified(events[|events| - 1])
    ensures k < |After(events, max).nodes| && Identifies(events[|events| - 1], After(events, max).nodes[k].key)
  {
    hide LinkOf, UniqueLive, IndexOf;
    var n := |events| - 1;
    var g, event := After(events[..n], max), events[n];
    var key := KeyFrom(event).value;
    KeyIs(event, key);
    var found := IndexOf(g.nodes, key);
    k := if found.Some? then found.value else |After(events, max).nodes| - 1;
  }

  /** So the child start it counts is one of the parent the graph links that node to. */
  lemma ChildIsCountedForItsParent(events: seq<Event>, max: nat)
    requires max > 0 && events != [] && events[|events| - 1].kind.Start? && Identified(events[|events| - 1])
    ensures var event, nodes := events[|events| - 1], After(events, max).nodes;
            exists k: nat | k < |nodes| :: CanMean(event, nodes[k].key)
              && Bursts.ChildStartOf(Bursts.Input(event, nodes)) == nodes[k].parent
  {
    hide After, Bursts.NodeFor, CanMean;
    var event, nodes := events[|events| - 1], After(events, max).nodes;
    StartFindsItsNode(events, max);
    var k := FoundIsNamed(event, nodes);
  }
}
