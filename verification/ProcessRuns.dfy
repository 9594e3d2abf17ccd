/** What holds of the process graph after every sequence of events. */
module ProcessRuns {
  import opened Base
  import opened Multimaps
  import opened ProcessModel

  function Keys(nodes: seq<Node>): (r: seq<Key>)
    ensures |r| == |nodes| && forall k | 0 <= k < |nodes| :: r[k] == nodes[k].key
  {
    seq(|nodes|, k requires 0 <= k < |nodes| => nodes[k].key)
  }

  function Last<T>(s: seq<T>, n: nat): seq<T> { if |s| <= n then s else s[|s| - n..] }

  /** The processes inserted so far, from the events alone: a start event inserts its process unless
      that process is among the last `max` inserted ones. */
  function Inserted(events: seq<Event>, max: nat): seq<Key> {
    if events == [] then []
    else
      var before, event := Inserted(events[..|events| - 1], max), events[|events| - 1];
      var key := KeyFrom(event);
      if event.kind.Start? && key.Some? && key.value !in Last(before, max) then before + [key.value] else before
  }

  /** The details of the latest start event of a process. */
  function LatestDetails(events: seq<Event>, key: Key): Option<Details> {
    if events == [] then None
    else
      var event := events[|events| - 1];
      if event.kind.Start? && KeyFrom(event) == Some(key) then Some(event.details)
      else LatestDetails(events[..|events| - 1], key)
  }

  lemma IndexIs(nodes: seq<Node>, key: Key)
    ensures IndexOf(nodes, key).Some? <==> key in Keys(nodes)
  {
    if key in Keys(nodes) {
      var k :| 0 <= k < |nodes| && Keys(nodes)[k] == key;
      assert HasAt(nodes, key, k);
    }
  }

  lemma InsertKeys(g: Graph, max: nat, event: Event, key: Key)
    requires max > 0 && |g.nodes| <= max
    ensures Keys(Insert(g, max, event, key).nodes) == Last(Keys(g.nodes) + [key], max)
  {
    hide LinkOf;
  }

  /** The graph holds exactly the last `max` inserted processes, in order, and has evicted the others. */
  lemma {:induction false} HoldsTheLatestInsertions(events: seq<Event>, max: nat)
    requires max > 0
    ensures var g := After(events, max);
            && Keys(g.nodes) == Last(Inserted(events, max), max)
            && |Inserted(events, max)| == |g.nodes| + g.health.evicted
            && |g.nodes| <= max
            && NoRepeats(Keys(g.nodes))
  {
    hide LinkOf, IndexOf, UniqueLive, Insert, Last, NoRepeats;
    if events == [] {
      EmptyHolds(max);
    } else {
      var before, event := events[..|events| - 1], events[|events| - 1];
      HoldsTheLatestInsertions(before, max);
      var g, g' := After(before, max), After(events, max);
      var key := ExitKey(g.nodes, event);
      if key.Some? {
        IndexIs(g.nodes, key.value);
        if event.kind.Start? && key.value !in Keys(g.nodes) {
          InsertKeys(g, max, event, key.value);
          InsertCounts(g, max, event, key.value);
          LastOfLast(Inserted(before, max), key.value, max);
          LastUnrepeated(Inserted(before, max), key.value, max);
        } else {
          assert Keys(g'.nodes) == Keys(g.nodes);
        }
      }
    }
  }

  lemma EmptyHolds(max: nat)
    ensures Keys(EMPTY.nodes) == Last([], max) && NoRepeats(Keys(EMPTY.nodes))
  {
  }

  lemma InsertCounts(g: Graph, max: nat, event: Event, key: Key)
    requires max > 0
    ensures Insert(g, max, event, key).health.evicted + |Insert(g, max, event, key).nodes| == g.health.evicted + |g.nodes| + 1
  {
    hide LinkOf;
  }

  lemma LastOfLast<T>(s: seq<T>, x: T, max: nat)
    requires max > 0
    ensures Last(Last(s, max) + [x], max) == Last(s + [x], max) && |Last(s + [x], max)| <= max
  {
    if |s| >= max {
      assert Last(s, max) + [x] == (s + [x])[|s| - max..];
    }
  }

  lemma LastUnrepeated<T>(s: seq<T>, x: T, max: nat)
    requires max > 0 && NoRepeats(Last(s, max)) && x !in Last(s, max)
    ensures NoRepeats(Last(s + [x], max))
  {
    var last := Last(s, max) + [x];
    LastOfLast(s, x, max);
    assert NoRepeats(last);
  }

  predicate Starts(event: Event, key: Key) { event.kind.Start? && KeyFrom(event) == Some(key) }

  /** A node after an event either is the one the event starts, or was there with the same details. */
  lemma NodeBefore(g: Graph, max: nat, event: Event, k: nat) returns (j: Option<nat>)
    requires max > 0 && NoRepeats(Keys(g.nodes)) && k < |Step(g, max, event).0.nodes|
    ensures var node := Step(g, max, event).0.nodes[k];
            if j.None? then Starts(event, node.key) && node.details == event.details
            else && j.value < |g.nodes| && g.nodes[j.value].key == node.key && g.nodes[j.value].details == node.details
                 && !Starts(event, node.key)
  {
    hide LinkOf, UniqueLive, IndexOf, Insert;
    var key := ExitKey(g.nodes, event);
    if key.Some? && event.kind.Start? && IndexOf(g.nodes, key.value).None? {
      j := InsertedBefore(g, max, event, key.value, k);
    } else if key.Some? && event.kind.Start? {
      var found := IndexOf(g.nodes, key.value).value;
      assert Keys(g.nodes)[found] == key.value && Keys(g.nodes)[k] == g.nodes[k].key;
      j := if found == k then None else Some(k);
    } else {
      j := Some(k);
    }
  }

  lemma InsertedBefore(g: Graph, max: nat, event: Event, key: Key, k: nat) returns (j: Option<nat>)
    requires max > 0 && IndexOf(g.nodes, key).None? && KeyFrom(event) == Some(key) && k < |Insert(g, max, event, key).nodes|
    ensures var node := Insert(g, max, event, key).nodes[k];
            if j.None? then node.key == key && node.details == event.details
            else && j.value < |g.nodes| && g.nodes[j.value].key == node.key && g.nodes[j.value].details == node.details
                 && node.key != key
  {
    hide LinkOf, IndexOf;
    var kept := Kept(g.nodes, max);
    if k < |kept| {
      j := Some(k + |g.nodes| - |kept|);
      assert !HasAt(g.nodes, key, j.value);
    } else {
      j := None;
    }
  }

  /** Every process the graph holds has the details of its latest start event. */
  lemma {:induction false} DetailsAreTheLatest(events: seq<Event>, max: nat, k: nat)
    requires max > 0 && k < |After(events, max).nodes|
    ensures var node := After(events, max).nodes[k];
            LatestDetails(events, node.key) == Some(node.details)
  {
    hide Step, KeyFrom, NoRepeats;
    if events != [] {
      var before, event := events[..|events| - 1], events[|events| - 1];
      HoldsTheLatestInsertions(before, max);
      var j := NodeBefore(After(before, max), max, event, k);
      if j.Some? {
        DetailsAreTheLatest(before, max, j.value);
      }
    }
  }

  // ---------- Identities and exits ----------

  /** A process is known by its pid and its platform key, or else by its pid and its start time. */
  predicate Identifies(event: Event, key: Key) {
    && event.tgid == Some(key.pid) && key.pid > 0 && key.platformKey == event.platformKey
    && (if event.platformKey.Some? then key.startTime.None? else event.startTime.Some? && key.startTime == event.startTime)
  }

  lemma KeyIs(event: Event, key: Key)
    ensures KeyFrom(event) == Some(key) <==> Identifies(event, key)
  {
  }

  ghost predicate LiveAt(nodes: seq<Node>, pid: int, k: int) {
    0 <= k < |nodes| && nodes[k].key.pid == pid && nodes[k].exitedAt.None?
  }

  /** The only live process of its pid. */
  ghost predicate Alone(nodes: seq<Node>, p: Key) {
    && (exists k :: LiveAt(nodes, p.pid, k) && nodes[k].key == p)
    && (forall k | LiveAt(nodes, p.pid, k) :: nodes[k].key == p)
  }

  lemma AloneIs(nodes: seq<Node>, p: Key)
    ensures Alone(nodes, p) <==> UniqueLive(nodes, p.pid) == Some(p)
  {
    var live := LiveKeys(nodes, p.pid);
    if Alone(nodes, p) {
      var k :| LiveAt(nodes, p.pid, k) && nodes[k].key == p;
      assert p in live;
      forall key | key in live ensures key == p {
        var j :| 0 <= j < |nodes| && nodes[j].exitedAt.None? && nodes[j].key.pid == p.pid && nodes[j].key == key;
        assert LiveAt(nodes, p.pid, j);
      }
      assert live == {p};
    }
    if live == {p} {
      assert p in live;
      var k: nat :| k < |nodes| && nodes[k].exitedAt.None? && nodes[k].key.pid == p.pid && nodes[k].key == p;
      assert LiveAt(nodes, p.pid, k);
      forall j | LiveAt(nodes, p.pid, j) ensures nodes[j].key == p { assert nodes[j].key in live; }
    }
  }

  lemma UniqueIsOfPid(nodes: seq<Node>, pid: int, p: Key)
    requires UniqueLive(nodes, pid) == Some(p)
    ensures p.pid == pid
  {
    assert p in LiveKeys(nodes, pid);
  }

  predicate Identified(event: Event) {
    event.tgid.Some? && event.tgid.value > 0 && (event.platformKey.Some? || event.startTime.Some?)
  }

  /** An exit event ends the process it identifies; one that identifies none ends the only live process of its pid. */
  ghost predicate Ends(nodes: seq<Node>, event: Event, key: Key) {
    && event.kind.Exit?
    && (Identifies(event, key)
        || (!Identified(event) && event.tgid == Some(key.pid) && key.pid > 0 && Alone(nodes, key)))
  }

  lemma EndsIs(nodes: seq<Node>, event: Event, key: Key)
    ensures Ends(nodes, event, key) <==> event.kind.Exit? && ExitKey(nodes, event) == Some(key)
  {
    hide UniqueLive, Alone;
    KeyIs(event, key);
    AloneIs(nodes, key);
    if event.kind.Exit? && !Identified(event) && ExitKey(nodes, event) == Some(key) {
      UniqueIsOfPid(nodes, event.tgid.value, key);
    }
  }

  /** What an event does to the exit of a process the graph holds before and after it. */
  lemma ExitStep(g: Graph, max: nat, event: Event, j: nat, k: nat)
    requires max > 0 && NoRepeats(Keys(g.nodes)) && j < |g.nodes| && k < |Step(g, max, event).0.nodes|
    requires Step(g, max, event).0.nodes[k].key == g.nodes[j].key
    ensures var node, node' := g.nodes[j], Step(g, max, event).0.nodes[k];
            if Ends(g.nodes, event, node.key) then node'.exitedAt == Some(event.at) && node'.exitCode == event.exitCode
            else node'.exitedAt == node.exitedAt && node'.exitCode == node.exitCode
  {
    hide UniqueLive, LinkOf, IndexOf, Ends, ExitKey;
    var node := g.nodes[j];
    EndsIs(g.nodes, event, node.key);
    assert Keys(g.nodes)[j] == node.key;
    var key := ExitKey(g.nodes, event);
    if key.Some? {
      var found := IndexOf(g.nodes, key.value);
      if event.kind.Start? && found.None? {
        assert !HasAt(g.nodes, key.value, j);
        var kept := Kept(g.nodes, max);
        assert k < |kept|;
        var was := k + |g.nodes| - |kept|;
        assert g.nodes[was] == kept[k] && Keys(g.nodes)[was] == node.key;
      } else {
        assert Keys(g.nodes)[k] == node.key;
        if found.Some? {
          assert Keys(g.nodes)[found.value] == key.value;
        } else {
          assert !HasAt(g.nodes, key.value, j);
        }
      }
    } else {
      assert Keys(g.nodes)[k] == node.key;
    }
  }

  /** The time and code of the latest event that ended a process the graph was holding, since it was inserted. */
  ghost function LatestExit(events: seq<Event>, max: nat, key: Key): (Option<nat>, Option<int>)
    requires max > 0
  {
    if events == [] then (None, None)
    else
      var before, event := events[..|events| - 1], events[|events| - 1];
      if key !in Keys(After(before, max).nodes) then (None, None)
      else if Ends(After(before, max).nodes, event, key) then (Some(event.at), event.exitCode)
      else LatestExit(before, max, key)
  }

  /** Every process the graph holds has exited exactly when an event ended it since it was inserted, with the time
      and the code of the latest one. */
  lemma {:induction false} ExitsAreTheLatest(events: seq<Event>, max: nat, k: nat)
    requires max > 0 && k < |After(events, max).nodes|
    ensures var node := After(events, max).nodes[k];
            LatestExit(events, max, node.key) == (node.exitedAt, node.exitCode)
  {
    hide Step, KeyFrom, NoRepeats, Ends;
    if events != [] {
      var before, event := events[..|events| - 1], events[|events| - 1];
      var g := After(before, max);
      var key := After(events, max).nodes[k].key;
      HoldsTheLatestInsertions(before, max);
      if key in Keys(g.nodes) {
        var j :| 0 <= j < |g.nodes| && Keys(g.nodes)[j] == key;
        ExitsAreTheLatest(before, max, j);
        ExitStep(g, max, event, j, k);
      } else {
        NewHasNotExited(g, max, event, k);
      }
    }
  }

  lemma NewHasNotExited(g: Graph, max: nat, event: Event, k: nat)
    requires max > 0 && k < |Step(g, max, event).0.nodes|
    ensures var node := Step(g, max, event).0.nodes[k];
            node.key !in Keys(g.nodes) ==> node.exitedAt.None? && node.exitCode.None?
  {
    hide UniqueLive, LinkOf, IndexOf, KeyFrom;
    var key := ExitKey(g.nodes, event);
    if key.Some? && event.kind.Start? && IndexOf(g.nodes, key.value).None? {
      var kept := Kept(g.nodes, max);
      if k < |kept| {
        assert Keys(g.nodes)[k + |g.nodes| - |kept|] == kept[k].key;
      }
    } else {
      assert Keys(g.nodes)[k] == g.nodes[k].key;
    }
  }

  /** An event is taken exactly when it starts a process it identifies or ends one the graph holds. Of the others,
      an exit of some pid that identifies no process is counted as ambiguous, and what identifies none at all as
      without identity; an exit of a process the graph does not hold is not counted. */
  lemma TakenIff(g: Graph, max: nat, event: Event)
    requires max > 0
    ensures var (g', taken) := Step(g, max, event);
            && (taken <==> (event.kind.Start? && Identified(event))
                           || exists k :: 0 <= k < |g.nodes| && Ends(g.nodes, event, g.nodes[k].key))
            && (g'.health.ambiguousExits - g.health.ambiguousExits
                == if event.kind.Exit? && !Identified(event) && event.tgid.Some? && event.tgid.value > 0
                      && !(exists key :: Ends(g.nodes, event, key)) then 1 else 0)
            && (g'.health.rejectedIdentity - g.health.rejectedIdentity
                == if !Identified(event) && (event.kind.Start? || event.tgid.None? || event.tgid.value <= 0) then 1 else 0)
  {
    hide UniqueLive, LinkOf, IndexOf, Ends;
    var key := ExitKey(g.nodes, event);
    forall other ensures Ends(g.nodes, event, other) <==> event.kind.Exit? && key == Some(other) {
      EndsIs(g.nodes, event, other);
    }
    if key.Some? {
      var found := IndexOf(g.nodes, key.value);
      if found.Some? {
        assert g.nodes[found.value].key == key.value;
      } else {
        forall k | 0 <= k < |g.nodes| ensures g.nodes[k].key != key.value { assert !HasAt(g.nodes, key.value, k); }
      }
    }
  }
}
