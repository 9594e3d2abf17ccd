/** The sliding-window detectors of the process finding engine: rapid child fan-out and bursts of
    short-lived children. The engine keeps trimmed deques; the reference counts the whole history. */
module Bursts {
  import opened Base
  import opened Multimaps
  import opened ProcessModel

  datatype Config = Config(
    fanoutEnabled: bool, fanoutCount: nat, fanoutWindow: nat,
    shortEnabled: bool, shortCount: nat, shortMax: nat, shortWindow: nat)

  datatype Kind = RapidChildFanout | ShortLivedBurst

  datatype Finding = Finding(kind: Kind, process: Key, parent: Option<Key>, at: nat)

  type Windows = map<Key, seq<nat>>

  datatype State = State(starts: map<Key, nat>, childStarts: Windows, shortExits: Windows)

  const IDLE: State := State(map[], map[], map[])

  /** One event, with the nodes of the graph at that time. */
  datatype Input = Input(event: Event, nodes: seq<Node>)

  // ---------- Nodes ----------

  predicate Names(event: Event, node: Node) {
    var pid := event.tgid.GetOr(event.pid.GetOr(0));
    && pid > 0 && node.key.pid == pid
    && (|| (event.platformKey.Some? && node.key.platformKey == event.platformKey)
        || (event.startTime.Some? && node.key.startTime == event.startTime)
        || (event.kind.Exit? && node.exitedAt == Some(event.at)))
  }

  function NodeFor(event: Event, nodes: seq<Node>): Option<Node> {
    if nodes == [] then None else if Names(event, nodes[0]) then Some(nodes[0]) else NodeFor(event, nodes[1..])
  }

  function NodeWith(nodes: seq<Node>, key: Key): Option<Node> {
    if nodes == [] then None else if nodes[0].key == key then Some(nodes[0]) else NodeWith(nodes[1..], key)
  }

  // ---------- The deques ----------

  function Cutoff(now: nat, window: nat): nat { if now > window then now - window else 0 }

  function Trimmed(values: seq<nat>, cutoff: nat): seq<nat> {
    if values != [] && values[0] < cutoff then Trimmed(values[1..], cutoff) else values
  }

  function Pushed(values: seq<nat>, at: nat, window: nat): seq<nat> { Trimmed(values, Cutoff(at, window)) + [at] }

  function Report(kind: Kind, nodes: seq<Node>, parent: Key, at: nat): seq<Finding> {
    var node := NodeWith(nodes, parent);
    if node.Some? then [Finding(kind, node.value.key, node.value.parent, at)] else []
  }

  function Fired(kind: Kind, values: seq<nat>, count: nat, nodes: seq<Node>, parent: Key, at: nat): seq<Finding> {
    if |values| == count then Report(kind, nodes, parent, at) else []
  }

  function Lifetime(start: nat, exit: nat): nat { if exit >= start then exit - start else 0 }

  function StartStep(cfg: Config, s: State, event: Event, node: Node, nodes: seq<Node>): (State, seq<Finding>) {
    var s1 := if cfg.shortEnabled then s.(starts := s.starts[node.key := event.at]) else s;
    if node.parent.None? || !cfg.fanoutEnabled then (s1, [])
    else
      var values := Pushed(Bucket(s.childStarts, node.parent.value), event.at, cfg.fanoutWindow);
      (s1.(childStarts := s.childStarts[node.parent.value := values]),
       Fired(RapidChildFanout, values, cfg.fanoutCount, nodes, node.parent.value, event.at))
  }

  function ExitStep(cfg: Config, s: State, event: Event, node: Node, nodes: seq<Node>): (State, seq<Finding>) {
    if node.key !in s.starts then (s, [])
    else
      var s1 := s.(starts := s.starts - {node.key});
      if node.parent.None? || !cfg.shortEnabled || Lifetime(s.starts[node.key], event.at) > cfg.shortMax then (s1, [])
      else
        var values := Pushed(Bucket(s.shortExits, node.parent.value), event.at, cfg.shortWindow);
        (s1.(shortExits := s.shortExits[node.parent.value := values]),
         Fired(ShortLivedBurst, values, cfg.shortCount, nodes, node.parent.value, event.at))
  }

  function EngineStep(cfg: Config, s: State, input: Input): (State, seq<Finding>) {
    var node := NodeFor(input.event, input.nodes);
    if node.None? then (s, [])
    else if input.event.kind.Start? then StartStep(cfg, s, input.event, node.value, input.nodes)
    else ExitStep(cfg, s, input.event, node.value, input.nodes)
  }

  function EngineAfter(cfg: Config, inputs: seq<Input>): State {
    if inputs == [] then IDLE else EngineStep(cfg, EngineAfter(cfg, inputs[..|inputs| - 1]), inputs[|inputs| - 1]).0
  }

  // ---------- The history ----------

  /** The parent whose child this input starts. */
  function ChildStartOf(input: Input): Option<Key> {
    var node := NodeFor(input.event, input.nodes);
    if node.Some? && input.event.kind.Start? then node.value.parent else None
  }

  /** When the process was last started, unless it exited since. */
  function LastStart(inputs: seq<Input>, key: Key): Option<nat> {
    if inputs == [] then None
    else
      var input := inputs[|inputs| - 1];
      var node := NodeFor(input.event, input.nodes);
      if node.Some? && node.value.key == key
      then if input.event.kind.Start? then Some(input.event.at) else None
      else LastStart(inputs[..|inputs| - 1], key)
  }

  /** The parent whose short-lived child this input ends. */
  function ShortExitOf(cfg: Config, before: seq<Input>, input: Input): Option<Key> {
    var node := NodeFor(input.event, input.nodes);
    if node.None? || input.event.kind.Start? then None
    else
      var start := LastStart(before, node.value.key);
      if start.Some? && input.event.at <= start.value + cfg.shortMax then node.value.parent else None
  }

  /** The times of all child starts of a parent. */
  function ChildStarts(inputs: seq<Input>, parent: Key): seq<nat> {
    if inputs == [] then []
    else
      var input := inputs[|inputs| - 1];
      ChildStarts(inputs[..|inputs| - 1], parent) + if ChildStartOf(input) == Some(parent) then [input.event.at] else []
  }

  /** The times of all exits of short-lived children of a parent. */
  function ShortExits(cfg: Config, inputs: seq<Input>, parent: Key): seq<nat> {
    if inputs == [] then []
    else
      var before, input := inputs[..|inputs| - 1], inputs[|inputs| - 1];
      ShortExits(cfg, before, parent) + if ShortExitOf(cfg, before, input) == Some(parent) then [input.event.at] else []
  }

  ghost predicate NonDecreasing(times: seq<nat>) { forall i, j | 0 <= i < j < |times| :: times[i] <= times[j] }

  /** The times no older than the cutoff, by a filter of the whole history. */
  function Since(times: seq<nat>, cutoff: nat): seq<nat> {
    if times == [] then []
    else Since(times[..|times| - 1], cutoff) + if times[|times| - 1] >= cutoff then [times[|times| - 1]] else []
  }

  function InWindow(times: seq<nat>, window: nat): seq<nat> {
    if times == [] then [] else Since(times, Cutoff(times[|times| - 1], window))
  }

  /** The deque the engine is left with after a history. */
  function Deque(times: seq<nat>, window: nat): seq<nat> {
    if times == [] then [] else Pushed(Deque(times[..|times| - 1], window), times[|times| - 1], window)
  }

  // ---------- The deque is the window ----------

  ghost predicate Suffix(s: seq<nat>, of: seq<nat>) { |s| <= |of| && of[|of| - |s|..] == s }

  lemma {:induction false} TrimmedIsSuffix(values: seq<nat>, cutoff: nat)
    ensures Suffix(Trimmed(values, cutoff), values)
  {
    if values != [] && values[0] < cutoff {
      TrimmedIsSuffix(values[1..], cutoff);
    }
  }

  /** Whatever the times are, the deque is the tail of the history. */
  lemma {:induction false} DequeIsSuffix(times: seq<nat>, window: nat)
    ensures Suffix(Deque(times, window), times)
  {
    if times != [] {
      var before, at := times[..|times| - 1], times[|times| - 1];
      DequeIsSuffix(before, window);
      TrimmedIsSuffix(Deque(before, window), Cutoff(at, window));
      assert times == before + [at];
    }
  }

  /** Trimming a sorted tail that holds all recent times gives exactly the recent times. */
  lemma {:induction false} TrimmedIsSince(values: seq<nat>, cutoff: nat)
    requires NonDecreasing(values)
    ensures Trimmed(values, cutoff) == Since(values, cutoff)
  {
    if values != [] {
      if values[0] < cutoff {
        TrimmedIsSince(values[1..], cutoff);
        SinceSplits(values[..1], values[1..], cutoff);
        assert values == values[..1] + values[1..];
        assert values[..1][..0] == [];
      } else {
        AllRecent(values, cutoff);
      }
    }
  }

  lemma {:induction false} SinceSplits(a: seq<nat>, b: seq<nat>, cutoff: nat)
    ensures Since(a + b, cutoff) == Since(a, cutoff) + Since(b, cutoff)
  {
    if b == [] {
      assert a + b == a;
    } else {
      SinceSplits(a, b[..|b| - 1], cutoff);
      assert (a + b)[..|a + b| - 1] == a + b[..|b| - 1];
    }
  }

  lemma {:induction false} AllRecent(values: seq<nat>, cutoff: nat)
    requires forall k | 0 <= k < |values| :: values[k] >= cutoff
    ensures Since(values, cutoff) == values
  {
    if values != [] {
      var front, last := values[..|values| - 1], values[|values| - 1];
      AllRecent(front, cutoff);
      assert values == front + [last];
    }
  }

  /** A later cutoff filters what an earlier one kept. */
  lemma {:induction false} SinceTwice(values: seq<nat>, early: nat, late: nat)
    requires early <= late
    ensures Since(Since(values, early), late) == Since(values, late)
  {
    if values != [] {
      var front, last := values[..|values| - 1], values[|values| - 1];
      SinceTwice(front, early, late);
      if last >= early {
        SinceSplits(Since(front, early), [last], late);
        assert [last][..0] == [];
      } else {
        assert Since(values, early) == Since(front, early) && Since(values, late) == Since(front, late);
      }
    }
  }

  lemma {:induction false} SinceSorted(values: seq<nat>, cutoff: nat)
    requires NonDecreasing(values)
    ensures NonDecreasing(Since(values, cutoff))
    ensures forall x | x in Since(values, cutoff) :: x in values
  {
    if values != [] {
      SinceSorted(values[..|values| - 1], cutoff);
      var front := Since(values[..|values| - 1], cutoff);
      assert forall k | 0 <= k < |front| :: front[k] in front;
    }
  }

  lemma PushedIsWindow(before: seq<nat>, at: nat, window: nat)
    requires NonDecreasing(before + [at])
    ensures Pushed(InWindow(before, window), at, window) == InWindow(before + [at], window)
  {
    hide Trimmed, Since;
    var late := Cutoff(at, window);
    SinceLast(before, at, late);
    if before != [] {
      var last := |before| - 1;
      var early := Cutoff(before[last], window);
      assert (before + [at])[last] == before[last] && (before + [at])[|before|] == at;
      assert NonDecreasing(before) by {
        assert forall k | 0 <= k < |before| :: before[k] == (before + [at])[k];
      }
      SinceSorted(before, early);
      TrimmedIsSince(Since(before, early), late);
      SinceTwice(before, early, late);
    } else {
      TrimmedIsSince(before, late);
    }
  }

  lemma SinceLast(before: seq<nat>, at: nat, cutoff: nat)
    requires at >= cutoff
    ensures Since(before + [at], cutoff) == Since(before, cutoff) + [at]
  {
    assert (before + [at])[..|before|] == before;
  }

  /** While times do not go back, the trimmed deque is the filter of the whole history to the window. */
  lemma {:induction false} DequeIsWindow(times: seq<nat>, window: nat)
    requires NonDecreasing(times)
    ensures Deque(times, window) == InWindow(times, window)
  {
    hide Pushed, InWindow;
    if times == [] {
      NoWindow(window);
    } else {
      var before, at := times[..|times| - 1], times[|times| - 1];
      DequeIsWindow(before, window);
      assert times == before + [at];
      PushedIsWindow(before, at, window);
    }
  }

  lemma NoWindow(window: nat)
    ensures InWindow([], window) == []
  {
  }

  /** Once a time goes back, the deque can hold more than the window. */
  lemma OutOfOrderOvercounts()
    ensures Deque([10, 0, 10], 5) == [10, 0, 10] && InWindow([10, 0, 10], 5) == [10, 10]
  {
    hide Deque, Since;
    DequeOf([], 10, 5);
    DequeOf([10], 0, 5);
    DequeOf([10, 0], 10, 5);
    SinceSplits([10], [0], 5);
    SinceSplits([10, 0], [10], 5);
    SinceOne(10, 5);
    SinceOne(0, 5);
    assert [10] + [0] == [10, 0] && [10, 0] + [10] == [10, 0, 10] && [] + [10] == [10];
  }

  /** Or less. */
  lemma OutOfOrderUndercounts()
    ensures Deque([0, 10, 4], 5) == [10, 4] && InWindow([0, 10, 4], 5) == [0, 10, 4]
  {
    hide Deque, Since;
    DequeOf([], 0, 5);
    DequeOf([0], 10, 5);
    DequeOf([0, 10], 4, 5);
    AllRecent([0, 10, 4], 0);
    assert [0] + [10] == [0, 10] && [0, 10] + [4] == [0, 10, 4] && [] + [0] == [0];
    assert Trimmed([0], 5) == [] && Trimmed([10], 0) == [10];
  }

  /** No time before n is later than `at`. */
  ghost predicate NoneLater(times: seq<nat>, n: nat, at: nat)
    requires n <= |times|
  {
    forall k | 0 <= k < n :: times[k] <= at
  }

  ghost predicate CountsRight(times: seq<nat>, n: nat, at: nat, window: nat)
    requires n <= |times|
  {
    Deque(times[..n] + [at], window) == InWindow(times[..n] + [at], window)
  }

  /** The deque is the window at every moment not before any earlier one and for every window, if and only if
      the times do not go back. */
  lemma DequeIsWindowIff(times: seq<nat>)
    ensures NonDecreasing(times)
            <==> forall n: nat, at: nat, window: nat | n <= |times| && NoneLater(times, n, at) :: CountsRight(times, n, at, window)
  {
    hide Deque, InWindow;
    if NonDecreasing(times) {
      forall n: nat, at: nat, window: nat | n <= |times| && NoneLater(times, n, at) ensures CountsRight(times, n, at, window) {
        DequeIsWindow(times[..n] + [at], window);
      }
    } else {
      var j := FirstDescent(times);
      DescentMiscounts(times, j);
    }
  }

  lemma {:induction false} FirstDescent(times: seq<nat>) returns (j: nat)
    requires !NonDecreasing(times)
    ensures 0 < j < |times| && times[j - 1] > times[j] && NonDecreasing(times[..j])
  {
    var front := times[..|times| - 1];
    if NonDecreasing(front) {
      j := |times| - 1;
    } else {
      j := FirstDescent(front);
      assert front[..j] == times[..j];
    }
  }

  /** After a step back from a to b, b stays behind a although a window that only holds a does not cover it. */
  lemma DescentMiscounts(times: seq<nat>, j: nat)
    requires 0 < j < |times| && times[j - 1] > times[j] && NonDecreasing(times[..j])
    ensures NoneLater(times, j + 1, times[j - 1]) && !CountsRight(times, j + 1, times[j - 1], 0)
  {
    hide Deque, Since, InWindow;
    var a, b, upTo := times[j - 1], times[j], times[..j];
    forall k | 0 <= k < j ensures times[k] <= a { assert upTo[k] == times[k] && upTo[j - 1] == a; }
    DequeOfEqual(upTo, a);
    var deque := Deque(upTo, 0);
    DequeOf(upTo, b, 0);
    DequeOf(upTo + [b], a, 0);
    assert upTo + [b] == times[..j + 1];
    assert Deque(times[..j + 1] + [a], 0) == deque + [b] + [a];
    assert b == (deque + [b] + [a])[|deque|];
    WindowLeavesOut(times[..j + 1] + [a], 0, b);
  }

  lemma WindowLeavesOut(times: seq<nat>, window: nat, x: nat)
    requires times != [] && x < Cutoff(times[|times| - 1], window)
    ensures x !in InWindow(times, window)
  {
    hide InWindow;
    if x in InWindow(times, window) {
      WindowHolds(times, window, x);
    }
  }

  /** With an empty window the deque of sorted times repeats the last one. */
  lemma DequeOfEqual(times: seq<nat>, a: nat)
    requires times != [] && NonDecreasing(times) && times[|times| - 1] == a > 0
    ensures Deque(times, 0) != [] && Deque(times, 0)[0] == a
  {
    hide Deque, Since, InWindow;
    DequeIsWindow(times, 0);
    var before := times[..|times| - 1];
    assert times == before + [a];
    DequeOf(before, a, 0);
    var first := Deque(times, 0)[0];
    assert first in InWindow(times, 0);
    WindowHolds(times, 0, first);
  }

  lemma WindowHolds(times: seq<nat>, window: nat, x: nat)
    requires times != [] && x in InWindow(times, window)
    ensures x in times && x >= Cutoff(times[|times| - 1], window)
  {
    hide Since;
    SinceHolds(times, Cutoff(times[|times| - 1], window), x);
  }

  lemma {:induction false} SinceHolds(times: seq<nat>, cutoff: nat, x: nat)
    requires x in Since(times, cutoff)
    ensures x in times && x >= cutoff
  {
    var front := times[..|times| - 1];
    if x in Since(front, cutoff) {
      SinceHolds(front, cutoff, x);
    } else {
      assert x == times[|times| - 1];
    }
  }

  lemma DequeOf(before: seq<nat>, at: nat, window: nat)
    ensures Deque([], window) == [] && Deque(before + [at], window) == Pushed(Deque(before, window), at, window)
  {
    assert (before + [at])[..|before|] == before;
  }

  lemma SinceOne(at: nat, cutoff: nat)
    ensures Since([at], cutoff) == if at >= cutoff then [at] else []
  {
    assert [at][..0] == [];
  }

  // ---------- The engine over every run ----------

  lemma {:induction false} StartsAreRemembered(cfg: Config, inputs: seq<Input>, key: Key)
    requires cfg.shortEnabled
    ensures var starts := EngineAfter(cfg, inputs).starts;
            LastStart(inputs, key) == if key in starts then Some(starts[key]) else None
  {
    hide NodeFor, Fired, Pushed;
    if inputs != [] {
      StartsAreRemembered(cfg, inputs[..|inputs| - 1], key);
    }
  }

  lemma {:induction false} ChildDeque(cfg: Config, inputs: seq<Input>, parent: Key)
    requires cfg.fanoutEnabled
    ensures Bucket(EngineAfter(cfg, inputs).childStarts, parent) == Deque(ChildStarts(inputs, parent), cfg.fanoutWindow)
  {
    hide NodeFor, Fired, Pushed;
    if inputs != [] {
      var before, input := inputs[..|inputs| - 1], inputs[|inputs| - 1];
      ChildDeque(cfg, before, parent);
      if ChildStartOf(input) == Some(parent) {
        assert ChildStarts(inputs, parent)[..|ChildStarts(inputs, parent)| - 1] == ChildStarts(before, parent);
      } else {
        assert ChildStarts(inputs, parent) == ChildStarts(before, parent);
      }
    }
  }

  lemma {:induction false} ShortDeque(cfg: Config, inputs: seq<Input>, parent: Key)
    requires cfg.shortEnabled
    ensures Bucket(EngineAfter(cfg, inputs).shortExits, parent) == Deque(ShortExits(cfg, inputs, parent), cfg.shortWindow)
  {
    hide NodeFor, Fired, Pushed;
    if inputs != [] {
      var before, input := inputs[..|inputs| - 1], inputs[|inputs| - 1];
      ShortDeque(cfg, before, parent);
      var node := NodeFor(input.event, input.nodes);
      if node.Some? {
        StartsAreRemembered(cfg, before, node.value.key);
      }
      if ShortExitOf(cfg, before, input) == Some(parent) {
        assert ShortExits(cfg, inputs, parent)[..|ShortExits(cfg, inputs, parent)| - 1] == ShortExits(cfg, before, parent);
      } else {
        assert ShortExits(cfg, inputs, parent) == ShortExits(cfg, before, parent);
      }
    }
  }

  /** What the engine reports for the last input of a run. */
  function Findings(cfg: Config, inputs: seq<Input>): seq<Finding>
    requires inputs != []
  {
    EngineStep(cfg, EngineAfter(cfg, inputs[..|inputs| - 1]), inputs[|inputs| - 1]).1
  }

  /** A fan-out finding is reported exactly when the input starts a child, its parent is known, and the deque
      that the parent's whole history leaves has as many times as the threshold. */
  lemma FanoutFires(cfg: Config, inputs: seq<Input>, finding: Finding)
    requires inputs != [] && finding.kind.RapidChildFanout?
    ensures var input := inputs[|inputs| - 1];
            var parent := ChildStartOf(input);
            finding in Findings(cfg, inputs)
            <==> && cfg.fanoutEnabled && parent.Some?
                 && |Deque(ChildStarts(inputs, parent.value), cfg.fanoutWindow)| == cfg.fanoutCount
                 && finding in Report(RapidChildFanout, input.nodes, parent.value, input.event.at)
  {
    hide NodeFor, NodeWith, Pushed, Deque, LastStart;
    var input := inputs[|inputs| - 1];
    var parent := ChildStartOf(input);
    if cfg.fanoutEnabled && parent.Some? {
      ChildDeque(cfg, inputs, parent.value);
    }
  }

  /** While the parent's child starts come in order, that is their number in the window ending now. */
  lemma FanoutFiresExactly(cfg: Config, inputs: seq<Input>, finding: Finding)
    requires inputs != [] && finding.kind.RapidChildFanout?
    requires var parent := ChildStartOf(inputs[|inputs| - 1]);
             parent.Some? ==> NonDecreasing(ChildStarts(inputs, parent.value))
    ensures var input := inputs[|inputs| - 1];
            var parent := ChildStartOf(input);
            finding in Findings(cfg, inputs)
            <==> && cfg.fanoutEnabled && parent.Some?
                 && |InWindow(ChildStarts(inputs, parent.value), cfg.fanoutWindow)| == cfg.fanoutCount
                 && finding in Report(RapidChildFanout, input.nodes, parent.value, input.event.at)
  {
    hide Findings, Report, ChildStarts, InWindow, Deque, NonDecreasing;
    FanoutFires(cfg, inputs, finding);
    var parent := ChildStartOf(inputs[|inputs| - 1]);
    if parent.Some? {
      DequeIsWindow(ChildStarts(inputs, parent.value), cfg.fanoutWindow);
    }
  }

  /** The same for a burst of short-lived children. */
  lemma ShortBurstFires(cfg: Config, inputs: seq<Input>, finding: Finding)
    requires inputs != [] && finding.kind.ShortLivedBurst?
    ensures var before, input := inputs[..|inputs| - 1], inputs[|inputs| - 1];
            var parent := ShortExitOf(cfg, before, input);
            finding in Findings(cfg, inputs)
            <==> && cfg.shortEnabled && parent.Some?
                 && |Deque(ShortExits(cfg, inputs, parent.value), cfg.shortWindow)| == cfg.shortCount
                 && finding in Report(ShortLivedBurst, input.nodes, parent.value, input.event.at)
  {
    hide NodeFor, NodeWith, Pushed, Deque, LastStart;
    var before, input := inputs[..|inputs| - 1], inputs[|inputs| - 1];
    var parent := ShortExitOf(cfg, before, input);
    var node := NodeFor(input.event, input.nodes);
    if cfg.shortEnabled && node.Some? {
      StartsAreRemembered(cfg, before, node.value.key);
    }
    if cfg.shortEnabled && parent.Some? {
      ShortDeque(cfg, inputs, parent.value);
    }
  }

  lemma ShortBurstFiresExactly(cfg: Config, inputs: seq<Input>, finding: Finding)
    requires inputs != [] && finding.kind.ShortLivedBurst?
    requires var parent := ShortExitOf(cfg, inputs[..|inputs| - 1], inputs[|inputs| - 1]);
             parent.Some? ==> NonDecreasing(ShortExits(cfg, inputs, parent.value))
    ensures var before, input := inputs[..|inputs| - 1], inputs[|inputs| - 1];
            var parent := ShortExitOf(cfg, before, input);
            finding in Findings(cfg, inputs)
            <==> && cfg.shortEnabled && parent.Some?
                 && |InWindow(ShortExits(cfg, inputs, parent.value), cfg.shortWindow)| == cfg.shortCount
                 && finding in Report(ShortLivedBurst, input.nodes, parent.value, input.event.at)
  {
    hide Findings, Report, ShortExits, InWindow, Deque, NonDecreasing;
    ShortBurstFires(cfg, inputs, finding);
    var parent := ShortExitOf(cfg, inputs[..|inputs| - 1], inputs[|inputs| - 1]);
    if parent.Some? {
      DequeIsWindow(ShortExits(cfg, inputs, parent.value), cfg.shortWindow);
    }
  }

  // ---------- The engine ----------

  class FindingEngine {
    const cfg: Config
    var starts: map<Key, nat>
    var childStarts: Windows
    var shortExits: Windows

    ghost function Abs(): State
      reads this
    {
      State(starts, childStarts, shortExits)
    }

    constructor (cfg: Config)
      ensures this.cfg == cfg && Abs() == IDLE
    {
      this.cfg := cfg;
      starts, childStarts, shortExits := map[], map[], map[];
    }

    method Observe(event: Event, nodes: seq<Node>) returns (findings: seq<Finding>)
      modifies this
      ensures (Abs(), findings) == EngineStep(cfg, old(Abs()), Input(event, nodes))
    {
      hide NodeFor, NodeWith, Trimmed;
      findings := [];
      var node := FindForEvent(event, nodes);
      if node.None? {
        return;
      }
      var key, parent := node.value.key, node.value.parent;
      if event.kind.Start? {
        if cfg.shortEnabled {
          starts := starts[key := event.at];
        }
        if parent.Some? && cfg.fanoutEnabled {
          var values := TrimBefore(Bucket(childStarts, parent.value), event.at, cfg.fanoutWindow);
          values := values + [event.at];
          childStarts := childStarts[parent.value := values];
          if |values| == cfg.fanoutCount {
            findings := MakeFindings(RapidChildFanout, nodes, parent.value, event.at);
          }
        }
        return;
      }
      if key !in starts {
        return;
      }
      var duration := Lifetime(starts[key], event.at);
      starts := starts - {key};
      if parent.None? {
        return;
      }
      if cfg.shortEnabled && duration <= cfg.shortMax {
        var values := TrimBefore(Bucket(shortExits, parent.value), event.at, cfg.shortWindow);
        values := values + [event.at];
        shortExits := shortExits[parent.value := values];
        if |values| == cfg.shortCount {
          findings := MakeFindings(ShortLivedBurst, nodes, parent.value, event.at);
        }
      }
    }
  }

  /** The loop that pops what is older than the window. */
  method TrimBefore(values: seq<nat>, now: nat, window: nat) returns (kept: seq<nat>)
    ensures kept == Trimmed(values, Cutoff(now, window))
  {
    var cutoff := Cutoff(now, window);
    kept := values;
    while kept != [] && kept[0] < cutoff
      invariant Trimmed(kept, cutoff) == Trimmed(values, cutoff)
    {
      kept := kept[1..];
    }
  }

  method FindForEvent(event: Event, nodes: seq<Node>) returns (node: Option<Node>)
    ensures node == NodeFor(event, nodes)
  {
    var n := 0;
    while n < |nodes|
      invariant 0 <= n <= |nodes|
      invariant NodeFor(event, nodes) == NodeFor(event, nodes[n..])
    {
      if Names(event, nodes[n]) {
        return Some(nodes[n]);
      }
      assert nodes[n..][1..] == nodes[n + 1..];
      n := n + 1;
    }
    node := None;
  }

  method MakeFindings(kind: Kind, nodes: seq<Node>, parent: Key, at: nat) returns (findings: seq<Finding>)
    ensures findings == Report(kind, nodes, parent, at)
  {
    var n := 0;
    while n < |nodes|
      invariant 0 <= n <= |nodes|
      invariant NodeWith(nodes, parent) == NodeWith(nodes[n..], parent)
    {
      if nodes[n].key == parent {
        return [Finding(kind, nodes[n].key, nodes[n].parent, at)];
      }
      assert nodes[n..][1..] == nodes[n + 1..];
      n := n + 1;
    }
    findings := [];
  }
}
