/** The broker's event router: one bounded queue per endpoint slot and kind of event. Routing looks the slot
    up and pushes under two locks, one after the other; endpoints are never removed or remapped, so it has the
    same effect as if both happened at the push, and a run is a sequence of operations. */
module BrokerRouter {
  import opened Base
  import opened Wire
  import opened BrokerCodec

  datatype Kind = Lifecycle | ProcessExec

  datatype Queue<T> = Queue(items: seq<T>, dropped: nat)

  datatype Address = Address(slot: string, kind: Kind)

  datatype Router = Router(
    queues: map<Address, Queue<Bytes>>, netns: map<nat, string>, cgroups: map<nat, string>, unroutable: nat)

  datatype Input =
    | Register(slot: string, netns: nat, cgroup: nat)
    | RouteLifecycle(lifecycle: LifecycleEvent, sequence: U64)
    | RouteProcess(process: ProcessEvent, sequence: U64)
    | Take(from: Address)

  datatype Output = Refused | Registered | Unroutable | Routed | Empty | Taken(frame: Bytes)

  const IDLE: Router := Router(map[], map[], map[], 0)

  // ---------- One queue ----------

  function Bound(capacity: nat): nat { Max(1, capacity) }

  /** A full queue drops its oldest item. */
  function Pushed<T>(q: Queue<T>, x: T, capacity: nat): Queue<T> {
    if |q.items| >= Bound(capacity) && q.items != [] then Queue(q.items[1..] + [x], q.dropped + 1)
    else Queue(q.items + [x], q.dropped)
  }

  function Popped<T>(q: Queue<T>): (Queue<T>, Option<T>) {
    if q.items == [] then (q, None) else (q.(items := q.items[1..]), Some(q.items[0]))
  }

  // ---------- One operation ----------

  /** Both queues of every mapped slot exist. */
  ghost predicate Wired(r: Router) {
    && (forall n | n in r.netns :: Address(r.netns[n], Lifecycle) in r.queues)
    && (forall n | n in r.cgroups :: Address(r.cgroups[n], ProcessExec) in r.queues)
    && (forall a | a in r.queues :: Address(a.slot, Lifecycle) in r.queues && Address(a.slot, ProcessExec) in r.queues)
  }

  predicate Accepts(r: Router, slot: string, netns: nat, cgroup: nat) {
    && slot != "" && Address(slot, Lifecycle) !in r.queues
    && (netns != 0 ==> netns !in r.netns) && (cgroup != 0 ==> cgroup !in r.cgroups)
  }

  function WithEndpoint(r: Router, slot: string, netns: nat, cgroup: nat): Router {
    r.(queues := r.queues[Address(slot, Lifecycle) := Queue([], 0)][Address(slot, ProcessExec) := Queue([], 0)],
       netns := if netns != 0 then r.netns[netns := slot] else r.netns,
       cgroups := if cgroup != 0 then r.cgroups[cgroup := slot] else r.cgroups)
  }

  /** Where the frame of an event goes. */
  function TargetOf(r: Router, input: Input): Option<Address> {
    match input
    case RouteLifecycle(e, _) =>
      if e.netns.Some? && e.netns.value in r.netns then Some(Address(r.netns[e.netns.value], Lifecycle)) else None
    case RouteProcess(e, _) =>
      if e.cgroup.Some? && e.cgroup.value in r.cgroups then Some(Address(r.cgroups[e.cgroup.value], ProcessExec)) else None
    case _ => None
  }

  predicate IsRoute(input: Input) { input.RouteLifecycle? || input.RouteProcess? }

  function FrameOf(input: Input): Bytes
    requires IsRoute(input)
  {
    match input
    case RouteLifecycle(e, sequence) => EncodeLifecycle(sequence, e)
    case RouteProcess(e, sequence) => EncodeProcess(sequence, e)
  }

  function Step(capacity: nat, r: Router, input: Input): (Router, Output)
    requires Wired(r)
  {
    match input
    case Register(slot, netns, cgroup) =>
      if Accepts(r, slot, netns, cgroup) then (WithEndpoint(r, slot, netns, cgroup), Registered) else (r, Refused)
    case Take(from) =>
      if from !in r.queues || r.queues[from].items == [] then (r, Empty)
      else (r.(queues := r.queues[from := Popped(r.queues[from]).0]), Taken(r.queues[from].items[0]))
    case _ =>
      var target := TargetOf(r, input);
      if target.None? then (r.(unroutable := r.unroutable + 1), Unroutable)
      else (r.(queues := r.queues[target.value := Pushed(r.queues[target.value], FrameOf(input), capacity)]), Routed)
  }

  lemma StepWired(capacity: nat, r: Router, input: Input)
    requires Wired(r)
    ensures Wired(Step(capacity, r, input).0)
  {
    hide Pushed, Popped, FrameOf;
    var r' := Step(capacity, r, input).0;
    if input.Register? {
      assert forall a | a in r.queues :: a in r'.queues;
    } else {
      assert r'.queues.Keys == r.queues.Keys && r'.netns == r.netns && r'.cgroups == r.cgroups;
    }
  }

  function After(capacity: nat, inputs: seq<Input>): (r: Router)
    ensures Wired(r)
  {
    if inputs == [] then IDLE
    else
      var before, input := After(capacity, inputs[..|inputs| - 1]), inputs[|inputs| - 1];
      StepWired(capacity, before, input);
      Step(capacity, before, input).0
  }

  // ---------- The history of a queue ----------

  /** The frames routed to a queue, from the inputs. */
  function PushedTo(capacity: nat, inputs: seq<Input>, a: Address): seq<Bytes> {
    if inputs == [] then []
    else
      var before, input := inputs[..|inputs| - 1], inputs[|inputs| - 1];
      PushedTo(capacity, before, a)
      + if IsRoute(input) && TargetOf(After(capacity, before), input) == Some(a) then [FrameOf(input)] else []
  }

  /** The frames handed out from a queue. */
  function TakenFrom(capacity: nat, inputs: seq<Input>, a: Address): seq<Bytes> {
    if inputs == [] then []
    else
      var before, input := inputs[..|inputs| - 1], inputs[|inputs| - 1];
      var output := Step(capacity, After(capacity, before), input).1;
      TakenFrom(capacity, before, a) + if input == Take(a) && output.Taken? then [output.frame] else []
  }

  function RouteCount(inputs: seq<Input>): nat {
    if inputs == [] then 0 else RouteCount(inputs[..|inputs| - 1]) + if IsRoute(inputs[|inputs| - 1]) then 1 else 0
  }

  function RoutedCount(capacity: nat, inputs: seq<Input>): nat {
    if inputs == [] then 0
    else
      var before, input := inputs[..|inputs| - 1], inputs[|inputs| - 1];
      RoutedCount(capacity, before) + if Step(capacity, After(capacity, before), input).1.Routed? then 1 else 0
  }

  /** t comes out of s by leaving elements out. */
  ghost predicate IsSubsequence<T(!new)>(t: seq<T>, s: seq<T>) {
    t == [] || (s != [] && (|| IsSubsequence(t, s[..|s| - 1])
                            || (t[|t| - 1] == s[|s| - 1] && IsSubsequence(t[..|t| - 1], s[..|s| - 1]))))
  }

  lemma SubsequenceGrows<T(!new)>(t: seq<T>, s: seq<T>, x: T)
    requires IsSubsequence(t, s)
    ensures IsSubsequence(t, s + [x]) && IsSubsequence(t + [x], s + [x])
  {
    assert (s + [x])[..|s|] == s && (t + [x])[..|t|] == t;
  }

  lemma {:induction false} SubsequenceElements<T(!new)>(t: seq<T>, s: seq<T>, x: T)
    requires IsSubsequence(t, s) && x in t
    ensures x in s
  {
    var front := s[..|s| - 1];
    if IsSubsequence(t, front) {
      SubsequenceElements(t, front, x);
    } else if x in t[..|t| - 1] {
      SubsequenceElements(t[..|t| - 1], front, x);
    } else {
      assert x == t[|t| - 1];
    }
  }

  /** What a queue has seen: p pushed, t taken. */
  ghost predicate Accounts(q: Queue<Bytes>, p: seq<Bytes>, t: seq<Bytes>, capacity: nat) {
    && |q.items| <= Bound(capacity)
    && |p| == |t| + q.dropped + |q.items|
    && p[|p| - |q.items|..] == q.items
    && IsSubsequence(t, p[..|p| - |q.items|])
  }

  lemma PushAccounts(q: Queue<Bytes>, p: seq<Bytes>, t: seq<Bytes>, x: Bytes, capacity: nat)
    requires Accounts(q, p, t, capacity)
    ensures Accounts(Pushed(q, x, capacity), p + [x], t, capacity)
  {
    hide IsSubsequence;
    var gone := |p| - |q.items|;
    var p' := p + [x];
    assert p'[gone..] == q.items + [x];
    if |q.items| >= Bound(capacity) && q.items != [] {
      assert p'[..gone + 1] == p[..gone] + [q.items[0]];
      SubsequenceGrows(t, p[..gone], q.items[0]);
      assert p'[gone + 1..] == q.items[1..] + [x];
    } else {
      assert p'[..gone] == p[..gone];
    }
  }

  lemma PopAccounts(q: Queue<Bytes>, p: seq<Bytes>, t: seq<Bytes>, capacity: nat)
    requires Accounts(q, p, t, capacity) && q.items != []
    ensures Accounts(Popped(q).0, p, t + [q.items[0]], capacity)
  {
    hide IsSubsequence;
    var gone := |p| - |q.items|;
    assert p[..gone + 1] == p[..gone] + [q.items[0]];
    SubsequenceGrows(t, p[..gone], q.items[0]);
    assert p[gone + 1..] == q.items[1..];
  }

  /** Over every run each queue stays within its capacity, what was pushed is what was taken, dropped or
      is held, the held frames are the latest, and frames come out in the order they went in. */
  lemma {:induction false} QueuesAccount(capacity: nat, inputs: seq<Input>, a: Address)
    ensures var r, p, t := After(capacity, inputs), PushedTo(capacity, inputs, a), TakenFrom(capacity, inputs, a);
            if a in r.queues then Accounts(r.queues[a], p, t, capacity) else p == [] && t == []
  {
    hide Step, FrameOf, TargetOf, Accounts, Wired;
    if inputs != [] {
      var before, input := inputs[..|inputs| - 1], inputs[|inputs| - 1];
      QueuesAccount(capacity, before, a);
      SameHistory(capacity, inputs, a);
      StepAccounts(capacity, After(capacity, before), input, a, PushedTo(capacity, before, a), TakenFrom(capacity, before, a));
    }
  }

  /** One operation keeps the accounts of every queue. */
  lemma StepAccounts(capacity: nat, r: Router, input: Input, a: Address, p: seq<Bytes>, t: seq<Bytes>)
    requires Wired(r) && if a in r.queues then Accounts(r.queues[a], p, t, capacity) else p == [] && t == []
    ensures var (r', output) := Step(capacity, r, input);
            var p' := p + if IsRoute(input) && TargetOf(r, input) == Some(a) then [FrameOf(input)] else [];
            var t' := t + if input == Take(a) && output.Taken? then [output.frame] else [];
            if a in r'.queues then Accounts(r'.queues[a], p', t', capacity) else p' == [] && t' == []
  {
    hide Pushed, Popped, FrameOf, IsSubsequence, Accounts;
    assert p + [] == p && t + [] == t;
    match input {
      case Register(slot, netns, cgroup) =>
        EmptyAccounts(capacity);
      case Take(from) =>
        if from == a && a in r.queues && r.queues[a].items != [] { PopAccounts(r.queues[a], p, t, capacity); }
      case _ =>
        if TargetOf(r, input) == Some(a) { PushAccounts(r.queues[a], p, t, FrameOf(input), capacity); }
    }
  }

  lemma SameHistory(capacity: nat, inputs: seq<Input>, a: Address)
    requires inputs != []
    ensures var before, input := inputs[..|inputs| - 1], inputs[|inputs| - 1];
            && (!(IsRoute(input) && TargetOf(After(capacity, before), input) == Some(a))
                ==> PushedTo(capacity, inputs, a) == PushedTo(capacity, before, a))
            && (!(input == Take(a) && Step(capacity, After(capacity, before), input).1.Taken?)
                ==> TakenFrom(capacity, inputs, a) == TakenFrom(capacity, before, a))
  {
  }

  lemma EmptyAccounts(capacity: nat)
    ensures Accounts(Queue([], 0), [], [], capacity)
  {
  }

  /** Every event is routed or counted as unroutable. */
  lemma {:induction false} EventsAreCounted(capacity: nat, inputs: seq<Input>)
    ensures RouteCount(inputs) == RoutedCount(capacity, inputs) + After(capacity, inputs).unroutable
  {
    hide Pushed, Popped, FrameOf;
    if inputs != [] {
      EventsAreCounted(capacity, inputs[..|inputs| - 1]);
    }
  }

  // ---------- Where frames come from ----------

  /** The endpoint was registered with the namespace or the cgroup the event carries. */
  predicate Owns(register: Input, route: Input, a: Address) {
    && register.Register? && register.slot == a.slot
    && match route
       case RouteLifecycle(e, _) => a.kind.Lifecycle? && e.netns == Some(register.netns)
       case RouteProcess(e, _) => a.kind.ProcessExec? && e.cgroup == Some(register.cgroup)
       case _ => false
  }

  lemma {:induction false} RegisteredEarlier(capacity: nat, inputs: seq<Input>, route: Input, a: Address) returns (i: nat)
    requires TargetOf(After(capacity, inputs), route) == Some(a)
    ensures i < |inputs| && Owns(inputs[i], route, a)
  {
    hide Step, TargetOf, Owns;
    if inputs == [] {
      NoTarget(route);
      assert false;
    }
    var before, input := inputs[..|inputs| - 1], inputs[|inputs| - 1];
    if TargetOf(After(capacity, before), route) == Some(a) {
      i := RegisteredEarlier(capacity, before, route, a);
    } else {
      NewTarget(capacity, After(capacity, before), input, route, a);
      i := |inputs| - 1;
    }
  }

  lemma NoTarget(route: Input)
    ensures TargetOf(IDLE, route).None?
  {
  }

  lemma NewTarget(capacity: nat, r: Router, input: Input, route: Input, a: Address)
    requires Wired(r) && TargetOf(r, route) != Some(a) && TargetOf(Step(capacity, r, input).0, route) == Some(a)
    ensures Owns(input, route, a)
  {
    hide Pushed, Popped, FrameOf, Wired;
  }

  lemma {:induction false} PushedByRoute(capacity: nat, inputs: seq<Input>, a: Address, frame: Bytes) returns (j: nat)
    requires frame in PushedTo(capacity, inputs, a)
    ensures j < |inputs| && IsRoute(inputs[j]) && FrameOf(inputs[j]) == frame
    ensures TargetOf(After(capacity, inputs[..j]), inputs[j]) == Some(a)
  {
    hide FrameOf;
    var before := inputs[..|inputs| - 1];
    if frame in PushedTo(capacity, before, a) {
      j := PushedByRoute(capacity, before, a, frame);
      assert inputs[..j] == before[..j];
    } else {
      j := |inputs| - 1;
    }
  }

  /** The frame decodes to the canonical form of the event. */
  predicate Delivers(frame: Bytes, route: Input) {
    match route
    case RouteLifecycle(e, _) => DecodeLifecycle(frame) == Some(CanonicalLifecycle(e))
    case RouteProcess(e, _) => DecodeProcess(frame) == Some(CanonicalProcess(e))
    case _ => false
  }

  lemma FramesDeliver(route: Input)
    requires IsRoute(route)
    ensures Delivers(FrameOf(route), route)
  {
    hide EncodeLifecycle, EncodeProcess, DecodeLifecycle, DecodeProcess, CanonicalLifecycle, CanonicalProcess;
    match route {
      case RouteLifecycle(e, sequence) => LifecycleRoundTrip(sequence, e);
      case RouteProcess(e, sequence) => ProcessRoundTrip(sequence, e);
    }
  }

  /** A frame taken from a slot delivers an earlier event whose namespace or cgroup was registered to it. */
  lemma TakenFramesBelong(capacity: nat, inputs: seq<Input>, a: Address, frame: Bytes) returns (i: nat, j: nat)
    requires frame in TakenFrom(capacity, inputs, a)
    ensures i < j < |inputs| && Owns(inputs[i], inputs[j], a) && Delivers(frame, inputs[j])
  {
    hide FrameOf, Delivers, Owns, IsSubsequence, PushedTo, TakenFrom, After;
    QueuesAccount(capacity, inputs, a);
    var r, p, t := After(capacity, inputs), PushedTo(capacity, inputs, a), TakenFrom(capacity, inputs, a);
    var gone := p[..|p| - |r.queues[a].items|];
    SubsequenceElements(t, gone, frame);
    j := PushedByRoute(capacity, inputs, a, frame);
    i := RegisteredEarlier(capacity, inputs[..j], inputs[j], a);
    FramesDeliver(inputs[j]);
  }

  // ---------- Exactly where events go ----------

  /** Operation i registered an endpoint. */
  predicate RegistersAt(capacity: nat, inputs: seq<Input>, i: nat)
    requires i < |inputs|
  {
    inputs[i].Register? && Step(capacity, After(capacity, inputs[..i]), inputs[i]).1 == Registered
  }

  ghost predicate SlotTaken(capacity: nat, inputs: seq<Input>, slot: string) {
    exists i: nat | i < |inputs| :: RegistersAt(capacity, inputs, i) && inputs[i].slot == slot
  }

  ghost predicate NamespaceOf(capacity: nat, inputs: seq<Input>, netns: nat, slot: string) {
    exists i: nat | i < |inputs| :: RegistersAt(capacity, inputs, i) && inputs[i].netns == netns != 0 && inputs[i].slot == slot
  }

  ghost predicate CgroupOf(capacity: nat, inputs: seq<Input>, cgroup: nat, slot: string) {
    exists i: nat | i < |inputs| :: RegistersAt(capacity, inputs, i) && inputs[i].cgroup == cgroup != 0 && inputs[i].slot == slot
  }

  lemma SameRegistration(capacity: nat, inputs: seq<Input>, i: nat)
    requires i + 1 < |inputs|
    ensures inputs[..|inputs| - 1][i] == inputs[i]
    ensures RegistersAt(capacity, inputs[..|inputs| - 1], i) == RegistersAt(capacity, inputs, i)
  {
    hide Step;
    assert inputs[..|inputs| - 1][..i] == inputs[..i];
  }

  lemma RegistrationStep(capacity: nat, inputs: seq<Input>, slot: string, n: nat)
    requires inputs != []
    ensures var before, last := inputs[..|inputs| - 1], |inputs| - 1;
            var now := RegistersAt(capacity, inputs, last) && inputs[last].slot == slot;
            && (SlotTaken(capacity, inputs, slot) <==> SlotTaken(capacity, before, slot) || now)
            && (NamespaceOf(capacity, inputs, n, slot)
                <==> NamespaceOf(capacity, before, n, slot) || (now && inputs[last].netns == n != 0))
            && (CgroupOf(capacity, inputs, n, slot)
                <==> CgroupOf(capacity, before, n, slot) || (now && inputs[last].cgroup == n != 0))
  {
    hide RegistersAt;
    var before := inputs[..|inputs| - 1];
    forall i: nat | i < |before|
      ensures before[i] == inputs[i] && RegistersAt(capacity, before, i) == RegistersAt(capacity, inputs, i)
    {
      SameRegistration(capacity, inputs, i);
    }
  }

  /** The router's maps are what was registered. */
  lemma {:induction false} MapsAreRegistrations(capacity: nat, inputs: seq<Input>, slot: string, n: nat)
    ensures var r := After(capacity, inputs);
            && (Address(slot, Lifecycle) in r.queues <==> SlotTaken(capacity, inputs, slot))
            && (n in r.netns && r.netns[n] == slot <==> NamespaceOf(capacity, inputs, n, slot))
            && (n in r.cgroups && r.cgroups[n] == slot <==> CgroupOf(capacity, inputs, n, slot))
  {
    hide SlotTaken, NamespaceOf, CgroupOf, RegistersAt;
    if inputs == [] {
      NothingRegistered(capacity, slot, n);
    } else {
      var before, input := inputs[..|inputs| - 1], inputs[|inputs| - 1];
      MapsAreRegistrations(capacity, before, slot, n);
      RegistrationStep(capacity, inputs, slot, n);
      RegistersIs(capacity, inputs);
      StepMaps(capacity, After(capacity, before), input, slot, n);
    }
  }

  lemma NothingRegistered(capacity: nat, slot: string, n: nat)
    ensures !SlotTaken(capacity, [], slot) && !NamespaceOf(capacity, [], n, slot) && !CgroupOf(capacity, [], n, slot)
  {
  }

  lemma RegistersIs(capacity: nat, inputs: seq<Input>)
    requires inputs != []
    ensures var input := inputs[|inputs| - 1];
            RegistersAt(capacity, inputs, |inputs| - 1)
            <==> input.Register? && Step(capacity, After(capacity, inputs[..|inputs| - 1]), input).1 == Registered
  {
    hide Step;
  }

  lemma StepMaps(capacity: nat, r: Router, input: Input, slot: string, n: nat)
    requires Wired(r)
    ensures var (r', output) := Step(capacity, r, input);
            var now := input.Register? && output == Registered && input.slot == slot;
            && (Address(slot, Lifecycle) in r'.queues <==> Address(slot, Lifecycle) in r.queues || now)
            && (n in r'.netns && r'.netns[n] == slot <==> (n in r.netns && r.netns[n] == slot) || (now && input.netns == n != 0))
            && (n in r'.cgroups && r'.cgroups[n] == slot
                <==> (n in r.cgroups && r.cgroups[n] == slot) || (now && input.cgroup == n != 0))
  {
    hide Pushed, Popped, FrameOf;
  }

  /** A lifecycle event goes to a slot exactly when its namespace was registered to it, and a process event exactly
      when its cgroup was. */
  lemma RoutedIff(capacity: nat, inputs: seq<Input>, route: Input, a: Address)
    requires IsRoute(route)
    ensures TargetOf(After(capacity, inputs), route) == Some(a)
            <==> if route.RouteLifecycle?
                 then && a.kind.Lifecycle? && route.lifecycle.netns.Some?
                      && NamespaceOf(capacity, inputs, route.lifecycle.netns.value, a.slot)
                 else && a.kind.ProcessExec? && route.process.cgroup.Some?
                      && CgroupOf(capacity, inputs, route.process.cgroup.value, a.slot)
  {
    hide NamespaceOf, CgroupOf, SlotTaken, After;
    if route.RouteLifecycle? && route.lifecycle.netns.Some? {
      MapsAreRegistrations(capacity, inputs, a.slot, route.lifecycle.netns.value);
    }
    if route.RouteProcess? && route.process.cgroup.Some? {
      MapsAreRegistrations(capacity, inputs, a.slot, route.process.cgroup.value);
    }
  }

  /** An endpoint is registered exactly when its slot has a name nobody has, and no namespace or cgroup it brings
      belongs to another. */
  lemma RegisteredIff(capacity: nat, inputs: seq<Input>, slot: string, netns: nat, cgroup: nat)
    ensures Step(capacity, After(capacity, inputs), Register(slot, netns, cgroup)).1 == Registered
            <==> && slot != "" && !SlotTaken(capacity, inputs, slot)
                 && (forall other :: !NamespaceOf(capacity, inputs, netns, other))
                 && (forall other :: !CgroupOf(capacity, inputs, cgroup, other))
  {
    hide NamespaceOf, CgroupOf, SlotTaken, After;
    var r := After(capacity, inputs);
    MapsAreRegistrations(capacity, inputs, slot, netns);
    forall other
      ensures (netns in r.netns && r.netns[netns] == other <==> NamespaceOf(capacity, inputs, netns, other))
      ensures (cgroup in r.cgroups && r.cgroups[cgroup] == other <==> CgroupOf(capacity, inputs, cgroup, other))
    {
      MapsAreRegistrations(capacity, inputs, other, netns);
      MapsAreRegistrations(capacity, inputs, other, cgroup);
    }
    ZeroBelongsToNone(capacity, inputs);
    assert netns in r.netns ==> NamespaceOf(capacity, inputs, netns, r.netns[netns]);
    assert cgroup in r.cgroups ==> CgroupOf(capacity, inputs, cgroup, r.cgroups[cgroup]);
  }

  lemma ZeroBelongsToNone(capacity: nat, inputs: seq<Input>)
    ensures forall slot :: !NamespaceOf(capacity, inputs, 0, slot) && !CgroupOf(capacity, inputs, 0, slot)
  {
    hide RegistersAt;
  }
}
