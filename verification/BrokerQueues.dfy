/** The broker's queue and router as the code runs them: a deque behind a lock, and tables of slots. */
module BrokerQueues {
  import opened Base
  import opened Wire
  import opened BrokerRouter

  class BoundedQueue {
    const capacity: nat
    var items: seq<Bytes>
    var dropped: nat

    ghost function Value(): Queue<Bytes>
      reads this
    {
      Queue(items, dropped)
    }

    constructor (capacity: nat)
      ensures this.capacity == Bound(capacity) && Value() == Queue([], 0)
    {
      this.capacity := Max(1, capacity);
      items, dropped := [], 0;
    }

    method Push(x: Bytes)
      modifies this
      ensures Value() == Pushed(old(Value()), x, capacity)
    {
      if |items| >= capacity && items != [] {
        items := items[1..];
        dropped := dropped + 1;
      }
      items := items + [x];
    }

    /** Takes the oldest item; none when the wait ends with the queue still empty. */
    method PopFor() returns (x: Option<Bytes>)
      modifies this
      ensures (Value(), x) == Popped(old(Value()))
    {
      if items == [] {
        return None;
      }
      x := Some(items[0]);
      items := items[1..];
    }
  }

  class EventRouter {
    const queueCapacity: nat
    var queues: map<Address, BoundedQueue>
    var netns: map<nat, string>
    var cgroups: map<nat, string>
    var unroutable: nat

    /** Every queue is an object of its own. */
    ghost predicate Separate()
      reads this
    {
      forall a, b | a in queues && b in queues && a != b :: queues[a] != queues[b]
    }

    ghost function Abs(): Router
      reads this, queues.Values
    {
      Router(map a | a in queues :: queues[a].Value(), netns, cgroups, unroutable)
    }

    ghost predicate Plain()
      reads this, queues.Values
    {
      Separate() && forall a | a in queues :: queues[a].capacity == Bound(queueCapacity)
    }

    ghost predicate Valid()
      reads this, queues.Values
    {
      Plain() && Wired(Abs())
    }

    constructor (queueCapacity: nat)
      ensures Valid() && this.queueCapacity == queueCapacity && Abs() == IDLE
    {
      this.queueCapacity := queueCapacity;
      queues, netns, cgroups, unroutable := map[], map[], map[], 0;
    }

    method RegisterEndpoint(slot: string, netnsInode: nat, cgroup: nat) returns (ok: bool)
      requires Valid()
      modifies this
      ensures Valid() && (Abs(), if ok then Registered else Refused)
                         == Step(queueCapacity, old(Abs()), Register(slot, netnsInode, cgroup))
    {
      hide Wired;
      StepWired(queueCapacity, Abs(), Register(slot, netnsInode, cgroup));
      if slot == "" || Address(slot, Lifecycle) in queues {
        return false;
      }
      if netnsInode != 0 && netnsInode in netns {
        return false;
      }
      if cgroup != 0 && cgroup in cgroups {
        return false;
      }
      NoStrays(Abs(), slot);
      AddEndpoint(slot, netnsInode, cgroup);
      ok := true;
    }

    method AddEndpoint(slot: string, netnsInode: nat, cgroup: nat)
      requires Plain() && Address(slot, Lifecycle) !in queues && Address(slot, ProcessExec) !in queues
      modifies this
      ensures Plain() && Abs() == WithEndpoint(old(Abs()), slot, netnsInode, cgroup)
    {
      hide EventRouter.Plain;
      AddQueue(Address(slot, Lifecycle));
      AddQueue(Address(slot, ProcessExec));
      MapSlot(slot, netnsInode, cgroup);
    }

    method AddQueue(a: Address)
      requires Plain() && a !in queues
      modifies this`queues
      ensures Plain() && queues.Keys == old(queues).Keys + {a}
      ensures Abs() == old(Abs()).(queues := old(Abs()).queues[a := Queue([], 0)])
    {
      ghost var before := Abs();
      var queue := new BoundedQueue(queueCapacity);
      queues := queues[a := queue];
      assert Abs().queues == before.queues[a := Queue([], 0)];
    }

    method MapSlot(slot: string, netnsInode: nat, cgroup: nat)
      requires Plain()
      modifies this`netns, this`cgroups
      ensures Plain()
      ensures Abs() == old(Abs()).(netns := if netnsInode != 0 then old(netns)[netnsInode := slot] else old(netns),
                                   cgroups := if cgroup != 0 then old(cgroups)[cgroup := slot] else old(cgroups))
    {
      ghost var before := Abs();
      if netnsInode != 0 {
        netns := netns[netnsInode := slot];
      }
      if cgroup != 0 {
        cgroups := cgroups[cgroup := slot];
      }
      assert Abs().queues == before.queues;
    }

    method PushTo(a: Address, frame: Bytes)
      requires Plain() && a in queues
      modifies queues[a]
      ensures Plain()
      ensures Abs() == old(Abs()).(queues := old(Abs()).queues[a := Pushed(old(Abs()).queues[a], frame, queueCapacity)])
    {
      ghost var before := Abs();
      BoundTwice(before.queues[a], frame, queueCapacity);
      queues[a].Push(frame);
      assert Abs().queues == before.queues[a := Pushed(before.queues[a], frame, queueCapacity)];
    }

    method Route(input: Input) returns (routed: bool)
      requires Valid() && IsRoute(input)
      modifies this`unroutable, queues.Values
      ensures Valid() && (Abs(), if routed then Routed else Unroutable) == Step(queueCapacity, old(Abs()), input)
    {
      hide Pushed, FrameOf, Wired;
      StepWired(queueCapacity, Abs(), input);
      var target := SlotFor(input);
      if target.None? {
        CountUnroutable();
        return false;
      }
      TargetHasQueue(Abs(), input, target.value);
      PushTo(target.value, FrameOf(input));
      routed := true;
    }

    method CountUnroutable()
      requires Plain()
      modifies this`unroutable
      ensures Plain() && Abs() == old(Abs()).(unroutable := old(unroutable) + 1)
    {
      ghost var before := Abs();
      unroutable := unroutable + 1;
      assert Abs().queues == before.queues;
    }

    method SlotFor(input: Input) returns (target: Option<Address>)
      requires IsRoute(input)
      ensures target == TargetOf(Abs(), input)
    {
      match input {
        case RouteLifecycle(e, _) =>
          if e.netns.None? || e.netns.value !in netns {
            return None;
          }
          target := Some(Address(netns[e.netns.value], Lifecycle));
        case RouteProcess(e, _) =>
          if e.cgroup.None? || e.cgroup.value !in cgroups {
            return None;
          }
          target := Some(Address(cgroups[e.cgroup.value], ProcessExec));
      }
    }

    method TakeFrom(from: Address) returns (frame: Option<Bytes>)
      requires Valid()
      modifies queues.Values
      ensures Valid()
      ensures (Abs(), if frame.Some? then Taken(frame.value) else Empty) == Step(queueCapacity, old(Abs()), Take(from))
    {
      hide Wired;
      StepWired(queueCapacity, Abs(), Take(from));
      if from !in queues {
        return None;
      }
      ghost var before := Abs();
      frame := queues[from].PopFor();
      assert Abs().queues == before.queues[from := Popped(before.queues[from]).0];
      assert before.queues[from].items == [] ==> Abs().queues == before.queues;
    }
  }

  lemma BoundTwice(q: Queue<Bytes>, x: Bytes, capacity: nat)
    ensures Pushed(q, x, Bound(capacity)) == Pushed(q, x, capacity)
  {
  }

  lemma TargetHasQueue(r: Router, input: Input, a: Address)
    requires Wired(r) && TargetOf(r, input) == Some(a)
    ensures a in r.queues
  {
  }

  /** The two queues of a slot come and go together. */
  lemma NoStrays(r: Router, slot: string)
    requires Wired(r) && Address(slot, Lifecycle) !in r.queues
    ensures Address(slot, ProcessExec) !in r.queues
  {
  }
}
