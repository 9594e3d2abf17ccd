/** How the observations of one connection find each other: when two of them have the same key or the same
    identity, and that a snapshot or a close event meets the connection an earlier observation admitted. */
module Correlation {
  import opened Base
  import opened TrackerModel
  import opened TrackerRuns
  import opened TrackerTheorems
  import opened TrackerHistory

  // ---------- Keys and identities ----------

  /** The event and the socket have the same ends, in the same order and the same network namespace. */
  predicate SameEnds(event: LifecycleEvent, socket: Socket) {
    && event.local.Some? && event.remote.Some?
    && event.netns.GetOr(0) == socket.netns.GetOr(0)
    && event.local.value.address == socket.localAddress && event.local.value.port.GetOr(0) == socket.localPort
    && event.remote.value.address == socket.remoteAddress && event.remote.value.port.GetOr(0) == socket.remotePort
  }

  /** Either both tell their process, and it is the same one, or neither does. Events tell it with a platform
      id, sockets with an owner. */
  predicate SameOwner(event: LifecycleEvent, socket: Socket, resolved: Option<Process>) {
    if event.platformId.Some? && event.tgid.Some?
    then && socket.owningPid.Some? && resolved.Some? && resolved.value.pid == event.tgid.value
         && resolved.value.startTicks.GetOr(0) == event.startTicks.GetOr(0)
    else socket.owningPid.None? || resolved.None?
  }

  function Exchanged(socket: Socket): Socket {
    socket.(localAddress := socket.remoteAddress, localPort := socket.remotePort,
            remoteAddress := socket.localAddress, remotePort := socket.localPort)
  }

  /** An event and a socket have the same key exactly when they agree on ends and owner. */
  lemma KeysMeetIff(event: LifecycleEvent, socket: Socket, resolved: Option<Process>)
    requires event.local.Some? && event.remote.Some?
    ensures EventKey(event, false) == SocketKey(socket, resolved) <==> SameEnds(event, socket) && SameOwner(event, socket, resolved)
    ensures EventKey(event, true) == SocketKey(Exchanged(socket), resolved) <==> EventKey(event, false) == SocketKey(socket, resolved)
  {
  }

  /** Two sockets have the same key exactly when they agree on ends and owner. */
  lemma SocketKeysMeetIff(a: Socket, forA: Option<Process>, b: Socket, forB: Option<Process>)
    ensures SocketKey(a, forA) == SocketKey(b, forB)
            <==> && a.netns.GetOr(0) == b.netns.GetOr(0)
                 && a.localAddress == b.localAddress && a.localPort == b.localPort
                 && a.remoteAddress == b.remoteAddress && a.remotePort == b.remotePort
                 && (if a.owningPid.Some? && forA.Some?
                     then && b.owningPid.Some? && forB.Some? && forA.value.pid == forB.value.pid
                          && forA.value.startTicks.GetOr(0) == forB.value.startTicks.GetOr(0)
                     else b.owningPid.None? || forB.None?)
  {
  }

  /** An event and a socket have the same identity exactly when they carry the same cookie. */
  lemma IdentitiesMeetIff(event: LifecycleEvent, socket: Socket)
    ensures EventIdentity(event) == Some(SocketIdentity(socket))
            <==> socket.cookie !in {0, U64_MAX} && event.cookie == Some(socket.cookie)
  {
  }

  /** Two events without a cookie have the same identity exactly when they carry the same platform id for the
      same process, or carry none and agree on process, ends and time. */
  lemma EventIdentitiesMeetIff(a: LifecycleEvent, b: LifecycleEvent)
    requires !(a.cookie.Some? && ValidCookie(a.cookie.value)) && EventIdentity(a).Some?
    ensures EventIdentity(a) == EventIdentity(b)
            <==> && !(b.cookie.Some? && ValidCookie(b.cookie.value)) && a.tgid.GetOr(-1) == b.tgid.GetOr(-1)
                 && a.platformId == b.platformId
                 && (if a.platformId.Some? then a.startTicks.GetOr(0) == b.startTicks.GetOr(0)
                     else && b.local.Some? && b.remote.Some? && a.at == b.at && a.netns.GetOr(0) == b.netns.GetOr(0)
                          && a.local.value.address == b.local.value.address
                          && a.local.value.port.GetOr(0) == b.local.value.port.GetOr(0)
                          && a.remote.value.address == b.remote.value.address
                          && a.remote.value.port.GetOr(0) == b.remote.value.port.GetOr(0))
  {
  }

  // ---------- A connection keeps the key it was admitted under ----------

  /** The key an observation is filed under when it admits a connection. */
  predicate KeyedBy(input: Input, key: Key) {
    match input
    case Lifecycle(event, _) => event.local.Some? && event.remote.Some? && key == EventKey(event, false)
    case Snapshot(socket, _, _, _, resolved) => key == SocketKey(socket, resolved)
    case _ => false
  }

  ghost predicate KeyedIn(entries: Entries, id: nat, key: Key) {
    exists i | i in entries :: entries[i].tracked.id == id && entries[i].key == key
  }

  ghost predicate KeysKept(entries: Entries, entries1: Entries) {
    forall i | i in entries1 :: KeyedIn(entries, entries1[i].tracked.id, entries1[i].key)
  }

  lemma AdoptKeepsKeys(s: State, target: Identity, identity: Identity, cookie: Option<nat>)
    requires target in s.entries && (target != identity ==> identity !in s.entries)
    ensures KeysKept(s.entries, Adopt(s, target, identity, cookie).0.entries)
  {
    var s1 := Adopt(s, target, identity, cookie).0;
    forall i | i in s1.entries ensures KeyedIn(s.entries, s1.entries[i].tracked.id, s1.entries[i].key) {
      var was := if i in s.entries && s.entries[i] == s1.entries[i] then i else target;
      assert was in s.entries && s.entries[was] == s1.entries[i];
    }
  }

  ghost predicate KeysStep(s: State, input: Input, report: Report, s': State) {
    forall i | i in s'.entries ::
      || KeyedIn(s.entries, s'.entries[i].tracked.id, s'.entries[i].key)
      || (s'.entries[i].tracked.id in AdmittedBy(report) && KeyedBy(input, s'.entries[i].key))
  }

  lemma LifecycleKeys(s: State, event: LifecycleEvent, direction: Direction)
    ensures var (s', report) := LifecycleStep(s, event, direction); KeysStep(s, Lifecycle(event, direction), report, s')
  {
    hide EventIdentity, EventKey, UniqueMatch, Adopt, EventTarget, EventProcess, KeyedIn;
    NothingKeyed(s.entries);
    var identity := EventIdentity(event);
    if identity.Some? && EventTarget(s.entries, event, identity.value).Some? {
      AdoptKeepsKeys(s, EventTarget(s.entries, event, identity.value).value, identity.value, event.cookie);
    }
  }

  lemma NothingKeyed(entries: Entries)
    ensures KeysKept(entries, entries)
  {
  }

  lemma SocketKeys(s: State, input: Input)
    requires input.Snapshot?
    ensures var (s', report) := Step(s, input); KeysStep(s, input, report, s')
  {
    hide SocketIdentity, SocketKey, UniqueMatch, Adopt, SampleStored, Enriched, AdmittedState, KeyedIn, Stores;
    NothingKeyed(s.entries);
    var socket := input.socket;
    if SocketIdentity(socket) in s.entries || UniqueMatch(s.entries, SocketKey(socket, input.resolved)).Some? {
      var (target, identity) := SocketTarget(s, socket, input.resolved);
      AdoptKeepsKeys(s, target, identity, Some(socket.cookie));
    }
  }

  lemma StepKeys(s: State, input: Input)
    ensures KeysStep(s, input, Step(s, input).1, Step(s, input).0)
  {
    hide LifecycleStep, SocketStep, KeyedIn, ReapedIds, Reaped, ReapedRow;
    NothingKeyed(s.entries);
    match input
    case Lifecycle(event, direction) => LifecycleKeys(s, event, direction);
    case Snapshot(_, _, _, _, _) => SocketKeys(s, input);
    case _ =>
  }

  /** Step m admitted the connection under this key. */
  ghost predicate AdmittedAs(states: seq<State>, inputs: seq<Input>, m: nat, id: nat, key: Key)
    requires m < |inputs| && m < |states|
  {
    id in AdmittedBy(ReportAt(states, inputs, m)) && KeyedBy(inputs[m], key)
  }

  /** A tracked connection has the key of the observation that admitted it. */
  lemma {:induction false} KeyIsFromAdmission(states: seq<State>, inputs: seq<Input>, n: nat, i: Identity) returns (m: nat)
    requires IsRun(states, inputs) && n <= |inputs| && i in states[n].entries
    ensures m < n && AdmittedAs(states, inputs, m, states[n].entries[i].tracked.id, states[n].entries[i].key)
  {
    hide Step, KeyedBy, Store.Fresh;
    StepKeys(states[n - 1], inputs[n - 1]);
    var id, key := states[n].entries[i].tracked.id, states[n].entries[i].key;
    if KeyedIn(states[n - 1].entries, id, key) {
      var j :| j in states[n - 1].entries && states[n - 1].entries[j].tracked.id == id && states[n - 1].entries[j].key == key;
      m := KeyIsFromAdmission(states, inputs, n - 1, j);
    } else {
      m := n - 1;
    }
  }

  // ---------- The only connection under a key ----------

  /** The connection is tracked, was admitted under the key, and no other tracked one was. */
  ghost predicate Sole(states: seq<State>, inputs: seq<Input>, n: nat, id: nat, key: Key)
    requires n <= |inputs| && n < |states|
  {
    && id in Live(states[n].entries)
    && (exists m | 0 <= m < n :: AdmittedAs(states, inputs, m, id, key))
    && (forall other, m | other in Live(states[n].entries) && other != id && 0 <= m < n :: !AdmittedAs(states, inputs, m, other, key))
  }

  ghost predicate NoneUnder(states: seq<State>, inputs: seq<Input>, n: nat, key: Key)
    requires n <= |inputs| && n < |states|
  {
    forall id, m | id in Live(states[n].entries) && 0 <= m < n :: !AdmittedAs(states, inputs, m, id, key)
  }

  lemma SoleIsMatched(states: seq<State>, inputs: seq<Input>, n: nat, id: nat, key: Key) returns (i: Identity)
    requires IsRun(states, inputs) && n <= |inputs| && Sole(states, inputs, n, id, key)
    ensures i in states[n].entries && states[n].entries[i].tracked.id == id
    ensures UniqueMatch(states[n].entries, key) == Some(i)
  {
    hide Step, UniqueMatch, ReportAt, Inv;
    var entries := states[n].entries;
    i :| i in entries && entries[i].tracked.id == id;
    var m :| 0 <= m < n && AdmittedAs(states, inputs, m, id, key);
    var m' := KeyIsFromAdmission(states, inputs, n, i);
    if m < m' { AdmittedOnce(states, inputs, m, m', id); }
    if m' < m { AdmittedOnce(states, inputs, m', m, id); }
    SameKeyedBy(inputs[m], key, entries[i].key);
    RunInv(states, inputs, n);
    InvIds(states[n]);
    forall j | j in entries && entries[j].key == key ensures j == i {
      var a := KeyIsFromAdmission(states, inputs, n, j);
      assert entries[j].tracked.id in Live(entries);
    }
    assert OnlyMatch(entries, key, i);
  }

  lemma SameKeyedBy(input: Input, a: Key, b: Key)
    requires KeyedBy(input, a) && KeyedBy(input, b)
    ensures a == b
  {
  }

  lemma NoneIsMatched(states: seq<State>, inputs: seq<Input>, n: nat, key: Key)
    requires IsRun(states, inputs) && n <= |inputs| && NoneUnder(states, inputs, n, key)
    ensures UniqueMatch(states[n].entries, key).None?
  {
    hide Step, ReportAt, UniqueMatch;
    var entries := states[n].entries;
    forall i ensures !OnlyMatch(entries, key, i) {
      if OnlyMatch(entries, key, i) {
        assert entries[i].tracked.id in Live(entries);
        var m := KeyIsFromAdmission(states, inputs, n, i);
      }
    }
  }

  // ---------- Observations meet their connection ----------

  /** A snapshot of a socket, when one tracked connection was admitted under its key and no other, is an observation
      of that connection and admits nothing: unless its own identity is tracked already, or it has a cookie and the
      connection has another. A cookie it brings is stored, and names the connection from then on. */
  lemma SnapshotMeetsSole(states: seq<State>, inputs: seq<Input>, n: nat, id: nat)
    requires IsRun(states, inputs) && n < |inputs| && inputs[n].Snapshot?
    requires Sole(states, inputs, n, id, SocketKey(inputs[n].socket, inputs[n].resolved))
    requires SocketIdentity(inputs[n].socket) !in states[n].entries
    requires ValidCookie(inputs[n].socket.cookie) ==> id in states[n].store.rows && states[n].store.rows[id].cookie == 0
    ensures ReportAt(states, inputs, n) == Admission(id, false, false, false, inputs[n].direction)
    ensures Live(states[n + 1].entries) == Live(states[n].entries)
    ensures var cookie := inputs[n].socket.cookie;
            ValidCookie(cookie) ==>
              && id in states[n + 1].store.rows && states[n + 1].store.rows[id].cookie == cookie
              && Cookie(cookie) in states[n + 1].entries && states[n + 1].entries[Cookie(cookie)].tracked.id == id
  {
    hide Sole, Inv, Effects, Live;
    var i := SoleIsMatched(states, inputs, n, id, SocketKey(inputs[n].socket, inputs[n].resolved));
    MatchedSocket(states[n], inputs[n], i);
    RunEffects(states, inputs, n);
    KnownKeepsLive(states[n], ReportAt(states, inputs, n), states[n + 1]);
  }

  /** So a snapshot with the ends and the owner of the lifecycle event that admitted a connection meets it. */
  lemma SnapshotMeetsItsConnection(states: seq<State>, inputs: seq<Input>, m: nat, n: nat, id: nat)
    requires IsRun(states, inputs) && m < n < |inputs| && inputs[m].Lifecycle? && inputs[n].Snapshot?
    requires id in AdmittedBy(ReportAt(states, inputs, m)) && SameEnds(inputs[m].event, inputs[n].socket)
    requires SameOwner(inputs[m].event, inputs[n].socket, inputs[n].resolved)
    requires Sole(states, inputs, n, id, EventKey(inputs[m].event, false))
    requires SocketIdentity(inputs[n].socket) !in states[n].entries
    requires ValidCookie(inputs[n].socket.cookie) ==> id in states[n].store.rows && states[n].store.rows[id].cookie == 0
    ensures ReportAt(states, inputs, n) == Admission(id, false, false, false, inputs[n].direction)
    ensures Live(states[n + 1].entries) == Live(states[n].entries)
  {
    hide Sole, Inv, Step, Live, EventKey, SocketKey, SameEnds, SameOwner;
    EventHasEnds(inputs[m].event, inputs[n].socket);
    KeysMeetIff(inputs[m].event, inputs[n].socket, inputs[n].resolved);
    SnapshotMeetsSole(states, inputs, n, id);
  }

  lemma EventHasEnds(event: LifecycleEvent, socket: Socket)
    requires SameEnds(event, socket)
    ensures event.local.Some? && event.remote.Some?
  {
  }

  lemma KnownKeepsLive(s: State, report: Report, s': State)
    requires Effects(s, report, s') && report.Admission? && !report.newlyAdmitted && !report.closed
    ensures Live(s'.entries) == Live(s.entries)
  {
    hide Live, StoreGrows;
  }

  lemma MatchedSocket(s: State, input: Input, i: Identity)
    requires input.Snapshot? && UniqueMatch(s.entries, SocketKey(input.socket, input.resolved)) == Some(i)
    requires i in s.entries && SocketIdentity(input.socket) !in s.entries
    requires ValidCookie(input.socket.cookie) ==> s.store.TakesCookie(s.entries[i].tracked.id)
    ensures var (s', report) := Step(s, input);
            var id, cookie := s.entries[i].tracked.id, input.socket.cookie;
            && report == Admission(id, false, false, false, input.direction)
            && (ValidCookie(cookie) ==>
                  && id in s'.store.rows && s'.store.rows[id].cookie == cookie
                  && Cookie(cookie) in s'.entries && s'.entries[Cookie(cookie)].tracked.id == id)
  {
    hide UniqueMatch, SocketKey, AdmittedState, Stores;
  }

  /** A close event with the ends and the owner of the only tracked connection admitted under them ends that
      connection, whichever way round the event gives the ends, unless its own identity is tracked. */
  lemma CloseMeetsItsConnection(states: seq<State>, inputs: seq<Input>, n: nat, id: nat, reversed: bool)
    requires IsRun(states, inputs) && n < |inputs| && inputs[n].Lifecycle?
    requires var event := inputs[n].event;
             && event.kind.Close? && event.protocol.Tcp? && event.local.Some? && event.remote.Some?
             && EventIdentity(event).Some? && EventIdentity(event).value !in states[n].entries
             && Sole(states, inputs, n, id, EventKey(event, reversed))
             && (reversed ==> NoneUnder(states, inputs, n, EventKey(event, false)))
    ensures ReportAt(states, inputs, n) == Admission(id, false, true, false, Unknown)
    ensures id !in Live(states[n + 1].entries)
  {
    hide Sole, NoneUnder, Inv, Effects, Live;
    var event := inputs[n].event;
    var i := SoleIsMatched(states, inputs, n, id, EventKey(event, reversed));
    if reversed {
      NoneIsMatched(states, inputs, n, EventKey(event, false));
    }
    MatchedClose(states[n], inputs[n], i, reversed);
    RunEffects(states, inputs, n);
    ClosedIsGone(states[n], ReportAt(states, inputs, n), states[n + 1], id);
  }

  lemma ClosedIsGone(s: State, report: Report, s': State, id: nat)
    requires Effects(s, report, s') && id in RetiredBy(report)
    ensures id !in Live(s'.entries)
  {
    hide Live, StoreGrows;
  }

  lemma MatchedClose(s: State, input: Input, i: Identity, reversed: bool)
    requires input.Lifecycle? && input.event.kind.Close? && input.event.protocol.Tcp?
    requires input.event.local.Some? && input.event.remote.Some?
    requires EventIdentity(input.event).Some? && EventIdentity(input.event).value !in s.entries && i in s.entries
    requires UniqueMatch(s.entries, EventKey(input.event, reversed)) == Some(i)
    requires reversed ==> UniqueMatch(s.entries, EventKey(input.event, false)).None?
    ensures Step(s, input).1 == Admission(s.entries[i].tracked.id, false, true, false, Unknown)
  {
    hide UniqueMatch, EventKey, EventIdentity;
  }

  /** A connect or accept event with the ends and the owner of the only tracked connection admitted under them
      is about that connection if only snapshots vouch for it, and admits a new one otherwise. */
  lemma OpenMeetsItsConnection(states: seq<State>, inputs: seq<Input>, n: nat, id: nat)
    requires IsRun(states, inputs) && n < |inputs| && inputs[n].Lifecycle?
    requires var event := inputs[n].event;
             && !event.kind.Close? && event.protocol.Tcp? && event.endpointKind.Connection? && event.tgid.Some?
             && event.local.Some? && event.remote.Some? && event.remote.value.port.Some?
             && EventIdentity(event).Some? && EventIdentity(event).value !in states[n].entries
             && Sole(states, inputs, n, id, EventKey(event, false))
    ensures var report := ReportAt(states, inputs, n);
            report.Admission? && (if Evidenced(states, inputs, n, id) then report.newlyAdmitted
                                  else report.id == id && !report.newlyAdmitted)
  {
    hide Sole, Inv, Live, Evidenced, Seen, Misses, TrackedOf;
    var i := SoleIsMatched(states, inputs, n, id, EventKey(inputs[n].event, false));
    RunInv(states, inputs, n);
    InvIds(states[n]);
    TrackedIs(states[n].entries, i);
    MemoryIsHistory(states, inputs, n, id);
    MatchedOpen(states[n], inputs[n], i);
  }

  lemma MatchedOpen(s: State, input: Input, i: Identity)
    requires input.Lifecycle? && !input.event.kind.Close? && input.event.protocol.Tcp? && input.event.endpointKind.Connection?
    requires input.event.tgid.Some? && input.event.local.Some? && input.event.remote.Some?
    requires input.event.remote.value.port.Some?
    requires EventIdentity(input.event).Some? && EventIdentity(input.event).value !in s.entries && i in s.entries
    requires UniqueMatch(s.entries, EventKey(input.event, false)) == Some(i)
    ensures var report := Step(s, input).1;
            report.Admission? && (if SnapshotOwned(s.entries[i].tracked.origin)
                                  then report.id == s.entries[i].tracked.id && !report.newlyAdmitted else report.newlyAdmitted)
  {
    hide UniqueMatch, EventKey, EventIdentity, SnapshotOwned;
  }
}
