/** The connection tracker as one table of tracked connections over the history store. Correlation is
    a plain scan of the table: this is what the three maps of the implementation have to agree with. */
module TrackerModel {
  import opened Base
  import opened Samples

  const MISS_LIMIT: nat := 3

  // ---------- Observations ----------

  datatype Endpoint = Endpoint(address: string, port: Option<nat>)

  datatype EventKind = Connect | Accept | Close

  datatype Protocol = UnknownProtocol | Tcp

  datatype EndpointKind = UnknownKind | Connection | Listener | LifecycleTail

  datatype Direction = Unknown | Outbound | Inbound

  datatype Process = Process(pid: int, startTicks: Option<nat>)

  datatype LifecycleEvent = LifecycleEvent(
    kind: EventKind, at: nat, protocol: Protocol, endpointKind: EndpointKind,
    tgid: Option<int>, startTicks: Option<nat>, netns: Option<nat>,
    local: Option<Endpoint>, remote: Option<Endpoint>,
    cookie: Option<nat>, platformId: Option<nat>, tcpState: Option<nat>)

  datatype Socket = Socket(
    cookie: nat, inode: nat, netns: Option<nat>, owningPid: Option<int>,
    localAddress: string, localPort: nat, remoteAddress: string, remotePort: nat,
    endpointKind: EndpointKind, sample: Sample)

  datatype Origin = LifecycleExact | LifecyclePlusSnapshot | SnapshotPreexisting | SnapshotReconciled

  predicate SnapshotOwned(origin: Origin) { origin.SnapshotPreexisting? || origin.SnapshotReconciled? }

  // ---------- Names of connections ----------

  datatype Tuple = Tuple(netns: nat, localAddress: string, localPort: nat, remoteAddress: string, remotePort: nat)

  datatype Identity =
    | Cookie(cookie: nat)
    | Platform(tgid: int, startTicks: nat, connection: nat)
    | Fallback(netns: nat, process: int, tuple: Tuple, at: nat)
    | Inode(inode: nat, socketTuple: Tuple)

  /** What two observations of one connection agree on: the tuple, and the process where it is known. */
  datatype Key = Key(tuple: Tuple, process: Option<(int, nat)>)

  predicate ValidCookie(cookie: nat) { cookie != 0 && cookie != U64_MAX }

  function TupleOf(local: Endpoint, remote: Endpoint, netns: Option<nat>): Tuple {
    Tuple(netns.GetOr(0), local.address, local.port.GetOr(0), remote.address, remote.port.GetOr(0))
  }

  function SocketTuple(socket: Socket): Tuple {
    Tuple(socket.netns.GetOr(0), socket.localAddress, socket.localPort, socket.remoteAddress, socket.remotePort)
  }

  function EventIdentity(event: LifecycleEvent): Option<Identity> {
    if event.cookie.Some? && ValidCookie(event.cookie.value) then Some(Cookie(event.cookie.value))
    else if event.platformId.Some? then
      Some(Platform(event.tgid.GetOr(-1), event.startTicks.GetOr(0), event.platformId.value))
    else if event.local.None? || event.remote.None? then None
    else Some(Fallback(event.netns.GetOr(0), event.tgid.GetOr(-1),
                       TupleOf(event.local.value, event.remote.value, event.netns), event.at))
  }

  function SocketIdentity(socket: Socket): Identity {
    if ValidCookie(socket.cookie) then Cookie(socket.cookie) else Inode(socket.inode, SocketTuple(socket))
  }

  function EventProcess(event: LifecycleEvent): Option<Process> {
    if event.tgid.None? then None
    else Some(Process(event.tgid.value, if event.startTicks == Some(0) then None else event.startTicks))
  }

  function CorrelationKey(tuple: Tuple, process: Option<Process>, requireStart: bool): Key {
    if !requireStart || process.None? then Key(tuple, None)
    else Key(tuple, Some((process.value.pid, process.value.startTicks.GetOr(0))))
  }

  function EventKey(event: LifecycleEvent, reversed: bool): Key
    requires event.local.Some? && event.remote.Some?
  {
    var tuple := if reversed then TupleOf(event.remote.value, event.local.value, event.netns)
                 else TupleOf(event.local.value, event.remote.value, event.netns);
    CorrelationKey(tuple, EventProcess(event), event.platformId.Some?)
  }

  /** Linux snapshots carry no owner and correlate by tuple alone; Windows snapshots add the process. */
  function SocketKey(socket: Socket, resolved: Option<Process>): Key {
    CorrelationKey(SocketTuple(socket), resolved, socket.owningPid.Some?)
  }

  // ---------- The history store ----------

  datatype LifeState =
    | Active | Preexisting | ReconciledAfterLoss
    | Closed | Disappeared | AbsentAfterLoss | PreexistingDisappeared | ObservationEnded

  /** One stored connection; `events` lists the lifecycle events by kind and time, without repeats. */
  datatype Row = Row(cookie: nat, direction: Direction, state: LifeState, lastSeen: nat,
                     samples: seq<Sample>, events: seq<(EventKind, nat)>)

  datatype Store = Store(rows: map<nat, Row>, nextId: nat) {
    ghost predicate Fresh() { forall id | id in rows :: id < nextId }

    function Begin(cookie: nat, direction: Direction, at: nat): Store {
      Store(rows[nextId := Row(cookie, direction, Active, at, [], [])], nextId + 1)
    }

    function Touch(id: nat, at: nat, state: LifeState): Store {
      if id !in rows then this else this.(rows := rows[id := rows[id].(lastSeen := at, state := state)])
    }

    function AddSample(id: nat, sample: Sample): Store {
      if id !in rows then this else this.(rows := rows[id := rows[id].(samples := rows[id].samples + [sample])])
    }

    function AddEvent(id: nat, event: LifecycleEvent): Store {
      if id !in rows || (event.kind, event.at) in rows[id].events then this
      else this.(rows := rows[id := rows[id].(events := rows[id].events + [(event.kind, event.at)])])
    }

    /** A cookie is written only over the missing cookie 0. */
    predicate TakesCookie(id: nat) { id in rows && rows[id].cookie == 0 }

    function SetCookie(id: nat, cookie: nat): Store {
      if TakesCookie(id) then this.(rows := rows[id := rows[id].(cookie := cookie)]) else this
    }

    /** A direction is written only over the unknown direction. */
    predicate Promotes(id: nat, direction: Direction) {
      direction != Unknown && id in rows && rows[id].direction == Unknown
    }

    function PromoteDirection(id: nat, direction: Direction): Store {
      if Promotes(id, direction) then this.(rows := rows[id := rows[id].(direction := direction)]) else this
    }
  }

  // ---------- The tracker ----------

  datatype Tracked = Tracked(
    id: nat, lastSeen: Sample, lastPersisted: Sample, lastPersistAt: nat, hasSample: bool, present: bool,
    misses: nat, pid: Option<int>, startTicks: Option<nat>, origin: Origin)

  datatype Entry = Entry(tracked: Tracked, key: Key)

  type Entries = map<Identity, Entry>

  datatype State = State(entries: Entries, store: Store)

  datatype Report =
    | Nothing
    | Admission(id: nat, newlyAdmitted: bool, closed: bool, promoted: bool, direction: Direction)
    | Inactive(ids: set<nat>)

  const NO_SAMPLE: Sample := Sample(0, 0, 0, 0, 0, 0)

  ghost predicate OnlyMatch(entries: Entries, key: Key, i: Identity) {
    i in entries && entries[i].key == key && forall j | j in entries && entries[j].key == key :: j == i
  }

  /** The only tracked connection under the key, by a plain scan. */
  ghost function UniqueMatch(entries: Entries, key: Key): (r: Option<Identity>)
    ensures r.Some? ==> OnlyMatch(entries, key, r.value)
    ensures r.None? ==> forall i :: !OnlyMatch(entries, key, i)
  {
    if exists i :: OnlyMatch(entries, key, i) then
      var i :| OnlyMatch(entries, key, i);
      Some(i)
    else None
  }

  /** The tracked connection a lifecycle event is about. */
  ghost function EventTarget(entries: Entries, event: LifecycleEvent, identity: Identity): (r: Option<Identity>)
    ensures r.Some? ==> r.value in entries
    ensures r.Some? && r.value != identity ==> identity !in entries
  {
    if identity in entries then Some(identity)
    else if event.local.None? || event.remote.None? then None
    else
      var direct := UniqueMatch(entries, EventKey(event, false));
      if direct.Some? && (event.kind.Close? || SnapshotOwned(entries[direct.value].tracked.origin)) then direct
      else if event.kind.Close? then UniqueMatch(entries, EventKey(event, true))
      else None
  }

  function Renamed(entries: Entries, previous: Identity, canonical: Identity): Entries
    requires previous in entries
  {
    (entries - {previous})[canonical := entries[previous]]
  }

  /** Re-keying to the identity an event names. With a cookie this needs the stored cookie to be missing;
      otherwise the connection stays under its old identity. */
  ghost function Adopt(s: State, target: Identity, identity: Identity, cookie: Option<nat>): (r: (State, Identity))
    requires target in s.entries && (target != identity ==> identity !in s.entries)
    ensures r.1 in r.0.entries && r.0.entries[r.1] == s.entries[target]
  {
    var id := s.entries[target].tracked.id;
    if target == identity then (s, target)
    else if cookie.Some? && ValidCookie(cookie.value) then
      if s.store.TakesCookie(id)
      then (State(Renamed(s.entries, target, identity), s.store.SetCookie(id, cookie.value)), identity)
      else (s, target)
    else (s.(entries := Renamed(s.entries, target, identity)), identity)
  }

  ghost function LifecycleStep(s: State, event: LifecycleEvent, direction: Direction): (State, Report) {
    var identity := EventIdentity(event);
    if !event.protocol.Tcp? || identity.None? then (s, Nothing)
    else
      var target := EventTarget(s.entries, event, identity.value);
      if event.kind.Close? then
        if target.None? then (s, Nothing)
        else
          var (s1, at) := Adopt(s, target.value, identity.value, event.cookie);
          var id := s1.entries[at].tracked.id;
          (State(s1.entries - {at}, s1.store.Touch(id, event.at, Closed).AddEvent(id, event)),
           Admission(id, false, true, false, Unknown))
      else if !event.endpointKind.Connection? || event.local.None? || event.remote.None?
              || event.remote.value.port.None? || EventProcess(event).None? then (s, Nothing)
      else
        var process := EventProcess(event).value;
        if target.Some? then
          var (s1, at) := Adopt(s, target.value, identity.value, event.cookie);
          var entry := s1.entries[at];
          var store := s1.store.AddEvent(entry.tracked.id, event);
          var origin := if entry.tracked.hasSample then LifecyclePlusSnapshot else LifecycleExact;
          var tracked := entry.tracked.(pid := Some(process.pid), startTicks := process.startTicks, origin := origin);
          (State(s1.entries[at := entry.(tracked := tracked)], store.PromoteDirection(tracked.id, direction)),
           Admission(tracked.id, false, false, store.Promotes(tracked.id, direction), direction))
        else
          var id := s.store.nextId;
          var first := Sample(event.at, event.tcpState.GetOr(0), 0, 0, 0, 0);
          var tracked := Tracked(id, first, NO_SAMPLE, 0, false, false, 0, Some(process.pid), process.startTicks,
                                 LifecycleExact);
          (State(s.entries[identity.value := Entry(tracked, EventKey(event, false))],
                 s.store.Begin(event.cookie.GetOr(0), direction, event.at).AddEvent(id, event)),
           Admission(id, true, false, false, direction))
  }

  /** Whether a sample of a tracked connection is stored. */
  predicate Stores(tracked: Tracked, sample: Sample) {
    !tracked.hasSample || MeaningfulChange(tracked.lastPersisted, sample, tracked.lastPersistAt)
  }

  function Sampled(tracked: Tracked, sample: Sample): Tracked {
    var seen := tracked.(lastSeen := sample, present := true);
    if Stores(tracked, sample) then seen.(hasSample := true, lastPersisted := sample, lastPersistAt := sample.at) else seen
  }

  function SampleStored(store: Store, tracked: Tracked, sample: Sample): Store {
    (if Stores(tracked, sample) then store.AddSample(tracked.id, sample) else store).Touch(tracked.id, sample.at, Active)
  }

  function Enriched(origin: Origin): Origin { if origin.LifecycleExact? then LifecyclePlusSnapshot else origin }

  function AdmittedState(store: Store, id: nat, at: nat, origin: Origin): Store {
    match origin
    case SnapshotPreexisting => store.Touch(id, at, Preexisting)
    case SnapshotReconciled => store.Touch(id, at, ReconciledAfterLoss)
    case _ => store
  }

  ghost function SocketStep(s: State, socket: Socket, direction: Direction, allowNew: bool, origin: Origin,
                            resolved: Option<Process>): (State, Report)
  {
    var canonical := SocketIdentity(socket);
    var key := SocketKey(socket, resolved);
    var matched := UniqueMatch(s.entries, key);
    var known := canonical in s.entries;
    if known && matched.Some? && matched.value != canonical then (s, Nothing)
    else if !known && matched.Some? && ValidCookie(socket.cookie)
            && !s.store.TakesCookie(s.entries[matched.value].tracked.id) then (s, Nothing)
    else if known || matched.Some? then
      var (s1, at) := Adopt(s, if known then canonical else matched.value,
                            if known || ValidCookie(socket.cookie) then canonical else matched.value, Some(socket.cookie));
      var tracked := s1.entries[at].tracked;
      var sampled := Sampled(tracked, socket.sample).(origin := Enriched(tracked.origin));
      (State(s1.entries[at := s1.entries[at].(tracked := sampled)], SampleStored(s1.store, tracked, socket.sample)),
       Admission(tracked.id, false, false, false, direction))
    else if !allowNew || !socket.endpointKind.Connection? || resolved.None? then (s, Nothing)
    else
      var id, sample := s.store.nextId, socket.sample;
      var tracked := Tracked(id, sample, sample, sample.at, true, true, 0, Some(resolved.value.pid),
                             resolved.value.startTicks, origin);
      (State(s.entries[canonical := Entry(tracked, key)],
             AdmittedState(s.store.Begin(socket.cookie, direction, sample.at).AddSample(id, sample), id, sample.at, origin)),
       Admission(id, true, false, false, direction))
  }

  ghost function BeginStep(s: State): State {
    s.(entries := map i | i in s.entries :: s.entries[i].(tracked := s.entries[i].tracked.(present := false)))
  }

  /** Whether a connection that is not in the snapshot is given up. */
  predicate Reaped(tracked: Tracked, polling: bool, incomplete: bool) {
    !tracked.present
    && (polling || ((SnapshotOwned(tracked.origin) || incomplete) && tracked.misses + 1 >= MISS_LIMIT))
  }

  function Counted(tracked: Tracked): Tracked {
    tracked.(misses := if tracked.present then 0 else tracked.misses + 1)
  }

  function AbsentState(polling: bool, incomplete: bool): LifeState {
    if polling then Disappeared else if incomplete then AbsentAfterLoss else PreexistingDisappeared
  }

  ghost function ReapedIds(entries: Entries, polling: bool, incomplete: bool): set<nat> {
    set i | i in entries && Reaped(entries[i].tracked, polling, incomplete) :: entries[i].tracked.id
  }

  ghost function EndStep(s: State, polling: bool, incomplete: bool): (State, Report) {
    var kept := map i | i in s.entries && !Reaped(s.entries[i].tracked, polling, incomplete)
                  :: s.entries[i].(tracked := Counted(s.entries[i].tracked));
    var rows := map id | id in s.store.rows :: ReapedRow(s, polling, incomplete, id);
    (State(kept, s.store.(rows := rows)), Inactive(ReapedIds(s.entries, polling, incomplete)))
  }

  ghost predicate ReapedAs(s: State, polling: bool, incomplete: bool, id: nat, i: Identity) {
    i in s.entries && s.entries[i].tracked.id == id && Reaped(s.entries[i].tracked, polling, incomplete)
  }

  /** The row of a reaped connection is marked absent since it was last seen. */
  ghost function ReapedRow(s: State, polling: bool, incomplete: bool, id: nat): Row
    requires id in s.store.rows
  {
    if exists i :: ReapedAs(s, polling, incomplete, id, i) then
      var i :| ReapedAs(s, polling, incomplete, id, i);
      s.store.rows[id].(lastSeen := s.entries[i].tracked.lastSeen.at, state := AbsentState(polling, incomplete))
    else s.store.rows[id]
  }

  datatype Input =
    | Lifecycle(event: LifecycleEvent, direction: Direction)
    | Snapshot(socket: Socket, direction: Direction, allowNew: bool, origin: Origin, resolved: Option<Process>)
    | BeginSnapshot
    | EndSnapshot(polling: bool, incomplete: bool)

  ghost function Step(s: State, input: Input): (State, Report) {
    match input
    case Lifecycle(event, direction) => LifecycleStep(s, event, direction)
    case Snapshot(socket, direction, allowNew, origin, resolved) =>
      SocketStep(s, socket, direction, allowNew, origin, resolved)
    case BeginSnapshot => (BeginStep(s), Nothing)
    case EndSnapshot(polling, incomplete) => EndStep(s, polling, incomplete)
  }
}
