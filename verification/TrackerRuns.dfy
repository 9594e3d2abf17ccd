/** What every step of the tracker keeps, and what follows for whole runs of lifecycle events and
    snapshots. */
module TrackerRuns {
  import opened Base
  import opened Samples
  import opened TrackerModel

  // ---------- The invariant ----------

  ghost predicate IdsStored(s: State) {
    s.store.Fresh() && forall i | i in s.entries :: s.entries[i].tracked.id in s.store.rows
  }

  ghost predicate IdsDistinct(entries: Entries) {
    forall i, j | i in entries && j in entries && entries[i].tracked.id == entries[j].tracked.id :: i == j
  }

  /** A connection known by its cookie has that cookie in the store. */
  ghost predicate CookiesStored(s: State) {
    forall i | i in s.entries && i.Cookie? && s.entries[i].tracked.id in s.store.rows ::
      s.store.rows[s.entries[i].tracked.id].cookie == i.cookie
  }

  /** The tracker's memory of the last stored sample is the last stored sample. */
  predicate Linked(tracked: Tracked, row: Row) {
    && (tracked.hasSample <==> row.samples != [])
    && (row.samples != [] ==>
          tracked.lastPersisted == row.samples[|row.samples| - 1] && tracked.lastPersistAt == tracked.lastPersisted.at)
  }

  ghost predicate SamplesLinked(s: State) {
    forall i | i in s.entries && s.entries[i].tracked.id in s.store.rows ::
      Linked(s.entries[i].tracked, s.store.rows[s.entries[i].tracked.id])
  }

  ghost predicate Inv(s: State) { IdsStored(s) && IdsDistinct(s.entries) && CookiesStored(s) && SamplesLinked(s) }

  ghost function Live(entries: Entries): set<nat> { set i | i in entries :: entries[i].tracked.id }

  function AdmittedBy(report: Report): set<nat> {
    if report.Admission? && report.newlyAdmitted then {report.id} else {}
  }

  function RetiredBy(report: Report): set<nat> {
    match report
    case Nothing => {}
    case Admission(id, _, closed, _, _) => if closed then {id} else {}
    case Inactive(ids) => ids
  }

  /** How a stored row may change while its connection is tracked: the cookie is written once, the
      direction is promoted once, samples and events are only added. */
  predicate RowGrows(r: Row, r': Row) {
    && (r.cookie != 0 ==> r'.cookie == r.cookie)
    && (r.direction != Unknown ==> r'.direction == r.direction)
    && r.samples <= r'.samples && r.events <= r'.events
  }

  /** Rows that are not of tracked connections are untouched; no row goes; the new row is the next id. */
  ghost predicate StoreGrows(s: State, store': Store) {
    && s.store.nextId <= store'.nextId
    && (forall id | id in s.store.rows :: id in store'.rows && RowGrows(s.store.rows[id], store'.rows[id]))
    && (forall id | id in s.store.rows && id !in Live(s.entries) :: store'.rows[id] == s.store.rows[id])
    && (forall id | id in store'.rows && id !in s.store.rows :: id == s.store.nextId)
  }

  /** One step, seen from outside: who is tracked, who is reported, and which rows change. */
  ghost predicate Effects(s: State, report: Report, s': State) {
    && StoreGrows(s, s'.store)
    && RetiredBy(report) <= Live(s.entries)
    && AdmittedBy(report) <= {s.store.nextId}
    && (AdmittedBy(report) != {} ==> s'.store.nextId == s.store.nextId + 1)
    && (forall id | id in s'.store.rows && id !in s.store.rows :: id in AdmittedBy(report))
    && Live(s'.entries) == Live(s.entries) + AdmittedBy(report) - RetiredBy(report)
    && (report.Admission? && !report.newlyAdmitted ==> report.id in Live(s.entries))
    && (forall id | id in s.store.rows ::
          s'.store.rows[id].direction != s.store.rows[id].direction
          <==> report.Admission? && report.id == id && report.promoted)
    && (report.Admission? && report.promoted ==>
          !report.newlyAdmitted && report.id in s'.store.rows && s'.store.rows[report.id].direction == report.direction)
  }

  // ---------- Re-keying ----------

  lemma RenameKeeps(s: State, previous: Identity, canonical: Identity)
    requires Inv(s) && previous in s.entries && canonical !in s.entries
    requires canonical.Cookie? ==> s.store.rows[s.entries[previous].tracked.id].cookie == canonical.cookie
    ensures var s' := s.(entries := Renamed(s.entries, previous, canonical));
            Inv(s') && Live(s'.entries) == Live(s.entries)
  {
    var entries' := Renamed(s.entries, previous, canonical);
    forall id | id in Live(s.entries) ensures id in Live(entries') {
      var i :| i in s.entries && s.entries[i].tracked.id == id;
      assert (if i == previous then canonical else i) in entries';
    }
    forall id | id in Live(entries') ensures id in Live(s.entries) {
      var i :| i in entries' && entries'[i].tracked.id == id;
      assert (if i == canonical then previous else i) in s.entries;
    }
  }

  lemma SetCookieKeeps(s: State, target: Identity, cookie: nat)
    requires Inv(s) && target in s.entries && s.store.TakesCookie(s.entries[target].tracked.id) && cookie != 0
    ensures var s' := s.(store := s.store.SetCookie(s.entries[target].tracked.id, cookie));
            Inv(s'.(entries := s.entries - {target})) && StoreGrows(s, s'.store)
            && IdsStored(s') && IdsDistinct(s'.entries)
  {
    var id := s.entries[target].tracked.id;
    assert id in Live(s.entries);
  }

  /** Adopting an identity keeps the invariant, tracks the same connections and touches only the cookie of
      the connection adopted. When a cookie is stored, the re-keying to it always succeeds. */
  lemma AdoptKeeps(s: State, target: Identity, identity: Identity, cookie: Option<nat>)
    requires Inv(s) && target in s.entries && (target != identity ==> identity !in s.entries)
    requires target != identity && identity.Cookie? ==> cookie == Some(identity.cookie) && ValidCookie(identity.cookie)
    requires target != identity && cookie.Some? && ValidCookie(cookie.value) ==> identity == Cookie(cookie.value)
    ensures var (s', at) := Adopt(s, target, identity, cookie);
            && Inv(s') && Live(s'.entries) == Live(s.entries) && StoreGrows(s, s'.store)
            && s'.store.nextId == s.store.nextId && s'.store.rows.Keys == s.store.rows.Keys
            && (s'.store != s.store ==> at == identity)
            && (forall id | id in s.store.rows ::
                  s'.store.rows[id] == s.store.rows[id].(cookie := s'.store.rows[id].cookie))
  {
    var id := s.entries[target].tracked.id;
    assert id in Live(s.entries);
    if target != identity {
      if cookie.Some? && ValidCookie(cookie.value) {
        if s.store.TakesCookie(id) {
          SetCookieKeeps(s, target, cookie.value);
          var store' := s.store.SetCookie(id, cookie.value);
          var mid := State(s.entries[target := s.entries[target]], store');
          AdoptRenames(s, target, identity, store');
        }
      } else {
        RenameKeeps(s, target, identity);
      }
    }
  }

  lemma AdoptRenames(s: State, target: Identity, identity: Identity, store': Store)
    requires Inv(s) && target in s.entries && identity !in s.entries && identity.Cookie?
    requires store' == s.store.SetCookie(s.entries[target].tracked.id, identity.cookie)
    requires s.store.TakesCookie(s.entries[target].tracked.id)
    requires identity.cookie != 0
    ensures Inv(State(Renamed(s.entries, target, identity), store'))
    ensures Live(Renamed(s.entries, target, identity)) == Live(s.entries)
  {
    var id := s.entries[target].tracked.id;
    var entries' := Renamed(s.entries, target, identity);
    forall i | i in entries' && i.Cookie? ensures store'.rows[entries'[i].tracked.id].cookie == i.cookie {
      if i != identity {
        assert i in s.entries && s.entries[i].tracked.id != id;
      }
    }
    forall x | x in Live(s.entries) ensures x in Live(entries') {
      var i :| i in s.entries && s.entries[i].tracked.id == x;
      assert (if i == target then identity else i) in entries';
    }
    forall x | x in Live(entries') ensures x in Live(s.entries) {
      var i :| i in entries' && entries'[i].tracked.id == x;
      assert (if i == identity then target else i) in s.entries;
    }
  }

  // ---------- Changing one row ----------

  lemma UpdateGrows(s: State, id: nat, row: Row)
    requires id in s.store.rows && id in Live(s.entries) && RowGrows(s.store.rows[id], row)
    ensures StoreGrows(s, s.store.(rows := s.store.rows[id := row]))
  {
  }

  lemma GrowsTwice(s: State, s1: State, store2: Store)
    requires StoreGrows(s, s1.store) && StoreGrows(s1, store2) && Live(s1.entries) == Live(s.entries)
    requires s1.store.nextId == s.store.nextId && s1.store.rows.Keys == s.store.rows.Keys
    ensures StoreGrows(s, store2)
  {
    forall id | id in s.store.rows ensures id in store2.rows && RowGrows(s.store.rows[id], store2.rows[id]) {
      assert id in s1.store.rows;
      assert RowGrows(s.store.rows[id], s1.store.rows[id]) && RowGrows(s1.store.rows[id], store2.rows[id]);
    }
  }

  lemma LiveWithout(entries: Entries, at: Identity)
    requires at in entries && IdsDistinct(entries)
    ensures Live(entries - {at}) == Live(entries) - {entries[at].tracked.id}
  {
    forall id | id in Live(entries) && id != entries[at].tracked.id ensures id in Live(entries - {at}) {
      var i :| i in entries && entries[i].tracked.id == id;
      assert i in entries - {at};
    }
  }

  lemma LiveUpdated(entries: Entries, at: Identity, entry: Entry)
    requires at in entries && entry.tracked.id == entries[at].tracked.id
    ensures Live(entries[at := entry]) == Live(entries)
  {
    var entries' := entries[at := entry];
    forall id | id in Live(entries) ensures id in Live(entries') {
      var i :| i in entries && entries[i].tracked.id == id;
      assert i in entries' && entries'[i].tracked.id == id;
    }
    forall id | id in Live(entries') ensures id in Live(entries) {
      var i :| i in entries' && entries'[i].tracked.id == id;
      assert i in entries && entries[i].tracked.id == id;
    }
  }

  lemma LiveAdded(entries: Entries, at: Identity, entry: Entry)
    requires at !in entries
    ensures Live(entries[at := entry]) == Live(entries) + {entry.tracked.id}
  {
    var entries' := entries[at := entry];
    assert at in entries' && entries'[at].tracked.id == entry.tracked.id;
    forall id | id in Live(entries) ensures id in Live(entries') {
      var i :| i in entries && entries[i].tracked.id == id;
      assert i in entries' && entries'[i].tracked.id == id;
    }
  }

  /** Changing the row and the entry of one tracked connection. */
  lemma UpdateKeepsInv(s: State, at: Identity, entry: Entry, row: Row)
    requires Inv(s) && at in s.entries && entry.tracked.id == s.entries[at].tracked.id
    requires RowGrows(s.store.rows[entry.tracked.id], row) && row.cookie == s.store.rows[entry.tracked.id].cookie
    requires Linked(entry.tracked, row)
    ensures var s' := State(s.entries[at := entry], s.store.(rows := s.store.rows[entry.tracked.id := row]));
            Inv(s') && StoreGrows(s, s'.store) && Live(s'.entries) == Live(s.entries)
  {
    hide RowGrows, Linked;
    LiveUpdated(s.entries, at, entry);
    assert entry.tracked.id in Live(s.entries);
    UpdateGrows(s, entry.tracked.id, row);
  }

  lemma RemoveKeepsInv(s: State, at: Identity, row: Row)
    requires Inv(s) && at in s.entries && RowGrows(s.store.rows[s.entries[at].tracked.id], row)
    ensures var id := s.entries[at].tracked.id;
            var s' := State(s.entries - {at}, s.store.(rows := s.store.rows[id := row]));
            Inv(s') && StoreGrows(s, s'.store) && Live(s'.entries) == Live(s.entries) - {id}
  {
    hide RowGrows, Linked;
    var id := s.entries[at].tracked.id;
    LiveWithout(s.entries, at);
    assert id in Live(s.entries);
    UpdateGrows(s, id, row);
    assert forall i | i in s.entries - {at} :: s.entries[i].tracked.id != id;
  }

  /** Admitting a connection under the next id. */
  lemma AdmitKeepsInv(s: State, at: Identity, entry: Entry, row: Row)
    requires Inv(s) && at !in s.entries && entry.tracked.id == s.store.nextId
    requires at.Cookie? ==> row.cookie == at.cookie
    requires Linked(entry.tracked, row)
    ensures var s' := State(s.entries[at := entry], Store(s.store.rows[s.store.nextId := row], s.store.nextId + 1));
            && Inv(s') && StoreGrows(s, s'.store) && Live(s'.entries) == Live(s.entries) + {s.store.nextId}
            && (forall id | id in s.store.rows :: s'.store.rows[id] == s.store.rows[id])
  {
    hide Linked;
    LiveAdded(s.entries, at, entry);
    assert s.store.nextId !in s.store.rows;
    assert forall i | i in s.entries :: s.entries[i].tracked.id < s.store.nextId;
  }

  // ---------- Lifecycle events ----------

  lemma NamedByCookie(event: LifecycleEvent, identity: Identity)
    requires EventIdentity(event) == Some(identity)
    ensures identity.Cookie? ==> event.cookie == Some(identity.cookie) && ValidCookie(identity.cookie)
    ensures event.cookie.Some? && ValidCookie(event.cookie.value) ==> identity == Cookie(event.cookie.value)
  {
  }

  lemma ClosedRow(store: Store, id: nat, event: LifecycleEvent)
    requires id in store.rows
    ensures var store' := store.Touch(id, event.at, Closed).AddEvent(id, event);
            && id in store'.rows && store' == store.(rows := store.rows[id := store'.rows[id]])
            && RowGrows(store.rows[id], store'.rows[id])
            && store'.rows[id].direction == store.rows[id].direction && store'.rows[id].samples == store.rows[id].samples
  {
  }

  lemma PromotedRow(store: Store, id: nat, event: LifecycleEvent, direction: Direction)
    requires id in store.rows
    ensures var store' := store.AddEvent(id, event).PromoteDirection(id, direction);
            var row, row' := store.rows[id], store'.rows[id];
            && store' == store.(rows := store.rows[id := row']) && RowGrows(row, row')
            && row'.cookie == row.cookie && row'.samples == row.samples
            && (row'.direction != row.direction <==> store.AddEvent(id, event).Promotes(id, direction))
            && (row'.direction != row.direction ==> row'.direction == direction)
  {
  }

  lemma BegunRow(store: Store, cookie: nat, direction: Direction, event: LifecycleEvent)
    ensures var id := store.nextId;
            var store' := store.Begin(cookie, direction, event.at).AddEvent(id, event);
            && id in store'.rows && store' == Store(store.rows[id := store'.rows[id]], id + 1)
            && store'.rows[id].cookie == cookie && store'.rows[id].samples == [] && store'.rows[id].direction == direction
  {
  }

  lemma CloseEffects(s: State, event: LifecycleEvent, direction: Direction)
    requires Inv(s) && event.kind.Close?
    ensures var (s', report) := LifecycleStep(s, event, direction);
            Inv(s') && Effects(s, report, s')
  {
    hide Inv, StoreGrows, Live, RowGrows, UniqueMatch, Adopt, EventIdentity;
    SameEffects(s);
    var (s', report) := LifecycleStep(s, event, direction);
    if report.Admission? {
      var identity := EventIdentity(event).value;
      var target := EventTarget(s.entries, event, identity).value;
      NamedByCookie(event, identity);
      AdoptKeeps(s, target, identity, event.cookie);
      var (s1, at) := Adopt(s, target, identity, event.cookie);
      var id := s1.entries[at].tracked.id;
      TrackedIsStored(s1, at);
      ClosedRow(s1.store, id, event);
      RemoveKeepsInv(s1, at, s'.store.rows[id]);
      GrowsTwice(s, s1, s'.store);
      SameKeys(s, s'.store);
    }
  }

  /** A step that reports nothing changes nothing. */
  lemma SameEffects(s: State)
    ensures Effects(s, Nothing, s)
  {
  }

  lemma TrackedIsStored(s: State, at: Identity)
    requires Inv(s) && at in s.entries
    ensures s.entries[at].tracked.id in s.store.rows && s.entries[at].tracked.id in Live(s.entries)
    ensures Linked(s.entries[at].tracked, s.store.rows[s.entries[at].tracked.id])
    ensures s.store.nextId !in s.store.rows
  {
  }

  lemma SameKeys(s: State, store': Store)
    requires StoreGrows(s, store')
    ensures forall id | id in s.store.rows :: id in store'.rows
    ensures s.store.nextId <= store'.nextId
  {
  }

  lemma OpenEffects(s: State, event: LifecycleEvent, direction: Direction)
    requires Inv(s) && !event.kind.Close?
    ensures var (s', report) := LifecycleStep(s, event, direction);
            Inv(s') && Effects(s, report, s')
  {
    hide Inv, Effects, UniqueMatch, EventKey, EventIdentity;
    SameEffects(s);
    var (s', report) := LifecycleStep(s, event, direction);
    if report.Admission? {
      if EventTarget(s.entries, event, EventIdentity(event).value).Some? {
        OpenKnownEffects(s, event, direction);
      } else {
        OpenNewEffects(s, event, direction);
      }
    }
  }

  lemma OpenKnownEffects(s: State, event: LifecycleEvent, direction: Direction)
    requires Inv(s) && !event.kind.Close? && EventIdentity(event).Some?
    requires EventTarget(s.entries, event, EventIdentity(event).value).Some?
    requires LifecycleStep(s, event, direction).1.Admission?
    ensures var (s', report) := LifecycleStep(s, event, direction);
            Inv(s') && Effects(s, report, s')
  {
    hide Inv, StoreGrows, Live, RowGrows, Adopt, EventIdentity, Linked, EventKey, EventTarget;
    var (s', report) := LifecycleStep(s, event, direction);
    var identity := EventIdentity(event).value;
    NamedByCookie(event, identity);
    var target := EventTarget(s.entries, event, identity).value;
    AdoptKeeps(s, target, identity, event.cookie);
    var (s1, at) := Adopt(s, target, identity, event.cookie);
    var id := s1.entries[at].tracked.id;
    TrackedIsStored(s1, at);
    PromotedRow(s1.store, id, event, direction);
    RelabelledIsLinked(s1.entries[at].tracked, s'.entries[at].tracked, s1.store.rows[id], s'.store.rows[id]);
    UpdateKeepsInv(s1, at, s'.entries[at], s'.store.rows[id]);
    GrowsTwice(s, s1, s'.store);
    SameKeys(s, s'.store);
  }

  lemma OpenNewEffects(s: State, event: LifecycleEvent, direction: Direction)
    requires Inv(s) && !event.kind.Close? && EventIdentity(event).Some?
    requires EventTarget(s.entries, event, EventIdentity(event).value).None?
    requires LifecycleStep(s, event, direction).1.Admission?
    ensures var (s', report) := LifecycleStep(s, event, direction);
            Inv(s') && Effects(s, report, s')
  {
    hide Inv, StoreGrows, Live, RowGrows, EventIdentity, Linked, EventKey, UniqueMatch;
    var (s', report) := LifecycleStep(s, event, direction);
    var identity := EventIdentity(event).value;
    NamedByCookie(event, identity);
    BegunRow(s.store, event.cookie.GetOr(0), direction, event);
    NewIsLinked(s'.entries[identity].tracked, s'.store.rows[s.store.nextId]);
    AdmitKeepsInv(s, identity, s'.entries[identity], s'.store.rows[s.store.nextId]);
    SameKeys(s, s'.store);
  }

  lemma RelabelledIsLinked(tracked: Tracked, tracked': Tracked, row: Row, row': Row)
    requires Linked(tracked, row) && row'.samples == row.samples
    requires tracked' == tracked.(pid := tracked'.pid, startTicks := tracked'.startTicks, origin := tracked'.origin)
    ensures Linked(tracked', row')
  {
  }

  lemma NewIsLinked(tracked: Tracked, row: Row)
    requires !tracked.hasSample && row.samples == []
    ensures Linked(tracked, row)
  {
  }

  // ---------- Snapshots ----------

  lemma SampledRow(store: Store, tracked: Tracked, sample: Sample)
    requires tracked.id in store.rows && Linked(tracked, store.rows[tracked.id])
    ensures var store' := SampleStored(store, tracked, sample);
            var row, row' := store.rows[tracked.id], store'.rows[tracked.id];
            && store' == store.(rows := store.rows[tracked.id := row']) && RowGrows(row, row')
            && row'.cookie == row.cookie && row'.direction == row.direction
            && Linked(Sampled(tracked, sample).(origin := Enriched(tracked.origin)), row')
            && Sampled(tracked, sample).id == tracked.id
  {
  }

  lemma SnapshotRow(store: Store, cookie: nat, direction: Direction, sample: Sample, origin: Origin)
    ensures var id := store.nextId;
            var store' := AdmittedState(store.Begin(cookie, direction, sample.at).AddSample(id, sample), id, sample.at, origin);
            && id in store'.rows && store' == Store(store.rows[id := store'.rows[id]], id + 1)
            && store'.rows[id].cookie == cookie && store'.rows[id].samples == [sample]
            && store'.rows[id].direction == direction
  {
  }

  lemma SocketEffects(s: State, socket: Socket, direction: Direction, allowNew: bool, origin: Origin, resolved: Option<Process>)
    requires Inv(s)
    ensures var (s', report) := SocketStep(s, socket, direction, allowNew, origin, resolved);
            Inv(s') && Effects(s, report, s')
  {
    hide Inv, StoreGrows, Live, RowGrows, UniqueMatch, Adopt, Linked, SocketKey, SampleStored, Sampled, AdmittedState;
    SameEffects(s);
    var (s', report) := SocketStep(s, socket, direction, allowNew, origin, resolved);
    var canonical := SocketIdentity(socket);
    if report.Admission? && report.newlyAdmitted {
      SnapshotRow(s.store, socket.cookie, direction, socket.sample, origin);
      FirstIsLinked(s'.entries[canonical].tracked, s'.store.rows[s.store.nextId], socket.sample);
      AdmitKeepsInv(s, canonical, s'.entries[canonical], s'.store.rows[s.store.nextId]);
      SameKeys(s, s'.store);
    } else if report.Admission? {
      SocketKnownEffects(s, socket, direction, allowNew, origin, resolved);
    }
  }

  lemma FirstIsLinked(tracked: Tracked, row: Row, sample: Sample)
    requires tracked.hasSample && tracked.lastPersisted == sample && tracked.lastPersistAt == sample.at && row.samples == [sample]
    ensures Linked(tracked, row)
  {
  }

  /** The identity under which a socket of a tracked connection is found, and the one it is moved to. */
  ghost function SocketTarget(s: State, socket: Socket, resolved: Option<Process>): (Identity, Identity)
    requires SocketIdentity(socket) in s.entries || UniqueMatch(s.entries, SocketKey(socket, resolved)).Some?
  {
    var canonical := SocketIdentity(socket);
    if canonical in s.entries then (canonical, canonical)
    else
      var matched := UniqueMatch(s.entries, SocketKey(socket, resolved)).value;
      (matched, if ValidCookie(socket.cookie) then canonical else matched)
  }

  lemma SocketKnownEffects(s: State, socket: Socket, direction: Direction, allowNew: bool, origin: Origin, resolved: Option<Process>)
    requires Inv(s)
    requires var report := SocketStep(s, socket, direction, allowNew, origin, resolved).1;
             report.Admission? && !report.newlyAdmitted
    ensures var (s', report) := SocketStep(s, socket, direction, allowNew, origin, resolved);
            Inv(s') && Effects(s, report, s')
  {
    hide Inv, StoreGrows, Live, RowGrows, UniqueMatch, Adopt, Linked, SocketKey, SampleStored, Sampled, Enriched;
    var (s', report) := SocketStep(s, socket, direction, allowNew, origin, resolved);
    var (target, identity) := SocketTarget(s, socket, resolved);
    var cookie := Some(socket.cookie);
    AdoptKeeps(s, target, identity, cookie);
    var (s1, at) := Adopt(s, target, identity, cookie);
    var tracked := s1.entries[at].tracked;
    TrackedIsStored(s1, at);
    SampledRow(s1.store, tracked, socket.sample);
    UpdateKeepsInv(s1, at, s'.entries[at], s'.store.rows[tracked.id]);
    GrowsTwice(s, s1, s'.store);
    SameKeys(s, s'.store);
  }

  predicate SameMemory(t: Tracked, t': Tracked) {
    t'.id == t.id && t'.hasSample == t.hasSample && t'.lastPersisted == t.lastPersisted && t'.lastPersistAt == t.lastPersistAt
  }

  predicate SameRecord(r: Row, r': Row) {
    r'.cookie == r.cookie && r'.direction == r.direction && r'.samples == r.samples && r'.events == r.events
  }

  /** Dropping entries, and changing only presence marks, miss counts and row states. */
  lemma QuietKeepsInv(s: State, s': State)
    requires Inv(s) && s'.store.nextId == s.store.nextId && s'.store.rows.Keys == s.store.rows.Keys
    requires forall i | i in s'.entries :: i in s.entries && SameMemory(s.entries[i].tracked, s'.entries[i].tracked)
    requires forall id | id in s.store.rows :: SameRecord(s.store.rows[id], s'.store.rows[id])
    ensures Inv(s')
  {
    forall i | i in s'.entries
      ensures var id := s'.entries[i].tracked.id;
              && id in s'.store.rows && Linked(s'.entries[i].tracked, s'.store.rows[id])
              && (i.Cookie? ==> s'.store.rows[id].cookie == i.cookie)
    {
      var id := s.entries[i].tracked.id;
      assert SameMemory(s.entries[i].tracked, s'.entries[i].tracked) && SameRecord(s.store.rows[id], s'.store.rows[id]);
    }
    assert IdsDistinct(s'.entries);
  }

  lemma LiveMapped(entries: Entries, entries': Entries)
    requires entries'.Keys == entries.Keys && forall i | i in entries :: entries'[i].tracked.id == entries[i].tracked.id
    ensures Live(entries') == Live(entries)
  {
    forall id | id in Live(entries) ensures id in Live(entries') {
      var i :| i in entries && entries[i].tracked.id == id;
      assert i in entries' && entries'[i].tracked.id == id;
    }
    forall id | id in Live(entries') ensures id in Live(entries) {
      var i :| i in entries' && entries'[i].tracked.id == id;
      assert i in entries && entries[i].tracked.id == id;
    }
  }

  lemma BeginEffects(s: State)
    requires Inv(s)
    ensures Inv(BeginStep(s)) && Effects(s, Nothing, BeginStep(s))
  {
    hide Inv, Live;
    LiveMapped(s.entries, BeginStep(s).entries);
    QuietKeepsInv(s, BeginStep(s));
  }

  lemma EndEffects(s: State, polling: bool, incomplete: bool)
    requires Inv(s)
    ensures var (s', report) := EndStep(s, polling, incomplete);
            Inv(s') && Effects(s, report, s')
  {
    hide Inv, Live, Reaped, ReapedRow, ReapedIds;
    var (s', report) := EndStep(s, polling, incomplete);
    InvIds(s);
    EndLive(s, polling, incomplete);
    forall id | id in s.store.rows
      ensures SameRecord(s.store.rows[id], s'.store.rows[id])
      ensures id !in Live(s.entries) ==> s'.store.rows[id] == s.store.rows[id]
    {
      EndRow(s, polling, incomplete, id);
    }
    QuietKeepsInv(s, s');
  }

  lemma InvIds(s: State)
    requires Inv(s)
    ensures IdsDistinct(s.entries)
  {
  }

  lemma EndRow(s: State, polling: bool, incomplete: bool, id: nat)
    requires id in s.store.rows
    ensures var row := ReapedRow(s, polling, incomplete, id);
            && row == s.store.rows[id].(lastSeen := row.lastSeen, state := row.state)
            && (id !in Live(s.entries) ==> row == s.store.rows[id])
  {
    if i :| ReapedAs(s, polling, incomplete, id, i) {
      assert id in Live(s.entries);
    }
  }

  lemma EndLive(s: State, polling: bool, incomplete: bool)
    requires IdsDistinct(s.entries)
    ensures var (s', report) := EndStep(s, polling, incomplete);
            && report.ids <= Live(s.entries) && Live(s'.entries) == Live(s.entries) - report.ids
  {
    hide Reaped;
    var (s', report) := EndStep(s, polling, incomplete);
    forall id | id in Live(s.entries) && id !in report.ids ensures id in Live(s'.entries) {
      var i :| i in s.entries && s.entries[i].tracked.id == id;
      assert i in s'.entries && s'.entries[i].tracked.id == id;
    }
    forall id | id in Live(s'.entries) ensures id in Live(s.entries) && id !in report.ids {
      var i :| i in s'.entries && s'.entries[i].tracked.id == id;
      assert i in s.entries && s.entries[i].tracked.id == id;
    }
  }

  /** Every step keeps the invariant and has only the effects above. */
  lemma StepEffects(s: State, input: Input)
    requires Inv(s)
    ensures Inv(Step(s, input).0) && Effects(s, Step(s, input).1, Step(s, input).0)
  {
    hide Inv, Effects, LifecycleStep, SocketStep, BeginStep, EndStep;
    match input
    case Lifecycle(event, direction) =>
      if event.kind.Close? { CloseEffects(s, event, direction); } else { OpenEffects(s, event, direction); }
    case Snapshot(socket, direction, allowNew, origin, resolved) =>
      SocketEffects(s, socket, direction, allowNew, origin, resolved);
    case BeginSnapshot => BeginEffects(s);
    case EndSnapshot(polling, incomplete) => EndEffects(s, polling, incomplete);
  }
}
