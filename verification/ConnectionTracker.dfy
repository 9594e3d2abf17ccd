/** The tracker as the code runs it: connections by identity, a correlation multimap from keys to
    identities, and the reverse map from identities to keys, all updated in place. */
module ConnectionTrackers {
  import opened Base
  import opened Multimaps
  import opened Samples
  import opened TrackerModel
  import opened TrackerRuns

  class HistoryStore {
    var rows: map<nat, Row>
    var nextId: nat

    ghost function Contents(): Store
      reads this
    {
      Store(rows, nextId)
    }

    method BeginConnection(cookie: nat, direction: Direction, at: nat) returns (id: nat)
      modifies this
      ensures id == old(nextId) && Contents() == old(Contents()).Begin(cookie, direction, at)
    {
      id := nextId;
      rows := rows[id := Row(cookie, direction, Active, at, [], [])];
      nextId := nextId + 1;
    }

    method Touch(id: nat, at: nat, state: LifeState)
      modifies this`rows
      ensures Contents() == old(Contents()).Touch(id, at, state)
    {
      if id in rows {
        rows := rows[id := rows[id].(lastSeen := at, state := state)];
      }
    }

    method AddSample(id: nat, sample: Sample)
      modifies this`rows
      ensures Contents() == old(Contents()).AddSample(id, sample)
    {
      if id in rows {
        rows := rows[id := rows[id].(samples := rows[id].samples + [sample])];
      }
    }

    method AddEvent(id: nat, event: LifecycleEvent)
      modifies this`rows
      ensures Contents() == old(Contents()).AddEvent(id, event)
    {
      if id in rows && (event.kind, event.at) !in rows[id].events {
        rows := rows[id := rows[id].(events := rows[id].events + [(event.kind, event.at)])];
      }
    }

    method UpdateSocketCookie(id: nat, cookie: nat) returns (changed: bool)
      modifies this`rows
      ensures changed == old(Contents()).TakesCookie(id)
      ensures Contents() == old(Contents()).SetCookie(id, cookie)
    {
      changed := id in rows && rows[id].cookie == 0;
      if changed {
        rows := rows[id := rows[id].(cookie := cookie)];
      }
    }

    method PromoteConnectionDirection(id: nat, direction: Direction) returns (changed: bool)
      modifies this`rows
      ensures changed == old(Contents()).Promotes(id, direction)
      ensures Contents() == old(Contents()).PromoteDirection(id, direction)
    {
      changed := direction != Unknown && id in rows && rows[id].direction == Unknown;
      if changed {
        rows := rows[id := rows[id].(direction := direction)];
      }
    }
  }

  type Index = Multimap<Key, Identity>

  // ---------- The tracker ----------

  ghost function EntriesOf(connections: map<Identity, Tracked>, keyOf: map<Identity, Key>): Entries
    requires connections.Keys == keyOf.Keys
  {
    map i | i in connections :: Entry(connections[i], keyOf[i])
  }

  lemma MatchIs(entries: Entries, key: Key, i: Identity)
    requires OnlyMatch(entries, key, i)
    ensures UniqueMatch(entries, key) == Some(i)
  {
  }

  // ---------- The end of a snapshot, connection by connection ----------

  ghost function OneReconciled(s: State, i: Identity, polling: bool, incomplete: bool): State
    requires i in s.entries
  {
    var entry := s.entries[i];
    if Reaped(entry.tracked, polling, incomplete) then
      State(s.entries - {i}, s.store.Touch(entry.tracked.id, entry.tracked.lastSeen.at, AbsentState(polling, incomplete)))
    else s.(entries := s.entries[i := entry.(tracked := Counted(entry.tracked))])
  }

  function Ids(inactive: seq<nat>): set<nat> { set id | id in inactive }

  lemma NoIds()
    ensures NoRepeats<nat>([]) && Ids([]) == {}
  {
  }

  lemma OneMoreId(inactive: seq<nat>, id: nat)
    requires NoRepeats(inactive) && id !in Ids(inactive)
    ensures NoRepeats(inactive + [id]) && Ids(inactive + [id]) == Ids(inactive) + {id}
  {
    assert forall k | 0 <= k < |inactive| :: inactive[k] in Ids(inactive);
  }

  ghost function Only(s: State, done: set<Identity>): State {
    s.(entries := map i | i in s.entries && i in done :: s.entries[i])
  }

  /** The end of a snapshot when only some connections have been looked at. */
  ghost function Partly(s: State, done: set<Identity>, polling: bool, incomplete: bool): (State, Report) {
    var (ended, report) := EndStep(Only(s, done), polling, incomplete);
    (State((s.entries - done) + ended.entries, ended.store), report)
  }

  lemma NothingReconciled(s: State, polling: bool, incomplete: bool)
    ensures Partly(s, {}, polling, incomplete) == (s, Inactive({}))
  {
    var (state, report) := Partly(s, {}, polling, incomplete);
    assert state.entries == s.entries;
    assert state.store.rows == s.store.rows;
    assert report.ids == {};
  }

  lemma AllReconciled(s: State, done: set<Identity>, polling: bool, incomplete: bool)
    requires done == s.entries.Keys
    ensures Partly(s, done, polling, incomplete) == EndStep(s, polling, incomplete)
  {
    assert Only(s, done) == s by { assert Only(s, done).entries == s.entries; }
    assert (s.entries - done) + EndStep(s, polling, incomplete).0.entries == EndStep(s, polling, incomplete).0.entries;
  }

  lemma StillTracked(s: State, done: set<Identity>, i: Identity, polling: bool, incomplete: bool)
    requires i in s.entries && i !in done
    ensures var part := Partly(s, done, polling, incomplete).0;
            i in part.entries && part.entries[i] == s.entries[i]
  {
  }

  /** An id is given up under one identity only. */
  lemma NotYetInactive(s: State, done: set<Identity>, i: Identity, polling: bool, incomplete: bool)
    requires IdsDistinct(s.entries) && i in s.entries && i !in done
    ensures Partly(s, done, polling, incomplete).1.Inactive?
    ensures s.entries[i].tracked.id !in Partly(s, done, polling, incomplete).1.ids
  {
    hide ReapedRow, Reaped;
  }

  /** Looking at one more connection reconciles exactly that one. */
  lemma NextReconciled(s: State, done: set<Identity>, i: Identity, polling: bool, incomplete: bool)
    requires IdsDistinct(s.entries) && i in s.entries && i !in done
    ensures var part := Partly(s, done, polling, incomplete);
            var next := Partly(s, done + {i}, polling, incomplete);
            var reaped := Reaped(s.entries[i].tracked, polling, incomplete);
            && i in part.0.entries && part.1.Inactive?
            && next == (OneReconciled(part.0, i, polling, incomplete),
                        Inactive(if reaped then part.1.ids + {s.entries[i].tracked.id} else part.1.ids))
  {
    hide Partly, ReapedRow, ReapedAs, OneReconciled, IdsDistinct, EndStep, ReapedIds;
    StillTracked(s, done, i, polling, incomplete);
    NextEntries(s, done, i, polling, incomplete);
    NextRows(s, done, i, polling, incomplete);
    NextInactive(s, done, i, polling, incomplete);
  }

  ghost predicate PartlyHas(s: State, done: set<Identity>, polling: bool, incomplete: bool, j: Identity) {
    j in s.entries && !(j in done && Reaped(s.entries[j].tracked, polling, incomplete))
  }

  lemma PartlyEntries(s: State, done: set<Identity>, polling: bool, incomplete: bool)
    ensures var entries := Partly(s, done, polling, incomplete).0.entries;
            && (forall j :: j in entries <==> PartlyHas(s, done, polling, incomplete, j))
            && (forall j | j in entries ::
                  entries[j] == if j in done then s.entries[j].(tracked := Counted(s.entries[j].tracked)) else s.entries[j])
  {
    hide ReapedRow, ReapedAs, Reaped, Counted;
  }

  lemma NextEntries(s: State, done: set<Identity>, i: Identity, polling: bool, incomplete: bool)
    requires i in s.entries && i !in done
    ensures var part := Partly(s, done, polling, incomplete).0;
            i in part.entries
            && Partly(s, done + {i}, polling, incomplete).0.entries == OneReconciled(part, i, polling, incomplete).entries
  {
    hide Partly, Reaped, Counted;
    var part := Partly(s, done, polling, incomplete).0;
    var next := Partly(s, done + {i}, polling, incomplete).0;
    PartlyEntries(s, done, polling, incomplete);
    PartlyEntries(s, done + {i}, polling, incomplete);
    var one := OneReconciled(part, i, polling, incomplete);
    assert next.entries.Keys == one.entries.Keys;
  }

  lemma NextRows(s: State, done: set<Identity>, i: Identity, polling: bool, incomplete: bool)
    requires IdsDistinct(s.entries) && i in s.entries && i !in done
    ensures var part := Partly(s, done, polling, incomplete).0;
            i in part.entries
            && Partly(s, done + {i}, polling, incomplete).0.store == OneReconciled(part, i, polling, incomplete).store
  {
    hide ReapedRow, ReapedAs, IdsDistinct, ReapedIds;
    var part := Partly(s, done, polling, incomplete).0;
    var next := Partly(s, done + {i}, polling, incomplete).0;
    var one := OneReconciled(part, i, polling, incomplete);
    assert next.store.rows.Keys == one.store.rows.Keys;
    forall id | id in s.store.rows ensures next.store.rows[id] == one.store.rows[id] {
      NextRow(s, done, i, polling, incomplete, id);
    }
    assert next.store.rows == one.store.rows;
  }

  lemma NextRow(s: State, done: set<Identity>, i: Identity, polling: bool, incomplete: bool, id: nat)
    requires IdsDistinct(s.entries) && i in s.entries && i !in done && id in s.store.rows
    ensures var t := s.entries[i].tracked;
            ReapedRow(Only(s, done + {i}), polling, incomplete, id)
            == if t.id == id && Reaped(t, polling, incomplete)
               then ReapedRow(Only(s, done), polling, incomplete, id)
                      .(lastSeen := t.lastSeen.at, state := AbsentState(polling, incomplete))
               else ReapedRow(Only(s, done), polling, incomplete, id)
  {
    hide Reaped, AbsentState, Only, ReapedRow;
    var was, now := Only(s, done), Only(s, done + {i});
    OnlyOneMore(s, done, i);
    OnlyStore(s, done, i);
    forall j, k | ReapedAs(now, polling, incomplete, id, j) && ReapedAs(now, polling, incomplete, id, k) ensures j == k {
      OnlyPart(s, done + {i}, j);
      OnlyPart(s, done + {i}, k);
    }
    forall j | j != i
      ensures ReapedAs(now, polling, incomplete, id, j) == ReapedAs(was, polling, incomplete, id, j)
    {
    }
    assert !ReapedAs(was, polling, incomplete, id, i);
    if ReapedAs(now, polling, incomplete, id, i) {
      RowOfReaped(now, polling, incomplete, id, i);
      RowOfOther(was, polling, incomplete, id);
    } else if j :| ReapedAs(was, polling, incomplete, id, j) {
      RowOfReaped(now, polling, incomplete, id, j);
      RowOfReaped(was, polling, incomplete, id, j);
    } else {
      RowOfOther(now, polling, incomplete, id);
      RowOfOther(was, polling, incomplete, id);
    }
  }

  lemma RowOfReaped(s: State, polling: bool, incomplete: bool, id: nat, i: Identity)
    requires id in s.store.rows && ReapedAs(s, polling, incomplete, id, i)
    requires forall j | ReapedAs(s, polling, incomplete, id, j) :: j == i
    ensures ReapedRow(s, polling, incomplete, id)
            == s.store.rows[id].(lastSeen := s.entries[i].tracked.lastSeen.at, state := AbsentState(polling, incomplete))
  {
    hide ReapedAs, AbsentState;
  }

  lemma RowOfOther(s: State, polling: bool, incomplete: bool, id: nat)
    requires id in s.store.rows && forall j :: !ReapedAs(s, polling, incomplete, id, j)
    ensures ReapedRow(s, polling, incomplete, id) == s.store.rows[id]
  {
    hide ReapedAs, AbsentState;
  }

  lemma OnlyStore(s: State, done: set<Identity>, i: Identity)
    ensures Only(s, done).store == s.store && Only(s, done + {i}).store == s.store
  {
  }

  lemma OnlyPart(s: State, done: set<Identity>, j: Identity)
    requires j in Only(s, done).entries
    ensures j in s.entries && Only(s, done).entries[j] == s.entries[j]
  {
  }

  lemma NextInactive(s: State, done: set<Identity>, i: Identity, polling: bool, incomplete: bool)
    requires i in s.entries && i !in done
    ensures var part := Partly(s, done, polling, incomplete).1;
            part.Inactive?
            && Partly(s, done + {i}, polling, incomplete).1
               == Inactive(if Reaped(s.entries[i].tracked, polling, incomplete)
                           then part.ids + {s.entries[i].tracked.id} else part.ids)
  {
    hide ReapedRow, ReapedIds, Reaped;
    OnlyOneMore(s, done, i);
    OneMoreReaped(Only(s, done).entries, i, s.entries[i], polling, incomplete);
  }

  lemma OnlyOneMore(s: State, done: set<Identity>, i: Identity)
    requires i in s.entries && i !in done
    ensures i !in Only(s, done).entries && Only(s, done + {i}).entries == Only(s, done).entries[i := s.entries[i]]
  {
  }

  lemma OneMoreReaped(entries: Entries, i: Identity, entry: Entry, polling: bool, incomplete: bool)
    requires i !in entries
    ensures ReapedIds(entries[i := entry], polling, incomplete)
            == ReapedIds(entries, polling, incomplete) + if Reaped(entry.tracked, polling, incomplete) then {entry.tracked.id} else {}
  {
    hide Reaped;
    var more := entries[i := entry];
    forall id | id in ReapedIds(entries, polling, incomplete) ensures id in ReapedIds(more, polling, incomplete) {
      var j :| j in entries && Reaped(entries[j].tracked, polling, incomplete) && entries[j].tracked.id == id;
      assert j in more && more[j] == entries[j];
    }
    assert i in more && more[i] == entry;
  }

  class ConnectionTracker {
    const store: HistoryStore
    var connections: map<Identity, Tracked>
    var index: Index
    var keyOf: map<Identity, Key>

    /** The three maps agree. */
    ghost predicate Valid()
      reads this
    {
      connections.Keys == keyOf.Keys && Agrees(index, keyOf)
    }

    /** The one table the three maps stand for. */
    ghost function Abs(): State
      reads this, store
      requires Valid()
    {
      State(EntriesOf(connections, keyOf), store.Contents())
    }

    constructor (store: HistoryStore)
      ensures this.store == store && Valid() && Abs() == State(map[], store.Contents())
    {
      this.store := store;
      connections, index, keyOf := map[], map[], map[];
    }

    /** The scan of one bucket finds exactly the only tracked connection under the key. */
    method UniqueActiveMatch(key: Key) returns (found: Option<Identity>)
      requires Valid()
      ensures found == UniqueMatch(Abs().entries, key)
    {
      hide NoRepeats;
      found := None;
      var bucket := Bucket(index, key);
      ghost var entries := Abs().entries;
      var n := 0;
      while n < |bucket|
        invariant 0 <= n <= |bucket|
        invariant found.None? ==> n == 0
        invariant found.Some? ==> n > 0 && forall k | 0 <= k < n :: bucket[k] == found.value
      {
        var i := bucket[n];
        assert i in bucket;
        assert i in connections;
        if found.Some? && found.value != i {
          var other := found.value;
          assert other == bucket[0] && other in bucket;
          assert other in entries && entries[other].key == key && i in entries && entries[i].key == key;
          assert forall x :: !OnlyMatch(entries, key, x);
          return None;
        }
        found := Some(i);
        n := n + 1;
      }
      if found.Some? {
        assert found.value == bucket[0] && found.value in bucket;
        assert OnlyMatch(entries, key, found.value) by {
          forall j | j in entries && entries[j].key == key ensures j == found.value { assert j in bucket; }
        }
        MatchIs(entries, key, found.value);
      } else {
        assert forall x | x in entries && entries[x].key == key :: x in bucket;
      }
    }

    /** Erases the pairs of an identity from its bucket. */
    method RemoveCorrelationIdentity(identity: Identity)
      requires Agrees(index, keyOf)
      modifies this`index, this`keyOf
      ensures Agrees(index, keyOf) && keyOf == old(keyOf) - {identity}
    {
      hide Agrees, NoRepeats;
      if identity !in keyOf {
        return;
      }
      var key := keyOf[identity];
      var bucket := Bucket(index, key);
      var kept := EraseFrom(bucket, identity);
      RemovedAgrees(index, keyOf, identity);
      index := index[key := kept];
      keyOf := keyOf - {identity};
    }

    /** Moves a connection, its pair in the multimap and its reverse entry to another identity. */
    method RekeyIdentity(previous: Identity, canonical: Identity) returns (ok: bool)
      requires Valid()
      modifies this
      ensures Valid()
      ensures ok <==> previous == canonical || (previous in old(connections) && canonical !in old(connections))
      ensures Abs() == if ok && previous != canonical
                       then old(Abs()).(entries := Renamed(old(Abs()).entries, previous, canonical)) else old(Abs())
    {
      hide Agrees, NoRepeats;
      if previous == canonical {
        return true;
      }
      if canonical in connections || previous !in connections {
        return false;
      }
      ghost var before := Abs();
      connections := (connections - {previous})[canonical := connections[previous]];
      var key := keyOf[previous];
      var bucket := Bucket(index, key);
      var renamed := RenameIn(bucket, previous, canonical);
      RenamedAgrees(index, keyOf, previous, canonical);
      index := index[key := renamed];
      keyOf := (keyOf - {previous})[canonical := key];
      assert Abs().entries == Renamed(before.entries, previous, canonical);
      ok := true;
    }

    /** Stores the cookie and then re-keys. A target identity that is taken makes the re-key fail after the
        cookie is stored; the callers pass one that is free. */
    method PromoteSocketCookieIdentity(previous: Identity, canonical: Identity, cookie: nat) returns (ok: bool)
      requires Valid()
      modifies this, store
      ensures Valid()
      ensures var s := old(Abs());
              var writes := previous in s.entries && s.store.TakesCookie(s.entries[previous].tracked.id);
              var stored := if writes then s.store.SetCookie(s.entries[previous].tracked.id, cookie) else s.store;
              && (ok <==> writes && (previous == canonical || canonical !in s.entries))
              && Abs() == State(if ok && previous != canonical then Renamed(s.entries, previous, canonical) else s.entries, stored)
    {
      hide Agrees, EntriesOf;
      KeysOfEntries();
      if previous !in connections {
        return false;
      }
      ok := store.UpdateSocketCookie(connections[previous].id, cookie);
      if !ok {
        return;
      }
      ok := RekeyIdentity(previous, canonical);
    }

    /** Re-keys a correlated connection to the identity an observation names. */
    method AdoptIdentity(target: Identity, identity: Identity, cookie: Option<nat>) returns (at: Identity)
      requires Valid() && target in connections && (target != identity ==> identity !in connections)
      modifies this, store
      ensures Valid() && (Abs(), at) == Adopt(old(Abs()), target, identity, cookie)
    {
      hide Agrees;
      at := target;
      if target != identity {
        var promoted;
        if cookie.Some? && ValidCookie(cookie.value) {
          promoted := PromoteSocketCookieIdentity(target, identity, cookie.value);
        } else {
          promoted := RekeyIdentity(target, identity);
        }
        if promoted {
          at := identity;
        }
      }
    }

    /** Finds the connection a lifecycle event is about: by identity, by tuple, by reversed tuple. */
    method FindTarget(event: LifecycleEvent, identity: Identity) returns (target: Option<Identity>)
      requires Valid()
      ensures target == EventTarget(Abs().entries, event, identity)
    {
      hide Agrees, UniqueMatch, EventKey;
      if identity in connections {
        return Some(identity);
      }
      if event.local.None? || event.remote.None? {
        return None;
      }
      var correlated := UniqueActiveMatch(EventKey(event, false));
      if correlated.Some? {
        var candidate := connections[correlated.value];
        if event.kind.Close? || SnapshotOwned(candidate.origin) {
          return correlated;
        }
      }
      if event.kind.Close? {
        target := UniqueActiveMatch(EventKey(event, true));
        return;
      }
      target := None;
    }

    /** Forgets a connection: its correlation pair, its reverse entry and the connection itself. */
    method Forget(at: Identity)
      requires Valid() && at in connections
      modifies this
      ensures Valid() && Abs() == old(Abs()).(entries := old(Abs()).entries - {at})
    {
      hide Agrees;
      ghost var before := Abs();
      RemoveCorrelationIdentity(at);
      connections := connections - {at};
      assert Abs().entries == before.entries - {at};
    }

    /** Starts tracking a connection under an identity that is not tracked. */
    method Track(at: Identity, tracked: Tracked, key: Key)
      requires Valid() && at !in connections
      modifies this
      ensures Valid() && Abs() == old(Abs()).(entries := old(Abs()).entries[at := Entry(tracked, key)])
    {
      hide Agrees;
      ghost var before := Abs();
      AddedAgrees(index, keyOf, at, key);
      connections := connections[at := tracked];
      index := index[key := Bucket(index, key) + [at]];
      keyOf := keyOf[at := key];
      assert Abs().entries == before.entries[at := Entry(tracked, key)];
    }

    method SetTracked(at: Identity, tracked: Tracked)
      requires Valid() && at in connections
      modifies this`connections
      ensures Valid()
      ensures Abs() == old(Abs()).(entries := old(Abs()).entries[at := old(Abs()).entries[at].(tracked := tracked)])
    {
      hide Agrees;
      ghost var before := Abs();
      connections := connections[at := tracked];
      assert Abs().entries == before.entries[at := before.entries[at].(tracked := tracked)];
    }

    /** Takes one lifecycle event. */
    method ObserveLifecycle(event: LifecycleEvent, direction: Direction) returns (report: Report)
      requires Valid()
      modifies this, store
      ensures Valid() && (Abs(), report) == LifecycleStep(old(Abs()), event, direction)
    {
      hide Agrees, EventTarget, Adopt, EventIdentity, EntriesOf, EventKey;
      report := Nothing;
      if !event.protocol.Tcp? {
        return;
      }
      var identity := EventIdentity(event);
      if identity.None? {
        return;
      }
      var process := EventProcess(event);
      var target := FindTarget(event, identity.value);
      if event.kind.Close? {
        if target.Some? {
          report := CloseConnection(event, direction, identity.value, target.value);
        }
        return;
      }
      if !event.endpointKind.Connection? {
        return;
      }
      if event.local.None? || event.remote.None? || event.remote.value.port.None? || process.None? {
        return;
      }
      if target.Some? {
        report := EnrichConnection(event, direction, identity.value, target.value, process.value);
      } else {
        report := AdmitLifecycle(event, direction, identity.value, process.value);
      }
    }

    method CloseConnection(event: LifecycleEvent, direction: Direction, identity: Identity, target: Identity)
      returns (report: Report)
      requires Valid() && event.protocol.Tcp? && event.kind.Close? && EventIdentity(event) == Some(identity)
      requires EventTarget(Abs().entries, event, identity) == Some(target)
      modifies this, store
      ensures Valid() && (Abs(), report) == LifecycleStep(old(Abs()), event, direction)
    {
      hide Agrees, EventTarget, Adopt, EventIdentity;
      var at := AdoptIdentity(target, identity, event.cookie);
      var id := connections[at].id;
      store.Touch(id, event.at, Closed);
      store.AddEvent(id, event);
      Forget(at);
      report := Admission(id, false, true, false, Unknown);
    }

    method EnrichConnection(event: LifecycleEvent, direction: Direction, identity: Identity, target: Identity, process: Process)
      returns (report: Report)
      requires Valid() && event.protocol.Tcp? && !event.kind.Close? && EventIdentity(event) == Some(identity)
      requires EventTarget(Abs().entries, event, identity) == Some(target)
      requires event.endpointKind.Connection? && event.local.Some? && event.remote.Some? && event.remote.value.port.Some?
      requires EventProcess(event) == Some(process)
      modifies this, store
      ensures Valid() && (Abs(), report) == LifecycleStep(old(Abs()), event, direction)
    {
      hide Agrees, EventTarget, Adopt, EventIdentity;
      var at := AdoptIdentity(target, identity, event.cookie);
      var tracked := connections[at];
      store.AddEvent(tracked.id, event);
      var promoted := store.PromoteConnectionDirection(tracked.id, direction);
      var origin := if tracked.hasSample then LifecyclePlusSnapshot else LifecycleExact;
      SetTracked(at, tracked.(pid := Some(process.pid), startTicks := process.startTicks, origin := origin));
      report := Admission(tracked.id, false, false, promoted, direction);
    }

    method AdmitLifecycle(event: LifecycleEvent, direction: Direction, identity: Identity, process: Process)
      returns (report: Report)
      requires Valid() && event.protocol.Tcp? && !event.kind.Close? && EventIdentity(event) == Some(identity)
      requires EventTarget(Abs().entries, event, identity).None?
      requires event.endpointKind.Connection? && event.local.Some? && event.remote.Some? && event.remote.value.port.Some?
      requires EventProcess(event) == Some(process)
      modifies this, store
      ensures Valid() && (Abs(), report) == LifecycleStep(old(Abs()), event, direction)
    {
      hide Agrees, UniqueMatch, EventIdentity, EventKey;
      var id := store.BeginConnection(event.cookie.GetOr(0), direction, event.at);
      store.AddEvent(id, event);
      var first := Sample(event.at, event.tcpState.GetOr(0), 0, 0, 0, 0);
      var tracked := Tracked(id, first, NO_SAMPLE, 0, false, false, 0, Some(process.pid), process.startTicks, LifecycleExact);
      Track(identity, tracked, EventKey(event, false));
      report := Admission(id, true, false, false, direction);
    }

    /** Takes a sample of a tracked connection, and stores it if it changed meaningfully. */
    method PersistSample(at: Identity, sample: Sample)
      requires Valid() && at in connections
      modifies this`connections, store
      ensures Valid()
      ensures var tracked := old(connections[at]);
              Abs() == State(old(Abs()).entries[at := old(Abs()).entries[at].(tracked := Sampled(tracked, sample))],
                             SampleStored(old(Abs()).store, tracked, sample))
    {
      hide Agrees, MeaningfulChange;
      var tracked := connections[at];
      if !tracked.hasSample || MeaningfulChange(tracked.lastPersisted, sample, tracked.lastPersistAt) {
        store.AddSample(tracked.id, sample);
        tracked := tracked.(hasSample := true, lastPersisted := sample, lastPersistAt := sample.at);
      }
      tracked := tracked.(lastSeen := sample, present := true);
      store.Touch(tracked.id, sample.at, Active);
      SetTracked(at, tracked);
    }

    /** Re-keys the connection a socket is about to the socket's identity; none when there is no such
        connection, or when tuple and identity name two connections, or when the stored cookie differs. */
    method AdoptSocket(canonical: Identity, matched: Option<Identity>, cookie: nat) returns (at: Option<Identity>)
      requires Valid() && (matched.Some? ==> matched.value in connections)
      modifies this, store
      ensures Valid()
      ensures var s := old(Abs());
              var known := canonical in s.entries;
              && (at.None? <==> if known then matched.Some? && matched.value != canonical
                                else matched.None? || (ValidCookie(cookie) && !s.store.TakesCookie(s.entries[matched.value].tracked.id)))
              && (at.None? ==> Abs() == s)
              && (at.Some? ==> (Abs(), at.value) == Adopt(s, if known then canonical else matched.value,
                                                          if known || ValidCookie(cookie) then canonical else matched.value, Some(cookie)))
    {
      hide Agrees, EntriesOf;
      KeysOfEntries();
      if canonical in connections {
        at := if matched.Some? && matched.value != canonical then None else Some(canonical);
        return;
      }
      if matched.None? {
        return None;
      }
      if ValidCookie(cookie) {
        var to := AdoptIdentity(matched.value, canonical, Some(cookie));
        at := if to == canonical then Some(to) else None;
      } else {
        at := matched;
      }
    }

    /** Takes one socket of a snapshot. `resolved` is what the process resolver answers for it. */
    method ObserveSocket(socket: Socket, direction: Direction, allowNew: bool, origin: Origin, resolved: Option<Process>)
      returns (report: Report)
      requires Valid()
      modifies this, store
      ensures Valid() && (Abs(), report) == SocketStep(old(Abs()), socket, direction, allowNew, origin, resolved)
    {
      hide Agrees, UniqueMatch, Adopt, EntriesOf, SocketKey, SocketIdentity, SampleStored, Sampled, Enriched, ValidCookie;
      KeysOfEntries();
      var canonical := SocketIdentity(socket);
      var key := SocketKey(socket, resolved);
      var matched := UniqueActiveMatch(key);
      var known := canonical in connections;
      var at := AdoptSocket(canonical, matched, socket.cookie);
      KeysOfEntries();
      report := Nothing;
      if at.Some? {
        report := Admission(connections[at.value].id, false, false, false, direction);
        SampleKnown(at.value, socket.sample);
      } else if !known && matched.None? && allowNew && socket.endpointKind.Connection? && resolved.Some? {
        report := AdmitSnapshot(socket, direction, origin, resolved.value, key);
      }
    }

    method SampleKnown(at: Identity, sample: Sample)
      requires Valid() && at in connections
      modifies this`connections, store
      ensures Valid()
      ensures var s := old(Abs());
              var tracked := s.entries[at].tracked;
              var sampled := Sampled(tracked, sample).(origin := Enriched(tracked.origin));
              Abs() == State(s.entries[at := s.entries[at].(tracked := sampled)], SampleStored(s.store, tracked, sample))
    {
      hide Agrees, SampleStored, Sampled;
      var origin := connections[at].origin;
      PersistSample(at, sample);
      SetTracked(at, connections[at].(origin := Enriched(origin)));
    }

    method AdmitSnapshot(socket: Socket, direction: Direction, origin: Origin, process: Process, key: Key)
      returns (report: Report)
      requires Valid() && SocketIdentity(socket) !in connections && UniqueMatch(Abs().entries, key).None?
      requires socket.endpointKind.Connection? && key == SocketKey(socket, Some(process))
      modifies this, store
      ensures Valid() && (Abs(), report) == SocketStep(old(Abs()), socket, direction, true, origin, Some(process))
    {
      hide Agrees, UniqueMatch, SocketKey, SocketIdentity;
      var sample := socket.sample;
      var id := store.BeginConnection(socket.cookie, direction, sample.at);
      var tracked := Tracked(id, sample, sample, sample.at, true, true, 0, Some(process.pid), process.startTicks, origin);
      store.AddSample(id, sample);
      if origin.SnapshotPreexisting? {
        store.Touch(id, sample.at, Preexisting);
      } else if origin.SnapshotReconciled? {
        store.Touch(id, sample.at, ReconciledAfterLoss);
      }
      Track(SocketIdentity(socket), tracked, key);
      report := Admission(id, true, false, false, direction);
    }

    /** Clears every presence mark. */
    method BeginSnapshot()
      requires Valid()
      modifies this`connections
      ensures Valid() && Abs() == BeginStep(old(Abs()))
    {
      hide Agrees;
      var left := connections.Keys;
      while left != {}
        invariant left <= connections.Keys == old(connections.Keys)
        invariant forall i | i in connections ::
            connections[i] == if i in left then old(connections[i]) else old(connections[i]).(present := false)
        decreases left
      {
        var i :| i in left;
        connections := connections[i := connections[i].(present := false)];
        left := left - {i};
      }
      assert Abs().entries == BeginStep(old(Abs())).entries;
    }

    /** Counts the misses of one connection, and gives it up when they are too many. */
    method Reconcile(i: Identity, polling: bool, incomplete: bool) returns (reaped: bool)
      requires Valid() && i in connections
      modifies this, store
      ensures Valid() && reaped == Reaped(old(connections[i]), polling, incomplete)
      ensures Abs() == OneReconciled(old(Abs()), i, polling, incomplete)
    {
      hide Agrees;
      var tracked := connections[i];
      if tracked.present {
        SetTracked(i, tracked.(misses := 0));
        return false;
      }
      tracked := tracked.(misses := tracked.misses + 1);
      SetTracked(i, tracked);
      if polling || ((SnapshotOwned(tracked.origin) || incomplete) && tracked.misses >= MISS_LIMIT) {
        store.Touch(tracked.id, tracked.lastSeen.at, AbsentState(polling, incomplete));
        Forget(i);
        reaped := true;
      } else {
        reaped := false;
      }
    }

    /** Gives up the connections that stayed absent, one after the other. */
    method EndSnapshot(polling: bool, incomplete: bool) returns (inactive: seq<nat>)
      requires Valid() && IdsDistinct(Abs().entries)
      modifies this, store
      ensures Valid() && (Abs(), Inactive(Ids(inactive))) == EndStep(old(Abs()), polling, incomplete)
      ensures NoRepeats(inactive)
    {
      hide Agrees, EntriesOf, OneReconciled, EndStep, IdsDistinct, Partly, NoRepeats;
      inactive := [];
      var left := connections.Keys;
      ghost var s := Abs();
      ghost var done: set<Identity> := {};
      KeysOfEntries();
      NothingReconciled(s, polling, incomplete);
      NoIds();
      while left != {}
        invariant Valid() && left !! done && left + done == s.entries.Keys
        invariant (Abs(), Inactive(Ids(inactive))) == Partly(s, done, polling, incomplete)
        invariant NoRepeats(inactive)
        decreases left
      {
        var i :| i in left;
        StillTracked(s, done, i, polling, incomplete);
        KeysOfEntries();
        var id := connections[i].id;
        NextReconciled(s, done, i, polling, incomplete);
        var reaped := Reconcile(i, polling, incomplete);
        if reaped {
          NotYetInactive(s, done, i, polling, incomplete);
          OneMoreId(inactive, id);
          inactive := inactive + [id];
        }
        left := left - {i};
        done := done + {i};
      }
      AllReconciled(s, done, polling, incomplete);
    }

    /** Any observation, as the session feeds them: what holds of every run of the model holds of the tracker. */
    method Perform(input: Input) returns (report: Report)
      requires Valid() && Inv(Abs())
      modifies this, store
      ensures Valid() && Inv(Abs()) && (Abs(), report) == Step(old(Abs()), input)
    {
      hide Agrees, EntriesOf, Effects, LifecycleStep, SocketStep, BeginStep, EndStep, IdsDistinct, IdsStored, CookiesStored,
           SamplesLinked;
      StepEffects(Abs(), input);
      match input {
        case Lifecycle(event, direction) =>
          report := ObserveLifecycle(event, direction);
        case Snapshot(socket, direction, allowNew, origin, resolved) =>
          report := ObserveSocket(socket, direction, allowNew, origin, resolved);
        case BeginSnapshot =>
          BeginSnapshot();
          report := Nothing;
        case EndSnapshot(polling, incomplete) =>
          var inactive := EndSnapshot(polling, incomplete);
          report := Inactive(Ids(inactive));
      }
    }

    lemma KeysOfEntries()
      requires Valid()
      ensures Abs().entries.Keys == connections.Keys
      ensures forall i | i in connections :: Abs().entries[i].tracked == connections[i]
    {
    }
  }
}
