/** The storage pruner: delete batches of rows in order of sacrifice, sweep orphans, measure again. */
module HistoryMaintenance {
  import opened Base
  import opened PruningModel

  const NORMAL_BATCH: nat := 64
  const PROCESS_BATCH: nat := 128
  const REPORTED_BATCH: nat := 8
  const ANOMALOUS_BATCH: nat := 8

  // ---------- ORDER BY time, id LIMIT n ----------

  predicate Older(times: map<nat, nat>, a: nat, b: nat)
    requires a in times && b in times
  {
    times[a] < times[b] || (times[a] == times[b] && a < b)
  }

  /** The oldest of some rows. */
  method Oldest(times: map<nat, nat>) returns (best: nat)
    requires times != map[]
    ensures best in times && forall b | b in times && b != best :: Older(times, best, b)
  {
    var left := times.Keys;
    best :| best in left;
    left := left - {best};
    while left != {}
      invariant left <= times.Keys && best in times && best !in left
      invariant forall b | b in times && b !in left && b != best :: Older(times, best, b)
      decreases left
    {
      var b :| b in left;
      if Older(times, b, best) {
        best := b;
      }
      left := left - {b, best};
    }
  }

  /** The first `limit` rows in order of age. */
  method OldestBatch(times: map<nat, nat>, limit: nat) returns (batch: set<nat>)
    ensures batch <= times.Keys && |batch| == Min(limit, |times|)
    ensures forall a, b | a in batch && b in times && b !in batch :: Older(times, a, b)
  {
    batch := {};
    while |batch| < limit && times - batch != map[]
      invariant batch <= times.Keys && |batch| <= limit
      invariant forall a, b | a in batch && b in times && b !in batch :: Older(times, a, b)
      decreases limit - |batch|
    {
      var rest := times - batch;
      var best := Oldest(rest);
      forall b | b in times && b !in batch && b != best ensures Older(times, best, b) {
        assert b in rest && Older(rest, best, b);
      }
      batch := batch + {best};
    }
    BatchSize(times, batch, limit);
  }

  lemma BatchSize(times: map<nat, nat>, batch: set<nat>, limit: nat)
    requires batch <= times.Keys && |batch| <= limit && (|batch| == limit || times - batch == map[])
    ensures |batch| == Min(limit, |times|)
  {
    var rest := times.Keys - batch;
    assert times.Keys == batch + rest;
    assert |times.Keys| == |batch| + |rest|;
    if times - batch == map[] {
      assert forall x | x in rest :: x in times - batch;
      assert rest == {};
    }
  }

  // ---------- Batches are in order of sacrifice ----------

  /** The connections of one kind, with their ages. */
  function ConnectionTimes(db: Database, anomalous: bool): map<nat, nat> {
    map c | c in db.connections && Anomalous(db.connections[c]) == anomalous :: Age(db.connections[c])
  }

  function FindingTimes(db: Database, reported: bool): map<nat, nat> {
    map f | f in db.findings && Reported(db.findings[f]) == reported :: db.findings[f].lastSeen
  }

  ghost predicate IsBatch(times: map<nat, nat>, batch: set<nat>) {
    batch <= times.Keys && forall a, b | a in batch && b in times && b !in batch :: Older(times, a, b)
  }

  lemma ConnectionBatchFirst(db: Database, anomalous: bool, batch: set<nat>)
    requires IsBatch(ConnectionTimes(db, anomalous), batch)
    requires anomalous ==> ConnectionTimes(db, false) == map[] && FindingTimes(db, true) == map[]
    ensures SacrificedInOrder(db, WithoutConnections(db, batch))
  {
    var times, db' := ConnectionTimes(db, anomalous), WithoutConnections(db, batch);
    forall a, b | a in Rows(db) && a !in Rows(db') && b in Rows(db') ensures Before(db, a, b) {
      assert a.ConnectionRow? && a.id in batch && a.id in times;
      if b.ConnectionRow? {
        assert b.id in times || b.id in ConnectionTimes(db, !anomalous);
      } else {
        assert b.id in FindingTimes(db, true) || b.id in FindingTimes(db, false);
      }
    }
  }

  lemma FindingBatchFirst(db: Database, reported: bool, batch: set<nat>)
    requires IsBatch(FindingTimes(db, reported), batch)
    requires ConnectionTimes(db, false) == map[]
    requires !reported ==> db.connections == map[] && FindingTimes(db, true) == map[]
    ensures SacrificedInOrder(db, WithoutFindings(db, batch))
  {
    var times, db' := FindingTimes(db, reported), WithoutFindings(db, batch);
    forall a, b | a in Rows(db) && a !in Rows(db') && b in Rows(db') ensures Before(db, a, b) {
      assert a.FindingRow? && a.id in batch && a.id in times;
      if b.FindingRow? {
        assert b.id in times || b.id in FindingTimes(db, !reported);
      } else {
        assert b.id in ConnectionTimes(db, true) || b.id in ConnectionTimes(db, false);
      }
    }
  }

  /** How many rows a round deletes: a batch of the first kind that has any. */
  ghost function RoundSize(db: Database): nat {
    if ConnectionTimes(db, false) != map[] then Min(NORMAL_BATCH, |ConnectionTimes(db, false)|)
    else if FindingTimes(db, true) != map[] then Min(REPORTED_BATCH, |FindingTimes(db, true)|)
    else if ConnectionTimes(db, true) != map[] then Min(ANOMALOUS_BATCH, |ConnectionTimes(db, true)|)
    else Min(1, |FindingTimes(db, false)|)
  }

  lemma ConnectionsGone(db: Database, batch: set<nat>)
    requires batch <= db.connections.Keys
    ensures |Rows(db) - Rows(WithoutConnections(db, batch))| == |batch|
  {
    var gone := set c | c in batch :: ConnectionRow(c);
    assert Rows(db) - Rows(WithoutConnections(db, batch)) == gone;
    ConnectionRowsCount(batch);
  }

  lemma FindingsGone(db: Database, batch: set<nat>)
    requires batch <= db.findings.Keys
    ensures |Rows(db) - Rows(WithoutFindings(db, batch))| == |batch|
  {
    var gone := set f | f in batch :: FindingRow(f);
    assert Rows(db) - Rows(WithoutFindings(db, batch)) == gone;
    FindingRowsCount(batch);
  }

  lemma {:induction false} ConnectionRowsCount(ids: set<nat>)
    ensures |set c | c in ids :: ConnectionRow(c)| == |ids|
    decreases ids
  {
    if ids != {} {
      var id :| id in ids;
      ConnectionRowsCount(ids - {id});
      assert (set c | c in ids :: ConnectionRow(c)) == (set c | c in ids - {id} :: ConnectionRow(c)) + {ConnectionRow(id)};
    }
  }

  lemma {:induction false} FindingRowsCount(ids: set<nat>)
    ensures |set f | f in ids :: FindingRow(f)| == |ids|
    decreases ids
  {
    if ids != {} {
      var id :| id in ids;
      FindingRowsCount(ids - {id});
      assert (set f | f in ids :: FindingRow(f)) == (set f | f in ids - {id} :: FindingRow(f)) + {FindingRow(id)};
    }
  }

  // ---------- The pruner ----------

  class HistoryStore {
    var db: Database
    /** The sizes the file will be found to have, one measurement after the other. */
    const sizes: nat -> nat
    var measured: nat

    method Measure() returns (bytes: nat)
      modifies this`measured
      ensures measured == old(measured) + 1 && bytes == sizes(old(measured))
    {
      bytes := sizes(measured);
      measured := measured + 1;
    }

    /** Deletes the rows nothing refers to any more. */
    method PruneOrphans()
      modifies this`db
      ensures db == Swept(old(db))
    {
      hide ProcessStays, TlsStays, BaselineStays, InstanceStays, SweptPlaces;
      ghost var before := db;
      db := db.(processes := (set p | p in db.processes && ProcessStays(db, p)));
      SameTls(before, db);
      db := db.(tls := (set t | t in db.tls && TlsStays(db, t)));
      SameSuperseded(before, db);
      db := db.(baselines := map b | b in db.baselines && BaselineStays(db, b) :: db.baselines[b]);
      PruneEnvironmentOrphans();
      SameExited(before, db);
      db := db.(instances := map i | i in db.instances && InstanceStays(db, i) :: db.instances[i]);
    }

    /** Deletes environments, then boots, then hosts that nothing refers to. */
    method PruneEnvironmentOrphans()
      modifies this`db
      ensures db == old(db).(places := SweptPlaces(old(db).places))
    {
      hide ReferredTo;
      db := db.(places := db.places.(environments := ReferredTo(db.places.environments, db.places.links)));
      db := db.(places := db.places.(boots := ReferredTo(db.places.boots, db.places.environments)));
      var boots := db.places.boots;
      db := db.(places := db.places.(hosts := (set h | h in db.places.hosts && exists b | b in boots :: Refers(boots, b, h))));
    }

    /** Deletes the oldest connections of one kind, with their verdicts and TLS links. */
    method DeleteConnections(anomalous: bool, limit: nat, ghost start: Database) returns (removed: nat)
      requires limit > 0 && Faithful(start, db)
      requires anomalous ==> ConnectionTimes(db, false) == map[] && FindingTimes(db, true) == map[]
      modifies this`db
      ensures Faithful(start, db) && Rows(db) <= Rows(old(db))
      ensures if removed == 0 then db == old(db) && ConnectionTimes(db, anomalous) == map[] else Rows(db) != Rows(old(db))
      ensures removed == |Rows(old(db)) - Rows(db)| == Min(limit, |ConnectionTimes(old(db), anomalous)|)
    {
      hide Faithful, SacrificedInOrder, Anomalous, Rows, Older;
      var times := ConnectionTimes(db, anomalous);
      var batch := OldestBatch(times, limit);
      ConnectionBatchFirst(db, anomalous, batch);
      ConnectionsFaithful(start, db, batch);
      ConnectionsFewer(db, batch);
      ConnectionsGone(db, batch);
      NoBatch(times, batch, limit);
      NothingWithout(db);
      db := WithoutConnections(db, batch);
      removed := |batch|;
    }

    /** Deletes the oldest findings, the reported ones or all. */
    method DeleteFindings(reported: bool, limit: nat, ghost start: Database) returns (removed: nat)
      requires limit > 0 && Faithful(start, db) && ConnectionTimes(db, false) == map[]
      requires !reported ==> db.connections == map[] && FindingTimes(db, true) == map[]
      modifies this`db
      ensures Faithful(start, db) && Rows(db) <= Rows(old(db))
      ensures if removed == 0 then db == old(db) && FindingTimes(db, reported) == map[] else Rows(db) != Rows(old(db))
      ensures removed == |Rows(old(db)) - Rows(db)| == Min(limit, |FindingTimes(old(db), reported)|)
    {
      hide Faithful, SacrificedInOrder, Anomalous, Reported, Rows, Older;
      var times := FindingTimes(db, reported);
      var batch := OldestBatch(times, limit);
      FindingBatchFirst(db, reported, batch);
      FindingsFaithful(start, db, batch);
      FindingsFewer(db, batch);
      FindingsGone(db, batch);
      NoBatch(times, batch, limit);
      NothingWithout(db);
      db := WithoutFindings(db, batch);
      removed := |batch|;
    }

    /** Deletes the oldest exited processes no finding refers to. */
    method PruneUnreferencedProcessBatch() returns (removed: nat)
      modifies this`db
      ensures db == old(db).(instances := db.instances)
      ensures var gone := old(db).instances.Keys - db.instances.Keys;
              IsBatch(IdleTimes(old(db)), gone) && removed == |gone| == Min(PROCESS_BATCH, |IdleTimes(old(db))|)
      ensures (forall i | i in old(db).instances :: InstanceStays(old(db), i)) ==> removed == 0 && db == old(db)
    {
      hide InstanceStays;
      var times := IdleTimes(db);
      var batch := OldestBatch(times, PROCESS_BATCH);
      assert db.instances.Keys - (db.instances - batch).Keys == batch;
      assert batch == {} ==> db.instances - batch == db.instances;
      db := db.(instances := db.instances - batch);
      removed := |batch|;
    }

    /** Sweeps the orphans and measures again. */
    method CompactAndMeasure(ghost start: Database) returns (bytes: nat)
      requires Faithful(start, db)
      modifies this`db, this`measured
      ensures Faithful(start, db) && Rows(db) == Rows(old(db)) && forall i | i in db.instances :: InstanceStays(db, i)
      ensures measured == old(measured) + 1 && bytes == sizes(old(measured))
    {
      hide Faithful, Rows, InstanceStays, ReferencesKept;
      SweepFaithful(start, db);
      SweptReferences(db);
      SweptInstancesStay(db);
      PruneOrphans();
      bytes := Measure();
    }

    /** One round: the first kind of rows in order of sacrifice that has any loses its oldest batch. */
    method PruneRound(ghost start: Database) returns (removed: nat)
      requires Faithful(start, db) && forall i | i in db.instances :: InstanceStays(db, i)
      modifies this`db
      ensures Faithful(start, db)
      ensures if removed == 0 then db == old(db) && Rows(db) == {} else Rows(db) < Rows(old(db))
      ensures removed == |Rows(old(db)) - Rows(db)| == RoundSize(old(db))
    {
      hide Faithful, Rows, InstanceStays, ConnectionTimes, FindingTimes;
      removed := DeleteConnections(false, NORMAL_BATCH, start);
      if removed == 0 {
        removed := PruneUnreferencedProcessBatch();
      }
      if removed == 0 {
        removed := DeleteFindings(true, REPORTED_BATCH, start);
      }
      if removed == 0 {
        removed := DeleteConnections(true, ANOMALOUS_BATCH, start);
        if removed == 0 {
          NoConnections(db);
        }
      }
      if removed == 0 {
        removed := DeleteFindings(false, 1, start);
        if removed == 0 {
          NoRows(db);
        }
      }
    }

    /** Prunes until the size is within nine tenths of the cap or nothing is left to sacrifice. */
    method PruneToBudget(maxBytes: nat) returns (ok: bool)
      requires Owned(db)
      modifies this`db, this`measured
      ensures Faithful(old(db), db)
      ensures ok && maxBytes > 0 ==> measured > old(measured) && sizes(measured - 1) <= maxBytes
      ensures !ok ==> measured > old(measured) && sizes(measured - 1) > maxBytes && Rows(db) == {}
      ensures forall k | old(measured) <= k < measured - 1 :: sizes(k) > maxBytes - maxBytes / 10
    {
      hide Faithful, Rows, InstanceStays;
      ghost var start := db;
      FaithfulFromStart(db);
      if maxBytes == 0 {
        return true;
      }
      var bytes := Measure();
      if bytes <= maxBytes {
        return true;
      }
      var target := maxBytes - maxBytes / 10;
      bytes := Measure();
      if bytes <= target {
        return true;
      }
      bytes := PruneTo(target, start);
      ok := bytes <= maxBytes;
    }

    method PruneTo(target: nat, ghost start: Database) returns (bytes: nat)
      requires Faithful(start, db)
      modifies this`db, this`measured
      ensures Faithful(start, db) && measured > old(measured) && bytes == sizes(measured - 1)
      ensures bytes > target ==> Rows(db) == {}
      ensures forall k | old(measured) <= k < measured - 1 :: sizes(k) > target
    {
      hide Faithful, Rows, InstanceStays, RoundSize;
      bytes := CompactAndMeasure(start);
      while bytes > target
        invariant Faithful(start, db) && forall i | i in db.instances :: InstanceStays(db, i)
        invariant measured > old(measured) && bytes == sizes(measured - 1)
        invariant forall k | old(measured) <= k < measured - 1 :: sizes(k) > target
        decreases Rows(db)
      {
        var removed := PruneRound(start);
        if removed == 0 {
          break;
        }
        bytes := CompactAndMeasure(start);
      }
    }
  }

  /** The exited processes no finding refers to, with the time of their last change. */
  function IdleTimes(db: Database): map<nat, nat> {
    map i | i in db.instances && !InstanceStays(db, i) :: db.instances[i].updatedAt
  }

  lemma SweptInstancesStay(db: Database)
    ensures forall i | i in Swept(db).instances :: InstanceStays(Swept(db), i)
  {
    forall i | i in Swept(db).instances ensures InstanceStays(Swept(db), i) {
      if db.instances[i].exited {
        var f :| f in db.findings && UsesInstance(db, i, f);
        assert UsesInstance(Swept(db), i, f);
      }
    }
  }

  lemma NothingWithout(db: Database)
    ensures WithoutConnections(db, {}) == db && WithoutFindings(db, {}) == db
  {
    assert db.connections - {} == db.connections && db.verdicts - {} == db.verdicts;
    assert db.tlsLinks - {} == db.tlsLinks && db.findings - {} == db.findings && db.places.links - {} == db.places.links;
  }

  lemma NoConnections(db: Database)
    requires ConnectionTimes(db, true) == map[] && ConnectionTimes(db, false) == map[]
    ensures db.connections == map[]
  {
    forall c ensures c !in db.connections {
      assert c !in ConnectionTimes(db, true) && c !in ConnectionTimes(db, false);
    }
  }

  lemma NoRows(db: Database)
    requires db.connections == map[] && FindingTimes(db, true) == map[] && FindingTimes(db, false) == map[]
    ensures Rows(db) == {}
  {
    forall f ensures f !in db.findings {
      assert f !in FindingTimes(db, true) && f !in FindingTimes(db, false);
    }
  }

  lemma SameTls(db: Database, db': Database)
    requires db'.verdicts == db.verdicts && db'.tlsLinks == db.tlsLinks
    ensures forall t :: TlsStays(db', t) == TlsStays(db, t)
  {
    assert forall t, c :: UsesTls(db', t, c) == UsesTls(db, t, c);
  }

  lemma SameSuperseded(db: Database, db': Database)
    requires db'.verdicts == db.verdicts && db'.baselines == db.baselines
    ensures forall b | b in db.baselines :: BaselineStays(db', b) == BaselineStays(db, b)
  {
    assert forall c, h :: Names(db', c, h) == Names(db, c, h);
    assert forall b, newer | b in db.baselines :: SupersededBy(db', b, newer) == SupersededBy(db, b, newer);
  }

  lemma SameExited(db: Database, db': Database)
    requires db'.findings == db.findings && db'.instances == db.instances
    ensures forall i | i in db.instances :: InstanceStays(db', i) == InstanceStays(db, i)
  {
    assert forall i, f :: UsesInstance(db', i, f) == UsesInstance(db, i, f);
  }

  lemma NoBatch(times: map<nat, nat>, batch: set<nat>, limit: nat)
    requires limit > 0 && batch <= times.Keys && |batch| == Min(limit, |times|)
    ensures batch == {} <==> times == map[]
    ensures |batch| == 0 <==> batch == {}
  {
  }

  lemma ConnectionsFewer(db: Database, batch: set<nat>)
    ensures Rows(WithoutConnections(db, batch)) <= Rows(db)
    ensures batch != {} && batch <= db.connections.Keys ==> Rows(WithoutConnections(db, batch)) != Rows(db)
  {
    var db' := WithoutConnections(db, batch);
    if batch != {} && batch <= db.connections.Keys {
      var c :| c in batch;
      assert ConnectionRow(c) in Rows(db) && ConnectionRow(c) !in Rows(db');
    }
  }

  lemma FindingsFewer(db: Database, batch: set<nat>)
    ensures Rows(WithoutFindings(db, batch)) <= Rows(db)
    ensures batch != {} && batch <= db.findings.Keys ==> Rows(WithoutFindings(db, batch)) != Rows(db)
  {
    var db' := WithoutFindings(db, batch);
    if batch != {} && batch <= db.findings.Keys {
      var f :| f in batch;
      assert FindingRow(f) in Rows(db) && FindingRow(f) !in Rows(db');
    }
  }
}
