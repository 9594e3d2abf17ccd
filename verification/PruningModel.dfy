/** The history database as the storage pruner sees it: what is an orphan, which baseline a target has,
    and the order in which rows are sacrificed. */
module PruningModel {
  import opened Base

  datatype Connection = Connection(
    capturedAt: Option<nat>, firstSeen: nat, performance: string, trust: string, process: Option<nat>)

  datatype Verdict = Verdict(baselineHash: string, tls: Option<nat>)

  datatype Baseline = Baseline(host: string, port: nat, createdAt: nat, sha256: string)

  datatype Instance = Instance(exited: bool, updatedAt: nat)

  datatype Finding = Finding(process: nat, reportState: string, lastSeen: nat)

  /** Where connections were seen: links from connections to network environments, those with their boots,
      boots with their hosts, and hosts. */
  datatype Places = Places(links: map<nat, nat>, environments: map<nat, nat>, boots: map<nat, nat>, hosts: set<nat>)

  /** Verdicts and links are keyed by their connection; ids stand for their place in key order. */
  datatype Database = Database(
    connections: map<nat, Connection>, verdicts: map<nat, Verdict>, tlsLinks: map<nat, nat>, tls: set<nat>, places: Places,
    processes: set<nat>, baselines: map<nat, Baseline>, instances: map<nat, Instance>, findings: map<nat, Finding>)

  predicate Anomalous(c: Connection) {
    c.performance == "DEGRADED" || c.performance == "FAILED" || c.trust == "CHANGED" || c.trust == "SUSPICIOUS"
  }

  function Age(c: Connection): nat { c.capturedAt.GetOr(c.firstSeen) }

  predicate Reported(f: Finding) { f.reportState == "REPORTED" }

  // ---------- Deleting ----------

  /** Foreign keys delete the verdict and the links with the connection. */
  function WithoutConnections(db: Database, ids: set<nat>): Database {
    db.(connections := db.connections - ids, verdicts := db.verdicts - ids, tlsLinks := db.tlsLinks - ids,
        places := db.places.(links := db.places.links - ids))
  }

  function WithoutFindings(db: Database, ids: set<nat>): Database { db.(findings := db.findings - ids) }

  predicate UsesProcess(db: Database, p: nat, c: nat) { c in db.connections && db.connections[c].process == Some(p) }

  predicate UsesTls(db: Database, t: nat, c: nat) {
    || (c in db.verdicts && db.verdicts[c].tls == Some(t))
    || (c in db.tlsLinks && db.tlsLinks[c] == t)
  }

  predicate UsesInstance(db: Database, i: nat, f: nat) { f in db.findings && db.findings[f].process == i }

  predicate Names(db: Database, c: nat, b: Baseline) { c in db.verdicts && db.verdicts[c].baselineHash == b.sha256 }

  predicate Later(a: Baseline, i: nat, b: Baseline, j: nat) {
    a.createdAt > b.createdAt || (a.createdAt == b.createdAt && i > j)
  }

  predicate SupersededBy(db: Database, b: nat, newer: nat)
    requires b in db.baselines
  {
    && newer in db.baselines
    && db.baselines[newer].host == db.baselines[b].host && db.baselines[newer].port == db.baselines[b].port
    && Later(db.baselines[newer], newer, db.baselines[b], b)
  }

  predicate ProcessStays(db: Database, p: nat) { exists c | c in db.connections :: UsesProcess(db, p, c) }

  predicate TlsStays(db: Database, t: nat) {
    exists c | c in db.verdicts.Keys + db.tlsLinks.Keys :: UsesTls(db, t, c)
  }

  predicate BaselineStays(db: Database, b: nat)
    requires b in db.baselines
  {
    || (exists c | c in db.verdicts :: Names(db, c, db.baselines[b]))
    || !(exists newer | newer in db.baselines :: SupersededBy(db, b, newer))
  }

  predicate InstanceStays(db: Database, i: nat)
    requires i in db.instances
  {
    !db.instances[i].exited || exists f | f in db.findings :: UsesInstance(db, i, f)
  }

  predicate Refers(table: map<nat, nat>, from: nat, to: nat) { from in table && table[from] == to }

  /** The rows of a table that another table refers to. */
  function ReferredTo(rows: map<nat, nat>, users: map<nat, nat>): map<nat, nat> {
    map r | r in rows && (exists u | u in users :: Refers(users, u, r)) :: rows[r]
  }

  /** Environments without a connection go first, then boots without an environment, then hosts without a boot. */
  function SweptPlaces(p: Places): Places {
    var environments := ReferredTo(p.environments, p.links);
    var boots := ReferredTo(p.boots, environments);
    p.(environments := environments, boots := boots, hosts := (set h | h in p.hosts && exists b | b in boots :: Refers(boots, b, h)))
  }

  /** The database without its orphans. */
  function Swept(db: Database): Database {
    db.(processes := (set p | p in db.processes && ProcessStays(db, p)),
        tls := (set t | t in db.tls && TlsStays(db, t)),
        baselines := map b | b in db.baselines && BaselineStays(db, b) :: db.baselines[b],
        instances := map i | i in db.instances && InstanceStays(db, i) :: db.instances[i],
        places := SweptPlaces(db.places))
  }

  // ---------- The baseline of a target ----------

  predicate IsFor(db: Database, host: string, port: nat, b: nat) {
    b in db.baselines && db.baselines[b].host == host && db.baselines[b].port == port
  }

  /** The row the lookup of a target returns: the latest created, then the largest id. */
  ghost predicate IsBaselineFor(db: Database, host: string, port: nat, b: nat) {
    && IsFor(db, host, port, b)
    && forall other | IsFor(db, host, port, other) && other != b :: Later(db.baselines[b], b, db.baselines[other], other)
  }

  /** A non-empty set of baselines has a latest one. */
  lemma {:induction false} LatestExists(baselines: map<nat, Baseline>, candidates: set<nat>) returns (best: nat)
    requires candidates != {} && candidates <= baselines.Keys
    ensures best in candidates
    ensures forall b | b in candidates && b != best :: Later(baselines[best], best, baselines[b], b)
    decreases candidates
  {
    var b :| b in candidates;
    best := b;
    var rest := candidates - {b};
    assert candidates == rest + {b};
    if rest != {} {
      var other := LatestExists(baselines, rest);
      best := if Later(baselines[other], other, baselines[b], b) then other else b;
    }
  }

  /** Sweeping orphans changes the baseline of no target. */
  lemma SweepKeepsBaselineFor(db: Database, host: string, port: nat, b: nat)
    ensures IsBaselineFor(Swept(db), host, port, b) <==> IsBaselineFor(db, host, port, b)
  {
    if IsBaselineFor(db, host, port, b) {
      assert forall newer :: !SupersededBy(db, b, newer);
      assert BaselineStays(db, b);
    }
    if IsBaselineFor(Swept(db), host, port, b) {
      var all := set x | x in db.baselines && IsFor(db, host, port, x);
      assert b in all;
      var best := LatestExists(db.baselines, all);
      assert forall newer :: SupersededBy(db, best, newer) ==> newer in all;
      assert BaselineStays(db, best);
      assert IsFor(Swept(db), host, port, best);
    }
  }

  // ---------- The order of sacrifice ----------

  datatype Row = ConnectionRow(id: nat) | FindingRow(id: nat)

  function Rows(db: Database): set<Row> {
    (set c | c in db.connections :: ConnectionRow(c)) + (set f | f in db.findings :: FindingRow(f))
  }

  /** Normal connections go first, then reported findings, anomalous connections and unreported findings. */
  function Rank(db: Database, row: Row): nat
    requires row in Rows(db)
  {
    match row
    case ConnectionRow(c) => if Anomalous(db.connections[c]) then 2 else 0
    case FindingRow(f) => if Reported(db.findings[f]) then 1 else 3
  }

  function Time(db: Database, row: Row): nat
    requires row in Rows(db)
  {
    match row
    case ConnectionRow(c) => Age(db.connections[c])
    case FindingRow(f) => db.findings[f].lastSeen
  }

  predicate Before(db: Database, a: Row, b: Row)
    requires a in Rows(db) && b in Rows(db)
  {
    || Rank(db, a) < Rank(db, b)
    || (Rank(db, a) == Rank(db, b)
        && (Time(db, a) < Time(db, b) || (Time(db, a) == Time(db, b) && a.id < b.id)))
  }

  /** Every row that is gone precedes every row that is left. */
  ghost predicate SacrificedInOrder(db: Database, db': Database) {
    && Rows(db') <= Rows(db)
    && forall a, b | a in Rows(db) && a !in Rows(db') && b in Rows(db') :: Before(db, a, b)
  }

  /** The verdict on the connection says that something is wrong. */
  predicate LooksWrong(c: Connection) { c.performance in {"DEGRADED", "FAILED"} || c.trust in {"CHANGED", "SUSPICIOUS"} }

  /** An anomalous connection goes only when no normal connection and no reported finding is left, and an
      unreported finding only when no connection and no reported finding is left. */
  lemma LastResorts(db: Database, db': Database)
    requires SacrificedInOrder(db, db')
    ensures (exists c | c in db.connections && c !in db'.connections :: LooksWrong(db.connections[c]))
            ==> && (forall c | c in db'.connections :: c in db.connections && LooksWrong(db.connections[c]))
                && (forall f | f in db'.findings :: f in db.findings && db.findings[f].reportState != "REPORTED")
    ensures (exists f | f in db.findings && f !in db'.findings :: db.findings[f].reportState != "REPORTED")
            ==> && db'.connections == map[]
                && (forall f | f in db'.findings :: f in db.findings && db.findings[f].reportState != "REPORTED")
  {
    hide Anomalous, Reported, LooksWrong;
    forall c | c in db.connections ensures Anomalous(db.connections[c]) == LooksWrong(db.connections[c]) {
      LooksAnomalous(db.connections[c]);
    }
    forall f | f in db.findings ensures Reported(db.findings[f]) == (db.findings[f].reportState == "REPORTED") {
      LooksReported(db.findings[f]);
    }
    forall c | c in db'.connections ensures c in db.connections { assert ConnectionRow(c) in Rows(db'); }
    forall f | f in db'.findings ensures f in db.findings { assert FindingRow(f) in Rows(db'); }
    forall a, b | a in Rows(db) && a !in Rows(db') && b in Rows(db') ensures Rank(db, a) <= Rank(db, b) {
      assert Before(db, a, b);
    }
    if c :| c in db.connections && c !in db'.connections && Anomalous(db.connections[c]) {
      var gone := ConnectionRow(c);
      assert gone in Rows(db) && gone !in Rows(db') && Rank(db, gone) == 2;
      forall x | x in db'.connections ensures Anomalous(db.connections[x]) { assert ConnectionRow(x) in Rows(db'); }
      forall f | f in db'.findings ensures !Reported(db.findings[f]) { assert FindingRow(f) in Rows(db'); }
    }
    if f :| f in db.findings && f !in db'.findings && !Reported(db.findings[f]) {
      var gone := FindingRow(f);
      assert gone in Rows(db) && gone !in Rows(db') && Rank(db, gone) == 3;
      forall x ensures x !in db'.connections { assert x in db'.connections ==> ConnectionRow(x) in Rows(db'); }
      forall x | x in db'.findings ensures !Reported(db.findings[x]) { assert FindingRow(x) in Rows(db'); }
    }
  }

  lemma LooksAnomalous(c: Connection)
    ensures Anomalous(c) == LooksWrong(c)
  {
  }

  lemma LooksReported(f: Finding)
    ensures Reported(f) == (f.reportState == "REPORTED")
  {
  }

  /** What is left is as it was. */
  ghost predicate Remains(db: Database, db': Database) {
    && (forall c | c in db'.connections :: c in db.connections && db'.connections[c] == db.connections[c])
    && (forall f | f in db'.findings :: f in db.findings && db'.findings[f] == db.findings[f])
    && (forall c | c in db'.connections && c in db.verdicts :: c in db'.verdicts)
    && (forall c | c in db'.verdicts :: c in db'.connections && c in db.verdicts && db'.verdicts[c] == db.verdicts[c])
    && (forall c | c in db'.connections && c in db.tlsLinks :: c in db'.tlsLinks)
    && (forall c | c in db'.tlsLinks :: c in db'.connections && c in db.tlsLinks && db'.tlsLinks[c] == db.tlsLinks[c])
    && (forall c | c in db'.connections && c in db.places.links :: c in db'.places.links)
    && (forall c | c in db'.places.links ::
          c in db'.connections && c in db.places.links && db'.places.links[c] == db.places.links[c])
  }

  /** Every target has the baseline it had, and no baseline a surviving verdict names is gone. */
  ghost predicate BaselinesKept(db: Database, db': Database) {
    && (forall host, port, b :: IsBaselineFor(db', host, port, b) <==> IsBaselineFor(db, host, port, b))
    && (forall b | b in db'.baselines :: b in db.baselines && db'.baselines[b] == db.baselines[b])
    && (forall b, c | b in db.baselines && Names(db', c, db.baselines[b]) :: b in db'.baselines)
  }

  /** Nothing a surviving row refers to is gone. */
  ghost predicate LinksKept(db: Database, db': Database) {
    && (forall t, c | t in db.tls && UsesTls(db', t, c) :: t in db'.tls)
    && (forall p, c | p in db.processes && UsesProcess(db', p, c) :: p in db'.processes)
    && (forall i, f | i in db.instances && UsesInstance(db', i, f) :: i in db'.instances)
    && (forall i | i in db'.instances :: i in db.instances && db'.instances[i] == db.instances[i])
    && (forall i | i in db.instances && !db.instances[i].exited :: i in db'.instances)
  }

  ghost predicate Within(rows: map<nat, nat>, all: map<nat, nat>) {
    forall r | r in rows :: r in all && rows[r] == all[r]
  }

  /** No environment, boot or host that is still referred to is gone. */
  ghost predicate PlacesKept(p: Places, p': Places) {
    && Within(p'.links, p.links) && Within(p'.environments, p.environments) && Within(p'.boots, p.boots) && p'.hosts <= p.hosts
    && (forall c, e | e in p.environments && Refers(p'.links, c, e) :: e in p'.environments)
    && (forall e, b | b in p.boots && Refers(p'.environments, e, b) :: b in p'.boots)
    && (forall b, h | h in p.hosts && Refers(p'.boots, b, h) :: h in p'.hosts)
  }

  ghost predicate ReferencesKept(db: Database, db': Database) {
    BaselinesKept(db, db') && LinksKept(db, db') && PlacesKept(db.places, db'.places)
  }

  /** The pruner has kept its promises since `db`. */
  ghost predicate Faithful(db: Database, db': Database) {
    Remains(db, db') && ReferencesKept(db, db') && SacrificedInOrder(db, db')
  }

  /** Verdicts and links belong to connections, as the foreign keys demand. */
  predicate Owned(db: Database) {
    && db.verdicts.Keys <= db.connections.Keys && db.tlsLinks.Keys <= db.connections.Keys
    && db.places.links.Keys <= db.connections.Keys
  }

  lemma FaithfulFromStart(db: Database)
    requires Owned(db)
    ensures Faithful(db, db)
  {
  }

  lemma SweptReferences(db: Database)
    ensures ReferencesKept(db, Swept(db)) && Rows(Swept(db)) == Rows(db)
  {
    hide BaselinesKept, LinksKept, PlacesKept, SweptPlaces, BaselineStays, InstanceStays, TlsStays, ProcessStays;
    SweptBaselines(db);
    SweptLinks(db);
    SweptPlacesKept(db.places);
  }

  lemma SweptPlacesKept(p: Places)
    ensures PlacesKept(p, SweptPlaces(p))
  {
  }

  /** No row refers to one that was there and is gone: connections to processes, verdicts to TLS observations and
      baselines, links to TLS observations and environments, findings to instances, environments to boots and boots
      to hosts. */
  ghost predicate NothingDangles(db: Database, db': Database) {
    && (forall c | c in db'.connections && db'.connections[c].process.Some? && db'.connections[c].process.value in db.processes ::
          db'.connections[c].process.value in db'.processes)
    && (forall c | c in db'.verdicts && db'.verdicts[c].tls.Some? && db'.verdicts[c].tls.value in db.tls ::
          db'.verdicts[c].tls.value in db'.tls)
    && (forall c, b | c in db'.verdicts && b in db.baselines && db.baselines[b].sha256 == db'.verdicts[c].baselineHash ::
          b in db'.baselines)
    && (forall c | c in db'.tlsLinks && db'.tlsLinks[c] in db.tls :: db'.tlsLinks[c] in db'.tls)
    && (forall f | f in db'.findings && db'.findings[f].process in db.instances :: db'.findings[f].process in db'.instances)
    && (forall c | c in db'.places.links && db'.places.links[c] in db.places.environments ::
          db'.places.links[c] in db'.places.environments)
    && (forall e | e in db'.places.environments && db'.places.environments[e] in db.places.boots ::
          db'.places.environments[e] in db'.places.boots)
    && (forall b | b in db'.places.boots && db'.places.boots[b] in db.places.hosts :: db'.places.boots[b] in db'.places.hosts)
  }

  /** That is what keeping references means. */
  lemma KeptMeansNothingDangles(db: Database, db': Database)
    requires ReferencesKept(db, db')
    ensures NothingDangles(db, db')
  {
    hide IsBaselineFor;
    forall c | c in db'.connections && db'.connections[c].process.Some? && db'.connections[c].process.value in db.processes
      ensures db'.connections[c].process.value in db'.processes
    {
      assert UsesProcess(db', db'.connections[c].process.value, c);
    }
    forall c | c in db'.verdicts && db'.verdicts[c].tls.Some? && db'.verdicts[c].tls.value in db.tls
      ensures db'.verdicts[c].tls.value in db'.tls
    {
      assert UsesTls(db', db'.verdicts[c].tls.value, c);
    }
    forall c, b | c in db'.verdicts && b in db.baselines && db.baselines[b].sha256 == db'.verdicts[c].baselineHash
      ensures b in db'.baselines
    {
      assert Names(db', c, db.baselines[b]);
    }
    forall c | c in db'.tlsLinks && db'.tlsLinks[c] in db.tls ensures db'.tlsLinks[c] in db'.tls {
      assert UsesTls(db', db'.tlsLinks[c], c);
    }
    forall f | f in db'.findings && db'.findings[f].process in db.instances
      ensures db'.findings[f].process in db'.instances
    {
      assert UsesInstance(db', db'.findings[f].process, f);
    }
    PlacesDoNotDangle(db.places, db'.places);
  }

  lemma PlacesDoNotDangle(p: Places, p': Places)
    requires PlacesKept(p, p')
    ensures forall c | c in p'.links && p'.links[c] in p.environments :: p'.links[c] in p'.environments
    ensures forall e | e in p'.environments && p'.environments[e] in p.boots :: p'.environments[e] in p'.boots
    ensures forall b | b in p'.boots && p'.boots[b] in p.hosts :: p'.boots[b] in p'.hosts
  {
    forall c | c in p'.links && p'.links[c] in p.environments ensures p'.links[c] in p'.environments {
      assert Refers(p'.links, c, p'.links[c]);
    }
    forall e | e in p'.environments && p'.environments[e] in p.boots ensures p'.environments[e] in p'.boots {
      assert Refers(p'.environments, e, p'.environments[e]);
    }
    forall b | b in p'.boots && p'.boots[b] in p.hosts ensures p'.boots[b] in p'.hosts {
      assert Refers(p'.boots, b, p'.boots[b]);
    }
  }

  /** Every row has a reason to be: a process has a connection, a TLS observation a verdict or a link, an instance
      runs or has a finding, a baseline is named by a verdict or is the one of its target, and environments, boots
      and hosts are referred to. */
  ghost predicate NoOrphans(db: Database) {
    && (forall p | p in db.processes :: exists c | c in db.connections :: db.connections[c].process == Some(p))
    && (forall t | t in db.tls ::
          || (exists c | c in db.verdicts :: db.verdicts[c].tls == Some(t))
          || (exists c | c in db.tlsLinks :: db.tlsLinks[c] == t))
    && (forall i | i in db.instances && db.instances[i].exited :: exists f | f in db.findings :: db.findings[f].process == i)
    && (forall b | b in db.baselines ::
          || (exists c | c in db.verdicts :: db.verdicts[c].baselineHash == db.baselines[b].sha256)
          || IsBaselineFor(db, db.baselines[b].host, db.baselines[b].port, b))
    && (forall e | e in db.places.environments :: exists c | c in db.places.links :: db.places.links[c] == e)
    && (forall b | b in db.places.boots :: exists e | e in db.places.environments :: db.places.environments[e] == b)
    && (forall h | h in db.places.hosts :: exists b | b in db.places.boots :: db.places.boots[b] == h)
  }

  lemma SweepLeavesNoOrphans(db: Database)
    ensures NoOrphans(Swept(db))
  {
    var db' := Swept(db);
    forall p | p in db'.processes ensures exists c | c in db'.connections :: db'.connections[c].process == Some(p) {
      var c :| c in db.connections && UsesProcess(db, p, c);
      assert c in db'.connections;
    }
    forall t | t in db'.tls
      ensures (exists c | c in db'.verdicts :: db'.verdicts[c].tls == Some(t)) || (exists c | c in db'.tlsLinks :: db'.tlsLinks[c] == t)
    {
      var c :| c in db.verdicts.Keys + db.tlsLinks.Keys && UsesTls(db, t, c);
      assert c in db'.verdicts || c in db'.tlsLinks;
    }
    forall i | i in db'.instances && db'.instances[i].exited ensures exists f | f in db'.findings :: db'.findings[f].process == i {
      var f :| f in db.findings && UsesInstance(db, i, f);
      assert f in db'.findings;
    }
    forall b | b in db'.baselines && !exists c | c in db'.verdicts :: db'.verdicts[c].baselineHash == db'.baselines[b].sha256
      ensures IsBaselineFor(db', db'.baselines[b].host, db'.baselines[b].port, b)
    {
      LatestIsBaseline(db, b);
      SweepKeepsBaselineFor(db, db.baselines[b].host, db.baselines[b].port, b);
    }
    SweptPlacesUsed(db.places);
  }

  lemma LatestIsBaseline(db: Database, b: nat)
    requires b in db.baselines && BaselineStays(db, b)
    requires forall c | c in db.verdicts :: db.verdicts[c].baselineHash != db.baselines[b].sha256
    ensures IsBaselineFor(db, db.baselines[b].host, db.baselines[b].port, b)
  {
    assert forall c :: !Names(db, c, db.baselines[b]);
    forall other | IsFor(db, db.baselines[b].host, db.baselines[b].port, other) && other != b
      ensures Later(db.baselines[b], b, db.baselines[other], other)
    {
      assert !SupersededBy(db, b, other);
    }
  }

  lemma SweptPlacesUsed(p: Places)
    ensures var p' := SweptPlaces(p);
            && (forall e | e in p'.environments :: exists c | c in p'.links :: p'.links[c] == e)
            && (forall b | b in p'.boots :: exists e | e in p'.environments :: p'.environments[e] == b)
            && (forall h | h in p'.hosts :: exists b | b in p'.boots :: p'.boots[b] == h)
  {
  }

  lemma PlacesChain(p: Places, p1: Places, p2: Places)
    requires PlacesKept(p, p1) && PlacesKept(p1, p2)
    ensures PlacesKept(p, p2)
  {
    forall c, e | e in p.environments && Refers(p2.links, c, e) ensures e in p2.environments { assert Refers(p1.links, c, e); }
    forall e, b | b in p.boots && Refers(p2.environments, e, b) ensures b in p2.boots { assert Refers(p1.environments, e, b); }
    forall b, h | h in p.hosts && Refers(p2.boots, b, h) ensures h in p2.hosts { assert Refers(p1.boots, b, h); }
  }

  lemma FewerLinks(p: Places, gone: set<nat>)
    ensures PlacesKept(p, p.(links := p.links - gone)) && PlacesKept(p, p)
  {
  }

  lemma SweptBaselines(db: Database)
    ensures BaselinesKept(db, Swept(db))
  {
    hide BaselineStays, IsBaselineFor, InstanceStays, TlsStays, ProcessStays;
    forall host, port, b ensures IsBaselineFor(Swept(db), host, port, b) <==> IsBaselineFor(db, host, port, b) {
      SweepKeepsBaselineFor(db, host, port, b);
    }
    forall b, c | b in db.baselines && Names(Swept(db), c, db.baselines[b]) ensures BaselineStays(db, b) {
      NamedStays(db, b, c);
    }
  }

  lemma SweptLinks(db: Database)
    ensures LinksKept(db, Swept(db))
  {
    hide BaselineStays, InstanceStays, TlsStays, ProcessStays;
    forall t, c | t in db.tls && UsesTls(Swept(db), t, c) ensures TlsStays(db, t) { UsedTlsStays(db, t, c); }
    forall p, c | p in db.processes && UsesProcess(Swept(db), p, c) ensures ProcessStays(db, p) { UsedProcessStays(db, p, c); }
    forall i, f | i in db.instances && UsesInstance(Swept(db), i, f) ensures InstanceStays(db, i) { UsedInstanceStays(db, i, f); }
    forall i | i in db.instances && !db.instances[i].exited ensures InstanceStays(db, i) { RunningStays(db, i); }
  }

  lemma UsedTlsStays(db: Database, t: nat, c: nat)
    requires UsesTls(db, t, c)
    ensures TlsStays(db, t)
  {
    assert c in db.verdicts.Keys + db.tlsLinks.Keys;
  }

  lemma UsedProcessStays(db: Database, p: nat, c: nat)
    requires UsesProcess(db, p, c)
    ensures ProcessStays(db, p)
  {
  }

  lemma UsedInstanceStays(db: Database, i: nat, f: nat)
    requires i in db.instances && UsesInstance(db, i, f)
    ensures InstanceStays(db, i)
  {
  }

  lemma RunningStays(db: Database, i: nat)
    requires i in db.instances && !db.instances[i].exited
    ensures InstanceStays(db, i)
  {
  }

  lemma NamedStays(db: Database, b: nat, c: nat)
    requires b in db.baselines && Names(db, c, db.baselines[b])
    ensures BaselineStays(db, b)
  {
  }

  /** References are kept step by step, as long as no step makes new ones. */
  lemma ReferencesChain(db: Database, db1: Database, db2: Database)
    requires ReferencesKept(db, db1) && ReferencesKept(db1, db2)
    requires forall c, h: Baseline | Names(db2, c, h) :: Names(db1, c, h)
    requires forall t, c | UsesTls(db2, t, c) :: UsesTls(db1, t, c)
    requires forall p, c | UsesProcess(db2, p, c) :: UsesProcess(db1, p, c)
    requires forall i, f | UsesInstance(db2, i, f) :: UsesInstance(db1, i, f)
    ensures ReferencesKept(db, db2)
  {
    hide IsBaselineFor, Names, UsesTls, UsesProcess, UsesInstance, PlacesKept;
    PlacesChain(db.places, db1.places, db2.places);
  }

  lemma SweepFaithful(db: Database, db1: Database)
    requires Faithful(db, db1)
    ensures Faithful(db, Swept(db1))
  {
    hide ReferencesKept, SacrificedInOrder, Rows, BaselineStays, InstanceStays;
    SweptReferences(db1);
    ReferencesChain(db, db1, Swept(db1));
    SameRowsInOrder(db, db1, Swept(db1));
  }

  lemma SameRowsInOrder(db: Database, db1: Database, db2: Database)
    requires SacrificedInOrder(db, db1) && Rows(db2) == Rows(db1)
    ensures SacrificedInOrder(db, db2)
  {
    hide Rows, Before;
  }

  /** A batch that precedes all rows it leaves keeps the order of sacrifice. */
  lemma BatchInOrder(db: Database, db1: Database, db2: Database)
    requires Remains(db, db1) && SacrificedInOrder(db, db1) && SacrificedInOrder(db1, db2)
    ensures SacrificedInOrder(db, db2)
  {
    hide Rows, Rank, Time, Remains;
    forall a, b | a in Rows(db) && a !in Rows(db2) && b in Rows(db2) ensures Before(db, a, b) {
      if a in Rows(db1) {
        SamePlace(db, db1, a);
        SamePlace(db, db1, b);
        assert Before(db1, a, b);
      } else {
        assert b in Rows(db1);
      }
    }
  }

  lemma SamePlace(db: Database, db1: Database, row: Row)
    requires Remains(db, db1) && row in Rows(db1)
    ensures row in Rows(db) && Rank(db1, row) == Rank(db, row) && Time(db1, row) == Time(db, row)
  {
  }

  lemma ConnectionsFaithful(db: Database, db1: Database, batch: set<nat>)
    requires Faithful(db, db1) && SacrificedInOrder(db1, WithoutConnections(db1, batch))
    ensures Faithful(db, WithoutConnections(db1, batch))
  {
    hide SacrificedInOrder, ReferencesKept, Remains, IsBaselineFor, PlacesKept;
    var db2 := WithoutConnections(db1, batch);
    ConnectionsRemain(db, db1, batch);
    FewerLinks(db1.places, batch);
    SameOwners(db1, db2);
    ReferencesChain(db, db1, db2);
    BatchInOrder(db, db1, db2);
  }

  lemma FindingsFaithful(db: Database, db1: Database, batch: set<nat>)
    requires Faithful(db, db1) && SacrificedInOrder(db1, WithoutFindings(db1, batch))
    ensures Faithful(db, WithoutFindings(db1, batch))
  {
    hide SacrificedInOrder, ReferencesKept, Remains, IsBaselineFor, PlacesKept;
    var db2 := WithoutFindings(db1, batch);
    FindingsRemain(db, db1, batch);
    FewerLinks(db1.places, {});
    SameOwners(db1, db2);
    ReferencesChain(db, db1, db2);
    BatchInOrder(db, db1, db2);
  }

  lemma ConnectionsRemain(db: Database, db1: Database, batch: set<nat>)
    requires Remains(db, db1)
    ensures Remains(db, WithoutConnections(db1, batch))
  {
  }

  lemma FindingsRemain(db: Database, db1: Database, batch: set<nat>)
    requires Remains(db, db1)
    ensures Remains(db, WithoutFindings(db1, batch))
  {
  }

  /** Deleting only what refers to other rows keeps all references. */
  lemma SameOwners(db: Database, db': Database)
    requires db'.baselines == db.baselines && db'.tls == db.tls && db'.processes == db.processes && db'.instances == db.instances
    requires PlacesKept(db.places, db'.places)
    ensures ReferencesKept(db, db')
  {
    hide IsBaselineFor, PlacesKept;
    SameBaselines(db, db');
  }

  lemma SameBaselines(db: Database, db': Database)
    requires db'.baselines == db.baselines
    ensures forall host, port, b :: IsBaselineFor(db', host, port, b) <==> IsBaselineFor(db, host, port, b)
  {
    assert forall host, port, b :: IsFor(db', host, port, b) == IsFor(db, host, port, b);
  }
}
