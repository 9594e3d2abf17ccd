/** Correlation of observed TLS sessions with recorded connections. */
module TlsSessions {
  import opened Base
  import opened Lists

  datatype Role = UnknownRole | Client | Server

  datatype Direction = UnknownDirection | Outbound | Inbound

  datatype Fidelity = Exact | StronglyCorrelated | Supporting | Contextual

  datatype Relation =
    | UnknownRelation | OutboundTlsSession | OutboundServerIdentity | InboundTlsSession | InboundClientIdentity

  datatype Process = Process(pid: int, startTicks: Option<nat>)

  datatype Endpoint = Endpoint(address: string, port: nat)

  /** `rest` stands for the texts of the session that only its hash reads. */
  datatype Observation = Observation(
    at: nat, role: Role, process: Process, netns: Option<nat>, cookie: Option<nat>, local: Endpoint, remote: Endpoint,
    certificatePresent: bool, verificationRequired: bool, verifyResult: Option<int>, authenticated: bool,
    spki: string, subject: string, issuer: string, fidelity: Fidelity, rest: string)

  datatype Connection = Connection(
    id: int, firstSeen: nat, lastSeen: nat, direction: Direction, cookie: nat, netns: Option<nat>, process: Process,
    local: Endpoint, remote: Endpoint, lifecycle: string)

  datatype Evidence = Evidence(observation: Observation, relation: Relation, fidelity: Fidelity)

  datatype Kind = NoCandidate | AwaitsIdentity | ByCookie | ByTuple

  datatype Correlation =
    | NoMatch
    | AwaitingIdentity
    | Ambiguous(candidates: nat)
    | Matched(connection: int, evidence: Evidence)

  // ---------- One connection ----------

  predicate ValidCookie(cookie: Option<nat>) { cookie.Some? && cookie.value != 0 && cookie.value != U64_MAX }

  function DirectionFor(role: Role): Direction {
    match role
    case Client => Outbound
    case Server => Inbound
    case UnknownRole => UnknownDirection
  }

  predicate SameProcess(o: Observation, c: Connection) {
    && o.process.pid >= 0 && c.process.pid >= 0 && o.process.pid == c.process.pid
    && (o.process.startTicks.None? || c.process.startTicks.None? || o.process.startTicks == c.process.startTicks)
  }

  predicate SameNamespace(o: Observation, c: Connection) { o.netns.None? || c.netns.None? || o.netns == c.netns }

  predicate SameTuple(o: Observation, c: Connection) { o.local == c.local && o.remote == c.remote }

  predicate WithinTime(o: Observation, c: Connection, maxAge: nat, cookieMatch: bool) {
    && o.at != 0 && c.firstSeen != 0 && o.at >= c.firstSeen
    && !(c.lifecycle == "CLOSED" && c.lastSeen != 0 && o.at > c.lastSeen)
    && (cookieMatch || o.at - c.firstSeen <= maxAge)
  }

  function CandidateKind(o: Observation, c: Connection, maxAge: nat): Kind {
    var direction := DirectionFor(o.role);
    if direction == UnknownDirection || c.direction != direction then NoCandidate
    else if !SameProcess(o, c) || !SameNamespace(o, c) then NoCandidate
    else if ValidCookie(o.cookie) then
      if c.cookie != 0 then
        if o.cookie.value != c.cookie then NoCandidate
        else if WithinTime(o, c, maxAge, true) then ByCookie else NoCandidate
      else if !SameTuple(o, c) then NoCandidate
      else if WithinTime(o, c, maxAge, false) then AwaitsIdentity else NoCandidate
    else if !SameTuple(o, c) then NoCandidate
    else if WithinTime(o, c, maxAge, false) then ByTuple else NoCandidate
  }

  function RelationFor(o: Observation): Relation {
    match o.role
    case Client => if o.certificatePresent then OutboundServerIdentity else OutboundTlsSession
    case Server => if o.certificatePresent then InboundClientIdentity else InboundTlsSession
    case UnknownRole => UnknownRelation
  }

  function CorrelationFidelity(o: Observation, cookieMatch: bool): Fidelity {
    if o.fidelity.Contextual? || o.fidelity.Supporting? then o.fidelity
    else if cookieMatch then Exact else StronglyCorrelated
  }

  // ---------- All connections ----------

  function Candidates(o: Observation, connections: seq<Connection>, maxAge: nat): seq<Connection> {
    Filter(connections, c => CandidateKind(o, c, maxAge).ByCookie? || CandidateKind(o, c, maxAge).ByTuple?)
  }

  function Awaiting(o: Observation, connections: seq<Connection>, maxAge: nat): seq<Connection> {
    Filter(connections, c => CandidateKind(o, c, maxAge).AwaitsIdentity?)
  }

  function EvidenceFor(o: Observation, c: Connection, maxAge: nat): Evidence {
    Evidence(o, RelationFor(o), CorrelationFidelity(o, CandidateKind(o, c, maxAge).ByCookie?))
  }

  /** The correlation by counting: it is matched exactly when there is one candidate. */
  function Correlate(o: Observation, connections: seq<Connection>, maxAge: nat): Correlation {
    var candidates := Candidates(o, connections, maxAge);
    var awaiting := |Awaiting(o, connections, maxAge)|;
    if |candidates| == 1 then Matched(candidates[0].id, EvidenceFor(o, candidates[0], maxAge))
    else if |candidates| > 1 then Ambiguous(|candidates|)
    else if awaiting == 0 then NoMatch
    else if awaiting == 1 then AwaitingIdentity
    else Ambiguous(awaiting)
  }

  /** One pass over the connections, counting and remembering the first candidate. */
  method CorrelateSession(o: Observation, connections: seq<Connection>, maxAge: nat) returns (r: Correlation)
    ensures r == Correlate(o, connections, maxAge)
  {
    hide CandidateKind;
    var first: Option<Connection> := None;
    var byCookie := false;
    var count, awaiting := 0, 0;
    var n := 0;
    while n < |connections|
      invariant 0 <= n <= |connections|
      invariant count == |Candidates(o, connections[..n], maxAge)| && awaiting == |Awaiting(o, connections[..n], maxAge)|
      invariant count > 0 ==> first == Some(Candidates(o, connections[..n], maxAge)[0])
      invariant count > 0 ==> byCookie == CandidateKind(o, Candidates(o, connections[..n], maxAge)[0], maxAge).ByCookie?
      invariant count == 0 ==> first.None?
    {
      var c := connections[n];
      var kind := CandidateKind(o, c, maxAge);
      assert connections[..n + 1] == connections[..n] + [c];
      FilterAppend(connections[..n], c, c => CandidateKind(o, c, maxAge).ByCookie? || CandidateKind(o, c, maxAge).ByTuple?);
      FilterAppend(connections[..n], c, c => CandidateKind(o, c, maxAge).AwaitsIdentity?);
      if kind.AwaitsIdentity? {
        awaiting := awaiting + 1;
      } else if !kind.NoCandidate? {
        count := count + 1;
        if first.None? {
          first, byCookie := Some(c), kind.ByCookie?;
        }
      }
      n := n + 1;
    }
    assert connections[..n] == connections;
    if count == 0 && awaiting != 0 {
      return if awaiting == 1 then AwaitingIdentity else Ambiguous(awaiting);
    }
    if count == 0 {
      return NoMatch;
    }
    if count != 1 || first.None? {
      return Ambiguous(count);
    }
    r := Matched(first.value.id, Evidence(o, RelationFor(o), CorrelationFidelity(o, byCookie)));
  }

  /** The order of the connections does not matter. */
  lemma CorrelationIgnoresOrder(o: Observation, a: seq<Connection>, b: seq<Connection>, maxAge: nat)
    requires SameElements(a, b)
    ensures Correlate(o, a, maxAge) == Correlate(o, b, maxAge)
  {
    hide CandidateKind, SameElements, Filter;
    FilterSame(a, b, c => CandidateKind(o, c, maxAge).ByCookie? || CandidateKind(o, c, maxAge).ByTuple?);
    FilterSame(a, b, c => CandidateKind(o, c, maxAge).AwaitsIdentity?);
    SameLength(Candidates(o, a, maxAge), Candidates(o, b, maxAge));
    SameLength(Awaiting(o, a, maxAge), Awaiting(o, b, maxAge));
    if |Candidates(o, a, maxAge)| == 1 {
      SameSingle(Candidates(o, a, maxAge), Candidates(o, b, maxAge));
    }
  }

  // ---------- What a correlation means ----------

  /** The same process was on the side of the connection that the session's role says, in a namespace that is not
      known to differ. */
  predicate SameSide(o: Observation, c: Connection) {
    && ((o.role.Client? && c.direction.Outbound?) || (o.role.Server? && c.direction.Inbound?))
    && o.process.pid == c.process.pid && c.process.pid >= 0
    && (o.process.startTicks.Some? && c.process.startTicks.Some? ==> o.process.startTicks.value == c.process.startTicks.value)
    && (o.netns.Some? && c.netns.Some? ==> o.netns.value == c.netns.value)
  }

  /** The session was seen while the connection lasted, as far as its end is known. */
  predicate DuringConnection(o: Observation, c: Connection) {
    0 < c.firstSeen <= o.at && (c.lifecycle != "CLOSED" || c.lastSeen == 0 || o.at <= c.lastSeen)
  }

  predicate CarriesCookie(o: Observation) { o.cookie.Some? && o.cookie.value !in {0, U64_MAX} }

  /** The endpoints of the session are those of a connection that is not too old. */
  predicate SameEndpoints(o: Observation, c: Connection, maxAge: nat) {
    && o.local.address == c.local.address && o.local.port == c.local.port
    && o.remote.address == c.remote.address && o.remote.port == c.remote.port
    && o.at <= c.firstSeen + maxAge
  }

  /** The session belongs to the connection: it has the connection's cookie, or has none and its endpoints. */
  predicate BelongsTo(o: Observation, c: Connection, maxAge: nat) {
    && SameSide(o, c) && DuringConnection(o, c)
    && if CarriesCookie(o) then o.cookie.value == c.cookie else SameEndpoints(o, c, maxAge)
  }

  /** It may, once the connection's cookie is known. */
  predicate MayBelongTo(o: Observation, c: Connection, maxAge: nat) {
    SameSide(o, c) && DuringConnection(o, c) && CarriesCookie(o) && c.cookie == 0 && SameEndpoints(o, c, maxAge)
  }

  lemma KindIs(o: Observation, c: Connection, maxAge: nat)
    ensures BelongsTo(o, c, maxAge) <==> CandidateKind(o, c, maxAge).ByCookie? || CandidateKind(o, c, maxAge).ByTuple?
    ensures MayBelongTo(o, c, maxAge) <==> CandidateKind(o, c, maxAge).AwaitsIdentity?
    ensures CandidateKind(o, c, maxAge).ByCookie? <==> BelongsTo(o, c, maxAge) && CarriesCookie(o)
  {
  }

  /** The places of the connections the session belongs to. */
  ghost function Owners(o: Observation, connections: seq<Connection>, maxAge: nat): set<int> {
    set i | 0 <= i < |connections| && BelongsTo(o, connections[i], maxAge)
  }

  ghost function PossibleOwners(o: Observation, connections: seq<Connection>, maxAge: nat): set<int> {
    set i | 0 <= i < |connections| && MayBelongTo(o, connections[i], maxAge)
  }

  /** A session is matched exactly when it belongs to one connection. It is ambiguous exactly when it belongs to
      several, or to none and may belong to several; it waits exactly when it belongs to none and may to one. */
  lemma CorrelatesExactly(o: Observation, connections: seq<Connection>, maxAge: nat)
    ensures var r := Correlate(o, connections, maxAge);
            var owners, possible := |Owners(o, connections, maxAge)|, |PossibleOwners(o, connections, maxAge)|;
            && (r.Matched? <==> owners == 1)
            && (r.AwaitingIdentity? <==> owners == 0 && possible == 1)
            && (r.NoMatch? <==> owners == 0 && possible == 0)
            && (r.Ambiguous? <==> owners > 1 || (owners == 0 && possible > 1))
            && (r.Ambiguous? ==> r.candidates == if owners > 1 then owners else possible)
  {
    hide CandidateKind, BelongsTo, MayBelongTo, Filter;
    OwnersAreCandidates(o, connections, maxAge);
    PossibleAreAwaiting(o, connections, maxAge);
  }

  ghost function PlacesOf<T(!new)>(s: seq<T>, p: T -> bool): set<int> { set i | 0 <= i < |s| && p(s[i]) }

  lemma OwnersAreCandidates(o: Observation, connections: seq<Connection>, maxAge: nat)
    ensures |Owners(o, connections, maxAge)| == |Candidates(o, connections, maxAge)|
  {
    hide CandidateKind, BelongsTo, Filter;
    forall i | 0 <= i < |connections|
      ensures BelongsTo(o, connections[i], maxAge)
              <==> CandidateKind(o, connections[i], maxAge).ByCookie? || CandidateKind(o, connections[i], maxAge).ByTuple?
    {
      KindIs(o, connections[i], maxAge);
    }
    FilterPlaces(connections, c => CandidateKind(o, c, maxAge).ByCookie? || CandidateKind(o, c, maxAge).ByTuple?);
    assert Owners(o, connections, maxAge)
        == PlacesOf(connections, c => CandidateKind(o, c, maxAge).ByCookie? || CandidateKind(o, c, maxAge).ByTuple?);
  }

  lemma PossibleAreAwaiting(o: Observation, connections: seq<Connection>, maxAge: nat)
    ensures |PossibleOwners(o, connections, maxAge)| == |Awaiting(o, connections, maxAge)|
  {
    hide CandidateKind, MayBelongTo, Filter;
    forall i | 0 <= i < |connections|
      ensures MayBelongTo(o, connections[i], maxAge) <==> CandidateKind(o, connections[i], maxAge).AwaitsIdentity?
    {
      KindIs(o, connections[i], maxAge);
    }
    FilterPlaces(connections, c => CandidateKind(o, c, maxAge).AwaitsIdentity?);
    assert PossibleOwners(o, connections, maxAge) == PlacesOf(connections, c => CandidateKind(o, c, maxAge).AwaitsIdentity?);
  }

  /** A filter keeps as many elements as there are places it keeps. */
  lemma {:induction false} FilterPlaces<T(!new)>(s: seq<T>, p: T -> bool)
    ensures |Filter(s, p)| == |PlacesOf(s, p)|
  {
    hide Filter;
    if s == [] {
      FilterNone(s, p);
      assert PlacesOf(s, p) == {};
    } else {
      var n := |s| - 1;
      FilterPlaces(s[..n], p);
      FilterAppend(s[..n], s[n], p);
      assert s == s[..n] + [s[n]];
      LastPlace(s, p);
    }
  }

  lemma LastPlace<T(!new)>(s: seq<T>, p: T -> bool)
    requires s != []
    ensures var n := |s| - 1; PlacesOf(s, p) == PlacesOf(s[..n], p) + (if p(s[n]) then {n} else {})
    ensures |s| - 1 !in PlacesOf(s[..|s| - 1], p)
  {
  }

  /** The evidence of a match is the session itself, attached to the connection it belongs to, as the identity of
      the peer exactly when the peer showed a certificate. It is exact when the cookie decided and strong when the
      endpoints did, except that a supporting or contextual session stays what it is. */
  lemma MatchIs(o: Observation, connections: seq<Connection>, maxAge: nat)
    requires Correlate(o, connections, maxAge).Matched?
    ensures var r := Correlate(o, connections, maxAge);
            && (exists c | c in connections :: BelongsTo(o, c, maxAge) && c.id == r.connection)
            && r.evidence.observation == o
            && (r.evidence.fidelity.Exact? <==> !o.fidelity.Supporting? && !o.fidelity.Contextual? && CarriesCookie(o))
            && (r.evidence.fidelity.StronglyCorrelated?
                <==> !o.fidelity.Supporting? && !o.fidelity.Contextual? && !CarriesCookie(o))
            && (r.evidence.fidelity.Supporting? <==> o.fidelity.Supporting?)
            && (r.evidence.relation.InboundClientIdentity? <==> o.role.Server? && o.certificatePresent)
            && (r.evidence.relation.InboundTlsSession? <==> o.role.Server? && !o.certificatePresent)
            && (r.evidence.relation.OutboundServerIdentity? <==> o.role.Client? && o.certificatePresent)
            && (r.evidence.relation.OutboundTlsSession? <==> o.role.Client? && !o.certificatePresent)
  {
    hide CandidateKind, BelongsTo, Filter;
    var only := Candidates(o, connections, maxAge)[0];
    assert only in Candidates(o, connections, maxAge);
    KindIs(o, only, maxAge);
  }

  /** Evidence that correlates exactly names the cookie of the connection it is attached to. */
  lemma ExactMeansSameCookie(o: Observation, connections: seq<Connection>, maxAge: nat, c: Connection)
    requires var r := Correlate(o, connections, maxAge);
             r.Matched? && r.evidence.fidelity.Exact? && c in connections && c.id == r.connection
    requires forall x, y | x in connections && y in connections && x.id == y.id :: x == y
    ensures c.cookie != 0 && o.cookie == Some(c.cookie) && SameProcess(o, c)
  {
    var only := Candidates(o, connections, maxAge)[0];
    assert only in Candidates(o, connections, maxAge);
    assert only == c;
  }
}
