/** The inbound trust verdict over the TLS evidence attached to a connection. The hash functions are
    parameters: `sha` of a text and `digest` of one piece of evidence. */
module InboundTrust {
  import opened Base
  import opened Decimal
  import opened Lists
  import opened TlsSessions

  datatype Context = Context(
    observed: bool, exact: bool, ambiguous: bool, certificatePresent: bool, verificationRequired: bool,
    verifyResult: Option<int>, authenticated: bool, spki: string, subject: string, issuer: string, evidenceHash: string)

  const NO_CONTEXT: Context := Context(false, false, false, false, false, None, false, "", "", "", "")

  datatype Rules = Rules(
    enabled: bool, requireExact: bool, requireCertificate: bool, requireAuthentication: bool,
    failureSuspicious: bool, compareSpki: bool, compareIssuer: bool, version: string, hash: string)

  datatype Accepted = Accepted(spki: string, issuer: string, sha256: string)

  datatype Metrics = Metrics(rtt: nat, rttVariance: nat, retransmissions: nat)

  datatype Trust = Stable | Changed | Suspicious | Unverified

  datatype Verdict = Verdict(
    trust: Trust, hypothesis: string, rulesVersion: string, rulesHash: string, baselineHash: string, inputHash: string)

  // ---------- The evidence ----------

  predicate Relevant(e: Evidence) {
    e.observation.role.Server? && (e.relation.InboundTlsSession? || e.relation.InboundClientIdentity?)
  }

  predicate IsExact(e: Evidence) { Relevant(e) && e.observation.fidelity.Exact? && e.fidelity.Exact? }

  function Joined(hashes: seq<string>): string {
    if hashes == [] then ""
    else
      var front := Joined(hashes[..|hashes| - 1]);
      (if front != "" then front + "|" else front) + hashes[|hashes| - 1]
  }

  function SetHash(evidence: seq<Evidence>, digest: Evidence -> string, sha: string -> string): string {
    if evidence == [] then "" else sha(Joined(Sorted(Map(evidence, digest))))
  }

  function ContextOf(evidence: seq<Evidence>, digest: Evidence -> string, sha: string -> string): Context {
    var relevant, exact := Filter(evidence, Relevant), Filter(evidence, IsExact);
    if |exact| == 1 then
      var o := exact[0].observation;
      Context(true, true, false, o.certificatePresent, o.verificationRequired, o.verifyResult, o.authenticated,
              o.spki, o.subject, o.issuer, digest(exact[0]))
    else
      NO_CONTEXT.(observed := relevant != [], ambiguous := |exact| > 1,
                  evidenceHash := SetHash(if exact == [] then relevant else exact, digest, sha))
  }

  /** The loop that collects the hashes, sorts them and joins them. */
  method EvidenceSetHash(evidence: seq<Evidence>, digest: Evidence -> string, sha: string -> string) returns (r: string)
    ensures r == SetHash(evidence, digest, sha)
  {
    if evidence == [] {
      return "";
    }
    var hashes := [];
    var n := 0;
    while n < |evidence|
      invariant 0 <= n <= |evidence| && hashes == Map(evidence[..n], digest)
    {
      assert evidence[..n + 1] == evidence[..n] + [evidence[n]];
      hashes := hashes + [digest(evidence[n])];
      n := n + 1;
    }
    assert evidence[..n] == evidence;
    hashes := Sorted(hashes);
    var material := "";
    n := 0;
    while n < |hashes|
      invariant 0 <= n <= |hashes| && material == Joined(hashes[..n])
    {
      assert hashes[..n + 1][..n] == hashes[..n];
      if material != "" {
        material := material + "|";
      }
      material := material + hashes[n];
      n := n + 1;
    }
    assert hashes[..n] == hashes;
    r := sha(material);
  }

  /** The loop that picks the inbound evidence and the exact part of it. */
  method InboundTrustContext(evidence: seq<Evidence>, digest: Evidence -> string, sha: string -> string) returns (r: Context)
    ensures r == ContextOf(evidence, digest, sha)
  {
    var relevant: seq<Evidence>, exact: seq<Evidence> := [], [];
    var n := 0;
    while n < |evidence|
      invariant 0 <= n <= |evidence|
      invariant relevant == Filter(evidence[..n], Relevant) && exact == Filter(evidence[..n], IsExact)
    {
      var item := evidence[n];
      assert evidence[..n + 1] == evidence[..n] + [item];
      FilterAppend(evidence[..n], item, Relevant);
      FilterAppend(evidence[..n], item, IsExact);
      if Relevant(item) {
        relevant := relevant + [item];
        if item.observation.fidelity.Exact? && item.fidelity.Exact? {
          exact := exact + [item];
        }
      }
      n := n + 1;
    }
    assert evidence[..n] == evidence;
    r := NO_CONTEXT.(observed := relevant != []);
    if exact == [] {
      var hash := EvidenceSetHash(relevant, digest, sha);
      return r.(evidenceHash := hash);
    }
    ExactIsRelevant(evidence);
    if |exact| != 1 {
      var hash := EvidenceSetHash(exact, digest, sha);
      return r.(ambiguous := true, evidenceHash := hash);
    }
    var o := exact[0].observation;
    r := Context(r.observed, true, false, o.certificatePresent, o.verificationRequired, o.verifyResult, o.authenticated,
                 o.spki, o.subject, o.issuer, digest(exact[0]));
  }

  lemma {:induction false} ExactIsRelevant(evidence: seq<Evidence>)
    ensures Filter(evidence, IsExact) != [] ==> Filter(evidence, Relevant) != []
  {
    if evidence != [] {
      ExactIsRelevant(evidence[1..]);
    }
  }

  // ---------- The verdict ----------

  function TrustOf(accepted: Option<Accepted>, c: Context, rules: Rules): (Trust, string) {
    if !rules.enabled then (Unverified, "INBOUND_TRUST_POLICY_UNAVAILABLE")
    else if c.ambiguous then (Unverified, "INBOUND_CLIENT_IDENTITY_AMBIGUOUS")
    else if !c.observed then (Unverified, "INBOUND_TLS_EVIDENCE_UNAVAILABLE")
    else if rules.requireExact && !c.exact then (Unverified, "INBOUND_TLS_EVIDENCE_NOT_EXACT")
    else if rules.requireCertificate && !c.certificatePresent then (Unverified, "INBOUND_CLIENT_CERTIFICATE_ABSENT")
    else if rules.failureSuspicious && c.verificationRequired && c.verifyResult.Some? && c.verifyResult.value != 0
    then (Suspicious, "INBOUND_CLIENT_CERTIFICATE_VERIFICATION_FAILURE")
    else if rules.requireAuthentication && !c.authenticated
    then (Unverified, "INBOUND_CLIENT_CERTIFICATE_NOT_AUTHENTICATED")
    else if c.subject == "" then (Unverified, "INBOUND_CLIENT_PRINCIPAL_UNAVAILABLE")
    else if accepted.None? || accepted.value.spki == "" then (Unverified, "INBOUND_CLIENT_IDENTITY_NOT_ACCEPTED")
    else if (rules.compareSpki && c.spki != accepted.value.spki)
            || (rules.compareIssuer && accepted.value.issuer != "" && c.issuer != accepted.value.issuer)
    then (Changed, "INBOUND_CLIENT_IDENTITY_CHANGE")
    else (Stable, "")
  }

  function BoolText(b: bool): string { if b then "1" else "0" }

  function IntText(n: int): string { if n < 0 then "-" + ToText(-n) else ToText(n) }

  function InputMaterial(accepted: Option<Accepted>, m: Metrics, c: Context, rules: Rules): string {
    "baseline=" + (if accepted.Some? then accepted.value.sha256 else "none")
    + "|rtt=" + ToText(m.rtt) + "|rttvar=" + ToText(m.rttVariance) + "|retrans=" + ToText(m.retransmissions)
    + "|direction=INBOUND" + "|tls_session=" + (if c.evidenceHash == "" then "none" else c.evidenceHash)
    + "|tls_observed=" + BoolText(c.observed) + "|tls_exact=" + BoolText(c.exact)
    + "|tls_ambiguous=" + BoolText(c.ambiguous) + "|peer_cert=" + BoolText(c.certificatePresent)
    + "|verify_required=" + BoolText(c.verificationRequired)
    + "|verify_result=" + (if c.verifyResult.Some? then IntText(c.verifyResult.value) else "none")
    + "|peer_authenticated=" + BoolText(c.authenticated) + "|client_subject=" + c.subject
    + "|client_issuer=" + c.issuer + "|client_spki=" + c.spki + "|rules=" + rules.hash
  }

  function EvaluateInbound(accepted: Option<Accepted>, m: Metrics, c: Context, rules: Rules, sha: string -> string): Verdict {
    var (trust, hypothesis) := TrustOf(accepted, c, rules);
    Verdict(trust, hypothesis, rules.version, rules.hash, if accepted.Some? then accepted.value.sha256 else "",
            sha(InputMaterial(accepted, m, c, rules)))
  }

  /** The verdict of a connection from its evidence. */
  function VerdictOf(accepted: Option<Accepted>, m: Metrics, evidence: seq<Evidence>, rules: Rules,
                     digest: Evidence -> string, sha: string -> string): Verdict
  {
    EvaluateInbound(accepted, m, ContextOf(evidence, digest, sha), rules, sha)
  }

  // ---------- What a verdict means ----------

  lemma SetHashIgnoresOrder(a: seq<Evidence>, b: seq<Evidence>, digest: Evidence -> string, sha: string -> string)
    requires SameElements(a, b)
    ensures SetHash(a, digest, sha) == SetHash(b, digest, sha)
  {
    hide SameElements, Sorted, Joined;
    SameLength(a, b);
    MapSame(a, b, digest);
    SortedSame(Map(a, digest), Map(b, digest));
  }

  /** Neither the verdict nor its input hash depends on the order of the evidence. */
  lemma VerdictIgnoresOrder(accepted: Option<Accepted>, m: Metrics, a: seq<Evidence>, b: seq<Evidence>, rules: Rules,
                            digest: Evidence -> string, sha: string -> string)
    requires SameElements(a, b)
    ensures ContextOf(a, digest, sha) == ContextOf(b, digest, sha)
    ensures VerdictOf(accepted, m, a, rules, digest, sha) == VerdictOf(accepted, m, b, rules, digest, sha)
  {
    hide SameElements, Filter, EvaluateInbound, SetHash;
    var relevantA, relevantB := Filter(a, Relevant), Filter(b, Relevant);
    var exactA, exactB := Filter(a, IsExact), Filter(b, IsExact);
    FilterSame(a, b, Relevant);
    FilterSame(a, b, IsExact);
    SameLength(relevantA, relevantB);
    SameLength(exactA, exactB);
    SetHashIgnoresOrder(relevantA, relevantB, digest, sha);
    SetHashIgnoresOrder(exactA, exactB, digest, sha);
    if |exactA| == 1 {
      SameSingle(exactA, exactB);
    }
  }

  /** A session of the other side, or one attached as an outbound one, has no part in the verdict. */
  lemma OtherEvidenceIsIgnored(accepted: Option<Accepted>, m: Metrics, evidence: seq<Evidence>, e: Evidence, rules: Rules,
                               digest: Evidence -> string, sha: string -> string)
    requires !e.observation.role.Server? || e.relation in {UnknownRelation, OutboundTlsSession, OutboundServerIdentity}
    ensures VerdictOf(accepted, m, evidence + [e], rules, digest, sha) == VerdictOf(accepted, m, evidence, rules, digest, sha)
  {
    hide Filter, EvaluateInbound, SetHash;
    FilterAppend(evidence, e, Relevant);
    FilterAppend(evidence, e, IsExact);
    assert Filter(evidence + [e], Relevant) == Filter(evidence, Relevant);
    assert Filter(evidence + [e], IsExact) == Filter(evidence, IsExact);
  }

  /** Of the evidence correlation attaches, the server-side sessions are the relevant ones, and among those the exact
      ones are the exactly observed ones that carry a cookie. */
  lemma CorrelatedEvidenceCounts(o: Observation, connections: seq<Connection>, maxAge: nat)
    requires Correlate(o, connections, maxAge).Matched?
    ensures var e := Correlate(o, connections, maxAge).evidence;
            && (Relevant(e) <==> o.role.Server?)
            && (IsExact(e) <==> o.role.Server? && o.fidelity.Exact? && CarriesCookie(o))
  {
    hide Correlate, CarriesCookie;
    MatchIs(o, connections, maxAge);
  }

  /** The one session a stable verdict rests on. */
  predicate Vouches(o: Observation, accepted: Accepted, rules: Rules) {
    && (rules.requireCertificate ==> o.certificatePresent)
    && (rules.requireAuthentication ==> o.authenticated)
    && (rules.failureSuspicious && o.verificationRequired ==> o.verifyResult.None? || o.verifyResult == Some(0))
    && o.subject != "" && accepted.spki != ""
    && (rules.compareSpki ==> o.spki == accepted.spki)
    && (rules.compareIssuer && accepted.issuer != "" ==> o.issuer == accepted.issuer)
  }

  /** Whatever the rules require, a verdict is stable exactly when one exact server-side session, and no
      other, vouches for the accepted identity. */
  lemma StableIff(accepted: Option<Accepted>, m: Metrics, evidence: seq<Evidence>, rules: Rules,
                  digest: Evidence -> string, sha: string -> string)
    ensures var exact := Filter(evidence, IsExact);
            VerdictOf(accepted, m, evidence, rules, digest, sha).trust.Stable?
            <==> rules.enabled && |exact| == 1 && accepted.Some? && Vouches(exact[0].observation, accepted.value, rules)
  {
    hide Filter, SetHash, InputMaterial;
    var c := ContextOf(evidence, digest, sha);
    assert VerdictOf(accepted, m, evidence, rules, digest, sha).trust == TrustOf(accepted, c, rules).0;
  }

  /** The session had to be verified and was not. */
  predicate FailedVerification(o: Observation) {
    o.verificationRequired && o.verifyResult.Some? && o.verifyResult.value != 0
  }

  /** Whatever the rules require, a verdict is suspicious exactly when the rules say that a failed verification
      is, and the one exact server-side session has the certificate they ask for and failed its verification. */
  lemma SuspiciousIff(accepted: Option<Accepted>, m: Metrics, evidence: seq<Evidence>, rules: Rules,
                      digest: Evidence -> string, sha: string -> string)
    ensures var exact := Filter(evidence, IsExact);
            VerdictOf(accepted, m, evidence, rules, digest, sha).trust.Suspicious?
            <==> && rules.enabled && rules.failureSuspicious && |exact| == 1
                 && (rules.requireCertificate ==> exact[0].observation.certificatePresent)
                 && FailedVerification(exact[0].observation)
  {
    hide Filter, SetHash, InputMaterial;
    var c := ContextOf(evidence, digest, sha);
    assert VerdictOf(accepted, m, evidence, rules, digest, sha).trust == TrustOf(accepted, c, rules).0;
  }

  /** The session shows the key and the issuer that are accepted, as far as the rules compare them. */
  predicate SameIdentity(o: Observation, accepted: Accepted, rules: Rules) {
    && (rules.compareSpki ==> o.spki == accepted.spki)
    && (rules.compareIssuer && accepted.issuer != "" ==> o.issuer == accepted.issuer)
  }

  /** A verdict is changed exactly when the one exact server-side session would vouch for the accepted identity
      if nothing were compared, but what is compared differs. */
  lemma ChangedIff(accepted: Option<Accepted>, m: Metrics, evidence: seq<Evidence>, rules: Rules,
                   digest: Evidence -> string, sha: string -> string)
    ensures var exact := Filter(evidence, IsExact);
            VerdictOf(accepted, m, evidence, rules, digest, sha).trust.Changed?
            <==> && rules.enabled && |exact| == 1 && accepted.Some?
                 && Vouches(exact[0].observation, accepted.value, rules.(compareSpki := false, compareIssuer := false))
                 && !SameIdentity(exact[0].observation, accepted.value, rules)
  {
    hide Filter, SetHash, InputMaterial;
    var c := ContextOf(evidence, digest, sha);
    assert VerdictOf(accepted, m, evidence, rules, digest, sha).trust == TrustOf(accepted, c, rules).0;
  }

  /** The reason a verdict gives. Without an exact session it is that there are several, none, or only inexact
      ones that the rules exclude, or else the first thing the rules ask for, or the principal, that an inexact
      one never shows. With one exact session it is the first thing that session lacks. */
  lemma ReasonIs(accepted: Option<Accepted>, m: Metrics, evidence: seq<Evidence>, rules: Rules,
                 digest: Evidence -> string, sha: string -> string)
    ensures var relevant, exact := Filter(evidence, Relevant), Filter(evidence, IsExact);
            var verdict := VerdictOf(accepted, m, evidence, rules, digest, sha);
            && (verdict.hypothesis == "INBOUND_TRUST_POLICY_UNAVAILABLE" <==> !rules.enabled)
            && (verdict.hypothesis == "INBOUND_CLIENT_IDENTITY_AMBIGUOUS" <==> rules.enabled && |exact| > 1)
            && (verdict.hypothesis == "INBOUND_TLS_EVIDENCE_UNAVAILABLE" <==> rules.enabled && relevant == [])
            && (verdict.hypothesis == "INBOUND_TLS_EVIDENCE_NOT_EXACT"
                <==> rules.enabled && relevant != [] && exact == [] && rules.requireExact)
            && (verdict.hypothesis == "INBOUND_CLIENT_CERTIFICATE_VERIFICATION_FAILURE" <==> verdict.trust.Suspicious?)
            && (verdict.hypothesis == "INBOUND_CLIENT_IDENTITY_CHANGE" <==> verdict.trust.Changed?)
            && (verdict.hypothesis == "" <==> verdict.trust.Stable?)
  {
    hide Filter, SetHash, InputMaterial;
    ExactIsRelevant(evidence);
    var c := ContextOf(evidence, digest, sha);
    var verdict := VerdictOf(accepted, m, evidence, rules, digest, sha);
    assert verdict.trust == TrustOf(accepted, c, rules).0 && verdict.hypothesis == TrustOf(accepted, c, rules).1;
    ReasonsDiffer();
  }

  /** The reasons that name what a session lacks, in the order they are looked for. A session that is not exact
      lacks everything. */
  lemma LackIs(accepted: Option<Accepted>, m: Metrics, evidence: seq<Evidence>, rules: Rules,
               digest: Evidence -> string, sha: string -> string)
    requires rules.enabled && Filter(evidence, Relevant) != [] && |Filter(evidence, IsExact)| <= 1
    requires rules.requireExact ==> |Filter(evidence, IsExact)| == 1
    ensures var exact := Filter(evidence, IsExact);
            var hypothesis := VerdictOf(accepted, m, evidence, rules, digest, sha).hypothesis;
            var certified := exact != [] && exact[0].observation.certificatePresent;
            var authenticated := exact != [] && exact[0].observation.authenticated;
            var named := exact != [] && exact[0].observation.subject != "";
            var failed := rules.failureSuspicious && exact != [] && FailedVerification(exact[0].observation);
            var identified := accepted.Some? && accepted.value.spki != "";
            var certificateMissing := rules.requireCertificate && !certified;
            var authenticationMissing := rules.requireAuthentication && !authenticated;
            && (hypothesis == "INBOUND_CLIENT_CERTIFICATE_ABSENT" <==> certificateMissing)
            && (hypothesis == "INBOUND_CLIENT_CERTIFICATE_NOT_AUTHENTICATED"
                <==> !certificateMissing && !failed && authenticationMissing)
            && (hypothesis == "INBOUND_CLIENT_PRINCIPAL_UNAVAILABLE"
                <==> !certificateMissing && !failed && !authenticationMissing && !named)
            && (hypothesis == "INBOUND_CLIENT_IDENTITY_NOT_ACCEPTED"
                <==> !certificateMissing && !failed && !authenticationMissing && named && !identified)
  {
    hide Filter, SetHash, InputMaterial;
    var c := ContextOf(evidence, digest, sha);
    assert VerdictOf(accepted, m, evidence, rules, digest, sha).hypothesis == TrustOf(accepted, c, rules).1;
    ReasonsDiffer();
  }

  lemma ReasonsDiffer()
    ensures |"INBOUND_TRUST_POLICY_UNAVAILABLE"| == 32 && |"INBOUND_CLIENT_IDENTITY_AMBIGUOUS"| == 33
    ensures |"INBOUND_TLS_EVIDENCE_UNAVAILABLE"| == 32 && |"INBOUND_TLS_EVIDENCE_NOT_EXACT"| == 30
    ensures |"INBOUND_CLIENT_CERTIFICATE_ABSENT"| == 33 && |"INBOUND_CLIENT_CERTIFICATE_NOT_AUTHENTICATED"| == 44
    ensures |"INBOUND_CLIENT_CERTIFICATE_VERIFICATION_FAILURE"| == 47 && |"INBOUND_CLIENT_PRINCIPAL_UNAVAILABLE"| == 36
    ensures |"INBOUND_CLIENT_IDENTITY_NOT_ACCEPTED"| == 36 && |"INBOUND_CLIENT_IDENTITY_CHANGE"| == 30
    ensures "INBOUND_TRUST_POLICY_UNAVAILABLE"[9] != "INBOUND_TLS_EVIDENCE_UNAVAILABLE"[9]
    ensures "INBOUND_CLIENT_IDENTITY_AMBIGUOUS"[15] != "INBOUND_CLIENT_CERTIFICATE_ABSENT"[15]
    ensures "INBOUND_TLS_EVIDENCE_NOT_EXACT"[8] != "INBOUND_CLIENT_IDENTITY_CHANGE"[8]
    ensures "INBOUND_CLIENT_PRINCIPAL_UNAVAILABLE"[15] != "INBOUND_CLIENT_IDENTITY_NOT_ACCEPTED"[15]
  {
  }

  /** The evidence came from correlating its session with this connection, among some connections of its own. */
  ghost predicate CorrelatedWith(e: Evidence, c: Connection, connections: seq<Connection>, maxAge: nat) {
    && c in connections
    && (forall x, y | x in connections && y in connections && x.id == y.id :: x == y)
    && Correlate(e.observation, connections, maxAge) == Matched(c.id, e)
  }

  /** A stable verdict over correlated evidence rests on a session of the same process, on the same socket
      cookie, with the accepted key. */
  lemma StableNamesTheConnection(accepted: Option<Accepted>, m: Metrics, evidence: seq<Evidence>, rules: Rules,
                                 digest: Evidence -> string, sha: string -> string, c: Connection)
    requires VerdictOf(accepted, m, evidence, rules, digest, sha).trust.Stable?
    requires forall e | e in evidence && IsExact(e) :: exists connections, maxAge :: CorrelatedWith(e, c, connections, maxAge)
    ensures exists e :: && e in evidence && IsExact(e) && accepted.Some? && Vouches(e.observation, accepted.value, rules)
                        && c.cookie != 0 && e.observation.cookie == Some(c.cookie) && SameProcess(e.observation, c)
  {
    hide VerdictOf, Filter, Correlate, SameProcess, Vouches;
    StableIff(accepted, m, evidence, rules, digest, sha);
    var e := Filter(evidence, IsExact)[0];
    assert e in Filter(evidence, IsExact);
    var connections, maxAge :| CorrelatedWith(e, c, connections, maxAge);
    ExactMeansSameCookie(e.observation, connections, maxAge, c);
  }
}
