/**
  What a conclusion of the table cites.

  `Rows` and `Claims` say, for every identity, which rows it rests on and what it holds against
  other readings. A finding cites exactly the most specific fact of each of those rows that
  reported, and exactly those claims that the rows bear out.
 */
module Citations {
  import opened Wrappers
  import opened ProbeRows
  import opened CausalEvidence
  import opened Findings
  import opened Counterfactuals
  import opened Interpretation
  import opened Verdicts
  import opened VerdictRows

  // ---------------------------------------------------------------- what may be cited

  datatype Claim =
    | Against(kind: EvidenceKind, candidate: DiagnosisID, check: ProbeID, observation: Observation)
    | Beside(check: ProbeID, observation: Observation)
    | Unread(check: ProbeID, reason: Reason)

  /** What a row shows, for the observations that claims are made of. */
  predicate Shows(r: Row, o: Observation) {
    match o
    case StatusPass => r.status == Pass
    case StatusWarn => r.status == Warn && !r.downgraded
    case DNSAnswers => r.addrs != []
    case DNSNotFound => r.dnsNotFound
    case ObservedCause => r.cause != NoCause
    case ClockOff => r.clockOffset >= 300_000_000_000 || r.clockOffset <= -300_000_000_000
    case _ => false
  }

  /** The item a claim becomes, when the rows bear it out. */
  predicate Makes(run: Run, c: Claim, e: Item) {
    match c
    case Against(kind, candidate, check, o) =>
      check in run.res && Shows(run.res[check], o)
        && e == Item(kind, check, Some(o), NoValue, Some(candidate), NoReason)
    case Beside(check, o) =>
      check in run.res && Shows(run.res[check], o) && e == Item(Support, check, Some(o), NoValue, None, NoReason)
    case Unread(check, reason) =>
      || (reason == Prerequisite && Is(run.res, check, Skip)
          && e == Item(NotEvaluated, check, Some(StatusSkip), NoValue, None, Prerequisite))
      || (reason == NotSelected && check !in run.res && check !in run.order
          && e == Item(NotEvaluated, check, None, NoValue, None, NotSelected))
  }

  /** The most specific fact of a row: the first of these it recorded, else its status. */
  predicate Reads(run: Run, e: Item) {
    && e.check in run.res && e.candidate == None
    && var r := run.res[e.check];
    var said := e.observation;
    && e.value == (if said == Some(ObservedCause) && r.causeFamily.Some? then OfFamily(r.causeFamily.value)
                   else NoValue)
    && (said == Some(Portal) <==> r.portal)
    && (said == Some(DNSNotFound) <==> !r.portal && r.dnsNotFound)
    && (said == Some(ObservedCause) <==> !r.portal && !r.dnsNotFound && r.cause != NoCause)
    && (said == Some(TimedOut) <==> Quiet(r) && r.timedOut)
    && (said == Some(Downgraded) <==> Quiet(r) && !r.timedOut && r.downgraded)
    && (said == Some(DNSAnswers) <==> Quiet(r) && !r.timedOut && !r.downgraded && r.addrs != [])
    && (said == Some(StatusPass) <==> Bare(r) && r.status == Pass)
    && (said == Some(StatusWarn) <==> Bare(r) && r.status == Warn)
    && (said == Some(StatusFail) <==> Bare(r) && r.status == Fail)
    && (said == Some(StatusSkip) <==> Bare(r) && r.status == Skip)
    && (said == Some(StatusNA) <==> Bare(r) && r.status == NA)
    && (e.kind == if said == Some(StatusSkip) || said == Some(StatusNA) then NotEvaluated else Support)
    && (e.reason == Prerequisite <==> said == Some(StatusSkip))
    && (e.reason == NotApplicable <==> said == Some(StatusNA))
    && e.reason in {Prerequisite, NotApplicable, NoReason}
  }

  predicate Quiet(r: Row) { !r.portal && !r.dnsNotFound && r.cause == NoCause }

  predicate Bare(r: Row) { Quiet(r) && !r.timedOut && !r.downgraded && r.addrs == [] }

  ghost predicate Cited(run: Run, rows: set<ProbeID>, claims: set<Claim>, e: Item) {
    (e.check in rows && Reads(run, e)) || exists c :: c in claims && Makes(run, c, e)
  }

  // ---------------------------------------------------------------- the parts

  lemma MostSpecificReads(run: Run, id: ProbeID, e: Item)
    ensures MostSpecific(run, id) == Some(e) <==> e.check == id && Reads(run, e)
  {
  }

  lemma {:induction false} SupportsRead(run: Run, rows: seq<ProbeID>)
    ensures forall e :: e in SupportRows(run, rows) <==> e.check in rows && Reads(run, e)
  {
    hide MostSpecific, Reads;
    if rows != [] {
      var before, last := rows[..|rows| - 1], rows[|rows| - 1];
      SupportsRead(run, before);
      assert rows == before + [last];
      forall e
        ensures e in SupportRows(run, rows) <==> e.check in rows && Reads(run, e)
      {
        MostSpecificReads(run, last, e);
      }
    }
  }

  lemma {:induction false} PresentAre(extra: seq<Option<Item>>)
    ensures forall e :: e in Present(extra) <==> Some(e) in extra
  {
    if extra != [] {
      var before, last := extra[..|extra| - 1], extra[|extra| - 1];
      PresentAre(before);
      assert extra == before + [last];
    }
  }

  /** An optional item is what a claim becomes. */
  ghost predicate Becomes(run: Run, x: Option<Item>, c: Claim) { forall e :: x == Some(e) <==> Makes(run, c, e) }

  ghost predicate AllClaims(run: Run, extra: seq<Option<Item>>, claims: seq<Claim>) {
    |extra| == |claims| && forall i :: 0 <= i < |extra| ==> Becomes(run, extra[i], claims[i])
  }

  lemma RelationMakes(run: Run, kind: EvidenceKind, candidate: DiagnosisID, id: ProbeID, o: Observation)
    requires kind in {Contradiction, RuledOut}
             && o in {StatusPass, StatusWarn, DNSAnswers, DNSNotFound, ObservedCause, ClockOff}
    ensures Becomes(run, Relation(run, kind, candidate, id, o), Against(kind, candidate, id, o))
  {
  }

  lemma ObservationMakes(run: Run, id: ProbeID)
    ensures Becomes(run, SupportObservation(run, id, ClockOff), Beside(id, ClockOff))
  {
  }

  lemma UnevaluatedMakes(run: Run, id: ProbeID, reason: Reason)
    requires reason in {Prerequisite, NotSelected}
    ensures Becomes(run, Unevaluated(run, id, reason), Unread(id, reason))
  {
  }

  function Elements<T>(s: seq<T>): set<T> { set x | x in s }

  /** A finding cites its rows and what it claims. */
  lemma FindsCites(run: Run, id: DiagnosisID, focus: ProbeID, v: Verdict, rows: seq<ProbeID>, extra: seq<Option<Item>>,
                   claims: seq<Claim>)
    requires focus in run.res && rows != [] && rows[0] == focus
    requires forall e :: e in extra && e.Some? ==> True(run, e.value)
    requires AllClaims(run, extra, claims)
    ensures forall e :: e in Finds(run, id, focus, v, rows, extra).findings[0].evidence
                   <==> Cited(run, Elements(rows), Elements(claims), e)
  {
    hide True, Reads, Makes, Grounded;
    SupportsRead(run, rows);
    PresentAre(extra);
    forall e
      ensures Some(e) in extra <==> exists c :: c in claims && Makes(run, c, e)
    {
      if Some(e) in extra {
        var i :| 0 <= i < |extra| && extra[i] == Some(e);
        assert Becomes(run, extra[i], claims[i]);
        assert claims[i] in claims;
      }
      if c :| c in claims && Makes(run, c, e) {
        var i :| 0 <= i < |claims| && claims[i] == c;
        assert Becomes(run, extra[i], claims[i]);
      }
    }
  }

  // ---------------------------------------------------------------- the table of citations

  function EndpointRows(t: Option<Target>): set<ProbeID> {
    if t.None? then {}
    else match t.value.proto
      case TLSAndHTTP => {HTTP, HTTPS}
      case PlainHTTP => {HTTP}
      case SSHProto => {SSH}
      case SMTPProto => {SMTP}
      case NoProto => {TargetTCP}
  }

  /** The protocol rows that failed by running out of time. */
  function OutOfTime(res: Results): set<ProbeID> {
    (if HandshakeFails(res, TLS) && res[TLS].timedOut then {TLS} else {})
    + (if HandshakeFails(res, SMTP) && res[SMTP].timedOut then {SMTP} else {})
    + (if Is(res, HTTP, Fail) && res[HTTP].timedOut then {HTTP} else {})
    + (if Is(res, HTTPS, Fail) && res[HTTPS].timedOut then {HTTPS} else {})
  }

  /** A clock far enough off to speak to a certificate's dates. */
  predicate ClockFarOff(res: Results) {
    Internet in res && (res[Internet].clockOffset >= 300_000_000_000 || res[Internet].clockOffset <= -300_000_000_000)
  }

  predicate AboutDates(res: Results, focus: ProbeID) {
    focus in res && res[focus].cause in {CertificateExpired, CertificateNotYet}
  }

  /** The rows a conclusion rests on, its own among them. */
  function RowsOf(t: Option<Target>, res: Results, id: DiagnosisID, focus: ProbeID): set<ProbeID> {
    match id
    case NoUsableInterface | CaptivePortal => {focus}
    case SelectedDNSCheckFailed | SelectedServiceCheckFailed | SelectedNetworkCheckFailed => {focus}
    case SystemDNSFailure | DNSNameNotFound => {DNS, DNSPublic, Internet}
    case DNSFailure =>
      if t.Some? then {DNS, DNSPublic, Internet} else if Direct(res) then {DNS, Internet} else {DNS, Internet, Proxy}
    case DNSDisagreement => {DNSPublic, DNS} + (if t.None? && Is(res, QUIC, Fail) then {QUIC, Internet} else {})
    case QUICUnavailable => {QUIC, Internet}
    case UncorroboratedEndpointFailure => {focus, DNS, DNSPublic, Internet}
    case EncryptedDNSUnavailable => {DNSEncrypted, DNS, DNSPublic, Internet}
    case ProxyFailure => {Proxy, Internet} + (if t.None? then {DNS} else {})
    case ProxyOnlyNetwork => {focus, Proxy, Internet} + (if focus == Internet then {DNS} else {})
    case DirectEgressDegraded | DirectEgressBlocked => {Internet} + (if t.None? then {DNS} else EndpointRows(t))
    case Offline => {Internet, DNS}
    case TCPConnectionRefused => {TargetTCP} + (if t.Some? && LocalTarget(t.value, res) then {} else {Internet})
    case LocalDeviceUnreachable => {TargetTCP, Internet}
    case ReachabilityUntested => {TargetTCP}
    case LocalEgressFailure | ReachabilityUnlocalized =>
      {Internet, TargetTCP} + (if t.Some? && LocalTarget(t.value, res) then {} else {DNS})
    case TargetUnreachable => {TargetTCP, Internet, DNS}
    case ProbablePathMTU => {PMTU, TargetTCP} + OutOfTime(res)
    case TLSClockSkew => {focus, Internet, TargetTCP}
    case TLSCertificateExpired | TLSCertificateNotYetValid =>
      {focus, TargetTCP} + (if ClockFarOff(res) then {Internet} else {})
    case TLSHostnameMismatch | TLSUntrustedIssuer | TLSTimeout | TLSConnectionClosed | TLSTCPUnreachable
       | TLSHandshakeFailure => {focus, TargetTCP}
    case HTTPSNoResponse => {HTTPS, TLS}
    case HTTPNoResponse | HTTPConnectionClosed | InvalidHTTPResponse =>
      if focus == HTTPS then {HTTPS, TLS}
      else {HTTP} + (if t.Some? && t.value.proto == TLSAndHTTP then {HTTPS} else {TargetTCP})
    case ServiceBannerFailure | ServiceBannerMissing => {focus, TargetTCP}
    case ReferenceEgressUnreachable =>
      {Internet, TargetTCP}
        + (if Internet in res && res[Internet].cause == PreferredPathAlternateReachable then {} else EndpointRows(t))
    case IPv4TargetUnreachable | IPv6TargetUnreachable | PartialReachability => {}
  }

  /** Egress worked, by whichever status it says so. */
  function EgressClaims(): set<Claim> {
    {Against(RuledOut, Offline, Internet, StatusPass), Against(RuledOut, Offline, Internet, StatusWarn)}
  }

  /** What a conclusion holds against other readings, and what it says was not evaluated. */
  function ClaimsOf(t: Option<Target>, res: Results, id: DiagnosisID, focus: ProbeID): set<Claim> {
    match id
    case NoUsableInterface => {Unread(Internet, Prerequisite), Unread(DNS, Prerequisite)}
    case SystemDNSFailure =>
      {Against(Contradiction, DNSFailure, DNSPublic, DNSAnswers),
       Against(RuledOut, DNSNameNotFound, DNSPublic, DNSAnswers)}
      + ResolverClaims(t, res, id)
    case DNSNameNotFound => {Against(RuledOut, SystemDNSFailure, DNSPublic, DNSNotFound)} + ResolverClaims(t, res, id)
    case DNSFailure => ResolverClaims(t, res, id)
    case DNSDisagreement =>
      if t.None? && Is(res, QUIC, Fail) then {Against(Contradiction, QUICUnavailable, DNSPublic, StatusWarn)} else {}
    case UncorroboratedEndpointFailure =>
      if focus == QUIC then {Against(Contradiction, QUICUnavailable, DNSPublic, DNSAnswers)}
      else {Against(Contradiction, TargetUnreachable, DNSPublic, DNSAnswers),
            Against(RuledOut, LocalEgressFailure, Internet, StatusPass)}
    case TCPConnectionRefused =>
      if t.Some? && LocalTarget(t.value, res) then {Against(RuledOut, LocalDeviceUnreachable, TargetTCP, ObservedCause)}
      else {Against(RuledOut, TargetUnreachable, TargetTCP, ObservedCause),
            Against(RuledOut, LocalEgressFailure, Internet, StatusPass)}
    case ReachabilityUntested => {Unread(Internet, NotSelected)}
    case TargetUnreachable =>
      {Against(RuledOut, LocalEgressFailure, Internet, StatusPass), Against(RuledOut, DNSFailure, DNS, DNSAnswers)}
    case TLSClockSkew => {Beside(Internet, ClockOff), Against(RuledOut, TLSTCPUnreachable, TargetTCP, StatusPass)}
    case TLSCertificateExpired | TLSCertificateNotYetValid =>
      {Against(RuledOut, TLSTCPUnreachable, TargetTCP, StatusPass)}
      + (if ClockFarOff(res) then {Against(RuledOut, TLSClockSkew, Internet, ClockOff)} else {})
    case TLSHostnameMismatch | TLSUntrustedIssuer | TLSTimeout | TLSConnectionClosed | TLSHandshakeFailure =>
      {Against(RuledOut, TLSTCPUnreachable, TargetTCP, StatusPass)}
    case HTTPSNoResponse => {Against(RuledOut, TLSHandshakeFailure, TLS, StatusPass)}
    case HTTPConnectionClosed | InvalidHTTPResponse =>
      if focus == HTTPS then {Against(RuledOut, TLSHandshakeFailure, TLS, StatusPass)} else {}
    case SelectedServiceCheckFailed => if t.Some? then {Unread(HTTPS, NotSelected)} else {}
    case ReferenceEgressUnreachable =>
      if Internet in res && res[Internet].cause == PreferredPathAlternateReachable then {}
      else {Against(RuledOut, DirectEgressBlocked, TargetTCP, StatusPass),
            Against(RuledOut, DirectEgressBlocked, TargetTCP, StatusWarn)}
    case _ => {}
  }

  /** What a resolver's failure says of the rows around it. */
  function ResolverClaims(t: Option<Target>, res: Results, id: DiagnosisID): set<Claim> {
    if t.Some? then {Unread(TargetTCP, Prerequisite)} + (if Direct(res) then EgressClaims() else {})
    else if !Direct(res) then {}
    else if id == DNSFailure then EgressClaims()
    else {Against(RuledOut, Offline, Internet, StatusPass)}
  }

  /** A finding cites exactly what its identity says it does. */
  ghost predicate CitesExactly(t: Option<Target>, run: Run, f: Finding) {
    forall e :: e in f.evidence <==>
      Cited(run, RowsOf(t, run.res, f.id, f.focus), ClaimsOf(t, run.res, f.id, f.focus), e)
  }

  ghost predicate AllCite(t: Option<Target>, run: Run, fs: seq<Finding>) {
    forall f :: f in fs ==> CitesExactly(t, run, f)
  }

  // ---------------------------------------------------------------- branch by branch

  lemma BlameCites(run: Run, id: DiagnosisID, focus: ProbeID, v: Verdict, from: seq<ProbeID>)
    requires focus in run.res
    ensures forall e :: e in Blame(run, id, focus, v, from).findings[0].evidence <==>
      Cited(run, Elements([focus] + from), {}, e)
  {
    hide Cited, Finds;
    assert Elements<Claim>([]) == {};
    FindsCites(run, id, focus, v, [focus] + from, [], []);
  }

  /** Claims that the rows do not bear out may be left in the table. */
  lemma IdleClaims(run: Run, rows: set<ProbeID>, a: set<Claim>, b: set<Claim>)
    requires forall c, e :: (c in a) != (c in b) ==> !Makes(run, c, e)
    ensures forall e :: Cited(run, rows, a, e) <==> Cited(run, rows, b, e)
  {
    hide Makes, Reads;
  }

  lemma EgressSpeaks(run: Run)
    requires Direct(run.res)
    ensures Is(run.res, Internet, Warn) ==> forall e :: !Makes(run, Against(RuledOut, Offline, Internet, StatusPass), e)
    ensures !Is(run.res, Internet, Warn) ==>
      forall e :: !Makes(run, Against(RuledOut, Offline, Internet, StatusWarn), e)
  {
  }

  lemma GenericDNSCites(run: Run)
    requires DirectOK(run.res) && Is(run.res, DNS, Fail)
    ensures CitesExactly(None, run, GenericDNSFailure(run).findings[0])
  {
    hide Finds, Cited, True, Grounded, Becomes, Makes, Relation;
    var res := run.res;
    RelationMakes(run, Contradiction, DNSFailure, DNSPublic, DNSAnswers);
    RelationMakes(run, RuledOut, DNSNameNotFound, DNSPublic, DNSAnswers);
    RelationMakes(run, RuledOut, SystemDNSFailure, DNSPublic, DNSNotFound);
    RelationMakes(run, RuledOut, Offline, Internet, StatusPass);
    RelationMakes(run, RuledOut, Offline, Internet, StatusWarn);
    var v := GenericVerdict(run);
    if PublicResolves(res) {
      var claims :=
        [Against(Contradiction, DNSFailure, DNSPublic, DNSAnswers),
         Against(RuledOut, DNSNameNotFound, DNSPublic, DNSAnswers),
                     Against(RuledOut, Offline, Internet, StatusPass)];
      FindsCites(run, SystemDNSFailure, DNS, v, [DNS, DNSPublic, Internet],
                 [Contradicts(run, DNSFailure, DNSPublic, DNSAnswers),
                  RulesOut(run, DNSNameNotFound, DNSPublic, DNSAnswers),
                  RulesOut(run, Offline, Internet, StatusPass)], claims);
      assert Elements(claims) == ClaimsOf(None, res, SystemDNSFailure, DNS);
      assert Elements([DNS, DNSPublic, Internet]) == RowsOf(None, res, SystemDNSFailure, DNS);
    } else if BothNotFound(res) {
      var claims :=
        [Against(RuledOut, SystemDNSFailure, DNSPublic, DNSNotFound), Against(RuledOut, Offline, Internet, StatusPass)];
      FindsCites(run, DNSNameNotFound, DNS, v, [DNS, DNSPublic, Internet],
                 [RulesOut(run, SystemDNSFailure, DNSPublic, DNSNotFound),
                  RulesOut(run, Offline, Internet, StatusPass)], claims);
      assert Elements(claims) == ClaimsOf(None, res, DNSNameNotFound, DNS);
      assert Elements([DNS, DNSPublic, Internet]) == RowsOf(None, res, DNSNameNotFound, DNS);
    } else {
      var o := if Is(res, Internet, Warn) then StatusWarn else StatusPass;
      FindsCites(run, DNSFailure, DNS, v, [DNS, Internet], [RulesOut(run, Offline, Internet, o)],
                 [Against(RuledOut, Offline, Internet, o)]);
      assert Elements([DNS, Internet]) == RowsOf(None, res, DNSFailure, DNS);
      EgressSpeaks(run);
      IdleClaims(run, {DNS, Internet}, Elements([Against(RuledOut, Offline, Internet, o)]),
                 ClaimsOf(None, res, DNSFailure, DNS));
    }
  }

  lemma GenericQUICCites(run: Run)
    requires DirectOK(run.res) && Is(run.res, QUIC, Fail)
    ensures CitesExactly(None, run, GenericQUICFailure(run).findings[0])
  {
    hide Finds, Cited, True, Grounded, Becomes, Makes, Relation, QUICUsedDisagreeingAnswer, UncorroboratedFailure;
    var res := run.res;
    DisagreementHasRow(res);
    RelationMakes(run, Contradiction, QUICUnavailable, DNSPublic, StatusWarn);
    RelationMakes(run, Contradiction, QUICUnavailable, DNSPublic, DNSAnswers);
    if QUICUsedDisagreeingAnswer(res) {
      FindsCites(run, DNSDisagreement, DNSPublic, GenericVerdict(run), [DNSPublic, DNS, QUIC, Internet],
                 [Contradicts(run, QUICUnavailable, DNSPublic, StatusWarn)],
                 [Against(Contradiction, QUICUnavailable, DNSPublic, StatusWarn)]);
      assert Elements([DNSPublic, DNS, QUIC, Internet]) == RowsOf(None, res, DNSDisagreement, DNSPublic);
      assert Elements([Against(Contradiction, QUICUnavailable, DNSPublic, StatusWarn)])
        == ClaimsOf(None, res, DNSDisagreement, DNSPublic);
    } else if UncorroboratedFailure(res, QUIC, ResolvedByTheProbe) {
      FindsCites(run, UncorroboratedEndpointFailure, QUIC, Degraded, [QUIC, DNS, DNSPublic, Internet],
                 [Contradicts(run, QUICUnavailable, DNSPublic, DNSAnswers)],
                 [Against(Contradiction, QUICUnavailable, DNSPublic, DNSAnswers)]);
      assert Elements([QUIC, DNS, DNSPublic, Internet]) == RowsOf(None, res, UncorroboratedEndpointFailure, QUIC);
      assert Elements([Against(Contradiction, QUICUnavailable, DNSPublic, DNSAnswers)])
          == ClaimsOf(None, res, UncorroboratedEndpointFailure, QUIC);
    } else {
      BlameCites(run, QUICUnavailable, QUIC, Degraded, [Internet]);
      assert Elements([QUIC] + [Internet]) == RowsOf(None, res, QUICUnavailable, QUIC);
    }
  }

  lemma DisagreementHasRow(res: Results)
    ensures QUICUsedDisagreeingAnswer(res) ==> DNSPublic in res
  {
  }

  lemma FallbackCites(t: Option<Target>, run: Run)
    requires t.Some? ==> !ProtocolFails(run.res)
    ensures AllCite(t, run, Fallback(run).findings)
  {
    hide Finds, Cited, True, Grounded, Blame, FirstFailed, RowsOf, ClaimsOf, ProtocolFails, CitesExactly;
    var id := FirstFailed(run.order, run.res);
    if id.Some? {
      var focus := id.value;
      var f := Fallback(run).findings[0];
      assert t.Some? ==> !ServiceRow(focus) by { NotProtocol(run.res, focus); }
      SelectedTable(t, run.res, f.id, focus);
      assert [focus] + [] == [focus];
      PlainCites(t, run, f.id, focus, f.verdict, []);
    }
  }

  lemma NotProtocol(res: Results, id: ProbeID)
    ensures !ProtocolFails(res) && Is(res, id, Fail) ==> !ServiceRow(id)
  {
  }

  lemma SelectedTable(t: Option<Target>, res: Results, id: DiagnosisID, focus: ProbeID)
    requires id in {SelectedDNSCheckFailed, SelectedServiceCheckFailed, SelectedNetworkCheckFailed}
    requires id == SelectedServiceCheckFailed ==> t.None?
    ensures Elements([focus] + []) == RowsOf(t, res, id, focus) && ClaimsOf(t, res, id, focus) == {}
  {
    assert Elements([focus] + []) == {focus};
  }

  /** A conclusion that only names rows cites them and claims nothing. */
  lemma PlainCites(t: Option<Target>, run: Run, id: DiagnosisID, focus: ProbeID, v: Verdict, from: seq<ProbeID>)
    requires focus in run.res
    requires Elements([focus] + from) == RowsOf(t, run.res, id, focus) && ClaimsOf(t, run.res, id, focus) == {}
    ensures CitesExactly(t, run, Blame(run, id, focus, v, from).findings[0])
  {
    hide Blame, Cited, RowsOf, ClaimsOf;
    BlameCites(run, id, focus, v, from);
  }

  lemma GenericCites(run: Run)
    ensures AllCite(None, run, Generic(run).findings)
  {
    hide Finds, Cited, True, Grounded, Blame, Fallback, GenericDNSFailure, GenericQUICFailure, GenericVerdict;
    hide RowsOf, ClaimsOf, Elements, CitesExactly, EncryptedDNSBlocked, ResolversDiffer, GenericRest, Generic;
    hide PlainGeneric, Works, Direct;
    var res := run.res;
    EarlyPlain(res);
    BlockedIsDirect(res);
    DifferHasRow(res);
    GenericIs(run);
    if Intercepted(res) {
      GenericPlain(run, CaptivePortal, Internet, NetworkProblem, []);
    } else if DirectOK(res) && Is(res, DNS, Fail) {
      GenericDNSCites(run);
    } else if DirectOK(res) && Is(res, QUIC, Fail) {
      GenericQUICCites(run);
    } else if EncryptedDNSBlocked(res) {
      GenericPlain(run, EncryptedDNSUnavailable, DNSEncrypted, Degraded, [DNS, DNSPublic, Internet]);
    } else if Is(res, Internet, Pass) && Is(res, DNS, Pass) && Is(res, Proxy, Fail) {
      GenericPlain(run, ProxyFailure, Proxy, Degraded, [Internet, DNS]);
    } else if DirectOK(res) && ResolversDiffer(res) {
      GenericPlain(run, DNSDisagreement, DNSPublic, GenericVerdict(run), [DNS]);
    } else {
      RestCites(run);
    }
  }

  lemma EarlyPlain(res: Results)
    ensures PlainGeneric(res, CaptivePortal, Internet, [])
    ensures PlainGeneric(res, EncryptedDNSUnavailable, DNSEncrypted, [DNS, DNSPublic, Internet])
    ensures PlainGeneric(res, ProxyFailure, Proxy, [Internet, DNS])
    ensures !Is(res, QUIC, Fail) ==> PlainGeneric(res, DNSDisagreement, DNSPublic, [DNS])
  {
  }

  lemma DifferHasRow(res: Results)
    ensures ResolversDiffer(res) ==> DNSPublic in res
  {
  }

  /** The later cases of a generic run. */
  function GenericRest(run: Run): Diagnosis {
    var res := run.res;
    var gv := GenericVerdict(run);
    var ip, dn := Is(res, Internet, Pass), Is(res, DNS, Pass);
    if ip && dn then Plain(gv)
    else if RelaxedEgress(res) && dn && ProxyCarries(res) then Blame(run, ProxyOnlyNetwork, Internet, gv, [Proxy, DNS])
    else if RelaxedEgress(res) && Is(res, DNS, Fail) && ProxyCarries(res) then
      Blame(run, DNSFailure, DNS, gv, [Internet, Proxy])
    else if DirectOK(res) && Is(res, Internet, Warn) && dn then Blame(run, DirectEgressDegraded, Internet, gv, [DNS])
    else if NoEgress(res) && dn then Blame(run, DirectEgressBlocked, Internet, gv, [DNS])
    else if Is(res, Internet, Fail) && Is(res, DNS, Fail) then Blame(run, Offline, Internet, gv, [DNS])
    else Fallback(run)
  }

  lemma GenericIs(run: Run)
    ensures EncryptedDNSBlocked(run.res) ==> DNSEncrypted in run.res
    ensures var res, gv := run.res, GenericVerdict(run);
      Generic(run) ==
        if Intercepted(res) then Blame(run, CaptivePortal, Internet, NetworkProblem, [])
        else if DirectOK(res) && Is(res, DNS, Fail) then GenericDNSFailure(run)
        else if DirectOK(res) && Is(res, QUIC, Fail) then GenericQUICFailure(run)
        else if EncryptedDNSBlocked(res) then
          Blame(run, EncryptedDNSUnavailable, DNSEncrypted, Degraded, [DNS, DNSPublic, Internet])
        else if Is(res, Internet, Pass) && Is(res, DNS, Pass) && Is(res, Proxy, Fail) then
          Blame(run, ProxyFailure, Proxy, Degraded, [Internet, DNS])
        else if DirectOK(res) && ResolversDiffer(res) then Blame(run, DNSDisagreement, DNSPublic, gv, [DNS])
        else GenericRest(run)
  {
    hide GenericDNSFailure, GenericQUICFailure, Fallback, Blame, GenericVerdict, Grounded;
  }

  lemma RestCites(run: Run)
    ensures AllCite(None, run, GenericRest(run).findings)
  {
    hide Finds, Cited, True, Grounded, Blame, Fallback, GenericVerdict, RowsOf, ClaimsOf, Elements, CitesExactly;
    var res := run.res;
    FallbackCites(None, run);
    if Is(res, Internet, Pass) && Is(res, DNS, Pass) {
    } else if RelaxedEgress(res) && Is(res, DNS, Pass) && ProxyCarries(res) {
      GenericPlain(run, ProxyOnlyNetwork, Internet, GenericVerdict(run), [Proxy, DNS]);
    } else if RelaxedEgress(res) && Is(res, DNS, Fail) && ProxyCarries(res) {
      GenericPlain(run, DNSFailure, DNS, GenericVerdict(run), [Internet, Proxy]);
    } else if DirectOK(res) && Is(res, Internet, Warn) && Is(res, DNS, Pass) {
      GenericPlain(run, DirectEgressDegraded, Internet, GenericVerdict(run), [DNS]);
    } else if NoEgress(res) && Is(res, DNS, Pass) {
      GenericPlain(run, DirectEgressBlocked, Internet, GenericVerdict(run), [DNS]);
    } else if Is(res, Internet, Fail) && Is(res, DNS, Fail) {
      GenericPlain(run, Offline, Internet, GenericVerdict(run), [DNS]);
    }
  }

  predicate PlainGeneric(res: Results, id: DiagnosisID, focus: ProbeID, from: seq<ProbeID>) {
    && (id, focus, from) in {(CaptivePortal, Internet, []),
                             (EncryptedDNSUnavailable, DNSEncrypted, [DNS, DNSPublic, Internet]),
                             (ProxyFailure, Proxy, [Internet, DNS]), (DNSDisagreement, DNSPublic, [DNS]),
                             (ProxyOnlyNetwork, Internet, [Proxy, DNS]), (DNSFailure, DNS, [Internet, Proxy]),
                             (DirectEgressDegraded, Internet, [DNS]), (DirectEgressBlocked, Internet, [DNS]),
                             (Offline, Internet, [DNS])}
    && (id == DNSDisagreement ==> !Is(res, QUIC, Fail)) && (id == DNSFailure ==> !Direct(res))
  }

  lemma PlainGenericRows(res: Results, id: DiagnosisID, focus: ProbeID, from: seq<ProbeID>)
    requires PlainGeneric(res, id, focus, from)
    ensures Elements([focus] + from) == RowsOf(None, res, id, focus)
  {
    hide Direct;
  }

  lemma PlainGenericClaims(res: Results, id: DiagnosisID, focus: ProbeID, from: seq<ProbeID>)
    requires PlainGeneric(res, id, focus, from)
    ensures ClaimsOf(None, res, id, focus) == {}
  {
    hide Direct, EgressClaims;
  }

  lemma GenericPlain(run: Run, id: DiagnosisID, focus: ProbeID, v: Verdict, from: seq<ProbeID>)
    requires focus in run.res && PlainGeneric(run.res, id, focus, from)
    ensures CitesExactly(None, run, Blame(run, id, focus, v, from).findings[0])
  {
    hide Blame, Cited, CitesExactly, PlainGeneric, RowsOf, ClaimsOf;
    PlainGenericRows(run.res, id, focus, from);
    PlainGenericClaims(run.res, id, focus, from);
    PlainCites(None, run, id, focus, v, from);
  }

  lemma ClaimsConcat(run: Run, x: seq<Option<Item>>, a: seq<Claim>, y: seq<Option<Item>>, b: seq<Claim>)
    requires AllClaims(run, x, a) && AllClaims(run, y, b)
    ensures AllClaims(run, x + y, a + b)
    ensures Elements(a + b) == Elements(a) + Elements(b)
  {
    hide Becomes;
  }

  /** The ways a resolver's failure is read at a target, and what each is held against. */
  function About(run: Run, id: DiagnosisID): seq<Option<Item>> {
    if id == SystemDNSFailure then
      [Contradicts(run, DNSFailure, DNSPublic, DNSAnswers), RulesOut(run, DNSNameNotFound, DNSPublic, DNSAnswers)]
    else if id == DNSNameNotFound then [RulesOut(run, SystemDNSFailure, DNSPublic, DNSNotFound)]
    else []
  }

  function AboutClaims(id: DiagnosisID): seq<Claim> {
    if id == SystemDNSFailure then
      [Against(Contradiction, DNSFailure, DNSPublic, DNSAnswers),
       Against(RuledOut, DNSNameNotFound, DNSPublic, DNSAnswers)]
    else if id == DNSNameNotFound then [Against(RuledOut, SystemDNSFailure, DNSPublic, DNSNotFound)]
    else []
  }

  lemma AboutMakes(run: Run, id: DiagnosisID)
    ensures AllClaims(run, About(run, id), AboutClaims(id))
    ensures forall e :: e in About(run, id) && e.Some? ==> True(run, e.value)
  {
    hide Becomes, Relation, True;
    RelationMakes(run, Contradiction, DNSFailure, DNSPublic, DNSAnswers);
    RelationMakes(run, RuledOut, DNSNameNotFound, DNSPublic, DNSAnswers);
    RelationMakes(run, RuledOut, SystemDNSFailure, DNSPublic, DNSNotFound);
  }

  function Egress(run: Run): seq<Option<Item>> {
    if !DirectOK(run.res) then []
    else [RulesOut(run, Offline, Internet, if Is(run.res, Internet, Warn) then StatusWarn else StatusPass)]
  }

  function EgressClaim(run: Run): seq<Claim> {
    if !DirectOK(run.res) then []
    else [Against(RuledOut, Offline, Internet, if Is(run.res, Internet, Warn) then StatusWarn else StatusPass)]
  }

  lemma EgressMakes(run: Run)
    ensures AllClaims(run, Egress(run), EgressClaim(run))
    ensures forall e :: e in Egress(run) && e.Some? ==> True(run, e.value)
    ensures forall c, e ::
      (c in Elements(EgressClaim(run))) != (c in if Direct(run.res) then EgressClaims() else {}) ==> !Makes(run, c, e)
  {
    hide Becomes, Relation, True, Makes;
    RelationMakes(run, RuledOut, Offline, Internet, StatusPass);
    RelationMakes(run, RuledOut, Offline, Internet, StatusWarn);
    if DirectOK(run.res) {
      EgressSpeaks(run);
    }
  }

  lemma TargetDNSCites(t: Target, run: Run)
    requires Is(run.res, DNS, Fail)
    ensures CitesExactly(Some(t), run, TargetedDNSFailure(run).findings[0])
  {
    hide Finds, Cited, True, Grounded, AllClaims, About, Egress, AboutClaims, EgressClaim, Makes, Unevaluated, RowsOf;
    var res := run.res;
    var id :=
      if PublicResolves(res) then SystemDNSFailure else if BothNotFound(res) then DNSNameNotFound else DNSFailure;
    AboutMakes(run, id);
    EgressMakes(run);
    LastMakes(run);
    var last, lastClaim := [Unevaluated(run, TargetTCP, Prerequisite)], [Unread(TargetTCP, Prerequisite)];
    ClaimsConcat(run, About(run, id), AboutClaims(id), Egress(run), EgressClaim(run));
    ClaimsConcat(run, About(run, id) + Egress(run), AboutClaims(id) + EgressClaim(run), last, lastClaim);
    var claims := AboutClaims(id) + EgressClaim(run) + lastClaim;
    FindsCites(run, id, DNS, DNSProblem, [DNS, DNSPublic, Internet], About(run, id) + Egress(run) + last, claims);
    TargetDNSTable(t, run, id);
    IdleClaims(run, {DNS, DNSPublic, Internet}, Elements(claims), ClaimsOf(Some(t), res, id, DNS));
    TargetDNSIs(run, id);
  }

  lemma LastMakes(run: Run)
    ensures AllClaims(run, [Unevaluated(run, TargetTCP, Prerequisite)], [Unread(TargetTCP, Prerequisite)])
    ensures Elements([Unread(TargetTCP, Prerequisite)]) == {Unread(TargetTCP, Prerequisite)}
  {
    UnevaluatedMakes(run, TargetTCP, Prerequisite);
  }

  lemma TargetDNSTable(t: Target, run: Run, id: DiagnosisID)
    requires id in {SystemDNSFailure, DNSNameNotFound, DNSFailure}
    ensures Elements([DNS, DNSPublic, Internet]) == {DNS, DNSPublic, Internet} == RowsOf(Some(t), run.res, id, DNS)
    ensures ClaimsOf(Some(t), run.res, id, DNS)
         == Elements(AboutClaims(id)) + {Unread(TargetTCP, Prerequisite)}
           + (if Direct(run.res) then EgressClaims() else {})
  {
    hide EgressClaims;
  }

  lemma TargetDNSIs(run: Run, id: DiagnosisID)
    requires Is(run.res, DNS, Fail)
    requires id ==
      if PublicResolves(run.res) then SystemDNSFailure
      else if BothNotFound(run.res) then DNSNameNotFound
      else DNSFailure
    requires forall e :: e in About(run, id) + Egress(run) + [Unevaluated(run, TargetTCP, Prerequisite)] && e.Some? ==>
      True(run, e.value)
    ensures TargetedDNSFailure(run)
         == Finds(run, id, DNS, DNSProblem, [DNS, DNSPublic, Internet],
                  About(run, id) + Egress(run) + [Unevaluated(run, TargetTCP, Prerequisite)])
  {
    hide Finds, True, Grounded, Relation, Unevaluated;
  }

  lemma LocalFailureCites(t: Target, run: Run)
    requires Is(run.res, TargetTCP, Fail) && LocalTarget(t, run.res)
    ensures CitesExactly(Some(t), run, LocalTargetFailure(run).findings[0])
  {
    hide Finds, Cited, True, Grounded, Becomes, Makes, Relation, Unevaluated, LocalTarget;
    var res := run.res;
    if res[TargetTCP].cause == Refused {
      RefusedCites(t, run);
    } else if DirectOK(res) {
      TargetPlain(t, run, LocalDeviceUnreachable, TargetTCP, ServiceProblem, [Internet]);
    } else if Internet !in res {
      UntestedCites(t, run);
    } else if LocalPathObserved(res[Internet].cause) {
      TargetPlain(t, run, LocalEgressFailure, Internet, NetworkProblem, [TargetTCP]);
    } else {
      TargetPlain(t, run, ReachabilityUnlocalized, Internet, NetworkProblem, [TargetTCP]);
    }
  }

  lemma UntestedCites(t: Target, run: Run)
    requires Is(run.res, TargetTCP, Fail)
    ensures CitesExactly(Some(t), run,
      Finds(run, ReachabilityUntested, TargetTCP, NetworkProblem, [TargetTCP],
            [Unevaluated(run, Internet, NotSelected)]).findings[0])
  {
    hide Finds, Cited, True, Grounded, Becomes, Makes, Unevaluated;
    UnevaluatedMakes(run, Internet, NotSelected);
    FindsCites(run, ReachabilityUntested, TargetTCP, NetworkProblem, [TargetTCP],
               [Unevaluated(run, Internet, NotSelected)],
               [Unread(Internet, NotSelected)]);
    assert Elements([TargetTCP]) == RowsOf(Some(t), run.res, ReachabilityUntested, TargetTCP);
    assert Elements([Unread(Internet, NotSelected)]) == ClaimsOf(Some(t), run.res, ReachabilityUntested, TargetTCP);
  }

  /** A refusal nearby, and one across the network. */
  lemma RefusedCites(t: Target, run: Run)
    requires Is(run.res, TargetTCP, Fail)
    ensures LocalTarget(t, run.res) ==> CitesExactly(Some(t), run,
      Finds(run, TCPConnectionRefused, TargetTCP, ServiceProblem, [TargetTCP],
            [RulesOut(run, LocalDeviceUnreachable, TargetTCP, ObservedCause)]).findings[0])
    ensures !LocalTarget(t, run.res) ==> CitesExactly(Some(t), run, RefusedTarget(run).findings[0])
  {
    hide Finds, Cited, True, Grounded, Becomes, Makes, Relation, LocalTarget;
    var res := run.res;
    if LocalTarget(t, res) {
      RelationMakes(run, RuledOut, LocalDeviceUnreachable, TargetTCP, ObservedCause);
      FindsCites(run, TCPConnectionRefused, TargetTCP, ServiceProblem, [TargetTCP],
                 [RulesOut(run, LocalDeviceUnreachable, TargetTCP, ObservedCause)],
                 [Against(RuledOut, LocalDeviceUnreachable, TargetTCP, ObservedCause)]);
      assert Elements([TargetTCP]) == RowsOf(Some(t), res, TCPConnectionRefused, TargetTCP);
      assert Elements([Against(RuledOut, LocalDeviceUnreachable, TargetTCP, ObservedCause)])
          == ClaimsOf(Some(t), res, TCPConnectionRefused, TargetTCP);
    } else {
      RelationMakes(run, RuledOut, TargetUnreachable, TargetTCP, ObservedCause);
      RelationMakes(run, RuledOut, LocalEgressFailure, Internet, StatusPass);
      var claims :=
        [Against(RuledOut, TargetUnreachable, TargetTCP, ObservedCause),
         Against(RuledOut, LocalEgressFailure, Internet, StatusPass)];
      FindsCites(run, TCPConnectionRefused, TargetTCP, ServiceProblem, [TargetTCP, Internet],
                 [RulesOut(run, TargetUnreachable, TargetTCP, ObservedCause),
                  RulesOut(run, LocalEgressFailure, Internet, StatusPass)], claims);
      assert Elements([TargetTCP, Internet]) == RowsOf(Some(t), res, TCPConnectionRefused, TargetTCP);
      assert Elements(claims) == ClaimsOf(Some(t), res, TCPConnectionRefused, TargetTCP);
    }
  }

  lemma SilentCites(t: Target, run: Run)
    requires Is(run.res, TargetTCP, Fail)
    ensures CitesExactly(Some(t), run, OnlySystemAnswers(run).findings[0])
    ensures CitesExactly(Some(t), run, EveryAnswerSilent(run).findings[0])
  {
    hide Finds, Cited, True, Grounded, Becomes, Makes, Relation;
    RelationMakes(run, Contradiction, TargetUnreachable, DNSPublic, DNSAnswers);
    RelationMakes(run, RuledOut, LocalEgressFailure, Internet, StatusPass);
    RelationMakes(run, RuledOut, DNSFailure, DNS, DNSAnswers);
    var alone :=
      [Against(Contradiction, TargetUnreachable, DNSPublic, DNSAnswers),
       Against(RuledOut, LocalEgressFailure, Internet, StatusPass)];
    FindsCites(run, UncorroboratedEndpointFailure, TargetTCP, NetworkProblem, [TargetTCP, DNS, DNSPublic, Internet],
               [Contradicts(run, TargetUnreachable, DNSPublic, DNSAnswers),
                RulesOut(run, LocalEgressFailure, Internet, StatusPass)], alone);
    assert Elements([TargetTCP, DNS, DNSPublic, Internet])
      == RowsOf(Some(t), run.res, UncorroboratedEndpointFailure, TargetTCP);
    assert Elements(alone) == ClaimsOf(Some(t), run.res, UncorroboratedEndpointFailure, TargetTCP);
    var silent :=
      [Against(RuledOut, LocalEgressFailure, Internet, StatusPass), Against(RuledOut, DNSFailure, DNS, DNSAnswers)];
    FindsCites(run, TargetUnreachable, TargetTCP, ServiceProblem, [TargetTCP, Internet, DNS],
               [RulesOut(run, LocalEgressFailure, Internet, StatusPass),
                RulesOut(run, DNSFailure, DNS, DNSAnswers)], silent);
    assert Elements([TargetTCP, Internet, DNS]) == RowsOf(Some(t), run.res, TargetUnreachable, TargetTCP);
    assert Elements(silent) == ClaimsOf(Some(t), run.res, TargetUnreachable, TargetTCP);
  }

  lemma TargetFailureCites(t: Target, run: Run)
    requires Is(run.res, TargetTCP, Fail)
    ensures AllCite(Some(t), run, TargetFailure(run, t).findings)
  {
    hide Finds, Cited, True, Grounded, LocalTarget, CitesExactly, LocalTargetFailure, Blame;
    hide OnlySystemAnswers, EveryAnswerSilent;
    hide RefusedTarget, UncorroboratedFailure, AllTried, Unevaluated, RowsOf, ClaimsOf;
    var res := run.res;
    if LocalTarget(t, res) {
      LocalFailureCites(t, run);
    } else if DirectOK(res) {
      RefusedCites(t, run);
      SilentCites(t, run);
    } else if ProxyCarries(res) {
      TargetPlain(t, run, ProxyOnlyNetwork, TargetTCP, NetworkProblem, [Proxy, Internet]);
    } else if Internet !in res {
      UntestedCites(t, run);
    } else if LocalPathObserved(res[Internet].cause) {
      TargetPlain(t, run, LocalEgressFailure, Internet, NetworkProblem, [TargetTCP, DNS]);
    } else {
      TargetPlain(t, run, ReachabilityUnlocalized, Internet, NetworkProblem, [TargetTCP, DNS]);
    }
  }

  lemma TargetPlain(t: Target, run: Run, id: DiagnosisID, focus: ProbeID, v: Verdict, from: seq<ProbeID>)
    requires focus in run.res
    requires (id, focus, from) in
      {(LocalDeviceUnreachable, TargetTCP, [Internet]), (ProxyOnlyNetwork, TargetTCP, [Proxy, Internet]),
       (LocalEgressFailure, Internet, [TargetTCP]), (ReachabilityUnlocalized, Internet, [TargetTCP]),
       (LocalEgressFailure, Internet, [TargetTCP, DNS]), (ReachabilityUnlocalized, Internet, [TargetTCP, DNS])}
    requires id in {LocalEgressFailure, ReachabilityUnlocalized} ==> (LocalTarget(t, run.res) <==> from == [TargetTCP])
    ensures CitesExactly(Some(t), run, Blame(run, id, focus, v, from).findings[0])
  {
    hide Blame, Cited, CitesExactly, LocalTarget;
    assert Elements([focus] + from) == RowsOf(Some(t), run.res, id, focus);
    PlainCites(Some(t), run, id, focus, v, from);
  }

  lemma TLSCites(t: Target, run: Run, row: ProbeID)
    requires row in {TLS, SMTP} && Is(run.res, row, Fail)
    ensures CitesExactly(Some(t), run, TLSFailure(run, row).findings[0])
  {
    hide Finds, True, Grounded, Becomes, Relation, SupportObservation, CitesExactly, RowsOf, ClaimsOf, Elements, TLSID;
    var res := run.res;
    RelationMakes(run, RuledOut, TLSTCPUnreachable, TargetTCP, StatusPass);
    RelationMakes(run, RuledOut, TLSClockSkew, Internet, ClockOff);
    ObservationMakes(run, Internet);
    TLSTable(t, res, row);
    var c, skew, reached := res[row].cause, ProbeRows.ClockOffset(res),
        RulesOut(run, TLSTCPUnreachable, TargetTCP, StatusPass);
    var reach := Against(RuledOut, TLSTCPUnreachable, TargetTCP, StatusPass);
    if ClockSkewed(res) && SkewExplainsTLS(c, skew) {
      TLSWith(t, run, TLSClockSkew, row, [row, Internet, TargetTCP],
              [SupportObservation(run, Internet, ClockOff), reached],
              [Beside(Internet, ClockOff), reach]);
    } else if ClockSkewed(res) && SkewDisprovesTLS(c, skew) {
      TLSWith(t, run, TLSID(c), row, [row, Internet, TargetTCP],
              [RulesOut(run, TLSClockSkew, Internet, ClockOff), reached],
              [Against(RuledOut, TLSClockSkew, Internet, ClockOff), reach]);
    } else if TLSID(c) != TLSTCPUnreachable {
      TLSWith(t, run, TLSID(c), row, [row, TargetTCP], [reached], [reach]);
    } else {
      TLSWith(t, run, TLSID(c), row, [row, TargetTCP], [], []);
    }
  }

  lemma TLSTable(t: Target, res: Results, row: ProbeID)
    requires row in {TLS, SMTP} && row in res
    ensures var c, skew, reach :=
      res[row].cause, ProbeRows.ClockOffset(res), Against(RuledOut, TLSTCPUnreachable, TargetTCP, StatusPass);
      var id := TLSID(c);
      && Elements([row, Internet, TargetTCP]) == RowsOf(Some(t), res, TLSClockSkew, row)
      && Elements([Beside(Internet, ClockOff), reach]) == ClaimsOf(Some(t), res, TLSClockSkew, row)
      && (ClockSkewed(res) && SkewDisprovesTLS(c, skew) ==>
            && Elements([row, Internet, TargetTCP]) == RowsOf(Some(t), res, id, row)
            && Elements([Against(RuledOut, TLSClockSkew, Internet, ClockOff), reach])
               == ClaimsOf(Some(t), res, id, row))
      && (!(ClockSkewed(res) && (SkewExplainsTLS(c, skew) || SkewDisprovesTLS(c, skew))) ==>
            && Elements([row, TargetTCP]) == RowsOf(Some(t), res, id, row)
            && Elements<Claim>(if id != TLSTCPUnreachable then [reach] else []) == ClaimsOf(Some(t), res, id, row))
  {
    hide Elements, RowsOf, ClaimsOf, TLSID;
    TLSElements(row);
    DatesAre(res, row);
    TLSRows(t, res, row, TLSID(res[row].cause));
  }

  lemma TLSElements(row: ProbeID)
    ensures var reach, skewed :=
      Against(RuledOut, TLSTCPUnreachable, TargetTCP, StatusPass), Against(RuledOut, TLSClockSkew, Internet, ClockOff);
      && Elements([row, Internet, TargetTCP]) == {row, Internet, TargetTCP}
         && Elements([row, TargetTCP]) == {row, TargetTCP}
      && Elements([Beside(Internet, ClockOff), reach]) == {Beside(Internet, ClockOff), reach}
      && Elements([skewed, reach]) == {skewed, reach}
      && Elements([reach]) == {reach} && Elements<Claim>([]) == {}
  {
  }

  predicate DateID(id: DiagnosisID) { id == TLSCertificateExpired || id == TLSCertificateNotYetValid }

  lemma DatesAre(res: Results, row: ProbeID)
    requires row in res
    ensures var c, skew := res[row].cause, ProbeRows.ClockOffset(res);
      && (DateID(TLSID(c)) <==> SkewExplainsTLS(c, skew) || SkewDisprovesTLS(c, skew))
      && (ClockSkewed(res) <==> ClockFarOff(res)) && TLSID(c) in TLS_IDS
  {
  }

  const TLS_IDS :=
    {TLSCertificateExpired, TLSCertificateNotYetValid, TLSHostnameMismatch, TLSUntrustedIssuer, TLSTimeout,
                    TLSConnectionClosed, TLSTCPUnreachable, TLSHandshakeFailure}

  lemma TLSRows(t: Target, res: Results, row: ProbeID, id: DiagnosisID)
    requires row in {TLS, SMTP} && row in res && id in TLS_IDS
    ensures var reach, skewed :=
      Against(RuledOut, TLSTCPUnreachable, TargetTCP, StatusPass), Against(RuledOut, TLSClockSkew, Internet, ClockOff);
      && RowsOf(Some(t), res, TLSClockSkew, row) == {row, Internet, TargetTCP}
      && ClaimsOf(Some(t), res, TLSClockSkew, row) == {Beside(Internet, ClockOff), reach}
      && RowsOf(Some(t), res, id, row)
         == (if DateID(id) && ClockFarOff(res) then {row, Internet, TargetTCP} else {row, TargetTCP})
      && ClaimsOf(Some(t), res, id, row) ==
           if id == TLSTCPUnreachable then {}
           else if DateID(id) && ClockFarOff(res) then {skewed, reach}
           else {reach}
  {
    hide RowsOf, ClaimsOf, ClockFarOff;
    TLSRowSets(t, res, row, id);
    TLSClaimSets(t, res, row, id);
  }

  lemma TLSRowSets(t: Target, res: Results, row: ProbeID, id: DiagnosisID)
    requires id in TLS_IDS
    ensures RowsOf(Some(t), res, TLSClockSkew, row) == {row, Internet, TargetTCP}
    ensures RowsOf(Some(t), res, id, row)
            == (if DateID(id) && ClockFarOff(res) then {row, Internet, TargetTCP} else {row, TargetTCP})
  {
    hide ClockFarOff;
  }

  lemma TLSClaimSets(t: Target, res: Results, row: ProbeID, id: DiagnosisID)
    requires id in TLS_IDS
    ensures var reach, skewed :=
      Against(RuledOut, TLSTCPUnreachable, TargetTCP, StatusPass), Against(RuledOut, TLSClockSkew, Internet, ClockOff);
      && ClaimsOf(Some(t), res, TLSClockSkew, row) == {Beside(Internet, ClockOff), reach}
      && ClaimsOf(Some(t), res, id, row) ==
           if id == TLSTCPUnreachable then {}
           else if DateID(id) && ClockFarOff(res) then {skewed, reach}
           else {reach}
  {
    hide ClockFarOff, ResolverClaims;
  }

  lemma TLSWith(t: Target, run: Run, id: DiagnosisID, row: ProbeID, rows: seq<ProbeID>, extra: seq<Option<Item>>,
                claims: seq<Claim>)
    requires row in {TLS, SMTP} && row in run.res && rows != [] && rows[0] == row
    requires forall e :: e in extra && e.Some? ==> True(run, e.value)
    requires AllClaims(run, extra, claims)
    requires Elements(rows) == RowsOf(Some(t), run.res, id, row)
             && Elements(claims) == ClaimsOf(Some(t), run.res, id, row)
    ensures CitesExactly(Some(t), run, Finds(run, id, row, ServiceProblem, rows, extra).findings[0])
  {
    hide Finds, Cited, True, Grounded, AllClaims, RowsOf, ClaimsOf, Elements;
    FindsCites(run, id, row, ServiceProblem, rows, extra, claims);
  }

  lemma HTTPSCites(t: Target, run: Run)
    requires Is(run.res, HTTPS, Fail)
    ensures CitesExactly(Some(t), run, HTTPSFailure(run).findings[0])
  {
    hide Finds, Cited, True, Grounded, Becomes, Makes, Relation;
    var c := run.res[HTTPS].cause;
    var id :=
      if c == InvalidResponse then InvalidHTTPResponse
      else if c == Closed || c == Reset then HTTPConnectionClosed
      else HTTPSNoResponse;
    RelationMakes(run, RuledOut, TLSHandshakeFailure, TLS, StatusPass);
    FindsCites(run, id, HTTPS, ServiceProblem, [HTTPS, TLS], [RulesOut(run, TLSHandshakeFailure, TLS, StatusPass)],
               [Against(RuledOut, TLSHandshakeFailure, TLS, StatusPass)]);
    assert Elements([HTTPS, TLS]) == RowsOf(Some(t), run.res, id, HTTPS);
    assert Elements([Against(RuledOut, TLSHandshakeFailure, TLS, StatusPass)]) == ClaimsOf(Some(t), run.res, id, HTTPS);
  }

  lemma HTTPCites(t: Target, run: Run)
    requires Is(run.res, HTTP, Fail)
    ensures CitesExactly(Some(t), run, HTTPFailure(run, t).findings[0])
  {
    hide Finds, Cited, True, Grounded, Becomes, Makes, Unevaluated, Blame;
    var c, secure := run.res[HTTP].cause, t.proto == TLSAndHTTP;
    if secure && !Works(run.res, HTTPS) {
      UnevaluatedMakes(run, HTTPS, NotSelected);
      FindsCites(run, SelectedServiceCheckFailed, HTTP, ServiceProblem, [HTTP], [Unevaluated(run, HTTPS, NotSelected)],
                 [Unread(HTTPS, NotSelected)]);
      assert Elements([HTTP]) == RowsOf(Some(t), run.res, SelectedServiceCheckFailed, HTTP);
      assert Elements([Unread(HTTPS, NotSelected)]) == ClaimsOf(Some(t), run.res, SelectedServiceCheckFailed, HTTP);
    } else {
      var id :=
        if c == InvalidResponse then InvalidHTTPResponse
        else if c == Closed || c == Reset then HTTPConnectionClosed
        else HTTPNoResponse;
      var from := if secure then [HTTPS] else [TargetTCP];
      assert Elements([HTTP] + from) == RowsOf(Some(t), run.res, id, HTTP);
      PlainCites(Some(t), run, id, HTTP, ServiceProblem, from);
    }
  }

  lemma EndpointElements(t: Target)
    ensures Elements(TargetRows(t)) == EndpointRows(Some(t))
  {
    var rows := TargetRows(t);
    assert rows[0] in rows && (t.proto == TLSAndHTTP ==> rows[1] in rows);
  }

  lemma WithEndpoint(t: Target, before: seq<ProbeID>)
    ensures Elements(before + TargetRows(t)) == Elements(before) + EndpointRows(Some(t))
  {
    hide TargetRows, EndpointRows;
    EndpointElements(t);
  }

  lemma ReferenceCites(t: Target, run: Run)
    requires Internet in run.res
    ensures CitesExactly(Some(t), run, ReferenceFailure(run, t).findings[0])
  {
    hide Finds, Cited, True, Grounded, Becomes, Makes, Relation, Blame, TargetRows, EndpointRows, CitesExactly;
    hide PublicTargetReached;
    var res := run.res;
    if res[Internet].cause == PreferredPathAlternateReachable {
      assert Elements([Internet] + [Internet, TargetTCP]) == {Internet, TargetTCP};
      PlainCites(Some(t), run, ReferenceEgressUnreachable, Internet, Degraded, [Internet, TargetTCP]);
    } else if PublicTargetReached(res) {
      ReachedCites(t, run);
    } else {
      WithEndpoint(t, [Internet]);
      assert Elements([Internet]) == {Internet};
      PlainCites(Some(t), run, DirectEgressBlocked, Internet, Degraded, TargetRows(t));
    }
  }

  lemma ReachedCites(t: Target, run: Run)
    requires Internet in run.res && run.res[Internet].cause != PreferredPathAlternateReachable
             && PublicTargetReached(run.res)
    ensures var o := if Is(run.res, TargetTCP, Warn) then StatusWarn else StatusPass;
      CitesExactly(Some(t), run,
                   Finds(run, ReferenceEgressUnreachable, Internet, Degraded, [Internet, TargetTCP] + TargetRows(t),
                                       [RulesOut(run, DirectEgressBlocked, TargetTCP, o)]).findings[0])
  {
    hide Finds, Cited, True, Grounded, Becomes, Relation, TargetRows, EndpointRows;
    var o := if Is(run.res, TargetTCP, Warn) then StatusWarn else StatusPass;
    RelationMakes(run, RuledOut, DirectEgressBlocked, TargetTCP, o);
    var rows, claims := [Internet, TargetTCP] + TargetRows(t), [Against(RuledOut, DirectEgressBlocked, TargetTCP, o)];
    FindsCites(run, ReferenceEgressUnreachable, Internet, Degraded, rows,
               [RulesOut(run, DirectEgressBlocked, TargetTCP, o)], claims);
    WithEndpoint(t, [Internet, TargetTCP]);
    assert Elements([Internet, TargetTCP]) == {Internet, TargetTCP};
    IdleClaims(run, Elements(rows), Elements(claims), ClaimsOf(Some(t), run.res, ReferenceEgressUnreachable, Internet));
  }

  lemma BesideCites(t: Target, run: Run)
    requires !ProtocolFails(run.res)
    ensures AllCite(Some(t), run, BesideTarget(run, t).findings)
  {
    hide Finds, Cited, True, Grounded, Blame, Fallback, ReferenceFailure, RowsOf, ClaimsOf, CitesExactly;
    hide TargetOK, TargetRows;
    hide AnyFailed, AnyWarned, PublicTargetReached;
    var res := run.res;
    FallbackCites(Some(t), run);
    if TargetOK(t, res) && Is(res, QUIC, Fail) && DirectOK(res) {
      BesidePlain(t, run, QUICUnavailable, QUIC, [Internet]);
    } else if EncryptedDNSBlocked(res) {
      BesidePlain(t, run, EncryptedDNSUnavailable, DNSEncrypted, [DNS, DNSPublic, Internet]);
    } else if TargetOK(t, res) && (Is(res, Internet, Fail) || RelaxedEgress(res)) {
      ReferenceCites(t, run);
    } else if TargetOK(t, res) && Is(res, Proxy, Fail) && DirectOK(res) {
      BesidePlain(t, run, ProxyFailure, Proxy, [Internet]);
    } else if TargetOK(t, res) && Is(res, Internet, Warn) {
      DegradedCites(t, run);
    } else if TargetOK(t, res) && ResolversDiffer(res) {
      BesidePlain(t, run, DNSDisagreement, DNSPublic, [DNS]);
    }
  }

  lemma BesidePlain(t: Target, run: Run, id: DiagnosisID, focus: ProbeID, from: seq<ProbeID>)
    requires focus in run.res
    requires (id, focus, from) in {(QUICUnavailable, QUIC, [Internet]),
                                   (EncryptedDNSUnavailable, DNSEncrypted, [DNS, DNSPublic, Internet]),
                                   (ProxyFailure, Proxy, [Internet]), (DNSDisagreement, DNSPublic, [DNS])}
    ensures CitesExactly(Some(t), run, Blame(run, id, focus, Degraded, from).findings[0])
  {
    hide Blame, Cited, CitesExactly;
    assert Elements([focus] + from) == RowsOf(Some(t), run.res, id, focus);
    PlainCites(Some(t), run, id, focus, Degraded, from);
  }

  lemma DegradedCites(t: Target, run: Run)
    requires Internet in run.res
    ensures CitesExactly(Some(t), run, Blame(run, DirectEgressDegraded, Internet, Degraded, TargetRows(t)).findings[0])
  {
    hide Blame, Cited, CitesExactly, TargetRows, EndpointRows;
    WithEndpoint(t, [Internet]);
    assert Elements([Internet]) == {Internet};
    PlainCites(Some(t), run, DirectEgressDegraded, Internet, Degraded, TargetRows(t));
  }

  lemma NarrowCites(t: Target, run: Run)
    requires PMTU in run.res
    ensures CitesExactly(Some(t), run,
                         Blame(run, ProbablePathMTU, PMTU, NetworkProblem, [TargetTCP] + Stalled(run.res)).findings[0])
  {
    hide Blame, Cited, CitesExactly, OutOfTime, Stalled;
    var from := [TargetTCP] + Stalled(run.res);
    StalledAre(run.res);
    assert Elements([PMTU] + from) == {PMTU, TargetTCP} + Elements(Stalled(run.res));
    PlainCites(Some(t), run, ProbablePathMTU, PMTU, NetworkProblem, from);
  }

  lemma StalledAre(res: Results)
    ensures Elements(Stalled(res)) == OutOfTime(res)
  {
    hide TLSCause;
    var tls := TLSFailureRow(res).0;
    var a, b, c := if Is(res, tls, Fail) && res[tls].timedOut then [tls] else [],
        if Is(res, HTTP, Fail) && res[HTTP].timedOut then [HTTP] else [],
                   if Is(res, HTTPS, Fail) && res[HTTPS].timedOut then [HTTPS] else [];
    assert Stalled(res) == a + b + c;
    assert forall x :: x in Elements(Stalled(res)) <==> x in a || x in b || x in c;
    HandshakeRowIs(res);
  }

  lemma HandshakeRowIs(res: Results)
    ensures TLSFailureRow(res).1 ==> HandshakeFails(res, TLSFailureRow(res).0) && TLSFailureRow(res).0 in {TLS, SMTP}
    ensures forall row :: row in {TLS, SMTP} && HandshakeFails(res, row) ==> TLSFailureRow(res) == (row, true)
    ensures !TLSFailureRow(res).1 ==> TLSFailureRow(res).0 == TLS && !Is(res, TLS, Fail)
  {
  }

  lemma BannerCites(t: Target, run: Run, id: DiagnosisID, row: ProbeID, v: Verdict)
    requires row in run.res && id in {ServiceBannerFailure, ServiceBannerMissing}
    ensures CitesExactly(Some(t), run, Blame(run, id, row, v, [TargetTCP]).findings[0])
  {
    hide Blame, Cited, CitesExactly;
    assert Elements([row] + [TargetTCP]) == RowsOf(Some(t), run.res, id, row);
    PlainCites(Some(t), run, id, row, v, [TargetTCP]);
  }

  lemma PortalCites(t: Option<Target>, run: Run)
    requires Internet in run.res
    ensures CitesExactly(t, run, Blame(run, CaptivePortal, Internet, NetworkProblem, []).findings[0])
  {
    hide Blame, Cited, CitesExactly;
    assert Elements([Internet] + []) == RowsOf(t, run.res, CaptivePortal, Internet);
    PlainCites(t, run, CaptivePortal, Internet, NetworkProblem, []);
  }

  lemma InterfaceCites(t: Option<Target>, run: Run)
    requires Is(run.res, Iface, Fail)
    ensures CitesExactly(t, run,
      Finds(run, NoUsableInterface, Iface, NetworkProblem, [Iface],
            [Unevaluated(run, Internet, Prerequisite), Unevaluated(run, DNS, Prerequisite)]).findings[0])
  {
    hide Finds, Cited, True, Grounded, Becomes, Makes, Unevaluated;
    UnevaluatedMakes(run, Internet, Prerequisite);
    UnevaluatedMakes(run, DNS, Prerequisite);
    var claims := [Unread(Internet, Prerequisite), Unread(DNS, Prerequisite)];
    FindsCites(run, NoUsableInterface, Iface, NetworkProblem, [Iface],
               [Unevaluated(run, Internet, Prerequisite), Unevaluated(run, DNS, Prerequisite)], claims);
    assert Elements([Iface]) == RowsOf(t, run.res, NoUsableInterface, Iface);
    assert Elements(claims) == ClaimsOf(t, run.res, NoUsableInterface, Iface);
  }

  lemma TargetedCites(t: Target, run: Run)
    ensures AllCite(Some(t), run, Targeted(run, t).findings)
  {
    hide Finds, Cited, True, Grounded, Blame, CitesExactly, TargetedDNSFailure, TargetFailure, TLSFailure;
    hide HTTPSFailure, HTTPFailure;
    hide BesideTarget, PathMTUSuspected, TLSFailureRow, Stalled, HandshakeFails, RowsOf, ClaimsOf, BannerRow;
    hide ProtocolBroken;
    var res := run.res;
    NarrowIsPMTU(res);
    if Intercepted(res) {
      PortalCites(Some(t), run);
    } else if Is(res, DNS, Fail) {
      TargetDNSCites(t, run);
    } else if Is(res, TargetTCP, Fail) {
      TargetFailureCites(t, run);
    } else if PathMTUSuspected(res) {
      NarrowCites(t, run);
    } else if ProtocolBroken(res) {
      ProtocolCites(t, run);
    } else {
      BannersCite(t, run);
    }
  }

  predicate ProtocolBroken(res: Results) { TLSFailureRow(res).1 || Is(res, HTTPS, Fail) || Is(res, HTTP, Fail) }

  lemma ProtocolCites(t: Target, run: Run)
    requires ProtocolBroken(run.res) && !Intercepted(run.res) && !Is(run.res, DNS, Fail)
             && !Is(run.res, TargetTCP, Fail)
    requires !PathMTUSuspected(run.res)
    ensures AllCite(Some(t), run, Targeted(run, t).findings)
  {
    hide Finds, Cited, True, Grounded, Blame, CitesExactly, TLSFailure, HTTPSFailure, HTTPFailure, PathMTUSuspected;
    hide TLSFailureRow, HandshakeFails, Intercepted;
    HandshakeRowIs(run.res);
    HandshakeMeansTLS(run.res);
    if TLSFailureRow(run.res).1 {
      TLSCites(t, run, TLSFailureRow(run.res).0);
    } else if Is(run.res, HTTPS, Fail) {
      HTTPSCites(t, run);
    } else {
      HTTPCites(t, run);
    }
  }

  lemma BannersCite(t: Target, run: Run)
    requires !ProtocolBroken(run.res) && !Intercepted(run.res) && !Is(run.res, DNS, Fail)
             && !Is(run.res, TargetTCP, Fail)
    requires !PathMTUSuspected(run.res)
    ensures AllCite(Some(t), run, Targeted(run, t).findings)
  {
    hide Finds, Cited, True, Grounded, Blame, CitesExactly, BesideTarget, PathMTUSuspected, TLSFailureRow, Intercepted;
    hide ProtocolFails, RowsOf, ClaimsOf, ServiceRow;
    NothingProtocol(run.res);
    BannersAre(t, run);
    hide Targeted, ProtocolBroken;
    if Is(run.res, SSH, Fail) || Is(run.res, SMTP, Fail) {
      BannerCites(t, run, ServiceBannerFailure, BannerRow(run.res, Fail), ServiceProblem);
    } else if Is(run.res, SSH, Warn) || Is(run.res, SMTP, Warn) {
      BannerCites(t, run, ServiceBannerMissing, BannerRow(run.res, Warn), Degraded);
    } else {
      BesideCites(t, run);
    }
  }

  lemma BannersAre(t: Target, run: Run)
    requires !ProtocolBroken(run.res) && !Intercepted(run.res) && !Is(run.res, DNS, Fail)
             && !Is(run.res, TargetTCP, Fail)
    requires !PathMTUSuspected(run.res)
    ensures var res := run.res;
      Targeted(run, t) ==
        if Is(res, SSH, Fail) || Is(res, SMTP, Fail) then
          Blame(run, ServiceBannerFailure, BannerRow(res, Fail), ServiceProblem, [TargetTCP])
        else if Is(res, SSH, Warn) || Is(res, SMTP, Warn) then
          Blame(run, ServiceBannerMissing, BannerRow(res, Warn), Degraded, [TargetTCP])
        else BesideTarget(run, t)
  {
    hide Blame, BesideTarget, PathMTUSuspected, TLSFailureRow, Intercepted, TargetFailure, TargetedDNSFailure;
  }

  lemma NothingProtocol(res: Results)
    ensures !ProtocolBroken(res) && !Is(res, SSH, Fail) && !Is(res, SMTP, Fail) ==> !ProtocolFails(res)
  {
    hide TLSCause;
  }

  lemma HandshakeMeansTLS(res: Results)
    ensures TLSFailureRow(res).1 ==> Is(res, TLSFailureRow(res).0, Fail)
    ensures Is(res, TLS, Fail) ==> TLSFailureRow(res).1
  {
  }

  lemma NarrowIsPMTU(res: Results)
    ensures PathMTUSuspected(res) ==> PMTU in res
  {
  }

  /** Every conclusion of the table cites exactly the rows it rests on and the claims they bear out. */
  lemma TableCites(t: Option<Target>, run: Run)
    ensures AllCite(t, run, Table(t, run).findings)
  {
    hide Finds, Cited, True, Grounded, CitesExactly, Generic, Targeted, Unevaluated;
    if run.order != [] && Complete(run) {
      if Is(run.res, Iface, Fail) {
        InterfaceCites(t, run);
      } else if t.None? {
        GenericCites(run);
      } else {
        TargetedCites(t.value, run);
      }
    }
  }

  /** So does the pass: comparisons of the same identity only add their own items. */
  lemma PassCites(t: Option<Target>, run: Run)
    ensures var table, d := Table(t, run).findings, InterpretationOf(t, run).findings;
      && |table| <= |d|
      && forall i, e :: 0 <= i < |table| ==>
           (e in d[i].evidence <==>
              || Cited(run, RowsOf(t, run.res, table[i].id, table[i].focus),
                       ClaimsOf(t, run.res, table[i].id, table[i].focus), e)
              || (MayCompare(run, Table(t, run)) && FromComparison(CounterfactualFindings(t, run), d, i, e)))
  {
    hide Cited, Table, CounterfactualFindings, Blamed, FromComparison, MergeAll;
    TableCites(t, run);
    var d, cs := Table(t, run), CounterfactualFindings(t, run);
    MergeAdds(d, cs);
    assert forall i :: 0 <= i < |d.findings| ==> d.findings[i] in d.findings;
  }

  /** A comparison brought the item to the finding at i, the first of its identity. */
  ghost predicate FromComparison(cs: seq<Finding>, fs: seq<Finding>, i: int, e: Item)
    requires 0 <= i < |fs|
  {
    (forall j :: 0 <= j < i ==> fs[j].id != fs[i].id) && exists c :: c in cs && c.id == fs[i].id && e in c.evidence
  }

  lemma {:induction false} MergeAdds(d: Diagnosis, cs: seq<Finding>)
    ensures Keeps(d, MergeAll(d, cs))
    ensures var fs := MergeAll(d, cs).findings;
      forall i, e :: 0 <= i < |d.findings| ==>
        (e in fs[i].evidence <==> e in d.findings[i].evidence || FromComparison(cs, fs, i, e))
  {
    hide MergeEvidence, Merge, FromComparison;
    MergeAllKeeps(d, cs);
    if cs == [] {
      NoComparison(d.findings);
    } else {
      var n := |cs| - 1;
      var before, c := MergeAll(d, cs[..n]), cs[n];
      var fs := MergeAll(d, cs).findings;
      MergeAdds(d, cs[..n]);
      MergeKeeps(before, c);
      assert cs == cs[..n] + [c];
      forall i, e | 0 <= i < |d.findings|
        ensures e in fs[i].evidence <==> e in d.findings[i].evidence || FromComparison(cs, fs, i, e)
      {
        MergeOne(before, c, i, e);
        FromLast(cs, before.findings, fs, i, e);
      }
    }
  }

  lemma NoComparison(fs: seq<Finding>)
    ensures forall i, e :: 0 <= i < |fs| ==> !FromComparison([], fs, i, e)
  {
  }

  lemma FromLast(cs: seq<Finding>, before: seq<Finding>, fs: seq<Finding>, i: int, e: Item)
    requires cs != [] && 0 <= i < |before| <= |fs| && forall j :: 0 <= j < |before| ==> fs[j].id == before[j].id
    ensures FromComparison(cs, fs, i, e) <==>
      FromComparison(cs[..|cs| - 1], before, i, e) || FromComparison([cs[|cs| - 1]], fs, i, e)
  {
    var n := |cs| - 1;
    assert cs == cs[..n] + [cs[n]];
    assert forall c :: c in cs <==> c in cs[..n] || c == cs[n];
    assert forall c :: c in [cs[n]] <==> c == cs[n];
  }

  lemma MergeOne(d: Diagnosis, c: Finding, i: nat, e: Item)
    requires i < |d.findings|
    ensures var fs := Merge(d, c).findings;
      && i < |fs| && fs[i].id == d.findings[i].id
      && (e in fs[i].evidence <==> e in d.findings[i].evidence || FromComparison([c], fs, i, e))
  {
    hide MergeEvidence;
    assert forall j :: 0 <= j < |d.findings| ==> Merge(d, c).findings[j].id == d.findings[j].id;
    assert forall x :: x in [c] <==> x == c;
  }

  // ---------------------------------------------------------------- what the comparisons hold

  /** Both resolvers were asked for one absolute name. */
  predicate Asked(res: Results) {
    && DNS in res && DNSPublic in res && res[DNSPublic].absolute
    && res[DNSPublic].status != NA && res[DNSPublic].status != Skip
  }

  predicate BothMissing(res: Results) { Asked(res) && res[DNS].dnsNotFound && res[DNSPublic].dnsNotFound }

  predicate OnlyPublicAnswers(res: Results) {
    Asked(res) && !BothMissing(res) && (res[DNS].status == Fail || res[DNS].dnsNotFound) && res[DNSPublic].addrs != []
  }

  predicate AnswersDiffer(res: Results) {
    && Asked(res) && !BothMissing(res) && !OnlyPublicAnswers(res) && res[DNS].addrs != []
    && (res[DNSPublic].dnsNotFound || (res[DNSPublic].addrs != [] && Elsewhere(res)))
  }

  function Supporting(check: ProbeID, o: Observation, v: Value): Item {
    Item(Support, check, Some(o), v, None, NoReason)
  }

  /** The comparison of the two resolvers: when it is made, what it concludes, and what it says of each. */
  lemma ResolverComparison(run: Run)
    ensures var f, res := DNSCounterfactual(run), run.res;
      && (f.Some? <==> BothMissing(res) || OnlyPublicAnswers(res) || AnswersDiffer(res))
      && (BothMissing(res) ==>
            && f.value.id == DNSNameNotFound && f.value.verdict == DNSProblem
            && ComparesBoth(f.value, NotFound, DNSNotFound, NotFound, DNSNotFound))
      && (OnlyPublicAnswers(res) ==>
            && f.value.id == SystemDNSFailure && f.value.verdict == DNSProblem
            && (if res[DNS].dnsNotFound then ComparesBoth(f.value, NotFound, DNSNotFound, Succeeded, DNSAnswers)
                else ComparesBoth(f.value, DidFail, if res[DNS].cause == NoCause then StatusFail else ObservedCause,
                               Succeeded, DNSAnswers)))
      && (AnswersDiffer(res) ==>
            && f.value.id == DNSDisagreement && f.value.verdict == Degraded
            && (if res[DNSPublic].dnsNotFound then ComparesBoth(f.value, Succeeded, DNSAnswers, NotFound, DNSNotFound)
                else ComparesBoth(f.value, Succeeded, DNSAnswers, Succeeded, DNSAnswers)))
  {
    hide Grounded, True, AnswersAgree;
  }

  /** The system resolver and the independent one, what became of each, and what its row shows of it. */
  predicate ComparesBoth(f: Finding, system: Outcome, saw: Observation, independent: Outcome, alsoSaw: Observation) {
    var x, y := Supporting(DNS, saw, NoValue), Supporting(DNSPublic, alsoSaw, NoValue);
    && f.focus == DNS && f.evidence == [x, y]
    && f.counterfactual
       == Some(Counterfactual(DNSResolver,
                              [Alternative(SystemResolver, system, [x]),
                               Alternative(IndependentResolver, independent, [y])]))
  }

  /** The comparison of the two families: the one down, the one up, and the egress that shows it could be up. */
  lemma FamilyComparison(run: Run, down: Family)
    requires OnlyFails(run.res, down)
    ensures FamilyCounterfactual(run).Some?
    ensures var f, up := FamilyCounterfactual(run).value, if down == V4 then V6 else V4;
      var failed, reached := Supporting(TargetTCP, FamilyFailed, OfFamily(down)),
          Supporting(TargetTCP, FamilyReached, OfFamily(up));
      var cited := [failed] + (if Internet in run.res && run.res[Internet].families.Some?
                                  && StateOf(run.res[Internet].families.value, down) == FamilyReachable
                               then [Supporting(Internet, FamilyReached, OfFamily(down))] else []);
      && f.id == (if down == V4 then IPv4TargetUnreachable else IPv6TargetUnreachable)
      && f.verdict == Degraded && f.focus == TargetTCP && f.evidence == cited + [reached]
      && f.counterfactual
         == Some(Counterfactual(AddressFamily,
                                [Alternative(TheFamily(down), DidFail, cited),
                                 Alternative(TheFamily(up), Succeeded, [reached])]))
  {
    hide Grounded, True, EffectiveState;
  }

  /** The comparison of addresses: as failed exactly the sick ones with a working sibling, as working only siblings. */
  lemma AddressComparison(run: Run, ip: IP)
    requires AddressCounterfactual(run).Some?
    ensures var f := AddressCounterfactual(run).value;
      && f.id == PartialReachability && f.verdict == Degraded && f.focus == TargetTCP
      && (Supporting(TargetTCP, AddressFailed, OfAddress(ip)) in f.evidence <==>
            exists a, b :: Sick(run.res, a) && PairBeside(run.res, a, b) && a.ip == ip)
      && (Supporting(TargetTCP, AddressSucceeded, OfAddress(ip)) in f.evidence ==>
            exists a, b :: Sick(run.res, a) && PairBeside(run.res, a, b) && b.ip == ip)
  {
    hide EffectiveState, CanceledAttempt, CompareAddresses, EvidenceFor;
    var res := run.res;
    var r, resolved := Get(res, TargetTCP), Get(res, DNS).addrs;
    var s := CompareAddresses(res, resolved, r, r.attempts);
    EvidenceNames(s.failed, AddressFailed);
    EvidenceNames(s.succeeded, AddressSucceeded);
    FailedAre(run, ip);
    SucceededAre(run, ip);
  }

  lemma PairsAre(res: Results, a: Attempt, b: Attempt)
    ensures var r, resolved := Get(res, TargetTCP), Get(res, DNS).addrs;
      (a in r.attempts && b in r.attempts && SickBeside(res, resolved, r, a, b)) <==>
        Sick(res, a) && PairBeside(res, a, b)
  {
    hide EffectiveState, CanceledAttempt;
    AttemptCauseMeans(a);
  }

  lemma FailedAre(run: Run, ip: IP)
    ensures var r, resolved := Get(run.res, TargetTCP), Get(run.res, DNS).addrs;
      ip in CompareAddresses(run.res, resolved, r, r.attempts).failed <==>
        exists a, b :: Sick(run.res, a) && PairBeside(run.res, a, b) && a.ip == ip
  {
    hide SickAddress, SiblingWorked, Sick, PairBeside;
    var res := run.res;
    var r, resolved := Get(res, TargetTCP), Get(res, DNS).addrs;
    forall a, b
      ensures (a in r.attempts && b in r.attempts && SickBeside(res, resolved, r, a, b)) <==>
        Sick(res, a) && PairBeside(res, a, b)
    {
      PairsAre(res, a, b);
    }
    if a :| a in r.attempts && Counterfactuals.Compares(res, resolved, r, a) && a.ip == ip {
      var b :| b in r.attempts && SiblingWorked(a, resolved, b);
      assert SickBeside(res, resolved, r, a, b);
    }
    if a, b :| Sick(res, a) && PairBeside(res, a, b) && a.ip == ip {
      assert SickBeside(res, resolved, r, a, b);
      assert Counterfactuals.Compares(res, resolved, r, a);
    }
  }

  lemma {:induction false} SiblingsAre(res: Results, resolved: seq<IP>, r: Row, attempts: seq<Attempt>)
    ensures forall ip :: ip in CompareAddresses(res, resolved, r, attempts).succeeded ==>
      exists a ::
        a in attempts && Counterfactuals.Compares(res, resolved, r, a)
          && FirstSibling(a, resolved, r.attempts) == Some(ip)
  {
    hide SickAddress, FirstSibling;
    if attempts != [] {
      var before, last := attempts[..|attempts| - 1], attempts[|attempts| - 1];
      SiblingsAre(res, resolved, r, before);
      assert attempts == before + [last];
      forall ip | ip in CompareAddresses(res, resolved, r, attempts).succeeded
        ensures exists a ::
          a in attempts && Counterfactuals.Compares(res, resolved, r, a)
            && FirstSibling(a, resolved, r.attempts) == Some(ip)
      {
        if ip in CompareAddresses(res, resolved, r, before).succeeded {
          var a :| a in before && Counterfactuals.Compares(res, resolved, r, a)
            && FirstSibling(a, resolved, r.attempts) == Some(ip);
          assert a in attempts;
        } else {
          assert last in attempts;
        }
      }
    }
  }

  lemma SucceededAre(run: Run, ip: IP)
    ensures var r, resolved := Get(run.res, TargetTCP), Get(run.res, DNS).addrs;
      ip in CompareAddresses(run.res, resolved, r, r.attempts).succeeded ==>
        exists a, b :: Sick(run.res, a) && PairBeside(run.res, a, b) && b.ip == ip
  {
    hide SickAddress, SiblingWorked, Sick, PairBeside, CompareAddresses;
    var res := run.res;
    var r, resolved := Get(res, TargetTCP), Get(res, DNS).addrs;
    SiblingsAre(res, resolved, r, r.attempts);
    if ip in CompareAddresses(res, resolved, r, r.attempts).succeeded {
      var a :| a in r.attempts && Counterfactuals.Compares(res, resolved, r, a)
        && FirstSibling(a, resolved, r.attempts) == Some(ip);
      var b :| b in r.attempts && SiblingWorked(a, resolved, b) && b.ip == ip;
      assert SickBeside(res, resolved, r, a, b);
      PairsAre(res, a, b);
    }
  }

  predicate PairBeside(res: Results, a: Attempt, b: Attempt) { Counterfactuals.Beside(res, a, b) }

  lemma {:induction false} EvidenceNames(ips: seq<IP>, o: Observation)
    ensures forall ip, p {:trigger Supporting(TargetTCP, p, OfAddress(ip))} ::
      Supporting(TargetTCP, p, OfAddress(ip)) in EvidenceFor(ips, o) <==> p == o && ip in ips
  {
    if ips != [] {
      EvidenceNames(ips[..|ips| - 1], o);
      assert ips == ips[..|ips| - 1] + [ips[|ips| - 1]];
    }
  }
}
