/**
  A finding's identity names a condition the run observed.

  `Earned` states that condition for every identity, from the rows alone and without the order in
  which the table tries its cases. Each part of the table is then shown to conclude an identity
  only where its condition holds, and so is each comparison that is merged in afterwards.
 */
module Identities {
  import opened Wrappers
  import opened ProbeRows
  import opened CausalEvidence
  import opened Findings
  import opened Counterfactuals
  import opened Interpretation
  import opened Soundness
  import opened Verdicts

  predicate HandshakeRow(id: ProbeID) { id == TLS || id == SMTP }

  predicate BannerRowID(id: ProbeID) { id == SSH || id == SMTP }

  predicate WebRow(id: ProbeID) { id == HTTP || id == HTTPS }

  /** Both resolvers were asked for one absolute name. */
  predicate OneName(res: Results) { DNS in res && DNSPublic in res && res[DNSPublic].absolute }

  predicate ConnectionFailed(t: Option<Target>, res: Results) { t.Some? && Is(res, TargetTCP, Fail) }

  /** The connection failed, and nothing shows that this machine reaches anything: no egress, no proxy, no refusal. */
  predicate Unlocated(t: Option<Target>, res: Results) {
    && ConnectionFailed(t, res) && !DirectOK(res)
    && (if LocalTarget(t.value, res) then res[TargetTCP].cause != Refused else !ProxyCarries(res))
  }

  predicate HandshakeFailed(res: Results, focus: ProbeID) { HandshakeRow(focus) && Is(res, focus, Fail) }

  /** A clock five minutes off or more explains a date: ahead for an expired certificate, behind for a future one. */
  predicate SkewedFor(res: Results, c: Cause) {
    && Internet in res
    && (|| (c == CertificateExpired && res[Internet].clockOffset >= 300_000_000_000)
        || (c == CertificateNotYet && res[Internet].clockOffset <= -300_000_000_000))
  }

  predicate HandshakeSays(res: Results, focus: ProbeID, c: Cause) {
    HandshakeFailed(res, focus) && res[focus].cause == c && !SkewedFor(res, c)
  }

  /** A web row that can speak for itself: the plain one of a secure target only where the secure one works. */
  predicate WebFails(t: Option<Target>, res: Results, focus: ProbeID) {
    && WebRow(focus) && Is(res, focus, Fail)
    && (focus == HTTP ==> t.Some? && (t.value.proto == TLSAndHTTP ==> Works(res, HTTPS)))
  }

  /** The condition each identity claims of the rows, given the row it is about. */
  predicate Earned(t: Option<Target>, res: Results, id: DiagnosisID, focus: ProbeID) {
    match id
    // The link and the path.
    case NoUsableInterface => Is(res, Iface, Fail)
    case CaptivePortal => Intercepted(res)
    case Offline => Is(res, Internet, Fail) && Is(res, DNS, Fail)
    case DirectEgressBlocked =>
      NoEgress(res) && (if t.Some? then !PublicTargetReached(res) && TargetOK(t.value, res)
                        else !(RelaxedEgress(res) && ProxyCarries(res)))
    case DirectEgressDegraded =>
      Is(res, Internet, Warn) && DirectOK(res) && !Is(res, QUIC, Fail) && !EncryptedDNSBlocked(res)
      && (if t.Some? then !Is(res, Proxy, Fail) else !ResolversDiffer(res))
    case ProxyOnlyNetwork =>
      ProxyCarries(res) && !DirectOK(res)
        && (focus == TargetTCP ==> ConnectionFailed(t, res) && !LocalTarget(t.value, res))
    case LocalEgressFailure =>
      Unlocated(t, res) && Internet in res && res[Internet].cause in {NoDefaultRoute, GatewayUnreachable}
    case ReachabilityUnlocalized =>
      Unlocated(t, res) && Internet in res && !(res[Internet].cause in {NoDefaultRoute, GatewayUnreachable})
    case ProbablePathMTU => Is(res, PMTU, Warn) && !Is(res, TargetTCP, Fail) && Stalled(res) != []
    case ReferenceEgressUnreachable =>
      NoEgress(res) && (PublicTargetReached(res) || res[Internet].cause == PreferredPathAlternateReachable)
    // Name resolution.
    case SystemDNSFailure =>
      OneName(res) && (res[DNS].status == Fail || res[DNS].dnsNotFound) && res[DNSPublic].addrs != []
    case DNSNameNotFound => OneName(res) && res[DNS].dnsNotFound && res[DNSPublic].dnsNotFound
    case DNSFailure =>
      Is(res, DNS, Fail)
      && (RelaxedEgress(res)
          || !(OneName(res) && (res[DNSPublic].addrs != [] || (res[DNS].dnsNotFound && res[DNSPublic].dnsNotFound))))
    case DNSDisagreement => OneName(res)
      && (Is(res, DNSPublic, Warn) || res[DNSPublic].answers == Disagree
          || (res[DNS].addrs != [] && (res[DNSPublic].dnsNotFound || Elsewhere(res))))
    case EncryptedDNSUnavailable =>
      EncryptedDNSBlocked(res) && !(Is(res, QUIC, Fail) && (t.Some? ==> TargetOK(t.value, res)))
    // Beside the direct path.
    case QUICUnavailable =>
      Is(res, QUIC, Fail) && DirectOK(res)
      && (t.None? ==> !DialedElsewhere(res) && !UncorroboratedFailure(res, QUIC, ResolvedByTheProbe))
    case ProxyFailure =>
      Is(res, Proxy, Fail) && Works(res, Internet) && !EncryptedDNSBlocked(res)
        && !(DirectOK(res) && Is(res, QUIC, Fail))
    // The endpoint.
    case TCPConnectionRefused =>
      ConnectionFailed(t, res) && res[TargetTCP].cause == Refused && (LocalTarget(t.value, res) || DirectOK(res))
    case TargetUnreachable =>
      ConnectionFailed(t, res) && res[TargetTCP].cause != Refused && !LocalTarget(t.value, res) && DirectOK(res)
      && AllTried(res) && !UncorroboratedFailure(res, TargetTCP, ResolvedByTheDNSRow)
    case LocalDeviceUnreachable =>
      ConnectionFailed(t, res) && res[TargetTCP].cause != Refused && LocalTarget(t.value, res) && DirectOK(res)
    case ReachabilityUntested => Unlocated(t, res) && Internet !in res
    case IPv4TargetUnreachable => OnlyFails(res, V4)
    case IPv6TargetUnreachable => OnlyFails(res, V6)
    case PartialReachability => SomeAddressIsSick(res, Get(res, DNS).addrs, Get(res, TargetTCP))
    case UncorroboratedEndpointFailure => Is(res, focus, Fail) && DirectOK(res)
      && (focus == TargetTCP ==>
        ConnectionFailed(t, res) && res[TargetTCP].cause != Refused && !LocalTarget(t.value, res))
      && UncorroboratedFailure(res, focus, if focus == QUIC then ResolvedByTheProbe else ResolvedByTheDNSRow)
    // TLS, by the row's own cause, and the clock only where it points the same way.
    case TLSClockSkew => HandshakeFailed(res, focus) && SkewedFor(res, res[focus].cause)
    case TLSCertificateExpired => HandshakeSays(res, focus, CertificateExpired)
    case TLSCertificateNotYetValid => HandshakeSays(res, focus, CertificateNotYet)
    case TLSHostnameMismatch => HandshakeSays(res, focus, HostnameMismatch)
    case TLSUntrustedIssuer => HandshakeSays(res, focus, UntrustedIssuer)
    case TLSTimeout => HandshakeSays(res, focus, Timeout)
    case TLSConnectionClosed => HandshakeSays(res, focus, Closed)
    case TLSTCPUnreachable => HandshakeSays(res, focus, TCPUnreachable)
    case TLSHandshakeFailure =>
      HandshakeFailed(res, focus)
      && !(res[focus].cause in {CertificateExpired, CertificateNotYet, HostnameMismatch, UntrustedIssuer, Timeout,
                                Closed, TCPUnreachable})
    // The application.
    case HTTPSNoResponse =>
      focus == HTTPS && Is(res, focus, Fail) && !(res[focus].cause in {InvalidResponse, Closed, Reset})
    case HTTPNoResponse =>
      focus == HTTP && WebFails(t, res, focus) && !(res[focus].cause in {InvalidResponse, Closed, Reset})
    case HTTPConnectionClosed => WebFails(t, res, focus) && (res[focus].cause == Closed || res[focus].cause == Reset)
    case InvalidHTTPResponse => WebFails(t, res, focus) && res[focus].cause == InvalidResponse
    case ServiceBannerFailure => BannerRowID(focus) && Is(res, focus, Fail)
    case ServiceBannerMissing => BannerRowID(focus) && Is(res, focus, Warn)
    case SelectedDNSCheckFailed => focus == DNS && Is(res, focus, Fail)
    case SelectedServiceCheckFailed =>
      focus in {TLS, HTTP, HTTPS, SSH, SMTP} && Is(res, focus, Fail)
      && (t.Some? ==> focus == HTTP && t.value.proto == TLSAndHTTP && !Works(res, HTTPS))
    case SelectedNetworkCheckFailed => !(focus in {DNS, TLS, HTTP, HTTPS, SSH, SMTP}) && Is(res, focus, Fail)
  }

  predicate AllEarned(t: Option<Target>, res: Results, fs: seq<Finding>) {
    forall f :: f in fs ==> Earned(t, res, f.id, f.focus)
  }

  // ---------------------------------------------------------------- the table

  /** No rung of the service broke. */
  predicate ServiceStands(res: Results) { forall id :: id in {TLS, HTTP, HTTPS, SSH, SMTP} ==> !Is(res, id, Fail) }

  lemma FallbackEarned(t: Option<Target>, run: Run)
    requires t.Some? ==> ServiceStands(run.res)
    ensures AllEarned(t, run.res, Fallback(run).findings)
  {
    hide Grounded, True, Finds, Blame, FirstFailed;
  }

  lemma GenericInline(res: Results)
    ensures Intercepted(res) ==> Earned(None, res, CaptivePortal, Internet)
    ensures EncryptedDNSBlocked(res) && !Is(res, QUIC, Fail) ==>
      Earned(None, res, EncryptedDNSUnavailable, DNSEncrypted)
    ensures Is(res, Internet, Pass) && Is(res, Proxy, Fail) ==>
      EncryptedDNSBlocked(res) || (DirectOK(res) && Is(res, QUIC, Fail)) || Earned(None, res, ProxyFailure, Proxy)
    ensures ResolversDiffer(res) ==> Earned(None, res, DNSDisagreement, DNSPublic)
    ensures RelaxedEgress(res) && ProxyCarries(res) ==> Earned(None, res, ProxyOnlyNetwork, Internet)
    ensures RelaxedEgress(res) && Is(res, DNS, Fail) ==> Earned(None, res, DNSFailure, DNS)
    ensures DirectOK(res) && Is(res, Internet, Warn) ==>
      || Is(res, QUIC, Fail) || EncryptedDNSBlocked(res) || ResolversDiffer(res)
      || Earned(None, res, DirectEgressDegraded, Internet)
    ensures NoEgress(res) && !(RelaxedEgress(res) && ProxyCarries(res)) ==>
      Earned(None, res, DirectEgressBlocked, Internet)
    ensures Is(res, Internet, Fail) && Is(res, DNS, Fail) ==> Earned(None, res, Offline, Internet)
  {
    hide EncryptedDNSBlocked;
  }

  lemma GenericEarned(run: Run)
    ensures AllEarned(None, run.res, Generic(run).findings)
  {
    hide Grounded, True, Fallback, Blame, Finds, GenericVerdict, EncryptedDNSBlocked, GenericDNSFailure;
    hide GenericQUICFailure, Earned, ResolversDiffer;
    GenericInline(run.res);
    ResolversDifferMeans(run.res);
    FallbackEarned(None, run);
    if DirectOK(run.res) && Is(run.res, DNS, Fail) {
      GenericDNSEarned(run);
    }
    if DirectOK(run.res) && Is(run.res, QUIC, Fail) {
      GenericQUICEarned(run);
    }
    BlockedIsDirect(run.res);
  }

  lemma ResolversDifferMeans(res: Results)
    ensures ResolversDiffer(res) ==> DNSPublic in res
  {
  }

  lemma DisagreementMeans(res: Results)
    ensures QUICUsedDisagreeingAnswer(res) ==> NamesComparable(res) && res[DNSPublic].answers == Disagree
  {
  }

  lemma GenericDNSEarned(run: Run)
    requires DirectOK(run.res) && Is(run.res, DNS, Fail)
    ensures AllEarned(None, run.res, GenericDNSFailure(run).findings)
  {
    hide Grounded, True, Finds, GenericVerdict, RulesOut, Contradicts;
  }

  lemma GenericQUICEarned(run: Run)
    requires DirectOK(run.res) && Is(run.res, QUIC, Fail)
    ensures AllEarned(None, run.res, GenericQUICFailure(run).findings)
  {
    hide Grounded, True, Finds, Blame, GenericVerdict, UncorroboratedFailure, QUICUsedDisagreeingAnswer;
    hide DialedElsewhere;
    DialedIsUsed(run.res);
    DisagreementMeans(run.res);
  }

  lemma TargetFailureEarned(run: Run, t: Target)
    requires Is(run.res, TargetTCP, Fail)
    ensures AllEarned(Some(t), run.res, TargetFailure(run, t).findings)
  {
    hide Grounded, True, Finds, Blame, UncorroboratedFailure, AllTried, LocalTarget, RulesOut, Contradicts, Unevaluated;
  }

  lemma RungsEarned(run: Run, t: Target)
    ensures Is(run.res, DNS, Fail) ==> AllEarned(Some(t), run.res, TargetedDNSFailure(run).findings)
    ensures Is(run.res, HTTPS, Fail) ==> AllEarned(Some(t), run.res, HTTPSFailure(run).findings)
    ensures Is(run.res, HTTP, Fail) ==> AllEarned(Some(t), run.res, HTTPFailure(run, t).findings)
  {
    hide TargetedDNSFailure, HTTPSFailure, HTTPFailure, Earned, Grounded;
    if Is(run.res, DNS, Fail) {
      DNSRungEarned(run, t);
    }
    if Is(run.res, HTTPS, Fail) {
      HTTPSRungEarned(run, t);
    }
    if Is(run.res, HTTP, Fail) {
      HTTPRungEarned(run, t);
    }
  }

  lemma DNSRungEarned(run: Run, t: Target)
    requires Is(run.res, DNS, Fail)
    ensures AllEarned(Some(t), run.res, TargetedDNSFailure(run).findings)
  {
    hide Grounded, True, Finds, Contradicts, RulesOut, Unevaluated, DirectOK;
  }

  lemma HTTPSRungEarned(run: Run, t: Target)
    requires Is(run.res, HTTPS, Fail)
    ensures AllEarned(Some(t), run.res, HTTPSFailure(run).findings)
  {
    hide Grounded, True, Finds, RulesOut;
  }

  lemma HTTPRungEarned(run: Run, t: Target)
    requires Is(run.res, HTTP, Fail)
    ensures AllEarned(Some(t), run.res, HTTPFailure(run, t).findings)
  {
    hide Grounded, True, Finds, Blame, Unevaluated;
  }

  lemma SkewIsFor(res: Results, c: Cause)
    ensures ClockSkewed(res) && SkewExplainsTLS(c, ClockOffset(res)) <==> SkewedFor(res, c)
  {
  }

  lemma TLSEarned(run: Run, t: Option<Target>, row: ProbeID)
    requires HandshakeRow(row) && Is(run.res, row, Fail)
    ensures AllEarned(t, run.res, TLSFailure(run, row).findings)
  {
    hide Grounded, True, Finds, SkewedFor, SkewExplainsTLS, ClockSkewed;
    SkewIsFor(run.res, run.res[row].cause);
  }

  lemma BesideInline(res: Results, t: Option<Target>)
    requires t.Some?
    ensures Is(res, QUIC, Fail) && DirectOK(res) ==> Earned(t, res, QUICUnavailable, QUIC)
    ensures EncryptedDNSBlocked(res) && !(t.Some? && TargetOK(t.value, res) && Is(res, QUIC, Fail)) ==>
      Earned(t, res, EncryptedDNSUnavailable, DNSEncrypted)
    ensures Is(res, Proxy, Fail) && DirectOK(res) && !EncryptedDNSBlocked(res) && !Is(res, QUIC, Fail) ==>
      Earned(t, res, ProxyFailure, Proxy)
    ensures Is(res, Internet, Warn) && !RelaxedEgress(res) ==>
      || EncryptedDNSBlocked(res) || Is(res, QUIC, Fail) || Is(res, Proxy, Fail)
      || Earned(t, res, DirectEgressDegraded, Internet)
    ensures ResolversDiffer(res) ==> Earned(t, res, DNSDisagreement, DNSPublic)
  {
    hide EncryptedDNSBlocked, TargetOK;
  }

  lemma ReferenceEarned(run: Run, t: Target)
    requires Is(run.res, Internet, Fail) || RelaxedEgress(run.res)
    requires TargetOK(t, run.res)
    ensures AllEarned(Some(t), run.res, ReferenceFailure(run, t).findings)
  {
    hide Grounded, True, Finds, Blame, TargetOK, RulesOut;
  }

  lemma BesideTargetEarned(run: Run, t: Target)
    requires ServiceStands(run.res)
    ensures AllEarned(Some(t), run.res, BesideTarget(run, t).findings)
  {
    hide Grounded, True, Blame, Fallback, TargetOK, EncryptedDNSBlocked, Earned, ReferenceFailure, ResolversDiffer;
    FallbackEarned(Some(t), run);
    BesideInline(run.res, Some(t));
    ResolversDifferMeans(run.res);
    BlockedIsDirect(run.res);
    if TargetOK(t, run.res) && (Is(run.res, Internet, Fail) || RelaxedEgress(run.res)) {
      ReferenceEarned(run, t);
    }
  }

  lemma InlineEarned(run: Run, t: Option<Target>)
    ensures Intercepted(run.res) ==> Earned(t, run.res, CaptivePortal, Internet)
    ensures PathMTUSuspected(run.res) && !Is(run.res, TargetTCP, Fail) ==> Earned(t, run.res, ProbablePathMTU, PMTU)
    ensures Is(run.res, SSH, Fail) || Is(run.res, SMTP, Fail) ==>
      Earned(t, run.res, ServiceBannerFailure, BannerRow(run.res, Fail))
    ensures Is(run.res, SSH, Warn) || Is(run.res, SMTP, Warn) ==>
      Earned(t, run.res, ServiceBannerMissing, BannerRow(run.res, Warn))
  {
    hide Stalled, CertificateRejected;
  }

  lemma HandshakeRowFailed(res: Results)
    ensures TLSFailureRow(res).1 ==> HandshakeRow(TLSFailureRow(res).0) && Is(res, TLSFailureRow(res).0, Fail)
    ensures PathMTUSuspected(res) ==> PMTU in res
    ensures Intercepted(res) ==> Internet in res
  {
    hide TLSCause, Stalled, CertificateRejected;
  }

  lemma TargetedEarned(run: Run, t: Target)
    ensures AllEarned(Some(t), run.res, Targeted(run, t).findings)
  {
    hide Grounded, True, Blame, Earned, TargetFailure, BesideTarget, TargetedDNSFailure, TLSFailure;
    hide HTTPSFailure, HTTPFailure;
    hide TLSFailureRow, PathMTUSuspected, Stalled, Intercepted;
    if Is(run.res, TargetTCP, Fail) {
      TargetFailureEarned(run, t);
    }
    HandshakeRowFailed(run.res);
    InlineEarned(run, Some(t));
    RungsEarned(run, t);
    StandsUnlessBroken(run.res);
    if ServiceStands(run.res) {
      BesideTargetEarned(run, t);
    }
    if TLSFailureRow(run.res).1 {
      TLSEarned(run, Some(t), TLSFailureRow(run.res).0);
    }
  }

  lemma StandsUnlessBroken(res: Results)
    ensures TLSFailureRow(res).1 || ServiceStands(res)
            || exists id :: id in {HTTPS, HTTP, SSH, SMTP} && Is(res, id, Fail)
  {
    hide TLSCause;
  }

  lemma TableEarned(t: Option<Target>, run: Run)
    ensures AllEarned(t, run.res, Table(t, run).findings) && |Table(t, run).findings| <= 1
  {
    hide Grounded, True, Finds, Generic, Targeted, Complete;
    GenericEarned(run);
    GenericSmall(run);
    if t.Some? {
      TargetedEarned(run, t.value);
      TargetedSmall(run, t.value);
    }
  }

  lemma GenericSmall(run: Run)
    ensures |Generic(run).findings| <= 1
  {
    hide Grounded, True, Finds, Blame, GenericVerdict, EncryptedDNSBlocked, GenericDNSFailure, GenericQUICFailure;
    BlockedIsDirect(run.res);
  }

  lemma TargetedSmall(run: Run, t: Target)
    ensures |Targeted(run, t).findings| <= 1
  {
    hide Grounded, True, Finds, Blame, LocalTarget, LocalTargetFailure, ReachableNetworkFailure;
    hide TargetedDNSFailure, TLSFailure, HTTPSFailure, HTTPFailure, ReferenceFailure, EncryptedDNSBlocked;
    hide TargetOK, PathMTUSuspected;
    BlockedIsDirect(run.res);
  }

  // ---------------------------------------------------------------- the comparisons

  lemma ComparisonsEarned(t: Option<Target>, run: Run)
    ensures AllEarned(t, run.res, CounterfactualFindings(t, run))
  {
    hide Grounded, True, DNSCounterfactual, FamilyCounterfactual, AddressCounterfactual, Earned;
    ResolversEarned(t, run);
    FamilyEarned(t, run);
    AddressEarned(t, run);
  }

  lemma ResolversEarned(t: Option<Target>, run: Run)
    ensures DNSCounterfactual(run).Some? ==>
      var f := DNSCounterfactual(run).value; Earned(t, run.res, f.id, f.focus)
  {
    hide Grounded, True, AnswersAgree;
  }

  lemma FamilyEarned(t: Option<Target>, run: Run)
    ensures FamilyCounterfactual(run).Some? ==>
      var f := FamilyCounterfactual(run).value; Earned(t, run.res, f.id, f.focus)
  {
    hide Grounded, True, OnlyFails, FamilyFinding;
  }

  lemma AddressEarned(t: Option<Target>, run: Run)
    ensures AddressCounterfactual(run).Some? ==>
      var f := AddressCounterfactual(run).value; Earned(t, run.res, f.id, f.focus)
  {
    hide SomeAddressIsSick, CompareAddresses;
    PartialExactlyWhen(run);
  }

  // ---------------------------------------------------------------- the whole pass

  predicate DistinctIDs(fs: seq<Finding>) { forall i, j :: 0 <= i < j < |fs| ==> fs[i].id != fs[j].id }

  lemma {:induction false} MergeAllDistinct(d: Diagnosis, cs: seq<Finding>)
    requires DistinctIDs(d.findings)
    ensures DistinctIDs(MergeAll(d, cs).findings)
  {
    hide MergeEvidence, IndexOf;
    if cs != [] {
      MergeAllDistinct(d, cs[..|cs| - 1]);
    }
  }

  /** Every conclusion of every run was earned, and none is drawn twice. */
  lemma FindingsAreEarned(t: Option<Target>, run: Run)
    ensures AllEarned(t, run.res, InterpretationOf(t, run).findings)
    ensures DistinctIDs(InterpretationOf(t, run).findings)
  {
    hide Table, CounterfactualFindings, MergeAll, Earned;
    TableEarned(t, run);
    ComparisonsEarned(t, run);
    var d, cs := Table(t, run), CounterfactualFindings(t, run);
    MergeAllKeeps(d, cs);
    MergeAllDistinct(d, cs);
    var fs := InterpretationOf(t, run).findings;
    forall i | 0 <= i < |fs|
      ensures Earned(t, run.res, fs[i].id, fs[i].focus)
    {
      if i < |d.findings| {
        assert d.findings[i] in d.findings;
      } else {
        var c :| c in cs && SameConclusion(c, fs[i]);
      }
    }
  }

  /** The pass as it runs, comparison by comparison. */
  method Interpret(t: Option<Target>, run: Run) returns (d: Diagnosis)
    ensures d == InterpretationOf(t, run)
    ensures AllGrounded(run, d.findings) && AllEarned(t, run.res, d.findings) && DistinctIDs(d.findings)
  {
    EvidenceIsTrue(t, run);
    FindingsAreEarned(t, run);
    hide Table, CounterfactualFindings, IndexOf, AllGrounded, AllEarned, DistinctIDs, Merge;
    d := Table(t, run);
    ghost var table := d;
    if MayCompare(run, d) {
      var cs := CounterfactualFindings(t, run);
      for i := 0 to |cs|
        invariant d == MergeAll(table, cs[..i])
      {
        assert cs[..i + 1][..i] == cs[..i];
        d := Joined(d, cs[i]);
      }
      assert cs[..|cs|] == cs;
    }
    var blamed := None;
    if d.findings != [] {
      blamed := Some(d.findings[0].focus);
    } else {
      blamed := FindFailed(run.order, run.res);
    }
    d := d.(blamed := blamed);
  }
}
