/**
  The interpretation pass: one ordered truth table over the rows of a run.

  `Table` walks it, with or without a target, and `InterpretationOf` merges the comparisons in
  and decides which row is blamed. The order of the cases matters: several overlap, and the first
  that holds is the one concluded. Sentences are left out; identities, verdicts, focus and
  evidence are what the code computes.
 */
module Interpretation {
  import opened Wrappers
  import opened ProbeRows
  import opened CausalEvidence
  import opened Findings
  import opened Counterfactuals

  // ---------------------------------------------------------------- readings of the whole run

  predicate Complete(run: Run) { forall id :: id in run.order ==> id in run.res }

  predicate AnyWarned(run: Run) { exists id :: id in run.order && Is(run.res, id, Warn) }

  predicate AnyFailed(run: Run) { exists id :: id in run.order && Is(run.res, id, Fail) }

  function Healthy(run: Run): Verdict { if AnyWarned(run) then Degraded else OK }

  /** The first selected row that failed. */
  function FirstFailed(order: seq<ProbeID>, res: Results): (id: Option<ProbeID>)
    ensures id.Some? ==> id.value in order && Is(res, id.value, Fail)
    ensures id.None? <==> forall x :: x in order ==> !Is(res, x, Fail)
  {
    if order == [] then None
    else if Is(res, order[0], Fail) then Some(order[0])
    else
      assert forall x :: x in order <==> x == order[0] || x in order[1..];
      FirstFailed(order[1..], res)
  }

  /** The rows that decide whether the endpoint under test works. */
  function TargetRows(t: Target): seq<ProbeID> {
    match t.proto
    case TLSAndHTTP => [HTTP, HTTPS]
    case PlainHTTP => [HTTP]
    case SSHProto => [SSH]
    case SMTPProto => [SMTP]
    case NoProto => [TargetTCP]
  }

  predicate TargetOK(t: Target, res: Results) { forall id :: id in TargetRows(t) ==> Works(res, id) }

  /** No resolved address is left that no attempt was made to. */
  predicate AllTried(res: Results) {
    Get(res, DNS).addrs == [] || forall ip :: ip in Get(res, DNS).addrs ==>
      exists a :: a in Get(res, TargetTCP).attempts && a.ip == ip
  }

  function TLSID(c: Cause): DiagnosisID {
    match c
    case CertificateExpired => TLSCertificateExpired
    case CertificateNotYet => TLSCertificateNotYetValid
    case HostnameMismatch => TLSHostnameMismatch
    case UntrustedIssuer => TLSUntrustedIssuer
    case Timeout => TLSTimeout
    case Closed => TLSConnectionClosed
    case TCPUnreachable => TLSTCPUnreachable
    case _ => TLSHandshakeFailure
  }

  /** Protocol rows that spent their whole budget rather than answering. */
  function Stalled(res: Results): (rows: seq<ProbeID>)
    ensures forall id :: id in rows ==> Is(res, id, Fail) && res[id].timedOut
  {
    var tls := TLSFailureRow(res).0;
    (if Is(res, tls, Fail) && res[tls].timedOut then [tls] else [])
    + (if Is(res, HTTP, Fail) && res[HTTP].timedOut then [HTTP] else [])
    + (if Is(res, HTTPS, Fail) && res[HTTPS].timedOut then [HTTPS] else [])
  }

  // ---------------------------------------------------------------- a selection nothing else explains

  function Fallback(run: Run): Diagnosis {
    var id := FirstFailed(run.order, run.res);
    if id.None? then Plain(Healthy(run))
    else match id.value
      case DNS => Blame(run, SelectedDNSCheckFailed, DNS, DNSProblem, [])
      case TLS | HTTP | HTTPS | SSH | SMTP => Blame(run, SelectedServiceCheckFailed, id.value, ServiceProblem, [])
      case _ => Blame(run, SelectedNetworkCheckFailed, id.value, NetworkProblem, [])
  }

  // ---------------------------------------------------------------- no target

  predicate NoEgress(res: Results) { Internet in res && !DirectOK(res) }

  /** Which of the two rungs a generic run lost. */
  function GenericVerdict(run: Run): Verdict {
    if NoEgress(run.res) && Is(run.res, DNS, Fail) then NetworkProblem
    else if Is(run.res, DNS, Fail) then DNSProblem
    else if NoEgress(run.res) && !ProxyCarries(run.res) then NetworkProblem
    else if NoEgress(run.res) then Degraded
    else Healthy(run)
  }

  function GenericDNSFailure(run: Run): (d: Diagnosis)
    requires DirectOK(run.res) && Is(run.res, DNS, Fail)
    ensures |d.findings| == 1 && Grounded(run, d.findings[0]) && d.verdict == d.findings[0].verdict == DNSProblem
  {
    var res := run.res;
    if PublicResolves(res) then
      Finds(run, SystemDNSFailure, DNS, GenericVerdict(run), [DNS, DNSPublic, Internet],
            [Contradicts(run, DNSFailure, DNSPublic, DNSAnswers), RulesOut(run, DNSNameNotFound, DNSPublic, DNSAnswers),
             RulesOut(run, Offline, Internet, StatusPass)])
    else if BothNotFound(res) then
      Finds(run, DNSNameNotFound, DNS, GenericVerdict(run), [DNS, DNSPublic, Internet],
            [RulesOut(run, SystemDNSFailure, DNSPublic, DNSNotFound), RulesOut(run, Offline, Internet, StatusPass)])
    else
      Finds(run, DNSFailure, DNS, GenericVerdict(run), [DNS, Internet],
            [RulesOut(run, Offline, Internet, if Is(res, Internet, Warn) then StatusWarn else StatusPass)])
  }

  function GenericQUICFailure(run: Run): (d: Diagnosis)
    requires DirectOK(run.res) && Is(run.res, QUIC, Fail)
    ensures |d.findings| == 1 && Grounded(run, d.findings[0]) && d.verdict == d.findings[0].verdict
  {
    if QUICUsedDisagreeingAnswer(run.res) then
      Finds(run, DNSDisagreement, DNSPublic, GenericVerdict(run), [DNSPublic, DNS, QUIC, Internet],
            [Contradicts(run, QUICUnavailable, DNSPublic, StatusWarn)])
    else if UncorroboratedFailure(run.res, QUIC, ResolvedByTheProbe) then
      Finds(run, UncorroboratedEndpointFailure, QUIC, Degraded, [QUIC, DNS, DNSPublic, Internet],
            [Contradicts(run, QUICUnavailable, DNSPublic, DNSAnswers)])
    else
      Blame(run, QUICUnavailable, QUIC, Degraded, [Internet])
  }

  predicate ResolversDiffer(res: Results) { NamesComparable(res) && Is(res, DNSPublic, Warn) && Works(res, DNS) }

  predicate RelaxedEgress(res: Results) { Is(res, Internet, Warn) && res[Internet].downgraded }

  function Generic(run: Run): Diagnosis {
    var res := run.res;
    var gv := GenericVerdict(run);
    var ip, dn := Is(res, Internet, Pass), Is(res, DNS, Pass);
    if Intercepted(res) then Blame(run, CaptivePortal, Internet, NetworkProblem, [])
    else if DirectOK(res) && Is(res, DNS, Fail) then GenericDNSFailure(run)
    else if DirectOK(res) && Is(res, QUIC, Fail) then GenericQUICFailure(run)
    else if EncryptedDNSBlocked(res) then
      Blame(run, EncryptedDNSUnavailable, DNSEncrypted, Degraded, [DNS, DNSPublic, Internet])
    else if ip && dn && Is(res, Proxy, Fail) then Blame(run, ProxyFailure, Proxy, Degraded, [Internet, DNS])
    else if DirectOK(res) && ResolversDiffer(res) then Blame(run, DNSDisagreement, DNSPublic, gv, [DNS])
    else if ip && dn then Plain(gv)
    else if RelaxedEgress(res) && dn && ProxyCarries(res) then Blame(run, ProxyOnlyNetwork, Internet, gv, [Proxy, DNS])
    else if RelaxedEgress(res) && Is(res, DNS, Fail) && ProxyCarries(res) then
      Blame(run, DNSFailure, DNS, gv, [Internet, Proxy])
    else if DirectOK(res) && Is(res, Internet, Warn) && dn then Blame(run, DirectEgressDegraded, Internet, gv, [DNS])
    else if NoEgress(res) && dn then Blame(run, DirectEgressBlocked, Internet, gv, [DNS])
    else if Is(res, Internet, Fail) && Is(res, DNS, Fail) then Blame(run, Offline, Internet, gv, [DNS])
    else Fallback(run)
  }

  // ---------------------------------------------------------------- a target

  function TargetedDNSFailure(run: Run): (d: Diagnosis)
    requires Is(run.res, DNS, Fail)
    ensures |d.findings| == 1 && Grounded(run, d.findings[0]) && d.verdict == d.findings[0].verdict == DNSProblem
  {
    var res := run.res;
    var id :=
      if PublicResolves(res) then SystemDNSFailure else if BothNotFound(res) then DNSNameNotFound else DNSFailure;
    var about :=
      if id == SystemDNSFailure then
        [Contradicts(run, DNSFailure, DNSPublic, DNSAnswers), RulesOut(run, DNSNameNotFound, DNSPublic, DNSAnswers)]
      else if id == DNSNameNotFound then [RulesOut(run, SystemDNSFailure, DNSPublic, DNSNotFound)]
      else [];
    var egress :=
      if !DirectOK(res) then []
      else [RulesOut(run, Offline, Internet, if Is(res, Internet, Warn) then StatusWarn else StatusPass)];
    Finds(run, id, DNS, DNSProblem, [DNS, DNSPublic, Internet],
          about + egress + [Unevaluated(run, TargetTCP, Prerequisite)])
  }

  /** A device on the same network is not reached through the internet. */
  function LocalTargetFailure(run: Run): (d: Diagnosis)
    requires Is(run.res, TargetTCP, Fail)
    ensures |d.findings| == 1 && Grounded(run, d.findings[0]) && d.verdict == d.findings[0].verdict
  {
    var res := run.res;
    if res[TargetTCP].cause == Refused then
      Finds(run, TCPConnectionRefused, TargetTCP, ServiceProblem, [TargetTCP],
            [RulesOut(run, LocalDeviceUnreachable, TargetTCP, ObservedCause)])
    else if DirectOK(res) then Blame(run, LocalDeviceUnreachable, TargetTCP, ServiceProblem, [Internet])
    else if Internet !in res then
      Finds(run, ReachabilityUntested, TargetTCP, NetworkProblem, [TargetTCP],
            [Unevaluated(run, Internet, NotSelected)])
    else if LocalPathObserved(res[Internet].cause) then
      Blame(run, LocalEgressFailure, Internet, NetworkProblem, [TargetTCP])
    else Blame(run, ReachabilityUnlocalized, Internet, NetworkProblem, [TargetTCP])
  }

  /** With reference egress working, the far end or what this run tried of it. */
  function ReachableNetworkFailure(run: Run): (d: Diagnosis)
    requires Is(run.res, TargetTCP, Fail) && DirectOK(run.res)
    ensures AllGrounded(run, d.findings) && |d.findings| <= 1
            && (d.findings != [] ==> d.verdict == d.findings[0].verdict)
  {
    var res := run.res;
    if res[TargetTCP].cause == Refused then RefusedTarget(run)
    else SilentTarget(run)
  }

  function SilentTarget(run: Run): (d: Diagnosis)
    requires Is(run.res, TargetTCP, Fail)
    ensures AllGrounded(run, d.findings) && |d.findings| <= 1
            && (d.findings != [] ==> d.verdict == d.findings[0].verdict)
  {
    if UncorroboratedFailure(run.res, TargetTCP, ResolvedByTheDNSRow) then OnlySystemAnswers(run)
    else if !AllTried(run.res) then Plain(NetworkProblem)
    else EveryAnswerSilent(run)
  }

  function OnlySystemAnswers(run: Run): (d: Diagnosis)
    requires Is(run.res, TargetTCP, Fail)
    ensures |d.findings| == 1 && Grounded(run, d.findings[0]) && d.verdict == d.findings[0].verdict == NetworkProblem
    ensures d.findings[0].id == UncorroboratedEndpointFailure && d.findings[0].focus == TargetTCP
  {
    Finds(run, UncorroboratedEndpointFailure, TargetTCP, NetworkProblem, [TargetTCP, DNS, DNSPublic, Internet],
          [Contradicts(run, TargetUnreachable, DNSPublic, DNSAnswers),
           RulesOut(run, LocalEgressFailure, Internet, StatusPass)])
  }

  function EveryAnswerSilent(run: Run): (d: Diagnosis)
    requires Is(run.res, TargetTCP, Fail)
    ensures |d.findings| == 1 && Grounded(run, d.findings[0]) && d.verdict == d.findings[0].verdict == ServiceProblem
    ensures d.findings[0].id == TargetUnreachable && d.findings[0].focus == TargetTCP
  {
    Finds(run, TargetUnreachable, TargetTCP, ServiceProblem, [TargetTCP, Internet, DNS],
          [RulesOut(run, LocalEgressFailure, Internet, StatusPass), RulesOut(run, DNSFailure, DNS, DNSAnswers)])
  }

  function RefusedTarget(run: Run): (d: Diagnosis)
    requires Is(run.res, TargetTCP, Fail)
    ensures |d.findings| == 1 && Grounded(run, d.findings[0]) && d.verdict == d.findings[0].verdict == ServiceProblem
    ensures d.findings[0].id == TCPConnectionRefused && d.findings[0].focus == TargetTCP
  {
    Finds(run, TCPConnectionRefused, TargetTCP, ServiceProblem, [TargetTCP, Internet],
          [RulesOut(run, TargetUnreachable, TargetTCP, ObservedCause),
           RulesOut(run, LocalEgressFailure, Internet, StatusPass)])
  }

  function TargetFailure(run: Run, t: Target): Diagnosis
    requires Is(run.res, TargetTCP, Fail)
  {
    var res := run.res;
    if LocalTarget(t, res) then LocalTargetFailure(run)
    else if DirectOK(res) then ReachableNetworkFailure(run)
    else if ProxyCarries(res) then Blame(run, ProxyOnlyNetwork, TargetTCP, NetworkProblem, [Proxy, Internet])
    else if Internet !in res then
      Finds(run, ReachabilityUntested, TargetTCP, NetworkProblem, [TargetTCP],
            [Unevaluated(run, Internet, NotSelected)])
    else if LocalPathObserved(res[Internet].cause) then
      Blame(run, LocalEgressFailure, Internet, NetworkProblem, [TargetTCP, DNS])
    else Blame(run, ReachabilityUnlocalized, Internet, NetworkProblem, [TargetTCP, DNS])
  }

  function TLSFailure(run: Run, row: ProbeID): (d: Diagnosis)
    requires Is(run.res, row, Fail)
    ensures |d.findings| == 1 && Grounded(run, d.findings[0]) && d.verdict == d.findings[0].verdict == ServiceProblem
    ensures d.findings[0].focus == row
  {
    var res := run.res;
    var c, skew := res[row].cause, ClockOffset(res);
    var reached := RulesOut(run, TLSTCPUnreachable, TargetTCP, StatusPass);
    if ClockSkewed(res) && SkewExplainsTLS(c, skew) then
      Finds(run, TLSClockSkew, row, ServiceProblem, [row, Internet, TargetTCP],
            [SupportObservation(run, Internet, ClockOff), reached])
    else if ClockSkewed(res) && SkewDisprovesTLS(c, skew) then
      Finds(run, TLSID(c), row, ServiceProblem, [row, Internet, TargetTCP],
            [RulesOut(run, TLSClockSkew, Internet, ClockOff), reached])
    else
      Finds(run, TLSID(c), row, ServiceProblem, [row, TargetTCP],
            if TLSID(c) != TLSTCPUnreachable then [reached] else [])
  }

  function HTTPSFailure(run: Run): (d: Diagnosis)
    requires Is(run.res, HTTPS, Fail)
    ensures |d.findings| == 1 && Grounded(run, d.findings[0]) && d.verdict == d.findings[0].verdict == ServiceProblem
  {
    var c := run.res[HTTPS].cause;
    var id :=
      if c == InvalidResponse then InvalidHTTPResponse
      else if c == Closed || c == Reset then HTTPConnectionClosed
      else HTTPSNoResponse;
    Finds(run, id, HTTPS, ServiceProblem, [HTTPS, TLS], [RulesOut(run, TLSHandshakeFailure, TLS, StatusPass)])
  }

  function HTTPFailure(run: Run, t: Target): (d: Diagnosis)
    requires Is(run.res, HTTP, Fail)
    ensures |d.findings| == 1 && Grounded(run, d.findings[0]) && d.verdict == d.findings[0].verdict == ServiceProblem
  {
    var c, secure := run.res[HTTP].cause, t.proto == TLSAndHTTP;
    if secure && !Works(run.res, HTTPS) then
      Finds(run, SelectedServiceCheckFailed, HTTP, ServiceProblem, [HTTP], [Unevaluated(run, HTTPS, NotSelected)])
    else
      var id :=
        if c == InvalidResponse then InvalidHTTPResponse
        else if c == Closed || c == Reset then HTTPConnectionClosed
        else HTTPNoResponse;
      Blame(run, id, HTTP, ServiceProblem, if secure then [HTTPS] else [TargetTCP])
  }

  function BannerRow(res: Results, s: Status): ProbeID { if Is(res, SSH, s) then SSH else SMTP }

  /** The target works while the reference endpoints were not reached. */
  function ReferenceFailure(run: Run, t: Target): (d: Diagnosis)
    requires Internet in run.res
    ensures |d.findings| == 1 && Grounded(run, d.findings[0]) && d.verdict == d.findings[0].verdict == Degraded
  {
    var res := run.res;
    if res[Internet].cause == PreferredPathAlternateReachable then
      Blame(run, ReferenceEgressUnreachable, Internet, Degraded, [Internet, TargetTCP])
    else if PublicTargetReached(res) then
      Finds(run, ReferenceEgressUnreachable, Internet, Degraded, [Internet, TargetTCP] + TargetRows(t),
            [RulesOut(run, DirectEgressBlocked, TargetTCP,
                      if Is(res, TargetTCP, Warn) then StatusWarn else StatusPass)])
    else Blame(run, DirectEgressBlocked, Internet, Degraded, TargetRows(t))
  }

  /** Nothing about the endpoint failed: what is left beside it. */
  function BesideTarget(run: Run, t: Target): Diagnosis {
    var res := run.res;
    var ok := TargetOK(t, res);
    if ok && Is(res, QUIC, Fail) && DirectOK(res) then Blame(run, QUICUnavailable, QUIC, Degraded, [Internet])
    else if EncryptedDNSBlocked(res) then
      Blame(run, EncryptedDNSUnavailable, DNSEncrypted, Degraded, [DNS, DNSPublic, Internet])
    else if ok && (Is(res, Internet, Fail) || RelaxedEgress(res)) then ReferenceFailure(run, t)
    else if ok && Is(res, Proxy, Fail) && DirectOK(res) then Blame(run, ProxyFailure, Proxy, Degraded, [Internet])
    else if ok && Is(res, Internet, Warn) then Blame(run, DirectEgressDegraded, Internet, Degraded, TargetRows(t))
    else if ok && ResolversDiffer(res) then Blame(run, DNSDisagreement, DNSPublic, Degraded, [DNS])
    else if ok && !AnyFailed(run) then Plain(Healthy(run))
    else Fallback(run)
  }

  predicate PathMTUSuspected(res: Results) {
    var (row, failed) := TLSFailureRow(res);
    Is(res, PMTU, Warn) && Stalled(res) != [] && !(failed && CertificateRejected(res[row].cause))
  }

  /** Up the stack from TCP: the first rung that broke. */
  function Targeted(run: Run, t: Target): Diagnosis {
    var res := run.res;
    var (tls, tlsFailed) := TLSFailureRow(res);
    if Intercepted(res) then Blame(run, CaptivePortal, Internet, NetworkProblem, [])
    else if Is(res, DNS, Fail) then TargetedDNSFailure(run)
    else if Is(res, TargetTCP, Fail) then TargetFailure(run, t)
    else if PathMTUSuspected(res) then Blame(run, ProbablePathMTU, PMTU, NetworkProblem, [TargetTCP] + Stalled(res))
    else if tlsFailed then TLSFailure(run, tls)
    else if Is(res, HTTPS, Fail) then HTTPSFailure(run)
    else if Is(res, HTTP, Fail) then HTTPFailure(run, t)
    else if Is(res, SSH, Fail) || Is(res, SMTP, Fail) then
      Blame(run, ServiceBannerFailure, BannerRow(res, Fail), ServiceProblem, [TargetTCP])
    else if Is(res, SSH, Warn) || Is(res, SMTP, Warn) then
      Blame(run, ServiceBannerMissing, BannerRow(res, Warn), Degraded, [TargetTCP])
    else BesideTarget(run, t)
  }

  /** The truth table. */
  function Table(t: Option<Target>, run: Run): Diagnosis {
    if run.order == [] then Plain(OK)
    else if !Complete(run) then Plain(Unfinished)
    else if Is(run.res, Iface, Fail) then
      Finds(run, NoUsableInterface, Iface, NetworkProblem, [Iface],
            [Unevaluated(run, Internet, Prerequisite), Unevaluated(run, DNS, Prerequisite)])
    else if t.None? then Generic(run)
    else Targeted(run, t.value)
  }

  // ---------------------------------------------------------------- the whole pass

  function MergeEvidence(base: seq<Item>, extra: seq<Item>): (r: seq<Item>)
    ensures forall e :: e in r <==> e in base || e in extra
    ensures base <= r
  {
    if extra == [] then base
    else
      var n := |extra| - 1;
      var before := MergeEvidence(base, extra[..n]);
      assert extra == extra[..n] + [extra[n]];
      if extra[n] in before then before else before + [extra[n]]
  }

  /** The finding that already carries an identity, if one does. */
  function IndexOf(fs: seq<Finding>, id: DiagnosisID): (i: Option<nat>)
    ensures i.Some? ==> i.value < |fs| && fs[i.value].id == id && forall j :: 0 <= j < i.value ==> fs[j].id != id
    ensures i.None? ==> forall j :: 0 <= j < |fs| ==> fs[j].id != id
  {
    if fs == [] then None
    else if fs[0].id == id then Some(0)
    else
      var rest := IndexOf(fs[1..], id);
      if rest.Some? then Some(rest.value + 1) else None
  }

  /** One comparison: it joins the finding of its identity, or stands beside the others. */
  function Merge(d: Diagnosis, c: Finding): Diagnosis {
    var i := IndexOf(d.findings, c.id);
    if i.Some? then
      var f := d.findings[i.value];
      d.(findings :=
        d.findings[i.value :=
          f.(counterfactual := c.counterfactual, evidence := MergeEvidence(f.evidence, c.evidence))])
    else
      Diagnosis(if d.findings == [] then c.verdict else d.verdict, d.findings + [c], d.blamed)
  }

  function MergeAll(d: Diagnosis, cs: seq<Finding>): Diagnosis {
    if cs == [] then d else Merge(MergeAll(d, cs[..|cs| - 1]), cs[|cs| - 1])
  }

  predicate MayCompare(run: Run, d: Diagnosis) {
    (d.findings != [] || d.verdict == OK || d.verdict == Degraded) && !Intercepted(run.res)
  }

  function Blamed(run: Run, d: Diagnosis): Option<ProbeID> {
    if d.findings != [] then Some(d.findings[0].focus) else FirstFailed(run.order, run.res)
  }

  function InterpretationOf(t: Option<Target>, run: Run): Diagnosis {
    var d := Table(t, run);
    var d := if MayCompare(run, d) then MergeAll(d, CounterfactualFindings(t, run)) else d;
    d.(blamed := Blamed(run, d))
  }

  method Joined(d: Diagnosis, c: Finding) returns (r: Diagnosis)
    ensures r == Merge(d, c)
  {
    hide MergeEvidence;
    var i := 0;
    while i < |d.findings| && d.findings[i].id != c.id
      invariant 0 <= i <= |d.findings|
      invariant forall j :: 0 <= j < i ==> d.findings[j].id != c.id
    {
      i := i + 1;
    }
    if i < |d.findings| {
      var f := d.findings[i];
      var evidence := WithUnseen(f.evidence, c.evidence);
      return d.(findings := d.findings[i := f.(counterfactual := c.counterfactual, evidence := evidence)]);
    }
    r := Diagnosis(if d.findings == [] then c.verdict else d.verdict, d.findings + [c], d.blamed);
  }

  method WithUnseen(base: seq<Item>, extra: seq<Item>) returns (r: seq<Item>)
    ensures r == MergeEvidence(base, extra)
  {
    r := base;
    for i := 0 to |extra|
      invariant r == MergeEvidence(base, extra[..i])
    {
      assert extra[..i + 1][..i] == extra[..i];
      if extra[i] !in r {
        r := r + [extra[i]];
      }
    }
    assert extra[..|extra|] == extra;
  }

  method FindFailed(order: seq<ProbeID>, res: Results) returns (id: Option<ProbeID>)
    ensures id == FirstFailed(order, res)
  {
    var i := 0;
    while i < |order|
      invariant 0 <= i <= |order|
      invariant FirstFailed(order, res) == FirstFailed(order[i..], res)
    {
      if Is(res, order[i], Fail) {
        return Some(order[i]);
      }
      assert order[i..][1..] == order[i + 1..];
      i := i + 1;
    }
    id := None;
  }
}
