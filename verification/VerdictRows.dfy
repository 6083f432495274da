/**
  Every verdict, read off the rows.

  `Verdicts` says when a run is ok. Here each other verdict has its own condition over the rows of
  a finished run, without and with a target, none of them in terms of the table that computes it.
 */
module VerdictRows {
  import opened Wrappers
  import opened ProbeRows
  import opened CausalEvidence
  import opened Findings
  import opened Counterfactuals
  import opened Interpretation
  import opened Verdicts

  // ---------------------------------------------------------------- rows

  /** The system resolver said the name does not exist, and the other one said so too or answered. */
  predicate AccusesSystem(res: Results) {
    && DNS in res && DNSPublic in res && res[DNSPublic].absolute
    && res[DNSPublic].status != NA && res[DNSPublic].status != Skip
    && res[DNS].dnsNotFound && (res[DNSPublic].dnsNotFound || res[DNSPublic].addrs != [])
  }

  predicate AnyOf(res: Results, ids: set<ProbeID>, s: Status) { exists id :: id in ids && Is(res, id, s) }

  /** The egress row reported no direct egress: it did not work, or worked only as a relaxed failure. */
  predicate NoDirect(res: Results) {
    Internet in res && !(res[Internet].status in {Pass, Warn} && !res[Internet].downgraded)
  }

  predicate Direct(res: Results) {
    Internet in res && res[Internet].status in {Pass, Warn} && !res[Internet].downgraded
  }

  predicate Portal(res: Results) { Internet in res && res[Internet].portal }

  /** Nothing past the interface can be judged: it is down, or a portal answers in its place. */
  predicate CutOff(res: Results) { Is(res, Iface, Fail) || Portal(res) }

  predicate ServiceRow(id: ProbeID) { id in {TLS, HTTP, HTTPS, SSH, SMTP} }

  /** The first selected row that failed, written over the order. */
  ghost predicate FailsFirst(run: Run, p: ProbeID -> bool) {
    exists i :: 0 <= i < |run.order| && Is(run.res, run.order[i], Fail) && p(run.order[i])
                && forall j :: 0 <= j < i ==> !Is(run.res, run.order[j], Fail)
  }

  /** The encrypted resolver fails while the network and some plain resolver work. */
  predicate EncryptedFails(res: Results) {
    Is(res, DNSEncrypted, Fail) && Direct(res)
      && (AnyOf(res, {DNS, DNSPublic}, Pass) || AnyOf(res, {DNS, DNSPublic}, Warn))
  }

  predicate PublicWarns(res: Results) {
    Is(res, DNSPublic, Warn) && res[DNSPublic].absolute && (Is(res, DNS, Pass) || Is(res, DNS, Warn))
  }

  predicate ProxyWorks(res: Results) { Is(res, Proxy, Pass) || Is(res, Proxy, Warn) }

  // ---------------------------------------------------------------- without a target

  /** The two rungs settle it between them, in one of these ways. */
  predicate RungsSettle(res: Results) {
    || (Direct(res)
        && (Is(res, DNS, Fail) || Is(res, DNS, Pass) || Is(res, QUIC, Fail) || EncryptedFails(res) || PublicWarns(res)))
    || (NoDirect(res) && Is(res, DNS, Pass))
    || (NoDirect(res) && Is(res, DNS, Fail)
        && (Is(res, Internet, Fail) || (Is(res, Internet, Warn) && ProxyWorks(res))))
  }

  /** Both rungs are gone, or the only way out and nothing carries traffic past it. */
  predicate RungsLost(res: Results) {
    || (Is(res, Internet, Fail) && Is(res, DNS, Fail))
    || (NoDirect(res) && Is(res, Internet, Warn) && Is(res, DNS, Fail) && ProxyWorks(res))
    || (NoDirect(res) && Is(res, DNS, Pass) && !ProxyWorks(res) && !(Is(res, Internet, Pass) && Is(res, Proxy, Fail)))
  }

  /** Both rungs pass, and nothing is said of the rows beside them. */
  predicate RungsClean(res: Results) {
    && Is(res, Internet, Pass) && Is(res, DNS, Pass) && !Is(res, Proxy, Fail)
    && (Direct(res) ==> !PublicWarns(res) && !Is(res, QUIC, Fail) && !Is(res, DNSEncrypted, Fail))
    && (!Direct(res) ==> ProxyWorks(res))
  }

  ghost predicate GenericNetwork(run: Run) {
    || CutOff(run.res) || RungsLost(run.res)
    || (!RungsSettle(run.res) && FailsFirst(run, NetworkRow))
  }

  ghost predicate GenericService(run: Run) {
    !CutOff(run.res) && !RungsSettle(run.res) && FailsFirst(run, ServiceRow)
  }

  /** The system resolver's row is what failed. */
  ghost predicate GenericDNSRow(run: Run) {
    && !CutOff(run.res)
    && ((Direct(run.res) && Is(run.res, DNS, Fail)) || (!RungsSettle(run.res) && FailsFirst(run, IsDNS)))
  }

  /** Nothing is concluded from the rows one by one. */
  ghost predicate GenericSilent(run: Run) {
    && !CutOff(run.res)
    && (RungsClean(run.res) || (!RungsSettle(run.res) && forall id :: id in run.order ==> !Is(run.res, id, Fail)))
  }

  lemma FirstFailedIs(run: Run, p: ProbeID -> bool)
    ensures FailsFirst(run, p) <==> FirstFailed(run.order, run.res).Some? && p(FirstFailed(run.order, run.res).value)
  {
    FirstFailedPosition(run.order, run.res);
    if i :| 0 <= i < |run.order| && Is(run.res, run.order[i], Fail) && p(run.order[i])
              && forall j :: 0 <= j < i ==> !Is(run.res, run.order[j], Fail) {
      assert run.order[i] in run.order;
    }
  }

  lemma {:induction false} FirstFailedPosition(order: seq<ProbeID>, res: Results)
    ensures forall i ::
      0 <= i < |order| && Is(res, order[i], Fail) && (forall j :: 0 <= j < i ==> !Is(res, order[j], Fail)) ==>
      FirstFailed(order, res) == Some(order[i])
    ensures FirstFailed(order, res).Some? ==>
      exists i :: 0 <= i < |order| && order[i] == FirstFailed(order, res).value && Is(res, order[i], Fail)
                  && forall j :: 0 <= j < i ==> !Is(res, order[j], Fail)
  {
    if order != [] && !Is(res, order[0], Fail) {
      FirstFailedPosition(order[1..], res);
      assert forall i :: 0 < i < |order| ==> order[i] == order[1..][i - 1];
      if FirstFailed(order, res).Some? {
        var i :| 0 <= i < |order[1..]| && order[1..][i] == FirstFailed(order, res).value && Is(res, order[1..][i], Fail)
                 && forall j :: 0 <= j < i ==> !Is(res, order[1..][j], Fail);
        assert order[i + 1] == FirstFailed(order, res).value;
      }
    }
  }

  predicate NetworkRow(id: ProbeID) { id != DNS && !ServiceRow(id) }

  predicate IsDNS(id: ProbeID) { id == DNS }

  lemma FallbackVerdict(run: Run)
    ensures Fallback(run).verdict == NetworkProblem <==> FailsFirst(run, NetworkRow)
    ensures Fallback(run).verdict == DNSProblem <==> FailsFirst(run, IsDNS)
    ensures Fallback(run).verdict == ServiceProblem <==> FailsFirst(run, ServiceRow)
    ensures Fallback(run).verdict != Unfinished
    ensures Fallback(run).findings == [] <==> forall id :: id in run.order ==> !Is(run.res, id, Fail)
    ensures Fallback(run).verdict in {OK, Degraded} <==> Fallback(run).findings == []
  {
    hide FailsFirst, FirstFailed, AnyWarned, Grounded, True, Finds, Blame;
    FirstFailedIs(run, NetworkRow);
    FirstFailedIs(run, IsDNS);
    FirstFailedIs(run, ServiceRow);
  }

  lemma GenericFallsBack(run: Run)
    requires !CutOff(run.res) && !RungsSettle(run.res)
    ensures Generic(run) == Fallback(run)
  {
    hide GenericDNSFailure, GenericQUICFailure, Fallback, Grounded, Finds, Blame, True;
  }

  lemma GenericSettles(run: Run)
    requires !CutOff(run.res) && RungsSettle(run.res) && Lists(run)
    ensures var d, res := Generic(run), run.res;
      && d.verdict in {OK, Degraded, DNSProblem, NetworkProblem}
      && (d.verdict == DNSProblem <==> Direct(res) && Is(res, DNS, Fail))
      && (d.verdict == NetworkProblem <==> RungsLost(res))
      && (d.findings == [] && d.verdict in {OK, Degraded} <==> RungsClean(res))
  {
    hide GenericDNSFailure, Fallback, Grounded, Finds, True, QUICUsedDisagreeingAnswer, UncorroboratedFailure;
    hide AnyWarned;
    if Is(run.res, DNSPublic, Warn) {
      WarnedIsWarned(run, DNSPublic);
    }
  }

  /** What the table says of a finished generic run, and whether it concludes anything. */
  lemma GenericTable(run: Run)
    requires run.order != [] && Complete(run) && Lists(run)
    ensures var d := Table(None, run);
      && (d.verdict == NetworkProblem <==> GenericNetwork(run))
      && (d.verdict == ServiceProblem <==> GenericService(run))
      && (d.verdict == DNSProblem <==> GenericDNSRow(run))
      && (d.findings == [] && d.verdict in {OK, Degraded} <==> GenericSilent(run))
      && d.verdict != Unfinished
  {
    hide Generic, Fallback, Grounded, Finds, True, FailsFirst, RungsSettle, RungsLost, RungsClean;
    SettledCases(run.res);
    FallbackVerdict(run);
    if !CutOff(run.res) {
      if RungsSettle(run.res) {
        GenericSettles(run);
      } else {
        GenericFallsBack(run);
      }
    } else if !Is(run.res, Iface, Fail) {
      PortalWins(run);
    }
  }

  lemma PortalWins(run: Run)
    requires Portal(run.res)
    ensures Generic(run).verdict == NetworkProblem && Generic(run).findings != []
  {
    hide GenericDNSFailure, GenericQUICFailure, Fallback, Grounded, Finds, True;
  }

  lemma SettledCases(res: Results)
    ensures RungsLost(res) || RungsClean(res) || (Direct(res) && Is(res, DNS, Fail)) ==> RungsSettle(res)
  {
  }

  // ---------------------------------------------------------------- with a target

  /** The handshake that failed: the TLS row's own, or the mail server's where TLS ran and did not fail. */
  predicate HandshakeFails(res: Results, row: ProbeID) {
    || (row == TLS && Is(res, TLS, Fail))
    || (row == SMTP && TLS in res && !Is(res, TLS, Fail) && Is(res, SMTP, Fail)
        && res[SMTP].cause in {CertificateExpired, CertificateNotYet, HostnameMismatch, UntrustedIssuer, TLSHandshake,
                               TCPUnreachable, Timeout, Closed})
  }

  /** A protocol row that spent its whole budget, below a path MTU warning and no rejected certificate. */
  predicate PathTooNarrow(res: Results) {
    && Is(res, PMTU, Warn)
    && (|| (HandshakeFails(res, TLS) && res[TLS].timedOut) || (HandshakeFails(res, SMTP) && res[SMTP].timedOut)
        || (Is(res, HTTP, Fail) && res[HTTP].timedOut) || (Is(res, HTTPS, Fail) && res[HTTPS].timedOut))
    && forall row :: row in {TLS, SMTP} && HandshakeFails(res, row) ==>
         !(res[row].cause in {CertificateExpired, CertificateNotYet, HostnameMismatch, UntrustedIssuer})
  }

  /** Every address the name resolved to was dialed. */
  predicate EveryAnswerTried(res: Results)
    requires TargetTCP in res
  {
    DNS in res ==> forall ip :: ip in res[DNS].addrs ==> exists a :: a in res[TargetTCP].attempts && a.ip == ip
  }

  /** A failed connection is the service's own doing. */
  predicate TargetAtFault(t: Target, res: Results)
    requires TargetTCP in res
  {
    || (res[TargetTCP].cause == Refused && (LocalTarget(t, res) || Direct(res)))
    || (Direct(res) && LocalTarget(t, res))
    || (Direct(res) && !UncorroboratedFailure(res, TargetTCP, ResolvedByTheDNSRow) && EveryAnswerTried(res))
  }

  predicate ProtocolFails(res: Results) { AnyOf(res, {TLS, HTTPS, HTTP, SSH, SMTP}, Fail) }

  /** No rung of the target broke, and no banner was missing. */
  predicate RungsStand(res: Results) {
    && !Is(res, DNS, Fail) && !Is(res, TargetTCP, Fail) && !ProtocolFails(res)
    && !AnyOf(res, {SSH, SMTP}, Warn) && !PathTooNarrow(res)
  }

  predicate PassesOrWarns(res: Results, id: ProbeID) { Is(res, id, Pass) || Is(res, id, Warn) }

  /** The rows that carry what the target is for: its protocol's own, or the bare connection. */
  predicate EndpointWorks(t: Target, res: Results) {
    match t.proto
    case TLSAndHTTP => PassesOrWarns(res, HTTP) && PassesOrWarns(res, HTTPS)
    case PlainHTTP => PassesOrWarns(res, HTTP)
    case SSHProto => PassesOrWarns(res, SSH)
    case SMTPProto => PassesOrWarns(res, SMTP)
    case NoProto => PassesOrWarns(res, TargetTCP)
  }

  lemma EndpointIsOK(t: Target, res: Results)
    ensures TargetOK(t, res) <==> EndpointWorks(t, res)
  {
    var rows := TargetRows(t);
    assert rows[0] in rows && (t.proto == TLSAndHTTP ==> rows[1] in rows);
  }

  /** The endpoint works, and what is wrong beside it is named. */
  predicate NamedBeside(t: Target, res: Results) {
    && EndpointWorks(t, res)
    && (|| (Direct(res) && (Is(res, QUIC, Fail) || Is(res, Proxy, Fail)))
        || Is(res, Internet, Fail) || Is(res, Internet, Warn) || PublicWarns(res))
  }

  ghost predicate SomethingFails(run: Run) { exists id :: id in run.order && Is(run.res, id, Fail) }

  ghost predicate TargetNetwork(t: Target, run: Run) {
    var res := run.res;
    || CutOff(res)
    || (!Is(res, DNS, Fail) && Is(res, TargetTCP, Fail) && !TargetAtFault(t, res))
    || (!Is(res, DNS, Fail) && !Is(res, TargetTCP, Fail) && PathTooNarrow(res))
    || (RungsStand(res) && !EncryptedFails(res) && !NamedBeside(t, res) && SomethingFails(run))
  }

  predicate TargetService(t: Target, run: Run) {
    var res := run.res;
    && !CutOff(res) && !Is(res, DNS, Fail)
    && (if Is(res, TargetTCP, Fail) then TargetAtFault(t, res) else ProtocolFails(res) && !PathTooNarrow(res))
  }

  /** Nothing is concluded from the rows one by one. */
  ghost predicate TargetSilent(t: Target, run: Run) {
    !CutOff(run.res) && RungsStand(run.res) && !NamedBeside(t, run.res) && !SomethingFails(run)
  }

  ghost predicate TargetDNSFault(t: Target, run: Run) {
    !CutOff(run.res) && (Is(run.res, DNS, Fail) || (TargetSilent(t, run) && AccusesSystem(run.res)))
  }

  lemma TargetFallsBack(t: Target, run: Run)
    requires !CutOff(run.res) && RungsStand(run.res)
    ensures var d, res := Targeted(run, t), run.res;
      if EncryptedFails(res) || NamedBeside(t, res) then d.findings != [] && d.verdict == Degraded
      else if SomethingFails(run) then d == Fallback(run)
      else d.findings == [] && d.verdict in {OK, Degraded}
  {
    hide Targeted, BesideTarget, RungsStand, EncryptedFails, NamedBeside, SomethingFails;
    RungsStandBeside(t, run);
    BesideVerdict(t, run);
  }

  lemma RungsStandBeside(t: Target, run: Run)
    requires !CutOff(run.res) && RungsStand(run.res)
    ensures Targeted(run, t) == BesideTarget(run, t)
  {
    hide TargetedDNSFailure, TargetFailure, TLSFailure, HTTPSFailure, HTTPFailure, BesideTarget, Blame;
    hide PathMTUSuspected, PathTooNarrow, TLSFailureRow, TLSCause, HandshakeFails, Stalled;
    NarrowPath(run.res);
    HandshakeIsProtocol(run.res);
  }

  lemma HandshakeIsProtocol(res: Results)
    ensures HandshakeFails(res, TLS) || HandshakeFails(res, SMTP) ==> ProtocolFails(res)
  {
  }

  lemma BesideVerdict(t: Target, run: Run)
    ensures var d, res := BesideTarget(run, t), run.res;
      if EncryptedFails(res) || NamedBeside(t, res) then d.findings != [] && d.verdict == Degraded
      else if SomethingFails(run) then d == Fallback(run)
      else d.findings == [] && d.verdict in {OK, Degraded}
  {
    hide ReferenceFailure, Grounded, Finds, True, FirstFailed, AnyWarned, TargetOK, EndpointWorks;
    EndpointIsOK(t, run.res);
  }

  lemma NarrowPath(res: Results)
    ensures PathMTUSuspected(res) <==> PathTooNarrow(res)
    ensures TLSFailureRow(res).1 <==> HandshakeFails(res, TLS) || HandshakeFails(res, SMTP)
    ensures TLSFailureRow(res).1 ==> ServiceRow(TLSFailureRow(res).0) && Is(res, TLSFailureRow(res).0, Fail)
  {
  }

  lemma TargetFailureVerdict(t: Target, run: Run)
    requires Is(run.res, TargetTCP, Fail)
    ensures TargetFailure(run, t).verdict == if TargetAtFault(t, run.res) then ServiceProblem else NetworkProblem
  {
    hide Grounded, Finds, Blame, True, LocalTarget, UncorroboratedFailure, AllTried, EveryAnswerTried;
    TriedIsTried(run.res);
  }

  lemma TriedIsTried(res: Results)
    requires TargetTCP in res
    ensures AllTried(res) <==> EveryAnswerTried(res)
  {
  }

  lemma TargetBreaks(t: Target, run: Run)
    requires !CutOff(run.res) && !RungsStand(run.res)
    ensures var d, res := Targeted(run, t), run.res;
      && (d.verdict == DNSProblem <==> Is(res, DNS, Fail))
      && (d.verdict == NetworkProblem <==>
        !Is(res, DNS, Fail) && (if Is(res, TargetTCP, Fail) then !TargetAtFault(t, res) else PathTooNarrow(res)))
      && (d.verdict == ServiceProblem <==> TargetService(t, run))
      && d.verdict in {DNSProblem, NetworkProblem, ServiceProblem, Degraded}
      && (d.verdict == Degraded ==> d.findings != [])
  {
    hide TargetFailure, TargetAtFault, BesideTarget, Grounded, Finds, True, FirstFailed, PathMTUSuspected;
    hide PathTooNarrow, TLSCause;
    NarrowPath(run.res);
    if Is(run.res, TargetTCP, Fail) {
      TargetFailureVerdict(t, run);
    }
  }

  /** What the table says of a finished run at a target, and whether it concludes anything. */
  lemma TargetTable(t: Target, run: Run)
    requires run.order != [] && Complete(run) && Lists(run)
    ensures var d := Table(Some(t), run);
      && (d.verdict == NetworkProblem <==> TargetNetwork(t, run))
      && (d.verdict == ServiceProblem <==> TargetService(t, run))
      && (d.verdict == DNSProblem <==> !CutOff(run.res) && Is(run.res, DNS, Fail))
      && (d.findings == [] && d.verdict in {OK, Degraded} <==> TargetSilent(t, run))
      && d.verdict != Unfinished
  {
    hide Targeted, Fallback, Grounded, Finds, True, TargetAtFault, PathTooNarrow, FailsFirst, NamedBeside;
    hide EncryptedFails;
    var res := run.res;
    if !CutOff(res) {
      if RungsStand(res) {
        TargetFallsBack(t, run);
        StandingFails(run);
        if EncryptedFails(res) {
          EncryptedIsFailure(run);
        }
      } else {
        TargetBreaks(t, run);
      }
    } else if !Is(res, Iface, Fail) {
      TargetPortal(t, run);
    }
  }

  /** What failed beside rungs that stand is a row of the network. */
  lemma StandingFails(run: Run)
    requires RungsStand(run.res)
    ensures SomethingFails(run) ==> Fallback(run).verdict == NetworkProblem
  {
    hide PathTooNarrow, Finds, Grounded, True, AnyWarned;
  }

  lemma EncryptedIsFailure(run: Run)
    requires Lists(run) && EncryptedFails(run.res)
    ensures SomethingFails(run)
  {
    assert DNSEncrypted in run.order;
  }

  lemma TargetPortal(t: Target, run: Run)
    requires Portal(run.res)
    ensures Targeted(run, t).verdict == NetworkProblem
  {
    hide TargetedDNSFailure, TargetFailure, TLSFailure, HTTPSFailure, HTTPFailure, BesideTarget, Grounded, Finds, True;
  }

  // ---------------------------------------------------------------- with the comparisons

  /** The first comparison reported is the resolvers', and it alone can accuse one. */
  lemma ComparisonAccuses(t: Option<Target>, run: Run)
    requires !Is(run.res, DNS, Fail)
    ensures var cs := CounterfactualFindings(t, run);
      (cs != [] && cs[0].verdict == DNSProblem <==> AccusesSystem(run.res))
        && (cs != [] ==> cs[0].verdict in {DNSProblem, Degraded})
  {
    hide Grounded, True, CompareAddresses, FailedFamily, OnlyFails, AnswersDisagree, Resolvers, FamilyFinding;
  }

  /** The verdict is the table's, unless the table is silent and something was compared. */
  lemma FinalExactly(t: Option<Target>, run: Run)
    requires run.order != [] && !Portal(run.res)
    ensures var d, cs, v := Table(t, run), CounterfactualFindings(t, run), InterpretationOf(t, run).verdict;
      v == if d.findings == [] && d.verdict in {OK, Degraded} && cs != [] then cs[0].verdict else d.verdict
  {
    hide Table, CounterfactualFindings, MergeAll, Blamed;
    MergeAllKeeps(Table(t, run), CounterfactualFindings(t, run));
  }

  lemma PortalStands(t: Option<Target>, run: Run)
    requires Portal(run.res)
    ensures InterpretationOf(t, run).verdict == Table(t, run).verdict
  {
    hide Table, CounterfactualFindings, MergeAll, Blamed;
  }

  ghost predicate GenericDNSFault(run: Run) { GenericDNSRow(run) || (GenericSilent(run) && AccusesSystem(run.res)) }

  /**
    The verdict of a finished run without a target: network, dns or service exactly under its own
    condition over the rows, and degraded when none holds and neither does that of `OKExactlyWhen`.
   */
  lemma GenericExactly(run: Run)
    requires run.order != [] && Complete(run) && Lists(run)
    ensures var v := InterpretationOf(None, run).verdict;
      && (v == NetworkProblem <==> GenericNetwork(run))
      && (v == DNSProblem <==> GenericDNSFault(run))
      && (v == ServiceProblem <==> GenericService(run))
      && (v == Degraded <==> !GenericNetwork(run) && !GenericDNSFault(run) && !GenericService(run)
                             && !(!AnyWarned(run) && !CutOff(run.res) && GenericHealthy(run)))
  {
    hide InterpretationOf, Table, GenericNetwork, GenericService, FailsFirst, RungsSettle;
    hide CounterfactualFindings, AccusesSystem;
    hide AnyWarned, GenericHealthy, RungsLost, RungsClean;
    GenericTable(run);
    OKExactlyWhen(None, run);
    if Portal(run.res) {
      PortalStands(None, run);
    } else {
      FinalExactly(None, run);
      if GenericSilent(run) {
        SilentResolves(run);
        ComparisonAccuses(None, run);
      }
    }
  }

  lemma SilentResolves(run: Run)
    requires GenericSilent(run) && Lists(run)
    ensures !Is(run.res, DNS, Fail)
  {
    assert DNS in run.res ==> DNS in run.order;
  }

  /** And of a finished run at a target. */
  lemma TargetExactly(t: Target, run: Run)
    requires run.order != [] && Complete(run) && Lists(run)
    ensures var v := InterpretationOf(Some(t), run).verdict;
      && (v == NetworkProblem <==> TargetNetwork(t, run))
      && (v == DNSProblem <==> TargetDNSFault(t, run))
      && (v == ServiceProblem <==> TargetService(t, run))
      && (v == Degraded <==> !TargetNetwork(t, run) && !TargetDNSFault(t, run) && !TargetService(t, run)
                             && !(!AnyWarned(run) && !CutOff(run.res) && TargetHealthy(run)))
  {
    hide InterpretationOf, Table, TargetNetwork, TargetService, NamedBeside, PathTooNarrow;
    hide CounterfactualFindings, AccusesSystem;
    hide AnyWarned, TargetHealthy, RungsStand;
    TargetTable(t, run);
    OKExactlyWhen(Some(t), run);
    if Portal(run.res) {
      PortalStands(Some(t), run);
    } else {
      FinalExactly(Some(t), run);
      if TargetSilent(t, run) {
        ComparisonAccuses(Some(t), run);
      }
    }
  }

  /** Offline: no egress and no resolver is the network's fault, whatever else was selected. */
  lemma OfflineIsNetwork(run: Run)
    requires run.order != [] && Complete(run) && Is(run.res, Internet, Fail) && Is(run.res, DNS, Fail)
    ensures InterpretationOf(None, run).verdict == NetworkProblem
  {
    hide CounterfactualFindings, MergeAll, Blamed, Grounded, True, Finds, AnyWarned;
    MergeAllKeeps(Table(None, run), CounterfactualFindings(None, run));
  }
}
