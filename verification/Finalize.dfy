/**
  The passes over a finished run in which results read each other.

  They rewrite statuses, the downgrade mark, target families and the answer comparison. Two more
  passes of the same list rewrite only the sentences a row carries, which rows here do not.
 */
module Finalize {
  import opened Wrappers
  import opened ProbeRows
  import opened Counterfactuals
  import opened Verdicts

  // ---------------------------------------------------------------- the passes

  /** The comparison of the two resolvers' answers, where both answered. */
  function Recorded(system: Row, public: Row): Row {
    if system.status == Pass && system.addrs != [] && public.addrs != [] then
      public.(answers := if AnswersAgree(system.addrs, public.addrs) then Agree else Disagree)
    else public
  }

  /** Whether the second opinion becomes a warning. */
  predicate OpinionsDiffer(system: Row, public: Row) {
    && !(system.dnsNotFound && public.dnsNotFound)
    && ((system.status == Pass && public.dnsNotFound)
        || (system.dnsNotFound && public.addrs != [])
        || public.answers == Disagree)
  }

  predicate Compares(res: Results) { NamesComparable(res) && res[DNSPublic].status == Pass }

  function ReconciledDNS(res: Results): Results {
    if !Compares(res) then res
    else
      var public := Recorded(res[DNS], res[DNSPublic]);
      res[DNSPublic := if OpinionsDiffer(res[DNS], public) then public.(status := Warn) else public]
  }

  /** Another path carried traffic off this network. */
  predicate OtherPath(res: Results) {
    Get(res, Internet).cause == PreferredPathAlternateReachable || PublicTargetReached(res) || ProxyCarries(res)
  }

  predicate Relaxes(res: Results) { Is(res, Internet, Fail) && !res[Internet].portal && OtherPath(res) }

  function DowngradedEgress(res: Results): Results {
    if Relaxes(res) then res[Internet := res[Internet].(status := Warn, downgraded := true)] else res
  }

  predicate FamilySplit(res: Results) { OnlyFails(res, V4) || OnlyFails(res, V6) }

  function ReconciledFamilies(res: Results): Results {
    if TargetTCP !in res || res[TargetTCP].families.None? then res
    else
      var states := EffectiveFamilies(res);
      var r := res[TargetTCP].(families := if states == Families(Untested, Untested) then None else Some(states));
      res[TargetTCP := if r.selectedIP.Some? && FamilySplit(res) then r.(status := Warn) else r]
  }

  function FinalizedOf(res: Results): Results { ReconciledFamilies(DowngradedEgress(ReconciledDNS(res))) }

  class Report {
    var res: Results

    constructor (rows: Results)
      ensures res == rows
    {
      res := rows;
    }

    method ReconcileDNS()
      modifies this
      ensures res == ReconciledDNS(old(res))
    {
      if !NamesComparable(res) || res[DNSPublic].status != Pass {
        return;
      }
      var system, public := res[DNS], res[DNSPublic];
      if system.status == Pass && |system.addrs| > 0 && |public.addrs| > 0 {
        public := public.(answers := Agree);
        var agree := CompareAnswers(system.addrs, public.addrs);
        if !agree {
          public := public.(answers := Disagree);
        }
      }
      if system.dnsNotFound && public.dnsNotFound {
      } else if system.status == Pass && public.dnsNotFound {
        public := public.(status := Warn);
      } else if system.dnsNotFound && |public.addrs| > 0 {
        public := public.(status := Warn);
      } else if public.answers == Disagree {
        public := public.(status := Warn);
      }
      res := res[DNSPublic := public];
    }

    method DowngradeEgress()
      modifies this
      ensures res == DowngradedEgress(old(res))
    {
      if Internet !in res || res[Internet].status != Fail || res[Internet].portal {
        return;
      }
      var otherOK := res[Internet].cause == PreferredPathAlternateReachable || PublicTargetReached(res);
      var proxyOK := ProxyCarries(res);
      if !otherOK && !proxyOK {
        return;
      }
      res := res[Internet := res[Internet].(status := Warn, downgraded := true)];
    }

    method ReconcileCounterfactuals()
      modifies this
      ensures res == ReconciledFamilies(old(res))
    {
      hide EffectiveState;
      if TargetTCP !in res || res[TargetTCP].families.None? {
        return;
      }
      var r := res[TargetTCP];
      var states := EffectiveFamilies(res);
      if states.ipv4 == Untested && states.ipv6 == Untested {
        r := r.(families := None);
      } else {
        r := r.(families := Some(states));
      }
      if r.selectedIP.Some? && ((states.ipv4 == FamilyReachable && states.ipv6 == FamilyUnreachable)
                                || (states.ipv6 == FamilyReachable && states.ipv4 == FamilyUnreachable)) {
        r := r.(status := Warn);
      }
      res := res[TargetTCP := r];
    }

    method Finalize()
      modifies this
      ensures res == FinalizedOf(old(res))
    {
      ReconcileDNS();
      DowngradeEgress();
      ReconcileCounterfactuals();
    }
  }

  // ---------------------------------------------------------------- what each row becomes

  /** Two resolvers asked for one absolute name, the second of them without a complaint of its own. */
  predicate Comparable(res: Results) {
    DNS in res && DNSPublic in res && res[DNSPublic].absolute && Is(res, DNSPublic, Pass)
  }

  /**
    The public resolver's row: where both answered, it records agreement exactly when the answers
    share a block; and it warns exactly when one resolver answered where the other found no such
    name, or the recorded answers disagree and not both found nothing.
   */
  lemma ResolversFinalized(res: Results)
    requires Comparable(res)
    ensures var s, p, fin := res[DNS], res[DNSPublic], FinalizedOf(res)[DNSPublic];
      if s.status == Pass && s.addrs != [] && p.addrs != [] then
        && (fin.answers == Agree <==> AnswersAgree(s.addrs, p.addrs))
        && (fin.answers == Disagree <==> !AnswersAgree(s.addrs, p.addrs))
        && (!s.dnsNotFound && !p.dnsNotFound ==> (fin.status == Warn <==> !AnswersAgree(s.addrs, p.addrs)))
      else fin.answers == p.answers
    ensures var s, p, fin := res[DNS], res[DNSPublic], FinalizedOf(res)[DNSPublic];
      && fin.status in {Pass, Warn}
      && (fin.status == Warn <==>
            && (s.dnsNotFound ==> !p.dnsNotFound)
            && ((s.status == Pass && p.dnsNotFound) || (s.dnsNotFound && p.addrs != []) || fin.answers == Disagree))
  {
    hide AnswersAgree, FamilySplit, OtherPath, EffectiveFamilies;
  }

  /** Nothing is compared otherwise, and the system resolver's own row is never written. */
  lemma ResolversKept(res: Results)
    ensures DNS in res ==> FinalizedOf(res)[DNS] == res[DNS]
    ensures DNSPublic in res && !Comparable(res) ==> FinalizedOf(res)[DNSPublic] == res[DNSPublic]
  {
    hide AnswersAgree, FamilySplit, OtherPath, EffectiveFamilies, Recorded, OpinionsDiffer;
  }

  /** Traffic left this network after all: another route, a public target that was reached, or the proxy. */
  predicate CarriedElsewhere(res: Results) {
    || (Internet in res && res[Internet].cause == PreferredPathAlternateReachable)
    || (TargetTCP in res && res[TargetTCP].status in {Pass, Warn} && res[TargetTCP].selectedIP.Some?
        && !LocalIP(res[TargetTCP].selectedIP.value))
    || (Proxy in res && res[Proxy].status in {Pass, Warn})
  }

  /** The egress row: a failure is relaxed, and marked so, exactly when no portal answered and traffic left anyway. */
  lemma EgressFinalized(res: Results)
    requires Internet in res
    ensures var r := res[Internet];
      FinalizedOf(res)[Internet] ==
        if r.status == Fail && !r.portal && CarriedElsewhere(res) then r.(status := Warn, downgraded := true) else r
  {
    hide AnswersAgree, FamilySplit, EffectiveFamilies, Recorded, OpinionsDiffer, LocalIP;
  }

  /** A family's failure is not the target's: nothing shows this machine has that family, and no peer refused. */
  predicate Discounted(res: Results, f: Family)
    requires TargetTCP in res
  {
    && !(Internet in res && res[Internet].families.Some? && StateOf(res[Internet].families.value, f) == FamilyReachable)
    && !AllRefused(res[TargetTCP], f)
  }

  function Settled(res: Results, f: Family, recorded: FamilyState): FamilyState
    requires TargetTCP in res
  {
    if recorded == FamilyUnreachable && Discounted(res, f) then Untested else recorded
  }

  /** The target's row: each family as settled, none when neither was tested, and the warning of a split. */
  lemma FamiliesFinalized(res: Results)
    requires TargetTCP in res && res[TargetTCP].families.Some?
    ensures var r, fin := res[TargetTCP], FinalizedOf(res)[TargetTCP];
      var ipv4, ipv6 := Settled(res, V4, r.families.value.ipv4), Settled(res, V6, r.families.value.ipv6);
      && fin.families == (if ipv4 == Untested && ipv6 == Untested then None else Some(Families(ipv4, ipv6)))
      && fin.status
         == (if r.selectedIP.Some? && {ipv4, ipv6} == {FamilyReachable, FamilyUnreachable} then Warn else r.status)
  {
    hide AnswersAgree, AllRefused, OtherPath, FinalizedOf;
    EarlyPasses(res);
    EffectivelySettled(res);
    OneOfEach(EffectiveState(res, V4), EffectiveState(res, V6));
    FinalTarget(res);
  }

  lemma FinalTarget(res: Results)
    requires TargetTCP in res
    ensures TargetTCP in FinalizedOf(res)
    ensures FinalizedOf(res)[TargetTCP] == if res[TargetTCP].families.None? then res[TargetTCP] else
      var states := EffectiveFamilies(res);
      var r := res[TargetTCP].(families := if states == Families(Untested, Untested) then None else Some(states));
      if r.selectedIP.Some? && FamilySplit(res) then r.(status := Warn) else r
  {
    hide AnswersAgree, EffectiveState, FamilySplit, OtherPath;
    EarlyPasses(res);
  }

  lemma EffectivelySettled(res: Results)
    requires TargetTCP in res && res[TargetTCP].families.Some?
    ensures forall f :: EffectiveState(res, f) == Settled(res, f, StateOf(res[TargetTCP].families.value, f))
  {
    hide AllRefused;
  }

  lemma OneOfEach(a: FamilyState, b: FamilyState)
    ensures {a, b} == {FamilyReachable, FamilyUnreachable} <==>
      (a == FamilyReachable && b == FamilyUnreachable) || (a == FamilyUnreachable && b == FamilyReachable)
  {
    assert a in {a, b} && b in {a, b};
    if {a, b} == {FamilyReachable, FamilyUnreachable} {
      assert FamilyReachable in {a, b} && FamilyUnreachable in {a, b};
    }
  }

  // ---------------------------------------------------------------- which statuses move

  /** The only moves a row's status makes. */
  predicate Moves(res: Results, fin: Results, id: ProbeID) {
    && (id in res <==> id in fin)
    && (id in res ==>
          || fin[id].status == res[id].status
          || (id == Internet && res[id].status == Fail && fin[id].status == Warn && fin[id].downgraded
              && !res[id].portal)
          || (id == DNSPublic && res[id].status == Pass && fin[id].status == Warn)
          || (id == TargetTCP && fin[id].status == Warn && res[id].selectedIP.Some? && FamilySplit(res)))
  }

  /** Everything a pass may write, left out: the rest of every row stays as it was. */
  predicate KeepsReadings(res: Results, fin: Results, id: ProbeID) {
    id in res && id in fin ==>
      fin[id] == res[id].(status := fin[id].status, families := fin[id].families, downgraded := fin[id].downgraded,
                          answers := fin[id].answers)
  }

  lemma FamiliesReadTheSame(res: Results, res': Results)
    requires Get(res, TargetTCP) == Get(res', TargetTCP) && Get(res, Internet).families == Get(res', Internet).families
    ensures forall f :: EffectiveState(res, f) == EffectiveState(res', f)
    ensures FamilySplit(res) <==> FamilySplit(res')
  {
    hide AllRefused;
  }

  /** What the first two passes leave alone. */
  lemma EarlyPasses(res: Results)
    ensures var mid := DowngradedEgress(ReconciledDNS(res));
      && (TargetTCP in mid <==> TargetTCP in res) && Get(mid, TargetTCP) == Get(res, TargetTCP)
      && Get(mid, Internet).families == Get(res, Internet).families
      && (forall f :: EffectiveState(res, f) == EffectiveState(mid, f)) && (FamilySplit(res) <==> FamilySplit(mid))
  {
    hide AnswersAgree, EffectiveState, FamilySplit, OtherPath;
    FamiliesReadTheSame(res, DowngradedEgress(ReconciledDNS(res)));
  }

  lemma DNSMoves(res: Results, id: ProbeID)
    ensures var r := ReconciledDNS(res);
      && (id in r <==> id in res) && KeepsReadings(res, r, id)
      && (id in res ==>
        r[id].status == res[id].status || (id == DNSPublic && res[id].status == Pass && r[id].status == Warn))
  {
    hide AnswersAgree, Recorded, OpinionsDiffer, Compares;
    if Compares(res) {
      ComparesPasses(res);
      RecordedKeeps(res[DNS], res[DNSPublic]);
    }
  }

  lemma RecordedKeeps(system: Row, public: Row)
    ensures Recorded(system, public) == public.(answers := Recorded(system, public).answers)
  {
    hide AnswersAgree;
  }

  lemma ComparesPasses(res: Results)
    requires Compares(res)
    ensures DNS in res && Is(res, DNSPublic, Pass)
  {
  }

  lemma EgressMoves(res: Results, id: ProbeID)
    ensures var r := DowngradedEgress(res);
      && (id in r <==> id in res) && KeepsReadings(res, r, id)
      && (id in res ==> r[id].status == res[id].status
                        || (id == Internet && res[id].status == Fail && r[id].status == Warn && r[id].downgraded
                            && !res[id].portal))
  {
    hide OtherPath;
  }

  lemma FamiliesMove(res: Results, id: ProbeID)
    ensures var r := ReconciledFamilies(res);
      && (id in r <==> id in res) && KeepsReadings(res, r, id)
      && (id in res ==> r[id].downgraded == res[id].downgraded)
      && (id in res ==>
        r[id].status == res[id].status
          || (id == TargetTCP && r[id].status == Warn && res[id].selectedIP.Some? && FamilySplit(res)))
  {
    hide FamilySplit, EffectiveFamilies;
  }

  /** No row appears, goes away, becomes a failure or becomes a pass, and no measurement is rewritten. */
  lemma StatusMoves(res: Results, id: ProbeID)
    ensures Moves(res, FinalizedOf(res), id) && KeepsReadings(res, FinalizedOf(res), id)
    ensures id in res && FinalizedOf(res)[id].status in {Fail, Pass} ==> FinalizedOf(res)[id].status == res[id].status
  {
    hide ReconciledDNS, DowngradedEgress, ReconciledFamilies, FamilySplit;
    var dns := ReconciledDNS(res);
    var egress := DowngradedEgress(dns);
    EarlyPasses(res);
    DNSMoves(res, id);
    EgressMoves(dns, id);
    FamiliesMove(egress, id);
  }

  /** A target that did not work has no address it was reached at. */
  predicate SelectedOnlyWhenWorked(res: Results) {
    TargetTCP in res && res[TargetTCP].selectedIP.Some? ==> Functional(res[TargetTCP].status)
  }

  /** A total failure of the target becomes a warning exactly when it still names a selected address beside a split. */
  lemma TargetFailuresStay(res: Results)
    ensures TargetTCP in res && !Functional(res[TargetTCP].status) ==>
      (FinalizedOf(res)[TargetTCP].status != res[TargetTCP].status <==>
        res[TargetTCP].selectedIP.Some? && FamilySplit(res))
    ensures SelectedOnlyWhenWorked(res) && TargetTCP in res ==>
      FinalizedOf(res)[TargetTCP].status == res[TargetTCP].status || res[TargetTCP].status == Pass
  {
    hide AnswersAgree, FamilySplit, OtherPath;
    EarlyPasses(res);
    SplitNeedsFamilies(res);
  }

  lemma SplitNeedsFamilies(res: Results)
    ensures FamilySplit(res) ==> TargetTCP in res && res[TargetTCP].families.Some?
  {
    hide AllRefused;
  }

  // ---------------------------------------------------------------- once is enough

  lemma DNSOnce(res: Results)
    ensures ReconciledDNS(ReconciledDNS(res)) == ReconciledDNS(res)
  {
    hide AnswersAgree;
    var r := ReconciledDNS(res);
    if Compares(res) && !Compares(r) {
    } else if Compares(res) {
      assert r[DNSPublic] == Recorded(res[DNS], res[DNSPublic]);
      assert r[DNSPublic := r[DNSPublic]] == r;
    }
  }

  lemma FamiliesOnce(res: Results)
    ensures ReconciledFamilies(ReconciledFamilies(res)) == ReconciledFamilies(res)
  {
    hide AllRefused;
    var r := ReconciledFamilies(res);
    if TargetTCP in res && res[TargetTCP].families.Some? {
      assert Internet in r <==> Internet in res;
      assert Get(r, Internet) == Get(res, Internet);
      AttemptsDecide(res[TargetTCP], r[TargetTCP]);
      assert forall f :: EffectiveState(r, f) == EffectiveState(res, f);
    }
  }

  lemma AttemptsDecide(r: Row, r': Row)
    requires r.attempts == r'.attempts
    ensures forall f :: AllRefused(r, f) <==> AllRefused(r', f)
  {
  }

  /** Evidence of another path that only the last pass creates, after the downgrade has already looked. */
  predicate LateEvidence(res: Results) {
    && TargetTCP in res && !Functional(res[TargetTCP].status) && res[TargetTCP].selectedIP.Some?
       && !LocalIP(res[TargetTCP].selectedIP.value)
    && FamilySplit(res)
    && Is(res, Internet, Fail) && !res[Internet].portal && !OtherPath(res)
  }

  /** A second call changes nothing exactly when the last pass creates nothing the earlier ones would have used. */
  lemma FinalizeOnceIsEnough(res: Results)
    ensures FinalizedOf(FinalizedOf(res)) == FinalizedOf(res) <==> !LateEvidence(res)
  {
    hide AnswersAgree, FamilySplit, LocalIP, EffectiveState, ReconciledDNS, ReconciledFamilies;
    var dns := ReconciledDNS(res);
    var egress := DowngradedEgress(dns);
    var fin := ReconciledFamilies(egress);
    EarlyPasses(res);
    DNSLeaves(res);
    DNSOnce(res);
    DNSStays(dns, egress);
    FamiliesLeave(egress);
    DNSCommutes(egress);
    EgressAgain(res, dns, egress, fin);
    FamiliesOnce(egress);
  }

  /** The first pass touches one row. */
  lemma DNSLeaves(res: Results)
    ensures forall id :: id in res <==> id in ReconciledDNS(res)
    ensures forall id :: id in res && id != DNSPublic ==> ReconciledDNS(res)[id] == res[id]
  {
    hide AnswersAgree;
  }

  lemma DNSStays(dns: Results, egress: Results)
    requires egress == DowngradedEgress(dns) && ReconciledDNS(dns) == dns
    ensures ReconciledDNS(egress) == egress
  {
    hide AnswersAgree, OtherPath;
    if Compares(egress) {
      assert egress[DNS] == dns[DNS] && egress[DNSPublic] == dns[DNSPublic];
      assert ReconciledDNS(dns)[DNSPublic] == dns[DNSPublic];
      assert egress[DNSPublic := egress[DNSPublic]] == egress;
    }
  }

  /** The last pass touches one row, and of that the status and the families. */
  lemma FamiliesLeave(res: Results)
    ensures forall id :: id in res <==> id in ReconciledFamilies(res)
    ensures forall id :: id in res && id != TargetTCP ==> ReconciledFamilies(res)[id] == res[id]
    ensures TargetTCP in res ==>
      var r, r' := res[TargetTCP], ReconciledFamilies(res)[TargetTCP];
      r'.selectedIP == r.selectedIP && r'.status == if r.selectedIP.Some? && FamilySplit(res) then Warn else r.status
  {
    hide EffectiveState, FamilySplit;
    SplitNeedsFamilies(res);
  }

  lemma DNSCommutes(res: Results)
    requires ReconciledDNS(res) == res
    ensures ReconciledDNS(ReconciledFamilies(res)) == ReconciledFamilies(res)
  {
    hide AnswersAgree, FamilySplit, ReconciledFamilies;
    FamiliesLeave(res);
    var fin := ReconciledFamilies(res);
    if Compares(fin) {
      assert ReconciledDNS(res)[DNSPublic] == res[DNSPublic];
      assert fin[DNSPublic := fin[DNSPublic]] == fin;
    }
  }

  lemma EgressAgain(res: Results, dns: Results, egress: Results, fin: Results)
    requires (forall id :: id in res <==> id in dns)
             && (forall id :: id in res && id != DNSPublic ==> dns[id] == res[id])
    requires egress == DowngradedEgress(dns) && (FamilySplit(res) <==> FamilySplit(egress))
    requires (forall id :: id in egress <==> id in fin)
             && (forall id :: id in egress && id != TargetTCP ==> fin[id] == egress[id])
    requires TargetTCP in egress ==>
      var r, r' := egress[TargetTCP], fin[TargetTCP];
      r'.selectedIP == r.selectedIP && r'.status == if r.selectedIP.Some? && FamilySplit(egress) then Warn else r.status
    ensures Relaxes(fin) <==> LateEvidence(res)
    ensures LateEvidence(res) ==> ReconciledFamilies(DowngradedEgress(fin)) != fin
    ensures !LateEvidence(res) ==> DowngradedEgress(fin) == fin
  {
    hide FamilySplit, LocalIP, ReconciledFamilies;
    FamiliesLeave(DowngradedEgress(fin));
    if LateEvidence(res) {
      assert ReconciledFamilies(DowngradedEgress(fin))[Internet].status == Warn;
    }
  }

  /** Such rows exist, and a second call on them moves the egress row. */
  lemma LateEvidenceExample(res: Results)
    requires res == map[
      Internet := ZERO.(status := Fail, families := Some(Families(FamilyUnreachable, FamilyReachable))),
      TargetTCP :=
        ZERO.(status := Fail, families := Some(Families(FamilyReachable, FamilyUnreachable)),
              selectedIP := Some(IPv4(0x0808_0808)))]
    ensures LateEvidence(res) && FinalizedOf(FinalizedOf(res)) != FinalizedOf(res)
  {
    hide FinalizedOf;
    assert EgressReaches(res, V6) && OnlyFails(res, V6);
    FinalizeOnceIsEnough(res);
  }

  /** In particular whenever the target names a selected address only when it worked. */
  lemma FinalizeIsIdempotent(res: Results)
    requires SelectedOnlyWhenWorked(res)
    ensures FinalizedOf(FinalizedOf(res)) == FinalizedOf(res)
  {
    hide FinalizedOf, FamilySplit, OtherPath;
    FinalizeOnceIsEnough(res);
  }

  // ---------------------------------------------------------------- what interpretation may assume afterwards

  /** The resolver rows as their probes leave them: nothing compared yet, and no answer beside "not found". */
  predicate FreshResolvers(res: Results) {
    && Get(res, DNSPublic).answers == Unrecorded
    && (Get(res, DNSPublic).dnsNotFound ==> Get(res, DNSPublic).addrs == [])
  }

  /** Once finalized, a recorded disagreement is always a warning, so no QUIC failure is excused silently. */
  lemma DisagreementIsWarned(res: Results)
    requires FreshResolvers(res)
    ensures var fin := FinalizedOf(res);
      DNSPublic in fin && fin[DNSPublic].answers == Disagree ==> fin[DNSPublic].status == Warn
    ensures !ExcusedQUIC(FinalizedOf(res))
  {
    hide AnswersAgree, FamilySplit, OtherPath, EffectiveState, ReconciledFamilies;
    FamiliesLeave(DowngradedEgress(ReconciledDNS(res)));
  }
}
