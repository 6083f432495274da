/**
  What each verdict commits the run to.

  A verdict is published to scripts, so each lemma says what a reader may conclude from one
  without looking at the rows, for every run, finished or not and whatever was selected.
 */
module Verdicts {
  import opened Wrappers
  import opened ProbeRows
  import opened CausalEvidence
  import opened Findings
  import opened Counterfactuals
  import opened Interpretation
  import opened Soundness

  // ---------------------------------------------------------------- merging keeps what was concluded

  /** The findings of `d` are still there, in place, under the same identity. */
  predicate Keeps(d: Diagnosis, r: Diagnosis) {
    && |d.findings| <= |r.findings|
    && forall i :: 0 <= i < |d.findings| ==>
         r.findings[i].id == d.findings[i].id && r.findings[i].verdict == d.findings[i].verdict
           && r.findings[i].focus == d.findings[i].focus
  }

  lemma {:induction false} MergeAllKeeps(d: Diagnosis, cs: seq<Finding>)
    ensures Keeps(d, MergeAll(d, cs))
    ensures d.findings != [] || cs == [] ==> MergeAll(d, cs).verdict == d.verdict
    ensures d.findings == [] && cs != [] ==> MergeAll(d, cs).verdict == cs[0].verdict && MergeAll(d, cs).findings != []
    ensures forall i :: |d.findings| <= i < |MergeAll(d, cs).findings| ==> Explained(cs, MergeAll(d, cs).findings[i])
  {
    hide Merge;
    if cs != [] {
      var n := |cs| - 1;
      MergeAllKeeps(d, cs[..n]);
      var before, after := MergeAll(d, cs[..n]), MergeAll(d, cs);
      MergeKeeps(before, cs[n]);
      assert cs == cs[..n] + [cs[n]];
      forall i | |d.findings| <= i < |after.findings|
        ensures Explained(cs, after.findings[i])
      {
        if i < |before.findings| {
          assert Explained(cs[..n], before.findings[i]);
          var c :| c in cs[..n] && SameConclusion(c, before.findings[i]);
          assert c in cs && SameConclusion(c, after.findings[i]);
        } else {
          assert cs[n] in cs && SameConclusion(cs[n], after.findings[i]);
        }
      }
    }
  }

  lemma MergeKeeps(d: Diagnosis, c: Finding)
    ensures Keeps(d, Merge(d, c)) && |Merge(d, c).findings| <= |d.findings| + 1
    ensures Merge(d, c).verdict == if d.findings == [] then c.verdict else d.verdict
    ensures Merge(d, c).findings != []
    ensures |Merge(d, c).findings| > |d.findings| ==> SameConclusion(c, Merge(d, c).findings[|d.findings|])
  {
    hide IndexOf, MergeEvidence;
  }

  predicate SameConclusion(f: Finding, g: Finding) { f.id == g.id && f.verdict == g.verdict && f.focus == g.focus }

  predicate Explained(cs: seq<Finding>, f: Finding) { exists c :: c in cs && SameConclusion(c, f) }

  lemma ComparisonVerdicts(t: Option<Target>, run: Run)
    ensures forall c :: c in CounterfactualFindings(t, run) ==>
      c.verdict == Degraded || (c.verdict == DNSProblem && DNSCounterfactual(run) == Some(c))
  {
    hide Grounded, True, CompareAddresses, FailedFamily, OnlyFails, AnswersDisagree, Resolvers, FamilyFinding;
  }

  /** The verdict of a run is the table's, or a comparison's where the table concluded nothing. */
  lemma FinalVerdict(t: Option<Target>, run: Run)
    ensures var d := InterpretationOf(t, run);
      d.verdict == Table(t, run).verdict
      || ((Table(t, run).verdict == OK || Table(t, run).verdict == Degraded) && Table(t, run).findings == []
          && !Intercepted(run.res)
          && (d.verdict == Degraded
              || (d.verdict == DNSProblem && DNSCounterfactual(run).Some?
                  && DNSCounterfactual(run).value.verdict == DNSProblem)))
  {
    hide Table, CounterfactualFindings, DNSCounterfactual;
    var cs := CounterfactualFindings(t, run);
    MergeAllKeeps(Table(t, run), cs);
    ComparisonVerdicts(t, run);
    assert cs != [] ==> cs[0] in cs;
  }

  // ---------------------------------------------------------------- ok

  /** The rows a run without a target is made of. */
  predicate GenericRow(id: ProbeID) { id in {Iface, SSID, Internet, QUIC, Proxy, DNS, DNSPublic, DNSEncrypted} }

  /** Every row that reported was selected. */
  predicate Lists(run: Run) { forall id :: id in run.res ==> id in run.order }

  /** A QUIC failure excused by a recorded disagreement that never became a warning. */
  predicate ExcusedQUIC(res: Results) {
    Is(res, QUIC, Fail) && DirectOK(res) && DialedElsewhere(res) && !Is(res, DNSPublic, Warn)
  }

  /** The answers were recorded as disagreeing, and QUIC dialed one the public resolver did not give. */
  predicate DialedElsewhere(res: Results) {
    && DNS in res && DNSPublic in res && QUIC in res && res[DNSPublic].absolute && res[DNSPublic].answers == Disagree
    && res[DNS].status in {Pass, Warn} && res[DNS].addrs != []
    && exists a :: a in res[QUIC].attempts && a.ip !in res[DNSPublic].addrs
  }

  lemma DialedIsUsed(res: Results)
    ensures QUICUsedDisagreeingAnswer(res) <==> DialedElsewhere(res)
  {
    if QUICUsedDisagreeingAnswer(res) {
      var i :| 0 <= i < |Get(res, QUIC).attempts| && Get(res, QUIC).attempts[i].ip !in res[DNSPublic].addrs;
      assert res[QUIC].attempts[i] in res[QUIC].attempts;
    }
    if DialedElsewhere(res) {
      var a :| a in res[QUIC].attempts && a.ip !in res[DNSPublic].addrs;
      var i :| 0 <= i < |res[QUIC].attempts| && res[QUIC].attempts[i] == a;
      assert Get(res, QUIC).attempts[i].ip !in res[DNSPublic].addrs;
    }
  }

  /** The failures a generic ok can stand over: rows the table never asks about, and an excused row's siblings. */
  predicate Overlooked(res: Results, id: ProbeID) {
    id == SSID || id == DNSPublic || !GenericRow(id) || (ExcusedQUIC(res) && id in {QUIC, Proxy, DNSEncrypted})
  }

  /** Both rungs pass, and so does every row that would be blamed before them. */
  predicate RungsPass(res: Results) {
    && Is(res, Internet, Pass) && DirectOK(res) && Is(res, DNS, Pass)
    && !Is(res, QUIC, Fail) && !Is(res, Proxy, Fail) && !Is(res, DNSEncrypted, Fail)
  }

  /** Nothing failed, and the system resolver's pass does not stand beside an egress row, which would then be judged. */
  predicate NothingFailed(run: Run) { !AnyFailed(run) && !(Is(run.res, DNS, Pass) && Internet in run.res) }

  lemma GenericOK(run: Run)
    requires Complete(run) && Lists(run) && !Is(run.res, Iface, Fail)
    ensures Generic(run).verdict == OK <==>
      && !AnyWarned(run) && !Intercepted(run.res) && !Is(run.res, DNS, Fail)
      && (ExcusedQUIC(run.res) || RungsPass(run.res) || NothingFailed(run))
    ensures Generic(run).verdict == OK ==> (Generic(run).findings == [] <==> !ExcusedQUIC(run.res))
  {
    hide GenericDNSFailure, QUICUsedDisagreeingAnswer, DialedElsewhere, UncorroboratedFailure;
    hide Grounded, Finds, Blame, True, FirstFailed;
    DialedIsUsed(run.res);
    if Is(run.res, Internet, Warn) {
      WarnedIsWarned(run, Internet);
    }
    if Is(run.res, DNSPublic, Warn) {
      WarnedIsWarned(run, DNSPublic);
    }
  }

  lemma WarnedIsWarned(run: Run, id: ProbeID)
    requires Lists(run) && Is(run.res, id, Warn)
    ensures AnyWarned(run)
  {
    assert id in run.order;
  }

  lemma TargetedOK(run: Run, t: Target)
    requires Complete(run) && Lists(run) && !Is(run.res, Iface, Fail)
    ensures Targeted(run, t).verdict == OK <==> !AnyWarned(run) && !AnyFailed(run) && !Intercepted(run.res)
    ensures Targeted(run, t).verdict == OK ==> Targeted(run, t).findings == []
  {
    hide TargetedDNSFailure, TargetFailure, TLSFailure, HTTPSFailure, HTTPFailure, ReferenceFailure;
    hide Grounded, Finds, True, FirstFailed, TLSCause, Stalled, TargetOK;
    if Is(run.res, TargetTCP, Fail) {
      TargetFailureNeverOK(run, t);
    }
    if Is(run.res, Internet, Warn) {
      WarnedIsWarned(run, Internet);
    }
  }

  lemma TargetFailureNeverOK(run: Run, t: Target)
    requires Is(run.res, TargetTCP, Fail)
    ensures TargetFailure(run, t).verdict == NetworkProblem || TargetFailure(run, t).verdict == ServiceProblem
  {
    hide Grounded, Finds, Blame, True, LocalTarget, UncorroboratedFailure, AllTried;
  }

  /** Both resolvers were asked for one name, and what they said of it, neither failing, supports a comparison. */
  predicate ResolversCompared(res: Results) {
    && NamesComparable(res) && res[DNSPublic].status != NA && res[DNSPublic].status != Skip
    && (|| (res[DNS].dnsNotFound && (res[DNSPublic].dnsNotFound || res[DNSPublic].addrs != []))
        || (res[DNS].addrs != [] && res[DNSPublic].dnsNotFound)
        || (res[DNS].addrs != [] && res[DNSPublic].addrs != [] && Elsewhere(res)))
  }

  /** The two resolvers' answers point elsewhere: by the recorded comparison, or by their blocks where none was made. */
  predicate Elsewhere(res: Results)
    requires DNS in res && DNSPublic in res
  {
    || res[DNSPublic].answers == Disagree
    || (res[DNSPublic].answers == Unrecorded && !AnswersAgree(res[DNS].addrs, res[DNSPublic].addrs))
  }

  /** One family of the target is down beside the other, or one address beside a sibling. */
  predicate TargetSplit(res: Results) {
    || OnlyFails(res, V4) || OnlyFails(res, V6)
    || (Get(res, TargetTCP).selectedIP.Some? && SomeAddressIsSick(res, Get(res, DNS).addrs, Get(res, TargetTCP)))
  }

  lemma ComparedExactlyWhen(t: Option<Target>, run: Run)
    requires !Is(run.res, DNS, Fail)
    ensures CounterfactualFindings(t, run) == [] <==> !ResolversCompared(run.res) && (t.Some? ==> !TargetSplit(run.res))
  {
    hide AddressCounterfactual, FamilyCounterfactual, OnlyFails, SomeAddressIsSick, AnswersAgree, Grounded;
    hide Resolvers;
    PartialExactlyWhen(run);
  }

  /** What the rows of a finished run show when nothing is wrong with it, without a target and with one. */
  predicate GenericHealthy(run: Run) {
    !Is(run.res, DNS, Fail)
    && (ExcusedQUIC(run.res) || (!ResolversCompared(run.res) && (RungsPass(run.res) || NothingFailed(run))))
  }

  predicate TargetHealthy(run: Run) { !AnyFailed(run) && !ResolversCompared(run.res) && !TargetSplit(run.res) }

  /**
    Verdict ok, for a run whose every row was selected: exactly when the run finished, nothing
    warned, no portal answered, the interface is up, and either, without a target, the rungs pass
    or nothing failed, and the resolvers support no comparison (or a QUIC failure is excused by
    one), or, with a target, nothing failed and no comparison of any kind was found.
   */
  lemma OKExactlyWhen(t: Option<Target>, run: Run)
    requires Lists(run)
    ensures InterpretationOf(t, run).verdict == OK <==>
      && Complete(run) && !AnyWarned(run) && !Intercepted(run.res) && !Is(run.res, Iface, Fail)
      && (if t.None? then GenericHealthy(run) else TargetHealthy(run))
  {
    hide Generic, Targeted, CounterfactualFindings, Finds, True, Grounded, Complete, AnyWarned, ExcusedQUIC;
    hide RungsPass, ResolversCompared, TargetSplit, MergeAll, Blamed;
    FinalVerdict(t, run);
    MergeAllKeeps(Table(t, run), CounterfactualFindings(t, run));
    ComparedVerdict(t, run);
    if run.order == [] {
      EmptyIsHealthy(run);
      ComparedExactlyWhen(t, run);
    } else if Complete(run) && !Is(run.res, Iface, Fail) {
      if t.None? {
        GenericOK(run);
      } else {
        TargetedOK(run, t.value);
      }
      if !Is(run.res, DNS, Fail) {
        ComparedExactlyWhen(t, run);
      }
    }
  }

  lemma EmptyIsHealthy(run: Run)
    requires Lists(run) && run.order == []
    ensures Complete(run) && !AnyWarned(run) && !Intercepted(run.res) && !Is(run.res, Iface, Fail)
            && !Is(run.res, DNS, Fail)
    ensures GenericHealthy(run) && TargetHealthy(run)
  {
    assert forall id :: id !in run.res;
  }

  lemma ComparedVerdict(t: Option<Target>, run: Run)
    ensures var cs := CounterfactualFindings(t, run); cs != [] ==> cs[0].verdict != OK
  {
    hide CounterfactualFindings, DNSCounterfactual, Grounded, True;
    var cs := CounterfactualFindings(t, run);
    ComparisonVerdicts(t, run);
    assert cs != [] ==> cs[0] in cs;
  }

  /** So it says of every row: none warned, with a target none failed, and without one none but the overlooked. */
  lemma OKMeans(t: Option<Target>, run: Run)
    requires Lists(run) && InterpretationOf(t, run).verdict == OK
    ensures forall id :: !Is(run.res, id, Warn)
    ensures t.Some? ==> forall id :: !Is(run.res, id, Fail)
    ensures t.None? ==> forall id :: Is(run.res, id, Fail) ==> Overlooked(run.res, id)
  {
    hide InterpretationOf, QUICUsedDisagreeingAnswer, ResolversCompared;
    OKExactlyWhen(t, run);
    forall id | id in run.res
      ensures !Is(run.res, id, Warn) && (Is(run.res, id, Fail) ==> t.None? && Overlooked(run.res, id))
    {
      assert id in run.order;
    }
  }

  /** The table overlooks a failed Wi-Fi name, whoever reports one. */
  lemma OKOverlooksSSID(run: Run)
    requires run == Run([SSID, Internet, DNS], map[SSID := ZERO.(status := Fail), Internet := ZERO, DNS := ZERO])
    ensures Lists(run) && Is(run.res, SSID, Fail) && InterpretationOf(None, run).verdict == OK
  {
    hide InterpretationOf;
    OKExactlyWhen(None, run);
  }

  /** And an excused QUIC failure stands under the disagreement's own verdict, whatever that is. */
  lemma ExcusedQUICTakesTheVerdict(run: Run)
    requires Lists(run) && Complete(run) && !Intercepted(run.res) && !Is(run.res, Iface, Fail)
    requires !AnyWarned(run) && ExcusedQUIC(run.res)
    ensures InterpretationOf(None, run).verdict == OK
  {
    hide InterpretationOf, AnyWarned, Complete;
    OKExactlyWhen(None, run);
  }

  /** Such rows: the public resolver named another address than the one QUIC dialed, and the row stayed a pass. */
  lemma ExcusedQUICExample(run: Run, here: IP, there: IP)
    requires here != there
    requires run.order == [Internet, QUIC, DNS, DNSPublic]
    requires run.res == map[
      Internet := ZERO,
      QUIC := ZERO.(status := Fail, attempts := [Attempt(here, TimeoutError, NoCause, false)]),
      DNS := ZERO.(addrs := [here]),
      DNSPublic := ZERO.(addrs := [there], absolute := true, answers := Disagree)]
    ensures ExcusedQUIC(run.res) && Is(run.res, QUIC, Fail) && InterpretationOf(None, run).verdict == OK
  {
    hide InterpretationOf;
    assert Get(run.res, QUIC).attempts[0].ip !in run.res[DNSPublic].addrs;
    assert QUICUsedDisagreeingAnswer(run.res);
    DialedIsUsed(run.res);
    ExcusedQUICTakesTheVerdict(run);
  }

  // ---------------------------------------------------------------- the other verdicts

  /** Nothing below the service failed in a way that could explain it. */
  predicate PathWorked(res: Results) {
    && !Intercepted(res) && !Is(res, Iface, Fail) && !Is(res, DNS, Fail)
    && (Is(res, TargetTCP, Fail) ==> res[TargetTCP].cause == Refused || DirectOK(res))
  }

  lemma TargetedService(run: Run, t: Target)
    ensures Targeted(run, t).verdict == ServiceProblem && !Is(run.res, Iface, Fail) ==> PathWorked(run.res)
  {
    hide TLSFailure, HTTPSFailure, HTTPFailure, BesideTarget, Grounded, Finds, Blame, True, FirstFailed;
    hide LocalTarget, UncorroboratedFailure, AllTried, PathMTUSuspected;
  }

  /** A service verdict about a target says the path works. */
  lemma ServiceMeans(t: Target, run: Run)
    ensures InterpretationOf(Some(t), run).verdict == ServiceProblem ==> PathWorked(run.res)
  {
    hide InterpretationOf, Targeted, Finds, True, PathWorked;
    FinalVerdict(Some(t), run);
    TargetedService(run, t);
  }

  lemma TableDNS(t: Option<Target>, run: Run)
    ensures Table(t, run).verdict == DNSProblem ==> Is(run.res, DNS, Fail)
    ensures Table(t, run).verdict == Unfinished <==> run.order != [] && !Complete(run)
    ensures run.order != [] && (Table(t, run).verdict == OK || Table(t, run).verdict == Degraded) ==>
      Complete(run) && !Intercepted(run.res) && !Is(run.res, Iface, Fail)
  {
    hide GenericDNSFailure, TargetedDNSFailure, TargetFailure, TLSFailure, HTTPSFailure, HTTPFailure;
    hide ReferenceFailure, UncorroboratedFailure, QUICUsedDisagreeingAnswer;
    hide Grounded, Finds, Blame, True, FirstFailed, LocalTarget, PathMTUSuspected, EncryptedDNSBlocked;
    hide TargetOK, AnyWarned, AnyFailed, Complete, ResolversDiffer;
    BlockedIsDirect(run.res);
    if Is(run.res, TargetTCP, Fail) && t.Some? {
      TargetFailureNeverOK(run, t.value);
    }
  }

  lemma BlockedIsDirect(res: Results)
    ensures EncryptedDNSBlocked(res) ==> DNSEncrypted in res && DirectOK(res)
  {
  }

  /** A resolver is accused only when it did not answer, and only an unfinished run is unfinished. */
  lemma OtherVerdictsMean(t: Option<Target>, run: Run)
    ensures InterpretationOf(t, run).verdict == DNSProblem ==>
      DNS in run.res && (run.res[DNS].status == Fail || run.res[DNS].dnsNotFound)
    ensures InterpretationOf(t, run).verdict == Unfinished <==> run.order != [] && !Complete(run)
    ensures run.order != [] && InterpretationOf(t, run).verdict in {OK, Degraded} ==>
      !Intercepted(run.res) && !Is(run.res, Iface, Fail)
  {
    hide InterpretationOf, Table, Grounded, True, AnswersDisagree;
    FinalVerdict(t, run);
    TableDNS(t, run);
  }

  // ---------------------------------------------------------------- who is blamed

  /** Nothing is blamed only when nothing was concluded and nothing failed; otherwise the first conclusion's row. */
  lemma BlamedMeans(t: Option<Target>, run: Run)
    ensures var d := InterpretationOf(t, run);
      && (d.blamed.None? <==> d.findings == [] && !AnyFailed(run))
      && (d.findings != [] ==> d.blamed == Some(d.findings[0].focus) && d.blamed.value in run.res)
  {
    hide Table, CounterfactualFindings, True;
    EvidenceIsTrue(t, run);
    var d := InterpretationOf(t, run);
    if d.findings != [] {
      assert Grounded(run, d.findings[0]);
    }
  }
}
