/** The conclusions of a run, and what every one of them has to satisfy. */
module Findings {
  import opened Wrappers
  import opened ProbeRows
  import opened CausalEvidence

  datatype Verdict = OK | Degraded | DNSProblem | NetworkProblem | ServiceProblem | Unfinished

  datatype Variable = DNSResolver | AddressFamily | ResolvedAddress

  datatype Outcome = Succeeded | DidFail | NotFound

  datatype Choice = SystemResolver | IndependentResolver | TheFamily(family: Family) | TheAddress(ip: IP)

  datatype Alternative = Alternative(choice: Choice, outcome: Outcome, evidence: seq<Item>)

  datatype Counterfactual = Counterfactual(variable: Variable, alternatives: seq<Alternative>)

  datatype Finding = Finding(id: DiagnosisID, verdict: Verdict, focus: ProbeID, evidence: seq<Item>,
                             counterfactual: Option<Counterfactual>)

  datatype Diagnosis = Diagnosis(verdict: Verdict, findings: seq<Finding>, blamed: Option<ProbeID>)

  /** Every alternative is borne out by the rows it cites. */
  predicate Borne(run: Run, c: Counterfactual) {
    forall a :: a in c.alternatives ==> a.evidence != [] && AllTrue(run, a.evidence)
  }

  /** A finding rests on true evidence, its own row first. */
  predicate Grounded(run: Run, f: Finding) {
    && f.focus in run.res && f.evidence != [] && f.evidence[0].check == f.focus && AllTrue(run, f.evidence)
    && (f.counterfactual.Some? ==> Borne(run, f.counterfactual.value))
  }

  predicate AllGrounded(run: Run, fs: seq<Finding>) { forall f :: f in fs ==> Grounded(run, f) }

  function Plain(v: Verdict): Diagnosis { Diagnosis(v, [], None) }

  /** One conclusion about one row, resting on the rows named and on whichever of the further items exist. */
  function Finds(run: Run, id: DiagnosisID, focus: ProbeID, v: Verdict, rows: seq<ProbeID>,
                 extra: seq<Option<Item>>): (d: Diagnosis)
    requires focus in run.res && rows != [] && rows[0] == focus
    requires forall e :: e in extra && e.Some? ==> True(run, e.value)
    ensures d.verdict == v && |d.findings| == 1 && Grounded(run, d.findings[0])
    ensures d.findings[0].id == id && d.findings[0].verdict == v && d.findings[0].focus == focus
  {
    var evidence := SupportRows(run, rows) + Present(extra);
    Diagnosis(v, [Finding(id, v, focus, Distinct(evidence), None)], None)
  }

  function Blame(run: Run, id: DiagnosisID, focus: ProbeID, v: Verdict, from: seq<ProbeID>): (d: Diagnosis)
    requires focus in run.res
    ensures d.verdict == v && |d.findings| == 1 && Grounded(run, d.findings[0])
    ensures d.findings[0].id == id && d.findings[0].verdict == v && d.findings[0].focus == focus
  {
    Finds(run, id, focus, v, [focus] + from, [])
  }
}
