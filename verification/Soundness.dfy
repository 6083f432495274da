/**
  What the interpretation of any run may be relied on for.

  Every part of the table is shown to cite only what the rows carry, and merging the comparisons
  in afterwards to keep that, so a finding never cites an observation that was not made.
 */
module Soundness {
  import opened Wrappers
  import opened ProbeRows
  import opened CausalEvidence
  import opened Findings
  import opened Counterfactuals
  import opened Interpretation

  // ---------------------------------------------------------------- every citation is true

  lemma GenericGrounded(run: Run)
    ensures AllGrounded(run, Generic(run).findings)
  {
    hide Grounded, GenericDNSFailure, GenericQUICFailure, EncryptedDNSBlocked, GenericVerdict, FirstFailed;
    hide Finds, Blame;
    assert EncryptedDNSBlocked(run.res) ==> DNSEncrypted in run.res by { BlockedMeans(run.res); }
  }

  lemma BlockedMeans(res: Results)
    ensures EncryptedDNSBlocked(res) ==> Is(res, DNSEncrypted, Fail) && DirectOK(res)
  {
  }

  lemma TargetFailureGrounded(run: Run, t: Target)
    requires Is(run.res, TargetTCP, Fail)
    ensures AllGrounded(run, TargetFailure(run, t).findings)
  {
    hide Grounded, LocalTargetFailure, ReachableNetworkFailure, LocalTarget, Finds, Blame, True;
  }

  lemma BesideTargetGrounded(run: Run, t: Target)
    ensures AllGrounded(run, BesideTarget(run, t).findings)
  {
    hide Grounded, TargetOK, ReferenceFailure, EncryptedDNSBlocked, FirstFailed, Finds, Blame;
    BlockedMeans(run.res);
  }

  lemma TargetedGrounded(run: Run, t: Target)
    ensures AllGrounded(run, Targeted(run, t).findings)
  {
    hide Grounded, TargetFailure, BesideTarget, TargetedDNSFailure, TLSFailure, HTTPSFailure, HTTPFailure;
    hide Finds, Blame, Stalled, CertificateRejected;
    if Is(run.res, TargetTCP, Fail) {
      TargetFailureGrounded(run, t);
    }
    BesideTargetGrounded(run, t);
  }

  lemma TableGrounded(t: Option<Target>, run: Run)
    ensures AllGrounded(run, Table(t, run).findings)
  {
    hide Grounded, Generic, Targeted, Finds, Complete, True;
    GenericGrounded(run);
    if t.Some? {
      TargetedGrounded(run, t.value);
    }
  }

  lemma MergeGrounded(run: Run, d: Diagnosis, c: Finding)
    requires AllGrounded(run, d.findings) && Grounded(run, c)
    ensures AllGrounded(run, Merge(d, c).findings)
  {
    hide IndexOf, True, Borne;
    var i := IndexOf(d.findings, c.id);
    if i.Some? {
      assert d.findings[i.value] in d.findings;
    }
  }

  lemma {:induction false} MergeAllGrounded(run: Run, d: Diagnosis, cs: seq<Finding>)
    requires AllGrounded(run, d.findings) && AllGrounded(run, cs)
    ensures AllGrounded(run, MergeAll(d, cs).findings)
  {
    hide Merge, Grounded;
    if cs != [] {
      MergeAllGrounded(run, d, cs[..|cs| - 1]);
      MergeGrounded(run, MergeAll(d, cs[..|cs| - 1]), cs[|cs| - 1]);
    }
  }

  /** Every item of evidence, in every finding and every compared alternative, is true of the row it cites. */
  lemma EvidenceIsTrue(t: Option<Target>, run: Run)
    ensures AllGrounded(run, InterpretationOf(t, run).findings)
  {
    hide Table, CounterfactualFindings, MergeAll, Grounded;
    TableGrounded(t, run);
    CounterfactualsGrounded(t, run);
    MergeAllGrounded(run, Table(t, run), CounterfactualFindings(t, run));
  }
}
