/** The three controlled comparisons a run supports: two resolvers, two families, two addresses. */
module Counterfactuals {
  import opened Wrappers
  import opened ProbeRows
  import opened CausalEvidence
  import opened Findings

  function Backs(check: ProbeID, o: Observation, v: Value): Item { Item(Support, check, Some(o), v, None, NoReason) }

  // ---------------------------------------------------------------- two resolvers

  /** Some address of each side was allocated in one block. */
  predicate AnswersAgree(a: seq<IP>, b: seq<IP>) {
    exists i, j :: 0 <= i < |a| && 0 <= j < |b| && RoutePrefix(a[i]).Some? && RoutePrefix(a[i]) == RoutePrefix(b[j])
  }

  method CompareAnswers(a: seq<IP>, b: seq<IP>) returns (agree: bool)
    ensures agree == AnswersAgree(a, b)
  {
    hide RoutePrefix;
    var seen: set<IP> := {};
    for i := 0 to |a|
      invariant forall p :: p in seen <==> exists k :: 0 <= k < i && RoutePrefix(a[k]) == Some(p)
    {
      if RoutePrefix(a[i]).Some? {
        seen := seen + {RoutePrefix(a[i]).value};
      }
    }
    for j := 0 to |b|
      invariant forall k, i :: 0 <= k < j && 0 <= i < |a| ==>
        RoutePrefix(b[k]).None? || RoutePrefix(a[i]) != RoutePrefix(b[k])
    {
      var p := RoutePrefix(b[j]);
      if p.Some? && p.value in seen {
        return true;
      }
    }
    agree := false;
  }

  /** An operator's block: 65536 consecutive IPv4 addresses, or the IPv6 addresses below one 32-bit prefix. */
  predicate InBlock(ip: IP, v4: bool, block: nat) {
    match ip
    case IPv4(n) => v4 && block * 0x1_0000 <= n < (block + 1) * 0x1_0000
    case IPv6(n) =>
      !v4 && block * 0x1_0000_0000_0000_0000_0000_0000 <= n < (block + 1) * 0x1_0000_0000_0000_0000_0000_0000
    case Malformed(_) => false
  }

  /** Two answer sets agree when some address of each lies in one block. */
  lemma AgreementIsABlock(a: seq<IP>, b: seq<IP>)
    ensures AnswersAgree(a, b) <==>
      exists x, y, v4, block :: x in a && y in b && InBlock(x, v4, block) && InBlock(y, v4, block)
  {
    if i, j :| 0 <= i < |a| && 0 <= j < |b| && RoutePrefix(a[i]).Some? && RoutePrefix(a[i]) == RoutePrefix(b[j]) {
      BlockOf(a[i]);
      BlockOf(b[j]);
      var p := RoutePrefix(a[i]).value;
      assert InBlock(a[i], p.IPv4?, p.bits) && InBlock(b[j], p.IPv4?, p.bits);
    }
    if x, y, v4, block :| x in a && y in b && InBlock(x, v4, block) && InBlock(y, v4, block) {
      BlockIs(x, v4, block);
      BlockIs(y, v4, block);
      var i :| 0 <= i < |a| && a[i] == x;
      var j :| 0 <= j < |b| && b[j] == y;
    }
  }

  lemma BlockOf(ip: IP)
    requires RoutePrefix(ip).Some?
    ensures !RoutePrefix(ip).value.Malformed? && InBlock(ip, RoutePrefix(ip).value.IPv4?, RoutePrefix(ip).value.bits)
    ensures RoutePrefix(ip).value.IPv4? == ip.IPv4?
  {
  }

  lemma BlockIs(ip: IP, v4: bool, block: nat)
    requires InBlock(ip, v4, block)
    ensures RoutePrefix(ip) == Some(if v4 then IPv4(block) else IPv6(block))
  {
  }

  /** The recorded comparison, or one made here where the run recorded none. */
  predicate AnswersDisagree(system: Row, independent: Row) {
    match independent.answers
    case Agree => false
    case Disagree => true
    case Unrecorded => !AnswersAgree(system.addrs, independent.addrs)
  }

  /** A comparison of the two resolvers, each alternative resting on what its row saw. */
  function Resolvers(run: Run, id: DiagnosisID, v: Verdict, system: Outcome, saw: Observation, independent: Outcome,
                     alsoSaw: Observation): (f: Finding)
    requires True(run, Backs(DNS, saw, NoValue)) && True(run, Backs(DNSPublic, alsoSaw, NoValue))
    ensures Grounded(run, f) && f.id == id && f.verdict == v
  {
    var x := Alternative(SystemResolver, system, [Backs(DNS, saw, NoValue)]);
    var y := Alternative(IndependentResolver, independent, [Backs(DNSPublic, alsoSaw, NoValue)]);
    var evidence := x.evidence + y.evidence;
    assert AllTrue(run, x.evidence) && AllTrue(run, y.evidence) && AllTrue(run, evidence);
    Finding(id, v, DNS, evidence, Some(Counterfactual(DNSResolver, [x, y])))
  }

  function DNSCounterfactual(run: Run): (f: Option<Finding>)
    ensures f.Some? ==> Grounded(run, f.value)
  {
    if !NamesComparable(run.res) || run.res[DNSPublic].status == NA || run.res[DNSPublic].status == Skip then None
    else
      var system, independent := run.res[DNS], run.res[DNSPublic];
      if system.dnsNotFound && independent.dnsNotFound then
        Some(Resolvers(run, DNSNameNotFound, DNSProblem, NotFound, DNSNotFound, NotFound, DNSNotFound))
      else if (system.status == Fail || system.dnsNotFound) && independent.addrs != [] then
        var saw :=
          if system.dnsNotFound then DNSNotFound else if system.cause == NoCause then StatusFail else ObservedCause;
        var outcome := if system.dnsNotFound then NotFound else DidFail;
        Some(Resolvers(run, SystemDNSFailure, DNSProblem, outcome, saw, Succeeded, DNSAnswers))
      else if system.addrs != [] && independent.dnsNotFound then
        Some(Resolvers(run, DNSDisagreement, Degraded, Succeeded, DNSAnswers, NotFound, DNSNotFound))
      else if system.addrs != [] && independent.addrs != [] && AnswersDisagree(system, independent) then
        Some(Resolvers(run, DNSDisagreement, Degraded, Succeeded, DNSAnswers, Succeeded, DNSAnswers))
      else None
  }

  // ---------------------------------------------------------------- two families

  predicate CountsForRefusal(a: Attempt, f: Family) { FamilyOf(a.ip) == f && a.err != NoError && !a.aborted }

  predicate AllRefused(r: Row, f: Family) {
    && (exists i :: 0 <= i < |r.attempts| && CountsForRefusal(r.attempts[i], f))
    && (forall i :: 0 <= i < |r.attempts| && CountsForRefusal(r.attempts[i], f) ==>
      AttemptCause(r.attempts[i]) == Refused)
  }

  /** A refusal: the peer's own answer, by the recorded cause or by the error. */
  predicate WasRefused(a: Attempt) { a.cause == Refused || (a.cause == NoCause && a.err == RefusedError) }

  /** An attempt in a family that ran to an error of its own. */
  predicate RanOut(a: Attempt, f: Family) { a.ip.IPv4? == (f == V4) && a.err != NoError && !a.aborted }

  /** A family was refused outright: some attempt in it ended in an error, and every one that did was refused. */
  lemma RefusedMeans(r: Row, f: Family)
    ensures AllRefused(r, f) <==>
      (exists a :: a in r.attempts && RanOut(a, f)) && forall a :: a in r.attempts && RanOut(a, f) ==> WasRefused(a)
  {
    forall i | 0 <= i < |r.attempts|
      ensures CountsForRefusal(r.attempts[i], f) <==> RanOut(r.attempts[i], f)
      ensures AttemptCause(r.attempts[i]) == Refused <==> WasRefused(r.attempts[i])
    {
      assert r.attempts[i] in r.attempts;
    }
    if a :| a in r.attempts && RanOut(a, f) {
      var i :| 0 <= i < |r.attempts| && r.attempts[i] == a;
      assert CountsForRefusal(r.attempts[i], f);
    }
    hide AttemptCause, CountsForRefusal, RanOut, WasRefused;
  }

  method FamilyAttemptsAllRefused(r: Row, f: Family) returns (b: bool)
    ensures b == AllRefused(r, f)
  {
    var seen := false;
    for i := 0 to |r.attempts|
      invariant seen <==> exists k :: 0 <= k < i && CountsForRefusal(r.attempts[k], f)
      invariant forall k :: 0 <= k < i && CountsForRefusal(r.attempts[k], f) ==> AttemptCause(r.attempts[k]) == Refused
    {
      if CountsForRefusal(r.attempts[i], f) {
        seen := true;
        if AttemptCause(r.attempts[i]) != Refused {
          return false;
        }
      }
    }
    b := seen;
  }

  /** This machine was shown to have a usable path in a family. */
  predicate EgressReaches(res: Results, f: Family) {
    Get(res, Internet).families.Some? && StateOf(Get(res, Internet).families.value, f) == FamilyReachable
  }

  function EffectiveState(res: Results, f: Family): FamilyState {
    var target := Get(res, TargetTCP);
    if target.families.None? then Untested
    else
      var s := StateOf(target.families.value, f);
      if s == FamilyUnreachable && !EgressReaches(res, f) && !AllRefused(target, f) then Untested else s
  }

  function EffectiveFamilies(res: Results): Families { Families(EffectiveState(res, V4), EffectiveState(res, V6)) }

  function Other(f: Family): Family { if f == V4 then V6 else V4 }

  predicate OnlyFails(res: Results, f: Family) {
    EffectiveState(res, f) == FamilyUnreachable && EffectiveState(res, Other(f)) == FamilyReachable
  }

  /** The one family that is down while the other is up. */
  function FailedFamily(res: Results): (f: Option<Family>)
    ensures forall g :: OnlyFails(res, g) <==> f == Some(g)
  {
    if EffectiveState(res, V4) == FamilyReachable && EffectiveState(res, V6) == FamilyUnreachable then Some(V6)
    else if EffectiveState(res, V6) == FamilyReachable && EffectiveState(res, V4) == FamilyUnreachable then Some(V4)
    else None
  }

  function FamilyFinding(run: Run, down: Family): (f: Finding)
    requires OnlyFails(run.res, down)
    ensures Grounded(run, f) && f.verdict == Degraded
            && f.id == if down == V6 then IPv6TargetUnreachable else IPv4TargetUnreachable
  {
    var failed := Backs(TargetTCP, FamilyFailed, OfFamily(down));
    var succeeded := Backs(TargetTCP, FamilyReached, OfFamily(Other(down)));
    assert True(run, failed) && True(run, succeeded);
    var cited :=
      [failed] + (if EgressReaches(run.res, down) then [Backs(Internet, FamilyReached, OfFamily(down))] else []);
    assert AllTrue(run, cited);
    assert AllTrue(run, [succeeded]);
    Finding(if down == V6 then IPv6TargetUnreachable else IPv4TargetUnreachable, Degraded, TargetTCP,
            cited + [succeeded],
            Some(Counterfactual(AddressFamily,
                                [Alternative(TheFamily(down), DidFail, cited),
                                 Alternative(TheFamily(Other(down)), Succeeded, [succeeded])])))
  }

  function FamilyCounterfactual(run: Run): (f: Option<Finding>)
    ensures f.Some? ==> Grounded(run, f.value)
    ensures f.Some? <==> OnlyFails(run.res, V4) || OnlyFails(run.res, V6)
  {
    var failed := FailedFamily(run.res);
    if failed.None? then None else Some(FamilyFinding(run, failed.value))
  }

  // ---------------------------------------------------------------- two addresses

  /** A connection to a resolved address of the same family that really worked. */
  predicate SiblingWorked(attempt: Attempt, resolved: seq<IP>, sibling: Attempt) {
    && !sibling.ip.Malformed? && sibling.err == NoError && !sibling.aborted && sibling.cause == NoCause
    && sibling.ip.IPv4? == attempt.ip.IPv4? && sibling.ip != attempt.ip && sibling.ip in resolved
  }

  /** The first of them, in the order they finished. */
  function FirstSibling(attempt: Attempt, resolved: seq<IP>, attempts: seq<Attempt>): (s: Option<IP>)
    ensures s.Some? <==> exists a :: a in attempts && SiblingWorked(attempt, resolved, a)
    ensures s.Some? ==> exists a :: a in attempts && SiblingWorked(attempt, resolved, a) && a.ip == s.value
  {
    if attempts == [] then None
    else if SiblingWorked(attempt, resolved, attempts[0]) then
      assert attempts[0] in attempts;
      Some(attempts[0].ip)
    else
      assert forall a :: a in attempts <==> a == attempts[0] || a in attempts[1..];
      FirstSibling(attempt, resolved, attempts[1..])
  }

  /** An address that failed on its own account, in a family that works. */
  predicate SickAddress(res: Results, resolved: seq<IP>, r: Row, a: Attempt) {
    && Failed(a) && Some(a.ip) != r.selectedIP && a.ip in resolved
    && EffectiveState(res, FamilyOf(a.ip)) == FamilyReachable
  }

  datatype Addresses = Addresses(failed: seq<IP>, succeeded: seq<IP>)

  predicate Compares(res: Results, resolved: seq<IP>, r: Row, a: Attempt) {
    SickAddress(res, resolved, r, a) && !a.ip.Malformed? && FirstSibling(a, resolved, r.attempts).Some?
  }

  predicate Connected(resolved: seq<IP>, r: Row, ip: IP) {
    ip in resolved && exists a :: a in r.attempts && a.ip == ip && a.err == NoError
  }

  /** The failed addresses with a working sibling, each once, and the siblings, each once. */
  function CompareAddresses(res: Results, resolved: seq<IP>, r: Row, attempts: seq<Attempt>): (s: Addresses)
    ensures forall ip :: ip in s.failed <==> exists a :: a in attempts && Compares(res, resolved, r, a) && a.ip == ip
    ensures forall i, j :: 0 <= i < j < |s.failed| ==> s.failed[i] != s.failed[j]
    ensures forall i, j :: 0 <= i < j < |s.succeeded| ==> s.succeeded[i] != s.succeeded[j]
    ensures forall ip :: ip in s.succeeded ==> Connected(resolved, r, ip)
    ensures s.failed != [] <==> s.succeeded != []
  {
    if attempts == [] then Addresses([], [])
    else
      var n := |attempts| - 1;
      var s, a := CompareAddresses(res, resolved, r, attempts[..n]), attempts[n];
      assert forall x :: x in attempts <==> x in attempts[..n] || x == a by { assert attempts == attempts[..n] + [a]; }
      if !Compares(res, resolved, r, a) || a.ip in s.failed then s
      else
        var success := FirstSibling(a, resolved, r.attempts).value;
        Addresses(s.failed + [a.ip], if success in s.succeeded then s.succeeded else s.succeeded + [success])
  }

  function Cited(ip: IP, o: Observation): seq<Item> {
    [Backs(TargetTCP, o, OfAddress(ip)), Backs(DNS, DNSAnswers, OfAddress(ip))]
  }

  /** What is said of a list of addresses, one alternative each. */
  function AlternativesFor(ips: seq<IP>, outcome: Outcome, o: Observation): seq<Alternative> {
    seq(|ips|, i requires 0 <= i < |ips| => Alternative(TheAddress(ips[i]), outcome, Cited(ips[i], o)))
  }

  function EvidenceFor(ips: seq<IP>, o: Observation): (es: seq<Item>)
    ensures forall e :: e in es ==> exists ip :: ip in ips && e in Cited(ip, o)
    ensures ips != [] ==> es != [] && es[0].check == TargetTCP
  {
    if ips == [] then []
    else
      var n := |ips| - 1;
      assert ips == ips[..n] + [ips[n]];
      EvidenceFor(ips[..n], o) + Cited(ips[n], o)
  }

  function AddressFinding(s: Addresses): Finding {
    Finding(PartialReachability, Degraded, TargetTCP,
            EvidenceFor(s.failed, AddressFailed) + EvidenceFor(s.succeeded, AddressSucceeded),
            Some(Counterfactual(ResolvedAddress,
              AlternativesFor(s.failed, DidFail, AddressFailed)
                + AlternativesFor(s.succeeded, Succeeded, AddressSucceeded))))
  }

  function AddressCounterfactual(run: Run): (f: Option<Finding>) {
    var r, resolved := Get(run.res, TargetTCP), Get(run.res, DNS).addrs;
    if r.selectedIP.None? || |r.attempts| < 2 || |resolved| < 2 then None
    else
      var s := CompareAddresses(run.res, resolved, r, r.attempts);
      if s.failed == [] then None else Some(AddressFinding(s))
  }

  lemma CitedIsTrue(run: Run, ip: IP, o: Observation)
    requires TargetTCP in run.res && DNS in run.res && ip in run.res[DNS].addrs
    requires (o == AddressFailed && exists a :: a in run.res[TargetTCP].attempts && a.ip == ip && Failed(a))
             || (o == AddressSucceeded && exists a ::
                   a in run.res[TargetTCP].attempts && a.ip == ip && a.err == NoError)
    ensures AllTrue(run, Cited(ip, o))
  {
    hide Failed;
  }

  lemma AddressGrounded(run: Run)
    ensures AddressCounterfactual(run).Some? ==> Grounded(run, AddressCounterfactual(run).value)
  {
    hide Compares, Cited, True, Failed, EvidenceFor, CompareAddresses;
    var r, resolved := Get(run.res, TargetTCP), Get(run.res, DNS).addrs;
    if AddressCounterfactual(run).Some? {
      assert TargetTCP in run.res && DNS in run.res;
      var s := CompareAddresses(run.res, resolved, r, r.attempts);
      forall ip | ip in s.failed
        ensures AllTrue(run, Cited(ip, AddressFailed))
      {
        var a :| a in r.attempts && Compares(run.res, resolved, r, a) && a.ip == ip;
        ComparesMeans(run.res, resolved, r, a);
        CitedIsTrue(run, ip, AddressFailed);
      }
      forall ip | ip in s.succeeded
        ensures AllTrue(run, Cited(ip, AddressSucceeded))
      {
        CitedIsTrue(run, ip, AddressSucceeded);
      }
      var f := AddressFinding(s);
      forall e | e in f.evidence
        ensures True(run, e)
      {
      }
      forall x | x in f.counterfactual.value.alternatives
        ensures x.evidence != [] && AllTrue(run, x.evidence)
      {
        AlternativeIsOne(s, x);
      }
    }
  }

  lemma AlternativeIsOne(s: Addresses, x: Alternative)
    requires x in AddressFinding(s).counterfactual.value.alternatives
    ensures (exists ip :: ip in s.failed && x.evidence == Cited(ip, AddressFailed))
         || (exists ip :: ip in s.succeeded && x.evidence == Cited(ip, AddressSucceeded))
    ensures x.evidence != []
  {
    var xs, ys := AlternativesFor(s.failed, DidFail, AddressFailed),
        AlternativesFor(s.succeeded, Succeeded, AddressSucceeded);
    assert x in xs || x in ys;
    if x in xs {
      var i :| 0 <= i < |xs| && xs[i] == x;
      assert s.failed[i] in s.failed;
    } else {
      var i :| 0 <= i < |ys| && ys[i] == x;
      assert s.succeeded[i] in s.succeeded;
    }
  }

  lemma ComparesMeans(res: Results, resolved: seq<IP>, r: Row, a: Attempt)
    requires Compares(res, resolved, r, a)
    ensures Failed(a) && a.ip in resolved
  {
  }

  /**
    Partial reachability is concluded exactly when some address failed on its own account in a
    family that works, while another address of that family answered.
   */
  lemma PartialExactlyWhen(run: Run)
    ensures AddressCounterfactual(run).Some?
       <==> (&& Get(run.res, TargetTCP).selectedIP.Some?
             && SomeAddressIsSick(run.res, Get(run.res, DNS).addrs, Get(run.res, TargetTCP)))
  {
    hide SickAddress, SiblingWorked, Failed;
    var r, resolved := Get(run.res, TargetTCP), Get(run.res, DNS).addrs;
    var s := CompareAddresses(run.res, resolved, r, r.attempts);
    if s.failed != [] {
      assert s.failed[0] in s.failed;
      var a :| a in r.attempts && Compares(run.res, resolved, r, a) && a.ip == s.failed[0];
      var b :| b in r.attempts && SiblingWorked(a, resolved, b);
      assert SickBeside(run.res, resolved, r, a, b);
    }
    if a, b :| a in r.attempts && b in r.attempts && SickBeside(run.res, resolved, r, a, b) {
      assert Compares(run.res, resolved, r, a);
      assert a.ip in s.failed;
      ComparesMeans(run.res, resolved, r, a);
      TwoDistinct(resolved, r, a, b);
    }
  }

  predicate SickBeside(res: Results, resolved: seq<IP>, r: Row, a: Attempt, b: Attempt) {
    SickAddress(res, resolved, r, a) && !a.ip.Malformed? && SiblingWorked(a, resolved, b)
  }

  predicate SomeAddressIsSick(res: Results, resolved: seq<IP>, r: Row) {
    exists a, b :: a in r.attempts && b in r.attempts && SickBeside(res, resolved, r, a, b)
  }

  lemma TwoDistinct(resolved: seq<IP>, r: Row, a: Attempt, b: Attempt)
    requires a in r.attempts && b in r.attempts && a.ip in resolved && SiblingWorked(a, resolved, b)
    ensures |r.attempts| >= 2 && |resolved| >= 2
  {
    var i :| 0 <= i < |r.attempts| && r.attempts[i] == a;
    var j :| 0 <= j < |r.attempts| && r.attempts[j] == b;
    var k :| 0 <= k < |resolved| && resolved[k] == a.ip;
    var l :| 0 <= l < |resolved| && resolved[l] == b.ip;
  }

  /** An address that did not answer for a reason of its own, where its family does. */
  predicate Sick(res: Results, a: Attempt) {
    && DNS in res && TargetTCP in res && a in res[TargetTCP].attempts && a.ip in res[DNS].addrs && !a.ip.Malformed?
    && a.err != NoError && !GivenUp(a) && res[TargetTCP].selectedIP != Some(a.ip)
    && EffectiveState(res, if a.ip.IPv4? then V4 else V6) == FamilyReachable
  }

  /** An address of the same family, resolved too, to which a connection stood. */
  predicate Beside(res: Results, a: Attempt, b: Attempt) {
    && DNS in res && TargetTCP in res && b in res[TargetTCP].attempts && b.ip in res[DNS].addrs && !b.ip.Malformed?
    && b.err == NoError && !b.aborted && b.cause == NoCause && b.ip != a.ip && (b.ip.IPv4? <==> a.ip.IPv4?)
  }

  /** Partial reachability, over the rows alone. */
  lemma PartialMeans(run: Run)
    ensures AddressCounterfactual(run).Some? <==>
      && TargetTCP in run.res && run.res[TargetTCP].selectedIP.Some?
      && exists a, b :: Sick(run.res, a) && Beside(run.res, a, b)
  {
    hide AddressCounterfactual, EffectiveState, CanceledAttempt;
    PartialExactlyWhen(run);
    var res := run.res;
    var r, resolved := Get(res, TargetTCP), Get(res, DNS).addrs;
    forall a, b
      ensures (a in r.attempts && b in r.attempts && SickBeside(res, resolved, r, a, b)) <==>
        Sick(res, a) && Beside(res, a, b)
    {
      AttemptCauseMeans(a);
    }
  }

  method CollectAddresses(res: Results, resolved: seq<IP>, r: Row) returns (s: Addresses)
    ensures s == CompareAddresses(res, resolved, r, r.attempts)
  {
    hide SickAddress, SiblingWorked, FirstSibling;
    s := Addresses([], []);
    for i := 0 to |r.attempts|
      invariant s == CompareAddresses(res, resolved, r, r.attempts[..i])
    {
      var a := r.attempts[i];
      assert r.attempts[..i + 1][..i] == r.attempts[..i];
      if SickAddress(res, resolved, r, a) && !a.ip.Malformed? && a.ip !in s.failed {
        var success := FindSibling(a, resolved, r.attempts);
        if success.Some? {
          s := Addresses(s.failed + [a.ip],
                         if success.value in s.succeeded then s.succeeded else s.succeeded + [success.value]);
        }
      }
    }
    assert r.attempts[..|r.attempts|] == r.attempts;
  }

  method FindSibling(attempt: Attempt, resolved: seq<IP>, attempts: seq<Attempt>) returns (s: Option<IP>)
    ensures s == FirstSibling(attempt, resolved, attempts)
  {
    var i := 0;
    while i < |attempts|
      invariant 0 <= i <= |attempts|
      invariant FirstSibling(attempt, resolved, attempts) == FirstSibling(attempt, resolved, attempts[i..])
    {
      if SiblingWorked(attempt, resolved, attempts[i]) {
        return Some(attempts[i].ip);
      }
      assert attempts[i..][1..] == attempts[i + 1..];
      i := i + 1;
    }
    s := None;
  }

  // ---------------------------------------------------------------- all three

  /** The comparisons of a run, in the order they are reported; a run without a target has only the first. */
  function CounterfactualFindings(t: Option<Target>, run: Run): seq<Finding> {
    var d, f, a := DNSCounterfactual(run), FamilyCounterfactual(run), AddressCounterfactual(run);
    (if d.Some? then [d.value] else [])
    + (if t.Some? && f.Some? then [f.value] else [])
    + (if t.Some? && a.Some? then [a.value] else [])
  }

  lemma CounterfactualsGrounded(t: Option<Target>, run: Run)
    ensures AllGrounded(run, CounterfactualFindings(t, run))
  {
    hide DNSCounterfactual, FamilyCounterfactual, AddressCounterfactual, Grounded;
    AddressGrounded(run);
  }
}
