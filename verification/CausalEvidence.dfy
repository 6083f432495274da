/**
  The evidence a finding cites, and when an item is true of the row it cites.

  `Carries` says of every observation what a row must have recorded for it, and which value an
  item may name with it. `True` adds the kinds: support, contradiction and ruled-out items name an
  observation the row carries, and a check that was not evaluated is cited with the reason that
  really holds. Everything that builds evidence below builds only items that are true.
 */
module CausalEvidence {
  import opened Wrappers
  import opened ProbeRows

  datatype DiagnosisID =
    | NoUsableInterface | CaptivePortal | Offline | DirectEgressBlocked | DirectEgressDegraded | ProxyOnlyNetwork
    | LocalEgressFailure | ProbablePathMTU | ReferenceEgressUnreachable | ReachabilityUnlocalized
    | SystemDNSFailure | DNSNameNotFound | DNSFailure | DNSDisagreement | EncryptedDNSUnavailable
    | QUICUnavailable | ProxyFailure
    | TCPConnectionRefused | TargetUnreachable | LocalDeviceUnreachable | ReachabilityUntested
    | IPv4TargetUnreachable | IPv6TargetUnreachable | PartialReachability | UncorroboratedEndpointFailure
    | TLSCertificateExpired | TLSCertificateNotYetValid | TLSHostnameMismatch | TLSUntrustedIssuer | TLSClockSkew
    | TLSTimeout | TLSConnectionClosed | TLSTCPUnreachable | TLSHandshakeFailure
    | HTTPSNoResponse | HTTPNoResponse | HTTPConnectionClosed | InvalidHTTPResponse
    | ServiceBannerFailure | ServiceBannerMissing
    | SelectedDNSCheckFailed | SelectedServiceCheckFailed | SelectedNetworkCheckFailed

  datatype EvidenceKind = Support | Contradiction | RuledOut | NotEvaluated

  datatype Observation =
    | StatusPass | StatusWarn | StatusFail | StatusSkip | StatusNA
    | ObservedCause | DNSAnswers | DNSNotFound | Portal | TimedOut | ClockOff | Downgraded
    | FamilyReached | FamilyFailed | AddressSucceeded | AddressFailed

  datatype Value = NoValue | OfFamily(family: Family) | OfAddress(ip: IP)

  datatype Reason = NoReason | Prerequisite | NotSelected | NotApplicable | Incomplete

  datatype Item = Item(kind: EvidenceKind, check: ProbeID, observation: Option<Observation>, value: Value,
                       candidate: Option<DiagnosisID>, reason: Reason)

  // ---------------------------------------------------------------- truth

  predicate Failed(a: Attempt) { a.err != NoError && !CanceledAttempt(a) }

  predicate FamilyIs(r: Row, v: Value, s: FamilyState) {
    v.OfFamily? && r.families.Some? && StateOf(r.families.value, v.family) == s
  }

  /** Whether a row recorded an observation, with the value the item names. */
  predicate Carries(r: Row, o: Observation, v: Value) {
    match o
    case StatusPass => r.status == Pass && v == NoValue
    case StatusWarn => r.status == Warn && !r.downgraded && v == NoValue
    case StatusFail => r.status == Fail && v == NoValue
    case StatusSkip => r.status == Skip && v == NoValue
    case StatusNA => r.status == NA && v == NoValue
    case ObservedCause => r.cause != NoCause && (v == NoValue || (v.OfFamily? && r.causeFamily == Some(v.family)))
    case DNSAnswers => r.addrs != [] && (v == NoValue || (v.OfAddress? && v.ip in r.addrs))
    case DNSNotFound => r.dnsNotFound && v == NoValue
    case Portal => r.portal && v == NoValue
    case TimedOut => (r.timedOut || r.cause == Timeout) && v == NoValue
    case ClockOff => (r.clockOffset >= CLOCK_SKEW_THRESHOLD || -r.clockOffset >= CLOCK_SKEW_THRESHOLD) && v == NoValue
    case Downgraded => r.downgraded && v == NoValue
    case FamilyReached => FamilyIs(r, v, FamilyReachable)
    case FamilyFailed => FamilyIs(r, v, FamilyUnreachable)
    case AddressSucceeded => v.OfAddress? && exists a :: a in r.attempts && a.ip == v.ip && a.err == NoError
    case AddressFailed => v.OfAddress? && exists a :: a in r.attempts && a.ip == v.ip && Failed(a)
  }

  /** The stated reason a check supplied no observation is the real one. */
  predicate ReasonHolds(run: Run, e: Item) {
    match e.reason
    case NoReason => false
    case Prerequisite => Is(run.res, e.check, Skip) && e.observation == Some(StatusSkip)
    case NotApplicable => Is(run.res, e.check, NA) && e.observation == Some(StatusNA)
    case NotSelected => e.check !in run.res && e.check !in run.order && e.observation == None
    case Incomplete => e.check !in run.res && e.check in run.order && e.observation == None
  }

  /** An item is true of the row it cites. */
  predicate True(run: Run, e: Item) {
    if e.kind == NotEvaluated then ReasonHolds(run, e) && e.value == NoValue && e.candidate == None
    else
      && e.reason == NoReason && e.observation.Some? && !(e.observation.value in {StatusSkip, StatusNA})
      && e.check in run.res && Carries(run.res[e.check], e.observation.value, e.value)
      && (e.candidate.Some? <==> e.kind != Support)
  }

  predicate AllTrue(run: Run, es: seq<Item>) { forall e :: e in es ==> True(run, e) }

  // ---------------------------------------------------------------- building it

  /** The most specific fact a row carries. */
  function MostSpecific(run: Run, id: ProbeID): (e: Option<Item>)
    ensures e.Some? ==> True(run, e.value)
    ensures e.Some? <==> id in run.res
    ensures e.Some? ==> e.value.check == id
  {
    if id !in run.res then None
    else
      var r := run.res[id];
      var support := (o: Observation) => Item(Support, id, Some(o), NoValue, None, NoReason);
      if r.portal then Some(support(Portal))
      else if r.dnsNotFound then Some(support(DNSNotFound))
      else if r.cause != NoCause then
        Some(support(ObservedCause).(value := if r.causeFamily.Some? then OfFamily(r.causeFamily.value) else NoValue))
      else if r.timedOut then Some(support(TimedOut))
      else if r.downgraded then Some(support(Downgraded))
      else if r.addrs != [] then Some(support(DNSAnswers))
      else match r.status
        case Pass => Some(support(StatusPass))
        case Warn => Some(support(StatusWarn))
        case Fail => Some(support(StatusFail))
        case Skip => Some(Item(NotEvaluated, id, Some(StatusSkip), NoValue, None, Prerequisite))
        case NA => Some(Item(NotEvaluated, id, Some(StatusNA), NoValue, None, NotApplicable))
  }

  predicate Exists(res: Results, id: ProbeID, o: Observation) {
    id in res && !(o in {FamilyReached, FamilyFailed, AddressSucceeded, AddressFailed}) && Carries(res[id], o, NoValue)
  }

  function SupportRows(run: Run, rows: seq<ProbeID>): (r: seq<Item>)
    ensures AllTrue(run, r)
    ensures rows != [] && rows[0] in run.res ==> r != [] && r[0].check == rows[0]
  {
    if rows == [] then []
    else
      var last := MostSpecific(run, rows[|rows| - 1]);
      SupportRows(run, rows[..|rows| - 1]) + (if last.Some? then [last.value] else [])
  }

  function SupportObservation(run: Run, id: ProbeID, o: Observation): (e: Option<Item>)
    requires !(o in {StatusSkip, StatusNA})
    ensures e.Some? ==> True(run, e.value)
  {
    if Exists(run.res, id, o) then Some(Item(Support, id, Some(o), NoValue, None, NoReason)) else None
  }

  function Relation(run: Run, kind: EvidenceKind, candidate: DiagnosisID, id: ProbeID,
                    o: Observation): (e: Option<Item>)
    ensures e.Some? ==> True(run, e.value)
  {
    if !(kind in {Contradiction, RuledOut}) || o in {StatusSkip, StatusNA} || !Exists(run.res, id, o) then None
    else Some(Item(kind, id, Some(o), NoValue, Some(candidate), NoReason))
  }

  function Contradicts(run: Run, candidate: DiagnosisID, id: ProbeID, o: Observation): (e: Option<Item>)
    ensures e.Some? ==> True(run, e.value)
  {
    Relation(run, Contradiction, candidate, id, o)
  }

  function RulesOut(run: Run, candidate: DiagnosisID, id: ProbeID, o: Observation): (e: Option<Item>)
    ensures e.Some? ==> True(run, e.value)
  {
    Relation(run, RuledOut, candidate, id, o)
  }

  function Unevaluated(run: Run, id: ProbeID, reason: Reason): (e: Option<Item>)
    ensures e.Some? ==> True(run, e.value)
  {
    var item := Item(NotEvaluated, id, None, NoValue, None, reason);
    match reason
    case NoReason => None
    case Prerequisite => if Is(run.res, id, Skip) then Some(item.(observation := Some(StatusSkip))) else None
    case NotApplicable => if Is(run.res, id, NA) then Some(item.(observation := Some(StatusNA))) else None
    case NotSelected => if id !in run.res && id !in run.order then Some(item) else None
    case Incomplete => if id !in run.res && id in run.order then Some(item) else None
  }

  /** The items that exist. */
  function Present(extra: seq<Option<Item>>): (r: seq<Item>)
    ensures forall e :: e in r ==> Some(e) in extra
  {
    if extra == [] then []
    else Present(extra[..|extra| - 1]) + (if extra[|extra| - 1].Some? then [extra[|extra| - 1].value] else [])
  }

  /** Each item once, at its first place. */
  function Distinct(es: seq<Item>): (r: seq<Item>)
    ensures forall e :: e in r <==> e in es
    ensures forall i, j :: 0 <= i < j < |r| ==> r[i] != r[j]
    ensures es != [] ==> r != [] && r[0] == es[0]
  {
    if es == [] then []
    else
      var before, last := Distinct(es[..|es| - 1]), es[|es| - 1];
      assert es == es[..|es| - 1] + [last];
      if last in before then before else before + [last]
  }

  method DropRepeats(es: seq<Item>) returns (clean: seq<Item>)
    ensures clean == Distinct(es)
  {
    var seen: set<Item> := {};
    clean := [];
    for i := 0 to |es|
      invariant clean == Distinct(es[..i])
      invariant forall e :: e in seen <==> e in clean
    {
      assert es[..i + 1][..i] == es[..i];
      if es[i] !in seen {
        seen, clean := seen + {es[i]}, clean + [es[i]];
      }
    }
    assert es[..|es|] == es;
  }
}
