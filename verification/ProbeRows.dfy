/** The result rows of a run, and the questions every interpretation pass asks of them. */
module ProbeRows {
  import opened Wrappers

  datatype ProbeID = Iface | SSID | Internet | QUIC | Proxy | DNS | DNSPublic | DNSEncrypted
                   | TargetTCP | PMTU | TLS | HTTP | HTTPS | SSH | SMTP

  datatype Status = Pass | Warn | Fail | Skip | NA

  /** The machine-readable causes the passes below tell apart. */
  datatype Cause =
    | NoCause
    | NoDefaultRoute | GatewayUnreachable | PreferredPathAlternateReachable
    | UnexpectedResponse
    | Refused | Reset | Closed | Timeout | Unreachable | Canceled
    | CertificateExpired | CertificateNotYet | HostnameMismatch | UntrustedIssuer | TLSHandshake | TCPUnreachable
    | InvalidResponse
    | OtherCause(name: string)

  /** net.IP as the address it names: a mapped IPv4 address is the IPv4 address. Bits are the address as a number. */
  datatype IP = IPv4(bits: nat) | IPv6(bits: nat) | Malformed(raw: string)

  datatype Family = V4 | V6

  datatype FamilyState = Untested | FamilyReachable | FamilyUnreachable

  datatype Families = Families(ipv4: FamilyState, ipv6: FamilyState)

  function StateOf(fs: Families, f: Family): FamilyState { if f == V4 then fs.ipv4 else fs.ipv6 }

  datatype DialError = NoError | CanceledError | TimeoutError | RefusedError | OtherError

  datatype Attempt = Attempt(ip: IP, err: DialError, cause: Cause, aborted: bool)

  datatype Comparison = Unrecorded | Agree | Disagree

  datatype Row = Row(
    status: Status, cause: Cause, causeFamily: Option<Family>, families: Option<Families>, downgraded: bool,
    answers: Comparison, portal: bool, addrs: seq<IP>, absolute: bool, dnsNotFound: bool, selectedIP: Option<IP>,
    attempts: seq<Attempt>, timedOut: bool, clockOffset: int)

  /** What a lookup of a row that is not there yields: the zero result, whose status reads as a pass. */
  const ZERO := Row(Pass, NoCause, None, None, false, Unrecorded, false, [], false, false, None, [], false, 0)

  type Results = map<ProbeID, Row>

  /** The rows that were selected, in order, and the rows that reported. */
  datatype Run = Run(order: seq<ProbeID>, res: Results)

  function Get(res: Results, id: ProbeID): Row { if id in res then res[id] else ZERO }

  predicate Is(res: Results, id: ProbeID, s: Status) { id in res && res[id].status == s }

  predicate Functional(s: Status) { s == Pass || s == Warn }

  predicate Works(res: Results, id: ProbeID) { id in res && Functional(res[id].status) }

  datatype Proto = NoProto | TLSAndHTTP | PlainHTTP | SSHProto | SMTPProto

  /** The endpoint under test, with its address when it is an IP literal. */
  datatype Target = Target(ip: Option<IP>, proto: Proto)

  // ---------------------------------------------------------------- addresses

  function FamilyOf(ip: IP): Family { if ip.IPv4? then V4 else V6 }

  /** Private, link-local, loopback, shared (RFC 6598) and site-local (RFC 3879) space. */
  predicate LocalIP(ip: IP) {
    match ip
    case IPv4(n) =>
      || n / 0x100_0000 == 10 || n / 0x10_0000 == 0xac1 || n / 0x1_0000 == 0xc0a8      // 10/8, 172.16/12, 192.168/16
      || n / 0x1_0000 == 0xa9fe || n / 0x100_0000 == 127                               // 169.254/16, 127/8
      || n / 0x40_0000 == 0x191                                                        // 100.64/10
    case IPv6(n) =>
      var top := n / 0x1_0000_0000_0000_0000_0000_0000_0000;                           // the first sixteen bits
      || top / 0x200 == 0x7e || top / 0x40 == 0x3fa                                    // fc00::/7, fe80::/10
      || top / 0x40 == 0x3fb || n == 1                                                 // fec0::/10, ::1
    case Malformed(_) => false
  }

  /** The block an answer's operator was allocated: /16 for IPv4, /32 for IPv6. */
  function RoutePrefix(ip: IP): Option<IP> {
    match ip
    case IPv4(n) => Some(IPv4(n / 0x1_0000))
    case IPv6(n) => Some(IPv6(n / 0x1_0000_0000_0000_0000_0000_0000))
    case Malformed(_) => None
  }

  // ---------------------------------------------------------------- attempts

  function ConnectionFailureCause(e: DialError): Cause {
    match e
    case CanceledError => Canceled
    case TimeoutError => Timeout
    case RefusedError => Refused
    case _ => Unreachable
  }

  function AttemptCause(a: Attempt): Cause { if a.cause != NoCause then a.cause else ConnectionFailureCause(a.err) }

  predicate CanceledAttempt(a: Attempt) { a.aborted || a.err == CanceledError || AttemptCause(a) == Canceled }

  /** What an attempt's failure is called: its own word, or the one its error has. */
  lemma AttemptCauseMeans(a: Attempt)
    ensures a.cause != NoCause ==> AttemptCause(a) == a.cause
    ensures a.cause == NoCause ==>
      && (AttemptCause(a) == Canceled <==> a.err == CanceledError)
      && (AttemptCause(a) == Timeout <==> a.err == TimeoutError)
      && (AttemptCause(a) == Refused <==> a.err == RefusedError)
      && (AttemptCause(a) == Unreachable <==> a.err == OtherError || a.err == NoError)
    ensures CanceledAttempt(a) <==> GivenUp(a)
  {
  }

  /** The race or its caller gave up on the attempt before it could say anything. */
  predicate GivenUp(a: Attempt) { a.aborted || a.err == CanceledError || a.cause == Canceled }

  // ---------------------------------------------------------------- egress, proxy, portal

  predicate Intercepted(res: Results) { Internet in res && res[Internet].portal }

  /** Direct egress genuinely worked: not a failure a later pass relaxed. */
  predicate DirectOK(res: Results) { Works(res, Internet) && !res[Internet].downgraded }

  predicate ProxyCarries(res: Results) { Works(res, Proxy) }

  predicate PublicTargetReached(res: Results) {
    Works(res, TargetTCP) && res[TargetTCP].selectedIP.Some? && !LocalIP(res[TargetTCP].selectedIP.value)
  }

  predicate LocalPathObserved(c: Cause) { c == NoDefaultRoute || c == GatewayUnreachable }

  predicate LocalTarget(t: Target, res: Results) {
    if t.ip.Some? then LocalIP(t.ip.value)
    else Get(res, DNS).addrs != [] && forall ip :: ip in Get(res, DNS).addrs ==> LocalIP(ip)
  }

  /** The local ranges, each by its first and last address. */
  predicate InLocalRange(ip: IP) {
    match ip
    case IPv4(n) =>
      || 0x0a00_0000 <= n <= 0x0aff_ffff || 0xac10_0000 <= n <= 0xac1f_ffff || 0xc0a8_0000 <= n <= 0xc0a8_ffff
      || 0xa9fe_0000 <= n <= 0xa9fe_ffff || 0x7f00_0000 <= n <= 0x7fff_ffff
      || 0x6440_0000 <= n <= 0x647f_ffff
    case IPv6(n) =>
      || n == 1
      || 0xfc00_0000_0000_0000_0000_0000_0000_0000 <= n <= 0xfdff_ffff_ffff_ffff_ffff_ffff_ffff_ffff
      || 0xfe80_0000_0000_0000_0000_0000_0000_0000 <= n <= 0xfebf_ffff_ffff_ffff_ffff_ffff_ffff_ffff
      || 0xfec0_0000_0000_0000_0000_0000_0000_0000 <= n <= 0xfeff_ffff_ffff_ffff_ffff_ffff_ffff_ffff
    case Malformed(_) => false
  }

  lemma LocalMeans(ip: IP)
    ensures LocalIP(ip) <==> InLocalRange(ip)
  {
  }

  /** A target is on this network when its address is, or, where it was named, when every address it resolved to is. */
  lemma LocalTargetMeans(t: Target, res: Results)
    ensures LocalTarget(t, res) <==>
      if t.ip.Some? then InLocalRange(t.ip.value)
      else DNS in res && res[DNS].addrs != [] && forall ip :: ip in res[DNS].addrs ==> InLocalRange(ip)
  {
    hide LocalIP, InLocalRange;
    forall ip
      ensures LocalIP(ip) <==> InLocalRange(ip)
    {
      LocalMeans(ip);
    }
  }

  // ---------------------------------------------------------------- names

  predicate NamesComparable(res: Results) { DNS in res && DNSPublic in res && res[DNSPublic].absolute }

  predicate PublicResolves(res: Results) { NamesComparable(res) && res[DNSPublic].addrs != [] }

  predicate BothNotFound(res: Results) { NamesComparable(res) && res[DNS].dnsNotFound && res[DNSPublic].dnsNotFound }

  predicate EncryptedDNSBlocked(res: Results) {
    Is(res, DNSEncrypted, Fail) && DirectOK(res) && (Works(res, DNS) || Works(res, DNSPublic))
  }

  predicate QUICUsedDisagreeingAnswer(res: Results) {
    && NamesComparable(res) && res[DNSPublic].answers == Disagree
    && Works(res, DNS) && res[DNS].addrs != []
    && exists i :: 0 <= i < |Get(res, QUIC).attempts| && Get(res, QUIC).attempts[i].ip !in res[DNSPublic].addrs
  }

  /** Whether a probe resolves the name itself, or dials the addresses of the system DNS row. */
  datatype Origin = ResolvedByTheProbe | ResolvedByTheDNSRow

  /** An attempt that counts against the endpoint only through the system resolver's own answer. */
  predicate Uncorroborated(res: Results, origin: Origin, a: Attempt) {
    DNSPublic in res && DNS in res && a.ip !in res[DNSPublic].addrs
      && (origin == ResolvedByTheProbe || a.ip in res[DNS].addrs)
  }

  predicate Live(attempts: seq<Attempt>, a: Attempt) { a in attempts && !CanceledAttempt(a) }

  predicate AnswersFamily(addrs: seq<IP>, v4: bool) { exists i :: 0 <= i < |addrs| && addrs[i].IPv4? == v4 }

  predicate BothAnswered(res: Results) {
    && NamesComparable(res) && Functional(res[DNSPublic].status) && res[DNSPublic].addrs != []
    && Functional(res[DNS].status) && res[DNS].addrs != []
  }

  /**
    Every attempt that was not abandoned went to an address only the system resolver gave, there
    was one, and the other resolver answered in each family those attempts were made in.
   */
  predicate UncorroboratedFailure(res: Results, id: ProbeID, origin: Origin) {
    && BothAnswered(res)
    && (exists a | a in Get(res, id).attempts :: Live(Get(res, id).attempts, a))
    && (forall a | a in Get(res, id).attempts :: Live(Get(res, id).attempts, a) ==>
         Uncorroborated(res, origin, a) && AnswersFamily(res[DNSPublic].addrs, a.ip.IPv4?))
  }

  /** The loop, which gives up at the first attempt that says more, keeping only the families seen. */
  method FindUncorroborated(res: Results, id: ProbeID, origin: Origin) returns (b: bool)
    ensures b == UncorroboratedFailure(res, id, origin)
  {
    hide AnswersFamily, CanceledAttempt, Functional, Uncorroborated;
    if !BothAnswered(res) {
      return false;
    }
    var attempts := Get(res, id).attempts;
    var saw4, saw6 := false, false;
    for i := 0 to |attempts|
      invariant forall k :: 0 <= k < i && !CanceledAttempt(attempts[k]) ==>
        Uncorroborated(res, origin, attempts[k]) && (if attempts[k].ip.IPv4? then saw4 else saw6)
      invariant saw4 ==> exists k :: 0 <= k < i && Live(attempts, attempts[k]) && attempts[k].ip.IPv4?
      invariant saw6 ==> exists k :: 0 <= k < i && Live(attempts, attempts[k]) && !attempts[k].ip.IPv4?
    {
      var a := attempts[i];
      if !CanceledAttempt(a) {
        if !Uncorroborated(res, origin, a) {
          return false;
        }
        if a.ip.IPv4? {
          saw4 := true;
        } else {
          saw6 := true;
        }
      }
    }
    b := (saw4 || saw6) && (saw4 ==> AnswersFamily(res[DNSPublic].addrs, true))
      && (saw6 ==> AnswersFamily(res[DNSPublic].addrs, false));
  }

  /**
    A failure nobody corroborates: both resolvers answered for one absolute name, some attempt was
    made in earnest, and every such attempt went to an address the public resolver did not give,
    in a family in which it gave another.
   */
  lemma UncorroboratedMeans(res: Results, id: ProbeID, origin: Origin)
    ensures UncorroboratedFailure(res, id, origin) <==>
      && DNS in res && DNSPublic in res && res[DNSPublic].absolute
      && res[DNS].status in {Pass, Warn} && res[DNSPublic].status in {Pass, Warn}
      && res[DNS].addrs != [] && res[DNSPublic].addrs != [] && id in res
      && (exists a :: a in res[id].attempts && !GivenUp(a))
      && forall a :: a in res[id].attempts && !GivenUp(a) ==> AloneWith(res, origin, a.ip)
  {
    if BothAnswered(res) {
      forall a: Attempt
        ensures CanceledAttempt(a) <==> GivenUp(a)
        ensures Uncorroborated(res, origin, a) && AnswersFamily(res[DNSPublic].addrs, a.ip.IPv4?) <==>
          AloneWith(res, origin, a.ip)
      {
        AttemptCauseMeans(a);
        AnswersMean(res[DNSPublic].addrs, a.ip);
      }
      hide AnswersFamily, AloneWith, CanceledAttempt, GivenUp, Uncorroborated, BothAnswered;
      if UncorroboratedFailure(res, id, origin) {
        var a :| a in Get(res, id).attempts && Live(Get(res, id).attempts, a);
        forall a | a in res[id].attempts && !GivenUp(a)
          ensures AloneWith(res, origin, a.ip)
        {
          assert Live(Get(res, id).attempts, a);
        }
      } else if id in res && (exists a :: a in res[id].attempts && !GivenUp(a)) {
        var a :| a in res[id].attempts && !GivenUp(a);
        assert Live(Get(res, id).attempts, a);
      }
    }
  }

  /** Only the system resolver gave this address, where the public one gave another of its family. */
  predicate AloneWith(res: Results, origin: Origin, ip: IP)
    requires DNS in res && DNSPublic in res
  {
    && ip !in res[DNSPublic].addrs && (origin == ResolvedByTheDNSRow ==> ip in res[DNS].addrs)
    && AnotherIn(res[DNSPublic].addrs, ip)
  }

  /** Some address of the same family. */
  predicate AnotherIn(addrs: seq<IP>, ip: IP) { exists other :: other in addrs && (other.IPv4? <==> ip.IPv4?) }

  lemma AnswersMean(addrs: seq<IP>, ip: IP)
    ensures AnswersFamily(addrs, ip.IPv4?) <==> AnotherIn(addrs, ip)
  {
    if other :| other in addrs && (other.IPv4? <==> ip.IPv4?) {
      var i :| 0 <= i < |addrs| && addrs[i] == other;
    }
  }

  // ---------------------------------------------------------------- TLS and the clock

  predicate TLSCause(c: Cause) {
    c in {CertificateExpired, CertificateNotYet, HostnameMismatch, UntrustedIssuer, TLSHandshake, TCPUnreachable,
          Timeout, Closed}
  }

  predicate CertificateRejected(c: Cause) {
    c == CertificateExpired || c == CertificateNotYet || c == HostnameMismatch || c == UntrustedIssuer
  }

  /** The row holding the run's failed handshake, and whether there is one. */
  function TLSFailureRow(res: Results): (ProbeID, bool) {
    if TLS !in res then (TLS, false)
    else if res[TLS].status == Fail then (TLS, true)
    else if Get(res, SMTP).status == Fail && TLSCause(Get(res, SMTP).cause) then (SMTP, true)
    else (TLS, false)
  }

  const CLOCK_SKEW_THRESHOLD := 300_000_000_000

  function ClockOffset(res: Results): int { Get(res, Internet).clockOffset }

  predicate ClockSkewed(res: Results) {
    ClockOffset(res) >= CLOCK_SKEW_THRESHOLD || -ClockOffset(res) >= CLOCK_SKEW_THRESHOLD
  }

  predicate SkewExplainsTLS(c: Cause, d: int) {
    (c == CertificateNotYet && d < 0) || (c == CertificateExpired && d > 0)
  }

  predicate SkewDisprovesTLS(c: Cause, d: int) {
    (c == CertificateNotYet || c == CertificateExpired) && !SkewExplainsTLS(c, d)
  }

  /** A measured skew settles a certificate-date rejection one way or the other, never both and never neither. */
  lemma SkewSettlesDates(res: Results, c: Cause)
    requires ClockSkewed(res) && (c == CertificateNotYet || c == CertificateExpired)
    ensures SkewExplainsTLS(c, ClockOffset(res)) <==> !SkewDisprovesTLS(c, ClockOffset(res))
    ensures SkewExplainsTLS(c, ClockOffset(res)) <==> (c == CertificateExpired) == (ClockOffset(res) > 0)
  {
  }
}
