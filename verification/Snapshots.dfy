/** The fields of a diagnostic snapshot that the two readings look at, and some they do not. */
module Snapshots {
  import opened Wrappers

  datatype Tool = Tool(version: string, os: string, arch: string)

  datatype Target = Target(raw: string, host: string, ip: string, port: int, protocol: string, portExplicit: bool)

  datatype Source = Source(iface: string, ipv4: string, ipv6: string)

  datatype Options = Options(probeTimeoutMs: int, publicDNS: string, publicDNSAuto: bool,
                             check: seq<string>, skip: seq<string>, source: Option<Source>)

  datatype Attempt = Attempt(ip: string, durationMs: int, error: string, cause: string, aborted: bool)

  datatype CompetingRoute = CompetingRoute(iface: string, metric: int)

  datatype Route = Route(destination: string, iface: string, gateway: string, source: string, prefix: string,
                         metric: Option<int>, table: string, tableKnown: bool, interfaceMTU: int, tunnel: string,
                         tunnelKind: string, unreachable: bool, reason: string, competing: seq<CompetingRoute>)

  datatype Families = Families(ipv4: string, ipv6: string)

  datatype Observed = Observed(
    addresses: seq<string>, selectedIP: string, dnsNotFound: bool, dnsNameScope: string, resolver: string,
    resolverTargets: seq<string>, sourceIP: string, iface: string, ssid: string, families: Option<Families>,
    portal: Option<string>,            // the redirect URL of a detected portal
    attempts: seq<Attempt>, clockOffsetMs: Option<int>, timeout: bool, ambiguous: bool, routes: seq<Route>,
    connectCleartext: bool)

  const NOTHING_OBSERVED :=
    Observed([], "", false, "", "", [], "", "", "", None, None, [], None, false, false, [], false)

  datatype Derived = Derived(statusDowngraded: bool, answerComparison: string)

  datatype Check = Check(id: string, name: string, deps: seq<string>, status: string, cause: string,
                         causeFamily: string, ran: bool, durationMs: int, detail: string, fix: string,
                         observed: Option<Observed>, derived: Option<Derived>)

  datatype CausalEvidence = CausalEvidence(kind: string, check: string, observation: string, value: string,
                                           candidate: string, reason: string)

  datatype Alternative = Alternative(value: string, outcome: string, evidence: seq<CausalEvidence>)

  datatype Counterfactual = Counterfactual(variable: string, alternatives: seq<Alternative>)

  datatype Finding = Finding(id: string, verdict: string, summary: string, focus: string, confidence: string,
                             evidence: seq<string>, causal: seq<CausalEvidence>, counterfactual: Option<Counterfactual>)

  datatype Diagnosis = Diagnosis(verdict: string, summary: string, blamed: string, failedStage: string,
                                 findings: seq<Finding>)

  datatype Snapshot = Snapshot(createdAt: string, tool: Tool, target: Option<Target>, options: Options,
                               checks: seq<Check>, diagnosis: Diagnosis, ok: bool, sanitized: bool)

  const STATUS_PASS := "PASS"
  const STATUS_WARN := "WARN"
  const STATUS_FAIL := "FAIL"

  function ObservedOf(c: Check): Observed { if c.observed.Some? then c.observed.value else NOTHING_OBSERVED }

  function DerivedOf(c: Check): Derived { if c.derived.Some? then c.derived.value else Derived(false, "") }

  function FamiliesOf(o: Observed): Families { if o.families.Some? then o.families.value else Families("", "") }

  /**
    The rules that decide which spelling names which address: pure functions of the spelling,
    parsed by net/netip, which is not part of this model.
   */
  datatype Identity = Identity(address: string -> string, endpoint: string -> string, prefix: string -> string)

  /** The artifact format's own table of evidence whose value names an address. */
  predicate ValueIsAddress(observation: string) {
    observation in {"dns_answers", "address_succeeded", "address_failed", "route_unreachable", "route_next_hop_differs"}
  }

  predicate VariableIsAddress(variable: string) { variable == "resolved_address" }

  /** The routing domain, when the platform named a table at all. */
  function RoutingDomain(r: Route): Option<string> {
    if !r.tableKnown then None
    else if r.table in {"", "local", "default"} then Some("")
    else Some(r.table)
  }
}
