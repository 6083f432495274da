/** What changed between two snapshots: every field rule of the comparison, in report order. */
module Compare {
  import opened Wrappers
  import opened Text
  import opened Ordering
  import opened Snapshots
  import opened Changes
  import opened Keyed

  // ---------------------------------------------------------------- readings of one side

  /** A selection as the run applied it: distinct, in one order, rendered as one value. */
  function SortedList(values: seq<string>): string { Join(SortedSet(values, TextLE), ",") }

  function SourceOf(o: Options): Source { if o.source.Some? then o.source.value else Source("", "", "") }

  function Primary(findings: seq<Finding>): string { if findings == [] then "" else findings[0].id }

  function PortalWord(p: Option<string>): string { if p.Some? then "intercepted" else "" }

  function PortalURL(p: Option<string>): string { if p.Some? then p.value else "" }

  function Optional(n: Option<int>): Value { if n.Some? then Number(n.value) else Value.Text("") }

  /** A non-positive MTU is one nobody reported. */
  function MTU(mtu: int): Value { if mtu > 0 then Number(mtu) else Value.Text("") }

  function CompetingWord(routes: seq<CompetingRoute>): string {
    Join(seq(|routes|, i requires 0 <= i < |routes| => routes[i].iface + "@" + Itoa(routes[i].metric)), ",")
  }

  const MIN_DURATION := -0x8000_0000_0000_0000
  const MAX_DURATION := 0x7fff_ffff_ffff_ffff
  const SECOND := 1_000_000_000

  /** A signed 64-bit product, with its wrap-around. */
  function Wrap64(n: int): int { (n + 0x8000_0000_0000_0000) % 0x1_0000_0000_0000_0000 - 0x8000_0000_0000_0000 }

  /** time.Duration.Round(time.Second): half away from zero, saturating. */
  function RoundToSecond(d: int): int {
    if d < 0 then
      var r := (-d) % SECOND;
      if r + r < SECOND then d + r
      else if d - SECOND + r < MIN_DURATION then MIN_DURATION else d - SECOND + r
    else
      var r := d % SECOND;
      if r + r < SECOND then d - r
      else if d + SECOND - r > MAX_DURATION then MAX_DURATION else d + SECOND - r
  }

  function ClockOffset(ms: Option<int>): Option<int> {
    if ms.Some? then Some(RoundToSecond(Wrap64(ms.value * 1_000_000))) else None
  }

  /** Evidence with its address-valued member read as an address. */
  function EvidenceIdentity(ids: Identity, e: CausalEvidence): CausalEvidence {
    if ValueIsAddress(e.observation) then e.(value := ids.address(e.value)) else e
  }

  function EvidenceKey(ids: Identity, items: seq<CausalEvidence>): seq<CausalEvidence> {
    seq(|items|, i requires 0 <= i < |items| => EvidenceIdentity(ids, items[i]))
  }

  function AlternativeKey(ids: Identity, address: bool, a: Alternative): Alternative {
    Alternative(if address then ids.address(a.value) else a.value, a.outcome, EvidenceKey(ids, a.evidence))
  }

  function AlternativesKey(ids: Identity, c: Counterfactual): seq<Alternative> {
    seq(|c.alternatives|, i requires 0 <= i < |c.alternatives| =>
      AlternativeKey(ids, VariableIsAddress(c.variable), c.alternatives[i]))
  }

  function FindingID(f: Finding): string { f.id }

  function CheckID(c: Check): string { c.id }

  function FindingsOf(s: Snapshot): map<string, Finding> { ByKey(s.diagnosis.findings, FindingID) }

  function ChecksOf(s: Snapshot): map<string, Check> { ByKey(s.checks, CheckID) }

  function AttemptKey(ids: Identity): Attempt -> string { (a: Attempt) => ids.address(a.ip) }

  function RouteKey(ids: Identity): Route -> string { (r: Route) => ids.address(r.destination) }

  function OutcomeOf(a: Attempt): (string, string, bool) { (a.error, a.cause, a.aborted) }

  /** attemptOutcomes: the distinct outcomes, whatever their order and number. */
  function OutcomesOf(attempts: seq<Attempt>): set<(string, string, bool)> {
    set i | 0 <= i < |attempts| :: OutcomeOf(attempts[i])
  }

  /** The values by what each names, keeping the first spelling. */
  function Recorded(values: seq<string>, key: string -> string): map<string, string> { ByKey(values, key) }

  // ---------------------------------------------------------------- the derived paths

  const NO_ROUTE := Route("", "", "", "", "", None, "", false, 0, "", "", false, "", [])

  datatype Paths = Paths(targetIface: string, targetPrefix: string, targetReason: string, targetTunnel: string,
                         referenceIface: string, resolverIface: string, agreement: string)

  function FirstRoute(c: Option<Check>): Route {
    if c.None? || c.value.observed.None? || c.value.observed.value.routes == [] then NO_ROUTE
    else c.value.observed.value.routes[0]
  }

  /** The first route for the address the check used. */
  function RouteFor(ids: Identity, routes: seq<Route>, selected: string): Option<Route> {
    if routes == [] then None
    else if routes[0].destination != "" && ids.address(routes[0].destination) == ids.address(selected) then
      Some(routes[0])
    else RouteFor(ids, routes[1..], selected)
  }

  function SelectedRoute(ids: Identity, c: Option<Check>): Route {
    if c.None? || c.value.observed.None? then NO_ROUTE
    else
      var o := c.value.observed.value;
      var found := RouteFor(ids, o.routes, o.selectedIP);
      if found.Some? then found.value else FirstRoute(c)
  }

  function RoutesDiffer(ids: Identity, a: Route, b: Route): bool {
    || a.iface != b.iface
    || ids.address(a.gateway) != ids.address(b.gateway)
    || (RoutingDomain(a).Some? && RoutingDomain(b).Some? && RoutingDomain(a) != RoutingDomain(b))
  }

  function Interfaces(routes: seq<Route>): seq<string> {
    if routes == [] then []
    else
      var last := routes[|routes| - 1];
      Interfaces(routes[..|routes| - 1]) + (if last.iface != "" then [last.iface] else [])
  }

  function Lookup(m: map<string, Check>, id: string): Option<Check> { if id in m then Some(m[id]) else None }

  function PathsFrom(ids: Identity, target: Route, reference: Route, resolvers: seq<Route>): Paths {
    var split :=
      exists i :: 0 <= i < |resolvers| && resolvers[i].iface != "" && RoutesDiffer(ids, resolvers[i], target);
    var known := resolvers != [] && target.iface != "" && forall i :: 0 <= i < |resolvers| ==> resolvers[i].iface != "";
    Paths(target.iface,
          if target.unreachable then "no route" else target.prefix,
          target.reason,
          target.tunnel,
          reference.iface,
          SortedList(Interfaces(resolvers)),
          if split then "different paths" else if known then "same path" else "")
  }

  function PathsOf(ids: Identity, s: Snapshot): Paths {
    var checks := ChecksOf(s);
    PathsFrom(ids, SelectedRoute(ids, Lookup(checks, "target_tcp")), FirstRoute(Lookup(checks, "iface")),
              if "dns" in checks then ObservedOf(checks["dns"]).routes else [])
  }

  // ---------------------------------------------------------------- the rules

  function Str(cs: seq<Change>, section: Section, check: string, path: string, before: string,
               after: string): (r: seq<Change>)
    ensures |r| == |cs| + (if before == after then 0 else 1)
    ensures forall core {:trigger Count(r, core)} ::
      Count(r, core) == Count(cs, core) + FieldHit(section, check, Value.Text(before), Value.Text(after), core)
  {
    Field(cs, section, check, path, Value.Text(before), Value.Text(after))
  }

  function YesNo(cs: seq<Change>, section: Section, check: string, path: string, before: bool,
                 after: bool): (r: seq<Change>)
    ensures |r| == |cs| + (if before == after then 0 else 1)
    ensures forall core {:trigger Count(r, core)} ::
      Count(r, core) == Count(cs, core) + FieldHit(section, check, Flag(before), Flag(after), core)
  {
    Field(cs, section, check, path, Flag(before), Flag(after))
  }

  function TargetDiff(cs: seq<Change>, before: Option<Target>, after: Option<Target>): seq<Change> {
    match (before, after)
    case (None, None) => cs
    case (Some(b), None) => Field(cs, InTarget, "", "target", Shown(b), Value.Text(""))
    case (None, Some(a)) => Field(cs, InTarget, "", "target", Value.Text(""), Shown(a))
    case (Some(b), Some(a)) =>
      var cs := Str(cs, InTarget, "", "target.host", b.host, a.host);
      var cs := Str(cs, InTarget, "", "target.ip", b.ip, a.ip);
      var cs := Field(cs, InTarget, "", "target.port", Number(b.port), Number(a.port));
      var cs := Str(cs, InTarget, "", "target.protocol", b.protocol, a.protocol);
      var cs := YesNo(cs, InTarget, "", "target.port_explicit", b.portExplicit, a.portExplicit);
      Str(cs, InTarget, "", "target.raw", b.raw, a.raw)
  }

  function ToolDiff(cs: seq<Change>, b: Tool, a: Tool): seq<Change> {
    var cs := Str(cs, InTool, "", "tool.version", b.version, a.version);
    var cs := Str(cs, InTool, "", "tool.os", b.os, a.os);
    Str(cs, InTool, "", "tool.arch", b.arch, a.arch)
  }

  function OptionsDiff(cs: seq<Change>, ids: Identity, b: Options, a: Options): seq<Change> {
    var cs := Field(cs, InOptions, "", "options.probe_timeout_ms", Number(b.probeTimeoutMs), Number(a.probeTimeoutMs));
    var cs := IdentityField(cs, ids.address, InOptions, "", "options.public_dns", b.publicDNS, a.publicDNS);
    var cs := YesNo(cs, InOptions, "", "options.public_dns_auto", b.publicDNSAuto, a.publicDNSAuto);
    var cs := Str(cs, InOptions, "", "options.check", SortedList(b.check), SortedList(a.check));
    var cs := Str(cs, InOptions, "", "options.skip", SortedList(b.skip), SortedList(a.skip));
    var sb, sa := SourceOf(b), SourceOf(a);
    var cs := Str(cs, InOptions, "", "options.source.interface", sb.iface, sa.iface);
    var cs := IdentityField(cs, ids.address, InOptions, "", "options.source.ipv4", sb.ipv4, sa.ipv4);
    IdentityField(cs, ids.address, InOptions, "", "options.source.ipv6", sb.ipv6, sa.ipv6)
  }

  function CounterfactualDiff(cs: seq<Change>, ids: Identity, path: string, before: Option<Counterfactual>,
                              after: Option<Counterfactual>): seq<Change> {
    match (before, after)
    case (None, None) => cs
    case (Some(b), None) => Field(cs, InDiagnosis, "", path, Whole(b), Value.Text(""))
    case (None, Some(a)) => Field(cs, InDiagnosis, "", path, Value.Text(""), Whole(a))
    case (Some(b), Some(a)) =>
      var cs := Str(cs, InDiagnosis, "", path + ".variable", b.variable, a.variable);
      if AlternativesKey(ids, b) == AlternativesKey(ids, a) then cs
      else Field(cs, InDiagnosis, "", path + ".alternatives", AlternativeList(b.alternatives),
                 AlternativeList(a.alternatives))
  }

  /** Two findings under one ID, up to their counterfactual. */
  function FindingHeadDiff(cs: seq<Change>, ids: Identity, id: string, b: Finding, a: Finding): seq<Change> {
    var path := "diagnosis.findings." + id;
    var cs := Str(cs, InDiagnosis, "", path + ".verdict", b.verdict, a.verdict);
    var cs := Str(cs, InDiagnosis, "", path + ".focus", b.focus, a.focus);
    var cs := Str(cs, InDiagnosis, "", path + ".confidence", b.confidence, a.confidence);
    var cs := Str(cs, InDiagnosis, "", path + ".evidence", Join(b.evidence, ","), Join(a.evidence, ","));
    if EvidenceKey(ids, b.causal) == EvidenceKey(ids, a.causal) then cs
    else Field(cs, InDiagnosis, "", path + ".causal_evidence", EvidenceList(b.causal), EvidenceList(a.causal))
  }

  function FindingDiff(cs: seq<Change>, ids: Identity, id: string, b: Finding, a: Finding): seq<Change> {
    CounterfactualDiff(FindingHeadDiff(cs, ids, id, b, a), ids, "diagnosis.findings." + id + ".counterfactual",
                       b.counterfactual, a.counterfactual)
  }

  function FindingOne(ids: Identity, mb: map<string, Finding>,
                      ma: map<string, Finding>): (seq<Change>, string) -> seq<Change> {
    (cs: seq<Change>, id: string) =>
      if (id in mb) != (id in ma) then Member(cs, InDiagnosis, "", "diagnosis.findings." + id, id, id in ma)
      else if id in mb && id in ma then FindingDiff(cs, ids, id, mb[id], ma[id])
      else cs
  }

  function OKDirection(after: bool): Direction { if after then Better else Worse }

  function DiagnosisHeadDiff(cs: seq<Change>, b: Snapshot, a: Snapshot): seq<Change> {
    var cs := Ranked(cs, InDiagnosis, "", "ok", Flag(b.ok), Flag(a.ok), OKDirection(a.ok));
    var cs := Str(cs, InDiagnosis, "", "diagnosis.verdict", b.diagnosis.verdict, a.diagnosis.verdict);
    var cs := Str(cs, InDiagnosis, "", "diagnosis.blamed", b.diagnosis.blamed, a.diagnosis.blamed);
    var cs := Str(cs, InDiagnosis, "", "diagnosis.failed_stage", b.diagnosis.failedStage, a.diagnosis.failedStage);
    Str(cs, InDiagnosis, "", "diagnosis.findings.primary", Primary(b.diagnosis.findings), Primary(a.diagnosis.findings))
  }

  function FindingOrder(b: Snapshot, a: Snapshot): seq<string> {
    MergedOrder(KeysOf(b.diagnosis.findings, FindingID), KeysOf(a.diagnosis.findings, FindingID))
  }

  function DiagnosisDiff(cs: seq<Change>, ids: Identity, b: Snapshot, a: Snapshot): seq<Change> {
    Collect(DiagnosisHeadDiff(cs, b, a), FindingOrder(b, a), FindingOne(ids, FindingsOf(b), FindingsOf(a)))
  }

  function PathsDiff(cs: seq<Change>, ids: Identity, before: Snapshot, after: Snapshot): seq<Change> {
    var b, a := PathsOf(ids, before), PathsOf(ids, after);
    var cs := Str(cs, InPaths, "", "paths.target.interface", b.targetIface, a.targetIface);
    var cs := IdentityField(cs, ids.prefix, InPaths, "", "paths.target.prefix", b.targetPrefix, a.targetPrefix);
    var cs := Str(cs, InPaths, "", "paths.target.reason", b.targetReason, a.targetReason);
    var cs := Str(cs, InPaths, "", "paths.target.tunnel", b.targetTunnel, a.targetTunnel);
    var cs := Str(cs, InPaths, "", "paths.reference.interface", b.referenceIface, a.referenceIface);
    var cs := Str(cs, InPaths, "", "paths.resolver.interface", b.resolverIface, a.resolverIface);
    Str(cs, InPaths, "", "paths.resolver.agreement", b.agreement, a.agreement)
  }

  // Sets, attempts and routes of one check.

  function SetOne(id: string, path: string, mb: map<string, string>,
                  ma: map<string, string>): (seq<Change>, string) -> seq<Change> {
    (cs: seq<Change>, v: string) =>
      if (v in mb) == (v in ma) then cs
      else
        var recorded := if v in ma then ma[v] else if v in mb then mb[v] else "";
        Member(cs, InCheck, id, path + "." + recorded, recorded, v in ma)
  }

  /** The identities on either side, sorted, so that the report does not follow the artifacts' order. */
  function SetOrder(b: seq<string>, a: seq<string>, key: string -> string): seq<string> {
    SortedSet(KeysOf(b, key) + KeysOf(a, key), TextLE)
  }

  function SetDiff(cs: seq<Change>, id: string, path: string, key: string -> string, b: seq<string>,
                   a: seq<string>): seq<Change> {
    var mb, ma := Recorded(b, key), Recorded(a, key);
    Collect(cs, SetOrder(b, a, key), SetOne(id, path, mb, ma))
  }

  /** All attempts to one address, on both sides. */
  function AttemptDiff(cs: seq<Change>, id: string, path: string, b: seq<Attempt>, a: seq<Attempt>): seq<Change>
    requires b != [] && a != []
  {
    var at := path + "attempts." + b[0].ip;
    if |b| == 1 && |a| == 1 then
      var cs := Str(cs, InCheck, id, at + ".error", b[0].error, a[0].error);
      var cs := Str(cs, InCheck, id, at + ".cause", b[0].cause, a[0].cause);
      YesNo(cs, InCheck, id, at + ".aborted", b[0].aborted, a[0].aborted)
    else Field(cs, InCheck, id, at + ".outcomes", Outcomes(OutcomesOf(b)), Outcomes(OutcomesOf(a)))
  }

  type Groups = m: map<string, seq<Attempt>> | forall k :: k in m ==> m[k] != [] witness map[]

  function AttemptsOf(ids: Identity, attempts: seq<Attempt>): Groups { GroupBy(attempts, AttemptKey(ids)) }

  function AttemptOne(id: string, path: string, mb: Groups, ma: Groups): (seq<Change>, string) -> seq<Change> {
    (cs: seq<Change>, ip: string) =>
      if ip in mb && ip in ma then AttemptDiff(cs, id, path, mb[ip], ma[ip])
      else if ip in mb then Member(cs, InCheck, id, path + "attempts." + mb[ip][0].ip, mb[ip][0].ip, false)
      else if ip in ma then Member(cs, InCheck, id, path + "attempts." + ma[ip][0].ip, ma[ip][0].ip, true)
      else cs
  }

  function AttemptsDiff(cs: seq<Change>, ids: Identity, id: string, path: string, b: seq<Attempt>,
                        a: seq<Attempt>): seq<Change> {
    Collect(cs, MergedOrder(KeysOf(b, AttemptKey(ids)), KeysOf(a, AttemptKey(ids))),
            AttemptOne(id, path, AttemptsOf(ids, b), AttemptsOf(ids, a)))
  }

  /** Two route decisions for one destination: where they send the traffic. */
  function RouteHopDiff(cs: seq<Change>, ids: Identity, id: string, path: string, b: Route, a: Route): seq<Change> {
    var at := path + "routes." + b.destination + ".";
    var cs := YesNo(cs, InCheck, id, at + "unreachable", b.unreachable, a.unreachable);
    var cs := IdentityField(cs, ids.prefix, InCheck, id, at + "prefix", b.prefix, a.prefix);
    var cs := Str(cs, InCheck, id, at + "interface", b.iface, a.iface);
    var cs := IdentityField(cs, ids.address, InCheck, id, at + "gateway", b.gateway, a.gateway);
    IdentityField(cs, ids.address, InCheck, id, at + "source", b.source, a.source)
  }

  /** And which entry of which table said so. */
  function RouteEntryDiff(cs: seq<Change>, id: string, path: string, b: Route, a: Route): seq<Change> {
    var at := path + "routes." + b.destination + ".";
    var cs := Field(cs, InCheck, id, at + "metric", Optional(b.metric), Optional(a.metric));
    var cs := Str(cs, InCheck, id, at + "table", b.table, a.table);
    var cs := YesNo(cs, InCheck, id, at + "table_known", b.tableKnown, a.tableKnown);
    var cs := Str(cs, InCheck, id, at + "tunnel", b.tunnel, a.tunnel);
    var cs := Str(cs, InCheck, id, at + "tunnel_kind", b.tunnelKind, a.tunnelKind);
    var cs := Str(cs, InCheck, id, at + "reason", b.reason, a.reason);
    var cs := Field(cs, InCheck, id, at + "interface_mtu", MTU(b.interfaceMTU), MTU(a.interfaceMTU));
    Str(cs, InCheck, id, at + "competing", CompetingWord(b.competing), CompetingWord(a.competing))
  }

  function RouteDiff(cs: seq<Change>, ids: Identity, id: string, path: string, b: Route, a: Route): seq<Change> {
    RouteEntryDiff(RouteHopDiff(cs, ids, id, path, b, a), id, path, b, a)
  }

  function RoutesOf(ids: Identity, routes: seq<Route>): map<string, Route> { ByKey(routes, RouteKey(ids)) }

  function RouteOne(ids: Identity, id: string, path: string, mb: map<string, Route>,
                    ma: map<string, Route>): (seq<Change>, string) -> seq<Change> {
    (cs: seq<Change>, dst: string) =>
      if dst in mb && dst in ma then RouteDiff(cs, ids, id, path, mb[dst], ma[dst])
      else if dst in mb then Member(cs, InCheck, id, path + "routes." + mb[dst].destination, mb[dst].destination, false)
      else if dst in ma then Member(cs, InCheck, id, path + "routes." + ma[dst].destination, ma[dst].destination, true)
      else cs
  }

  function RoutesDiff(cs: seq<Change>, ids: Identity, id: string, path: string, b: seq<Route>,
                      a: seq<Route>): seq<Change> {
    Collect(cs, MergedOrder(KeysOf(b, RouteKey(ids)), KeysOf(a, RouteKey(ids))),
            RouteOne(ids, id, path, RoutesOf(ids, b), RoutesOf(ids, a)))
  }

  // One check row.

  function Rank(status: string): Option<nat> {
    if status == STATUS_PASS then Some(0)
    else if status == STATUS_WARN then Some(1)
    else if status == STATUS_FAIL then Some(2)
    else None
  }

  function DirectionOf(before: string, after: string): Direction {
    if Rank(before).None? || Rank(after).None? || Rank(before) == Rank(after) then NoDirection
    else if Rank(after).value > Rank(before).value then Worse
    else Better
  }

  /** The scalar readings of one row up to its evidence. */
  function RowDiff(cs: seq<Change>, id: string, b: Check, a: Check): seq<Change> {
    var path := "checks." + id;
    var cs :=
      Ranked(cs, InCheck, id, path + ".status", Value.Text(b.status), Value.Text(a.status),
             DirectionOf(b.status, a.status));
    var cs := Str(cs, InCheck, id, path + ".cause", b.cause, a.cause);
    var cs := Str(cs, InCheck, id, path + ".cause_family", b.causeFamily, a.causeFamily);
    var cs := YesNo(cs, InCheck, id, path + ".ran", b.ran, a.ran);
    var cs := Str(cs, InCheck, id, path + ".deps", Join(b.deps, ","), Join(a.deps, ","));
    var cs :=
      YesNo(cs, InCheck, id, path + ".derived.status_downgraded", DerivedOf(b).statusDowngraded,
            DerivedOf(a).statusDowngraded);
    Str(cs, InCheck, id, path + ".derived.answer_comparison", DerivedOf(b).answerComparison,
        DerivedOf(a).answerComparison)
  }

  function NameDiff(cs: seq<Change>, ids: Identity, id: string, path: string, b: Observed, a: Observed): seq<Change> {
    var cs := Str(cs, InCheck, id, path + "dns_name_scope", b.dnsNameScope, a.dnsNameScope);
    SetDiff(cs, id, path + "addresses", ids.address, b.addresses, a.addresses)
  }

  function ResolverHeadDiff(cs: seq<Change>, ids: Identity, id: string, path: string, b: Observed,
                            a: Observed): seq<Change> {
    var cs := IdentityField(cs, ids.address, InCheck, id, path + "selected_ip", b.selectedIP, a.selectedIP);
    var cs := YesNo(cs, InCheck, id, path + "dns_not_found", b.dnsNotFound, a.dnsNotFound);
    IdentityField(cs, ids.address, InCheck, id, path + "resolver", b.resolver, a.resolver)
  }

  function ResolverDiff(cs: seq<Change>, ids: Identity, id: string, path: string, b: Observed,
                        a: Observed): seq<Change> {
    SetDiff(ResolverHeadDiff(cs, ids, id, path, b, a), id, path + "resolver_targets", ids.endpoint, b.resolverTargets,
            a.resolverTargets)
  }

  function InterfaceDiff(cs: seq<Change>, ids: Identity, id: string, path: string, b: Observed,
                         a: Observed): seq<Change> {
    var cs := IdentityField(cs, ids.address, InCheck, id, path + "source_ip", b.sourceIP, a.sourceIP);
    var cs := Str(cs, InCheck, id, path + "interface", b.iface, a.iface);
    var cs := YesNo(cs, InCheck, id, path + "interface_ambiguous", b.ambiguous, a.ambiguous);
    Str(cs, InCheck, id, path + "ssid", b.ssid, a.ssid)
  }

  function PortalDiff(cs: seq<Change>, id: string, path: string, b: Observed, a: Observed): seq<Change> {
    var cs := Str(cs, InCheck, id, path + "address_families.ipv4", FamiliesOf(b).ipv4, FamiliesOf(a).ipv4);
    var cs := Str(cs, InCheck, id, path + "address_families.ipv6", FamiliesOf(b).ipv6, FamiliesOf(a).ipv6);
    var cs := Str(cs, InCheck, id, path + "portal", PortalWord(b.portal), PortalWord(a.portal));
    var cs := Str(cs, InCheck, id, path + "portal.redirect_url", PortalURL(b.portal), PortalURL(a.portal));
    YesNo(cs, InCheck, id, path + "connect_cleartext", b.connectCleartext, a.connectCleartext)
  }

  function LinkDiff(cs: seq<Change>, ids: Identity, id: string, path: string, b: Observed, a: Observed): seq<Change> {
    PortalDiff(InterfaceDiff(cs, ids, id, path, b, a), id, path, b, a)
  }

  function TimingDiff(cs: seq<Change>, id: string, path: string, b: Observed, a: Observed): seq<Change> {
    var cs :=
      Field(cs, InCheck, id, path + "clock_offset_ms", Optional(ClockOffset(b.clockOffsetMs)),
            Optional(ClockOffset(a.clockOffsetMs)));
    YesNo(cs, InCheck, id, path + "timeout", b.timeout, a.timeout)
  }

  function ObservedDiff(cs: seq<Change>, ids: Identity, id: string, b: Observed, a: Observed): seq<Change> {
    var path := "checks." + id + ".observed.";
    var cs := NameDiff(cs, ids, id, path, b, a);
    var cs := ResolverDiff(cs, ids, id, path, b, a);
    var cs := LinkDiff(cs, ids, id, path, b, a);
    var cs := AttemptsDiff(cs, ids, id, path, b.attempts, a.attempts);
    var cs := RoutesDiff(cs, ids, id, path, b.routes, a.routes);
    TimingDiff(cs, id, path, b, a)
  }

  function CheckDiff(cs: seq<Change>, ids: Identity, id: string, b: Check, a: Check): seq<Change> {
    ObservedDiff(RowDiff(cs, id, b, a), ids, id, ObservedOf(b), ObservedOf(a))
  }

  function CheckOne(ids: Identity, mb: map<string, Check>,
                    ma: map<string, Check>): (seq<Change>, string) -> seq<Change> {
    (cs: seq<Change>, id: string) =>
      if (id in mb) != (id in ma) then Member(cs, InCheck, id, "checks." + id, id, id in ma)
      else if id in mb && id in ma then CheckDiff(cs, ids, id, mb[id], ma[id])
      else cs
  }

  function CheckOrder(b: seq<Check>, a: seq<Check>): seq<string> { MergedOrder(KeysOf(b, CheckID), KeysOf(a, CheckID)) }

  function ChecksDiff(cs: seq<Change>, ids: Identity, b: Snapshot, a: Snapshot): seq<Change> {
    Collect(cs, CheckOrder(b.checks, a.checks), CheckOne(ids, ChecksOf(b), ChecksOf(a)))
  }

  /** Every difference between two snapshots, in report order. */
  function SnapshotsDiff(ids: Identity, b: Snapshot, a: Snapshot): seq<Change> {
    var cs := TargetDiff([], b.target, a.target);
    var cs := ToolDiff(cs, b.tool, a.tool);
    var cs := OptionsDiff(cs, ids, b.options, a.options);
    var cs := DiagnosisDiff(cs, ids, b, a);
    var cs := PathsDiff(cs, ids, b, a);
    ChecksDiff(cs, ids, b, a)
  }
}
