/**
  What a recorded change says.

  `Says` reads one side alone: which value a snapshot has at which path. Every change of a
  comparison then carries, at its own path, the earlier snapshot's value before and the later
  one's after; or names something only one of the two has; or moves an outcome along its scale.
 */
module CompareReads {
  import opened Wrappers
  import opened Text
  import opened Ordering
  import opened Snapshots
  import opened Changes
  import opened Keyed
  import opened Compare

  // ---------------------------------------------------------------- what a change may look like

  /** A value that renders as nothing. */
  predicate Blank(v: Value) { v == Value.Text("") || v == EvidenceList([]) || v == AlternativeList([]) }

  /** Two different readings of one field: something new, something gone, or something else. */
  predicate Differs(c: Change) {
    && c.before != c.after && c.direction == NoDirection
    && (c.kind == Added <==> Blank(c.before))
    && (c.kind == Removed <==> !Blank(c.before) && Blank(c.after))
  }

  /** The scale of outcomes: pass, warn, fail; nothing else is on it. */
  predicate Moved(before: string, after: string, d: Direction) {
    && (d == Worse <==> (before, after) in {("PASS", "WARN"), ("PASS", "FAIL"), ("WARN", "FAIL")})
    && (d == Better <==> (after, before) in {("PASS", "WARN"), ("PASS", "FAIL"), ("WARN", "FAIL")})
  }

  lemma DirectionMoves(before: string, after: string)
    ensures Moved(before, after, DirectionOf(before, after))
  {
  }

  /** A name that only one side has, spelled as that side spells it. */
  predicate Names(c: Change, at: string, key: string -> string, b: seq<string>, a: seq<string>, v: string) {
    && c.path == at + v && c.direction == NoDirection
    && (|| (c.kind == Added && c.before == Value.Text("") && c.after == Value.Text(v)
            && v in a && forall x :: x in b ==> key(x) != key(v))
        || (c.kind == Removed && c.before == Value.Text(v) && c.after == Value.Text("")
            && v in b && forall x :: x in a ==> key(x) != key(v)))
  }

  ghost predicate OneSided(c: Change, at: string, key: string -> string, b: seq<string>, a: seq<string>) {
    exists v :: Names(c, at, key, b, a, v)
  }

  function Itself(s: string): string { s }

  // ---------------------------------------------------------------- what one side says

  predicate TargetSays(t: Option<Target>, path: string, v: Value) {
    match t
    case None => path == "target" && v == Value.Text("")
    case Some(x) =>
      || (path == "target" && v == Shown(x))
      || (path == "target.host" && v == Value.Text(x.host))
      || (path == "target.ip" && v == Value.Text(x.ip))
      || (path == "target.port" && v == Number(x.port))
      || (path == "target.protocol" && v == Value.Text(x.protocol))
      || (path == "target.port_explicit" && v == Flag(x.portExplicit))
      || (path == "target.raw" && v == Value.Text(x.raw))
  }

  predicate ToolSays(x: Tool, path: string, v: Value) {
    || (path == "tool.version" && v == Value.Text(x.version))
    || (path == "tool.os" && v == Value.Text(x.os))
    || (path == "tool.arch" && v == Value.Text(x.arch))
  }

  predicate OptionsSay(x: Options, path: string, v: Value) {
    || (path == "options.probe_timeout_ms" && v == Number(x.probeTimeoutMs))
    || (path == "options.public_dns" && v == Value.Text(x.publicDNS))
    || (path == "options.public_dns_auto" && v == Flag(x.publicDNSAuto))
    || (path == "options.check" && v == Value.Text(SortedList(x.check)))
    || (path == "options.skip" && v == Value.Text(SortedList(x.skip)))
    || (path == "options.source.interface" && v == Value.Text(SourceOf(x).iface))
    || (path == "options.source.ipv4" && v == Value.Text(SourceOf(x).ipv4))
    || (path == "options.source.ipv6" && v == Value.Text(SourceOf(x).ipv6))
  }

  predicate HeadSays(s: Snapshot, path: string, v: Value) {
    || (path == "diagnosis.verdict" && v == Value.Text(s.diagnosis.verdict))
    || (path == "diagnosis.blamed" && v == Value.Text(s.diagnosis.blamed))
    || (path == "diagnosis.failed_stage" && v == Value.Text(s.diagnosis.failedStage))
    || (path == "diagnosis.findings.primary"
        && v == Value.Text(if s.diagnosis.findings == [] then "" else s.diagnosis.findings[0].id))
  }

  predicate FindingSays(f: Finding, path: string, v: Value) {
    var at := "diagnosis.findings." + f.id;
    || (path == at + ".verdict" && v == Value.Text(f.verdict))
    || (path == at + ".focus" && v == Value.Text(f.focus))
    || (path == at + ".confidence" && v == Value.Text(f.confidence))
    || (path == at + ".evidence" && v == Value.Text(Join(f.evidence, ",")))
    || (path == at + ".causal_evidence" && v == EvidenceList(f.causal))
    || ComparisonSays(f.counterfactual, at + ".counterfactual", path, v)
  }

  predicate ComparisonSays(x: Option<Counterfactual>, at: string, path: string, v: Value) {
    match x
    case None => path == at && v == Value.Text("")
    case Some(k) =>
      || (path == at && v == Whole(k))
      || (path == at + ".variable" && v == Value.Text(k.variable))
      || (path == at + ".alternatives" && v == AlternativeList(k.alternatives))
  }

  predicate PathsSay(p: Paths, path: string, v: Value) {
    || (path == "paths.target.interface" && v == Value.Text(p.targetIface))
    || (path == "paths.target.prefix" && v == Value.Text(p.targetPrefix))
    || (path == "paths.target.reason" && v == Value.Text(p.targetReason))
    || (path == "paths.target.tunnel" && v == Value.Text(p.targetTunnel))
    || (path == "paths.reference.interface" && v == Value.Text(p.referenceIface))
    || (path == "paths.resolver.interface" && v == Value.Text(p.resolverIface))
    || (path == "paths.resolver.agreement" && v == Value.Text(p.agreement))
  }

  predicate RowSays(k: Check, at: string, path: string, v: Value) {
    || (path == at + ".cause" && v == Value.Text(k.cause))
    || (path == at + ".cause_family" && v == Value.Text(k.causeFamily))
    || (path == at + ".ran" && v == Flag(k.ran))
    || (path == at + ".deps" && v == Value.Text(Join(k.deps, ",")))
    || (path == at + ".derived.status_downgraded" && v == Flag(k.derived.Some? && k.derived.value.statusDowngraded))
    || (path == at + ".derived.answer_comparison"
        && v == Value.Text(if k.derived.Some? then k.derived.value.answerComparison else ""))
  }

  predicate ObservedSays(o: Observed, at: string, path: string, v: Value) {
    || (path == at + "dns_name_scope" && v == Value.Text(o.dnsNameScope))
    || (path == at + "selected_ip" && v == Value.Text(o.selectedIP))
    || (path == at + "dns_not_found" && v == Flag(o.dnsNotFound))
    || (path == at + "resolver" && v == Value.Text(o.resolver))
    || (path == at + "timeout" && v == Flag(o.timeout))
    || (path == at + "clock_offset_ms"
        && v == (if o.clockOffsetMs.Some? then Number(ClockOffset(o.clockOffsetMs).value) else Value.Text("")))
  }

  predicate LinkSays(o: Observed, at: string, path: string, v: Value) {
    InterfaceSays(o, at, path, v) || PortalSays(o, at, path, v)
  }

  predicate InterfaceSays(o: Observed, at: string, path: string, v: Value) {
    || (path == at + "source_ip" && v == Value.Text(o.sourceIP))
    || (path == at + "interface" && v == Value.Text(o.iface))
    || (path == at + "interface_ambiguous" && v == Flag(o.ambiguous))
    || (path == at + "ssid" && v == Value.Text(o.ssid))
  }

  predicate PortalSays(o: Observed, at: string, path: string, v: Value) {
    || (path == at + "address_families.ipv4" && v == Value.Text(if o.families.Some? then o.families.value.ipv4 else ""))
    || (path == at + "address_families.ipv6" && v == Value.Text(if o.families.Some? then o.families.value.ipv6 else ""))
    || (path == at + "portal" && v == Value.Text(if o.portal.Some? then "intercepted" else ""))
    || (path == at + "portal.redirect_url" && v == Value.Text(if o.portal.Some? then o.portal.value else ""))
    || (path == at + "connect_cleartext" && v == Flag(o.connectCleartext))
  }

  /** One attempt to an address, or, of several, all that was said of it. */
  ghost predicate AttemptSays(ids: Identity, attempts: seq<Attempt>, x: Attempt, spelled: string, at: string,
                              path: string, v: Value) {
    && x in attempts && ids.address(x.ip) == ids.address(spelled)
    && (|| (path == at + "attempts." + spelled + ".error" && v == Value.Text(x.error))
        || (path == at + "attempts." + spelled + ".cause" && v == Value.Text(x.cause))
        || (path == at + "attempts." + spelled + ".aborted" && v == Flag(x.aborted))
        || (path == at + "attempts." + spelled + ".outcomes" && v.Outcomes?
            && forall said :: said in v.outcomes <==>
                 exists y ::
                   y in attempts && ids.address(y.ip) == ids.address(x.ip) && said == (y.error, y.cause, y.aborted)))
  }

  predicate RouteSays(ids: Identity, routes: seq<Route>, r: Route, spelled: string, at: string, path: string,
                      v: Value) {
    var to := at + "routes." + spelled + ".";
    && r in routes && ids.address(r.destination) == ids.address(spelled)
    && RouteFieldSays(r, to, path, v)
  }

  predicate RouteFieldSays(r: Route, to: string, path: string, v: Value) {
    RouteHopSays(r, to, path, v) || RouteEntrySays(r, to, path, v)
  }

  predicate RouteHopSays(r: Route, to: string, path: string, v: Value) {
    || (path == to + "unreachable" && v == Flag(r.unreachable))
    || (path == to + "prefix" && v == Value.Text(r.prefix))
    || (path == to + "interface" && v == Value.Text(r.iface))
    || (path == to + "gateway" && v == Value.Text(r.gateway))
    || (path == to + "source" && v == Value.Text(r.source))
  }

  predicate RouteEntrySays(r: Route, to: string, path: string, v: Value) {
    || (path == to + "metric" && v == (if r.metric.Some? then Number(r.metric.value) else Value.Text("")))
    || (path == to + "table" && v == Value.Text(r.table))
    || (path == to + "table_known" && v == Flag(r.tableKnown))
    || (path == to + "tunnel" && v == Value.Text(r.tunnel))
    || (path == to + "tunnel_kind" && v == Value.Text(r.tunnelKind))
    || (path == to + "reason" && v == Value.Text(r.reason))
    || (path == to + "interface_mtu" && v == (if r.interfaceMTU > 0 then Number(r.interfaceMTU) else Value.Text("")))
    || (path == to + "competing" && v == Value.Text(CompetingWord(r.competing)))
  }

  ghost predicate SomeAttemptSays(ids: Identity, attempts: seq<Attempt>, spelled: string, at: string, path: string,
                                  v: Value) {
    exists x :: AttemptSays(ids, attempts, x, spelled, at, path, v)
  }

  ghost predicate SomeRouteSays(ids: Identity, routes: seq<Route>, spelled: string, at: string, path: string,
                                v: Value) {
    exists r :: RouteSays(ids, routes, r, spelled, at, path, v)
  }

  // ---------------------------------------------------------------- what both sides say

  predicate RowTells(b: Check, a: Check, at: string, c: Change) {
    RowSays(b, at, c.path, c.before) && RowSays(a, at, c.path, c.after)
  }

  predicate ObservedTells(b: Observed, a: Observed, at: string, c: Change) {
    ObservedSays(b, at, c.path, c.before) && ObservedSays(a, at, c.path, c.after)
  }

  predicate LinkTells(b: Observed, a: Observed, at: string, c: Change) {
    LinkSays(b, at, c.path, c.before) && LinkSays(a, at, c.path, c.after)
  }

  function IPs(attempts: seq<Attempt>): seq<string> {
    seq(|attempts|, i requires 0 <= i < |attempts| => attempts[i].ip)
  }

  function Destinations(routes: seq<Route>): seq<string> {
    seq(|routes|, i requires 0 <= i < |routes| => routes[i].destination)
  }

  /** The path spells the address as the earlier side does. */
  ghost predicate AttemptsTell(ids: Identity, b: seq<Attempt>, a: seq<Attempt>, at: string, c: Change) {
    exists spelled :: spelled in IPs(b)
      && SomeAttemptSays(ids, b, spelled, at, c.path, c.before) && SomeAttemptSays(ids, a, spelled, at, c.path, c.after)
  }

  ghost predicate RoutesTell(ids: Identity, b: seq<Route>, a: seq<Route>, at: string, c: Change) {
    exists spelled :: spelled in Destinations(b)
      && SomeRouteSays(ids, b, spelled, at, c.path, c.before) && SomeRouteSays(ids, a, spelled, at, c.path, c.after)
  }

  predicate StatusTells(b: Check, a: Check, at: string, c: Change) {
    && c.path == at + ".status" && c.kind == Changed && b.status != a.status
    && c.before == Value.Text(b.status) && c.after == Value.Text(a.status) && Moved(b.status, a.status, c.direction)
  }

  /** Members of one check's collections that only one side has. */
  ghost predicate ObservedMember(ids: Identity, b: Observed, a: Observed, at: string, c: Change) {
    || OneSided(c, at + "addresses.", ids.address, b.addresses, a.addresses)
    || OneSided(c, at + "resolver_targets.", ids.endpoint, b.resolverTargets, a.resolverTargets)
    || OneSided(c, at + "attempts.", ids.address, IPs(b.attempts), IPs(a.attempts))
    || OneSided(c, at + "routes.", ids.address, Destinations(b.routes), Destinations(a.routes))
  }

  ghost predicate ObservationTells(ids: Identity, b: Observed, a: Observed, at: string, c: Change) {
    || ObservedMember(ids, b, a, at, c)
    || (Differs(c) && (|| ObservedTells(b, a, at, c) || LinkTells(b, a, at, c)
                       || AttemptsTell(ids, b.attempts, a.attempts, at, c)
                          || RoutesTell(ids, b.routes, a.routes, at, c)))
  }

  /** One check on both sides. */
  ghost predicate CheckTells(ids: Identity, b: Check, a: Check, c: Change) {
    && c.section == InCheck && c.check == b.id == a.id
    && (|| StatusTells(b, a, "checks." + b.id, c)
        || (Differs(c) && RowTells(b, a, "checks." + b.id, c))
        || ObservationTells(ids, ObservedOf(b), ObservedOf(a), "checks." + b.id + ".observed.", c))
  }

  predicate FindingTells(b: Finding, a: Finding, c: Change) {
    Differs(c) && b.id == a.id && FindingSays(b, c.path, c.before) && FindingSays(a, c.path, c.after)
  }

  ghost predicate FirstOf<T>(items: seq<T>, key: T -> string, x: T) {
    exists i :: IsFirst(items, key, x, i)
  }

  ghost predicate IsFirst<T>(items: seq<T>, key: T -> string, x: T, i: int) {
    0 <= i < |items| && items[i] == x && forall j :: 0 <= j < i ==> key(items[j]) != key(x)
  }

  ghost predicate DiagnosisTells(b: Snapshot, a: Snapshot, c: Change) {
    && c.section == InDiagnosis && c.check == ""
    && (|| (c.path == "ok" && c.kind == Changed && c.before == Flag(b.ok) && c.after == Flag(a.ok) && b.ok != a.ok
            && (c.direction == Better <==> a.ok) && (c.direction == Worse <==> b.ok))
        || (Differs(c) && HeadSays(b, c.path, c.before) && HeadSays(a, c.path, c.after))
        || OneSided(c, "diagnosis.findings.", Itself, KeysOf(b.diagnosis.findings, FindingID),
                    KeysOf(a.diagnosis.findings, FindingID))
        || exists x, y ::
          FirstOf(b.diagnosis.findings, FindingID, x) && FirstOf(a.diagnosis.findings, FindingID, y)
            && FindingTells(x, y, c))
  }

  ghost predicate ChecksTell(ids: Identity, b: seq<Check>, a: seq<Check>, c: Change) {
    || (c.section == InCheck && OneSided(c, "checks.", Itself, KeysOf(b, CheckID), KeysOf(a, CheckID))
        && c.path == "checks." + c.check)
    || exists x, y :: FirstOf(b, CheckID, x) && FirstOf(a, CheckID, y) && CheckTells(ids, x, y, c)
  }

  /** A change tells the truth about the two snapshots, the earlier one first. */
  ghost predicate Tells(ids: Identity, b: Snapshot, a: Snapshot, c: Change) {
    match c.section
    case InTarget => c.check == "" && Differs(c) && (TargetTells(b.target, a.target, c))
    case InTool =>
      c.check == "" && Differs(c) && ToolSays(b.tool, c.path, c.before) && ToolSays(a.tool, c.path, c.after)
    case InOptions =>
      c.check == "" && Differs(c) && OptionsSay(b.options, c.path, c.before) && OptionsSay(a.options, c.path, c.after)
    case InPaths =>
      c.check == "" && Differs(c) && PathsSay(PathsOf(ids, b), c.path, c.before)
        && PathsSay(PathsOf(ids, a), c.path, c.after)
    case InDiagnosis => DiagnosisTells(b, a, c)
    case InCheck => ChecksTell(ids, b.checks, a.checks, c)
  }

  predicate TargetTells(b: Option<Target>, a: Option<Target>, c: Change) {
    TargetSays(b, c.path, c.before) && TargetSays(a, c.path, c.after)
  }

  // ---------------------------------------------------------------- the rules

  predicate IsField(c: Change, section: Section, check: string, path: string, before: Value, after: Value) {
    c.section == section && c.check == check && c.path == path && c.before == before && c.after == after && Differs(c)
  }

  lemma FieldsHave()
    ensures forall cs, section, check, path, before, after, c
      {:trigger c in Field(cs, section, check, path, before, after)} ::
      c in Field(cs, section, check, path, before, after) ==> c in cs || IsField(c, section, check, path, before, after)
  {
  }

  lemma RulesHave()
    ensures forall cs, section, check, path, before, after, c
      {:trigger c in Field(cs, section, check, path, before, after)} ::
      c in Field(cs, section, check, path, before, after) ==> c in cs || IsField(c, section, check, path, before, after)
    ensures forall cs, section, check, path, before, after, c
      {:trigger c in Str(cs, section, check, path, before, after)} ::
      c in Str(cs, section, check, path, before, after) ==>
        c in cs || IsField(c, section, check, path, Value.Text(before), Value.Text(after))
    ensures forall cs, section, check, path, before, after, c
      {:trigger c in YesNo(cs, section, check, path, before, after)} ::
      c in YesNo(cs, section, check, path, before, after) ==>
        c in cs || IsField(c, section, check, path, Flag(before), Flag(after))
    ensures forall cs, key, section, check, path, before, after, c
      {:trigger c in IdentityField(cs, key, section, check, path, before, after)} ::
      c in IdentityField(cs, key, section, check, path, before, after) ==>
        c in cs || IsField(c, section, check, path, Value.Text(before), Value.Text(after))
  {
    hide IsField;
    FieldsHave();
  }

  lemma TargetReads(cs: seq<Change>, b: Option<Target>, a: Option<Target>)
    ensures forall c :: c in TargetDiff(cs, b, a) ==>
      c in cs || (c.section == InTarget && c.check == "" && Differs(c) && TargetTells(b, a, c))
  {
    hide Field, Str, YesNo, IdentityField, Differs;
    RulesHave();
  }

  lemma ToolReads(cs: seq<Change>, b: Tool, a: Tool)
    ensures forall c :: c in ToolDiff(cs, b, a) ==>
      c in cs || (c.section == InTool && c.check == "" && Differs(c) && ToolSays(b, c.path, c.before)
                  && ToolSays(a, c.path, c.after))
  {
    hide Field, Str, YesNo, IdentityField, Differs;
    RulesHave();
  }

  lemma OptionsRead(cs: seq<Change>, ids: Identity, b: Options, a: Options)
    ensures forall c :: c in OptionsDiff(cs, ids, b, a) ==>
      c in cs || (c.section == InOptions && c.check == "" && Differs(c)
                  && OptionsSay(b, c.path, c.before) && OptionsSay(a, c.path, c.after))
  {
    hide Field, Str, YesNo, IdentityField, Differs, SortedList, SourceOf;
    RulesHave();
  }

  lemma PathsRead(cs: seq<Change>, ids: Identity, b: Snapshot, a: Snapshot)
    ensures forall c :: c in PathsDiff(cs, ids, b, a) ==>
      c in cs || (c.section == InPaths && c.check == "" && Differs(c)
                  && PathsSay(PathsOf(ids, b), c.path, c.before) && PathsSay(PathsOf(ids, a), c.path, c.after))
  {
    hide Field, Str, YesNo, IdentityField, Differs, PathsOf;
    RulesHave();
  }

  lemma RowFields(k: Check, at: string)
    ensures RowSays(k, at, at + ".cause", Value.Text(k.cause))
    ensures RowSays(k, at, at + ".cause_family", Value.Text(k.causeFamily))
    ensures RowSays(k, at, at + ".ran", Flag(k.ran))
    ensures RowSays(k, at, at + ".deps", Value.Text(Join(k.deps, ",")))
    ensures RowSays(k, at, at + ".derived.status_downgraded", Flag(DerivedOf(k).statusDowngraded))
    ensures RowSays(k, at, at + ".derived.answer_comparison", Value.Text(DerivedOf(k).answerComparison))
  {
    hide Join;
  }

  lemma RowReads(cs: seq<Change>, b: Check, a: Check)
    ensures forall c :: c in RowDiff(cs, b.id, b, a) ==>
      c in cs || (c.section == InCheck && c.check == b.id
                  && (StatusTells(b, a, "checks." + b.id, c) || (Differs(c) && RowTells(b, a, "checks." + b.id, c))))
  {
    hide Field, Str, YesNo, Differs, DirectionOf, Moved, Join, RowSays, DerivedOf;
    RulesHave();
    RowFields(b, "checks." + b.id);
    RowFields(a, "checks." + b.id);
    DirectionMoves(b.status, a.status);
  }

  lemma LinkReads(cs: seq<Change>, ids: Identity, id: string, at: string, b: Observed, a: Observed)
    ensures forall c :: c in LinkDiff(cs, ids, id, at, b, a) ==>
      c in cs || (c.section == InCheck && c.check == id && Differs(c) && LinkTells(b, a, at, c))
  {
    hide Differs, InterfaceSays, PortalSays, InterfaceDiff, PortalDiff;
    InterfaceReads(cs, ids, id, at, b, a);
    PortalReads(InterfaceDiff(cs, ids, id, at, b, a), id, at, b, a);
  }

  lemma PortalReads(cs: seq<Change>, id: string, at: string, b: Observed, a: Observed)
    ensures forall c :: c in PortalDiff(cs, id, at, b, a) ==>
      c in cs || (c.section == InCheck && c.check == id && Differs(c)
                  && PortalSays(b, at, c.path, c.before) && PortalSays(a, at, c.path, c.after))
  {
    hide Field, Str, YesNo, Differs;
    RulesHave();
  }

  lemma InterfaceReads(cs: seq<Change>, ids: Identity, id: string, at: string, b: Observed, a: Observed)
    ensures forall c :: c in InterfaceDiff(cs, ids, id, at, b, a) ==>
      c in cs || (c.section == InCheck && c.check == id && Differs(c)
                  && InterfaceSays(b, at, c.path, c.before) && InterfaceSays(a, at, c.path, c.after))
  {
    hide Field, Str, YesNo, IdentityField, Differs;
    RulesHave();
  }

  lemma TimingReads(cs: seq<Change>, id: string, at: string, b: Observed, a: Observed)
    ensures forall c :: c in TimingDiff(cs, id, at, b, a) ==>
      c in cs || (c.section == InCheck && c.check == id && Differs(c) && ObservedTells(b, a, at, c))
  {
    hide Field, Str, YesNo, IdentityField, Differs, RoundToSecond, Wrap64;
    RulesHave();
  }

  // ---------------------------------------------------------------- collections

  lemma {:induction false} Firsts<T>(items: seq<T>, key: T -> string)
    ensures forall k :: k in ByKey(items, key) ==>
      key(ByKey(items, key)[k]) == k && FirstOf(items, key, ByKey(items, key)[k])
    ensures forall i :: 0 <= i < |items| ==> key(items[i]) in ByKey(items, key)
  {
    if items != [] {
      var n := |items| - 1;
      var before, last := items[..n], items[n];
      Firsts(before, key);
      var m := ByKey(before, key);
      forall k | k in ByKey(items, key)
        ensures key(ByKey(items, key)[k]) == k && FirstOf(items, key, ByKey(items, key)[k])
      {
        if k in m {
          var i :| IsFirst(before, key, m[k], i);
          assert IsFirst(items, key, m[k], i);
        } else {
          assert IsFirst(items, key, last, n) by {
            assert forall j :: 0 <= j < n ==> items[j] == before[j] && key(before[j]) in m;
          }
        }
      }
      assert forall i :: 0 <= i < n ==> items[i] == before[i];
    }
  }

  /** Going over keys, each recording only what `P` allows. */
  lemma {:induction false} CollectReads(cs: seq<Change>, order: seq<string>, one: (seq<Change>, string) -> seq<Change>,
                                        p: Change -> bool)
    requires forall ds, k, c {:trigger c in one(ds, k)} :: c in one(ds, k) ==> c in ds || p(c)
    ensures forall c :: c in Collect(cs, order, one) ==> c in cs || p(c)
  {
    if order != [] {
      CollectReads(cs, order[..|order| - 1], one, p);
    }
  }

  lemma OnlyIn<T>(x: seq<T>, y: seq<T>, key: T -> string, k: string)
    requires k in ByKey(x, key) && k !in ByKey(y, key)
    ensures ByKey(x, key)[k] in x && key(ByKey(x, key)[k]) == k && forall e :: e in y ==> key(e) != k
  {
    Firsts(x, key);
    Firsts(y, key);
  }

  lemma SetReads(cs: seq<Change>, id: string, at: string, key: string -> string, b: seq<string>, a: seq<string>)
    ensures forall c :: c in SetDiff(cs, id, at, key, b, a) ==>
      c in cs || (c.section == InCheck && c.check == id && OneSided(c, at + ".", key, b, a))
  {
    hide ByKey, Collect, SetOrder;
    var mb, ma := Recorded(b, key), Recorded(a, key);
    var one := SetOne(id, at, mb, ma);
    var p := (c: Change) => c.section == InCheck && c.check == id && OneSided(c, at + ".", key, b, a);
    forall ds, v, c {:trigger c in one(ds, v)} | c in one(ds, v)
      ensures c in ds || p(c)
    {
      if v in ma && v !in mb && c !in ds {
        OnlyIn(a, b, key, v);
        assert Names(c, at + ".", key, b, a, ma[v]);
      } else if v in mb && v !in ma && c !in ds {
        OnlyIn(b, a, key, v);
        assert Names(c, at + ".", key, b, a, mb[v]);
      }
    }
    CollectReads(cs, SetOrder(b, a, key), one, p);
  }

  lemma RouteReads(cs: seq<Change>, ids: Identity, id: string, at: string, b: Route, a: Route)
    ensures forall c :: c in RouteDiff(cs, ids, id, at, b, a) ==>
      c in cs || (c.section == InCheck && c.check == id && Differs(c)
                  && RouteFieldSays(b, at + "routes." + b.destination + ".", c.path, c.before)
                  && RouteFieldSays(a, at + "routes." + b.destination + ".", c.path, c.after))
  {
    hide RouteHopDiff, RouteEntryDiff, Differs, RouteHopSays, RouteEntrySays;
    HopReads(cs, ids, id, at, b, a);
    EntryReads(RouteHopDiff(cs, ids, id, at, b, a), id, at, b, a);
  }

  lemma HopReads(cs: seq<Change>, ids: Identity, id: string, at: string, b: Route, a: Route)
    ensures forall c :: c in RouteHopDiff(cs, ids, id, at, b, a) ==>
      c in cs || (c.section == InCheck && c.check == id && Differs(c)
                  && RouteHopSays(b, at + "routes." + b.destination + ".", c.path, c.before)
                  && RouteHopSays(a, at + "routes." + b.destination + ".", c.path, c.after))
  {
    hide Field, Str, YesNo, IdentityField, Differs;
    RulesHave();
  }

  lemma EntryFields(r: Route, to: string)
    ensures RouteEntrySays(r, to, to + "metric", Optional(r.metric))
    ensures RouteEntrySays(r, to, to + "table", Value.Text(r.table))
    ensures RouteEntrySays(r, to, to + "table_known", Flag(r.tableKnown))
    ensures RouteEntrySays(r, to, to + "tunnel", Value.Text(r.tunnel))
    ensures RouteEntrySays(r, to, to + "tunnel_kind", Value.Text(r.tunnelKind))
    ensures RouteEntrySays(r, to, to + "reason", Value.Text(r.reason))
    ensures RouteEntrySays(r, to, to + "interface_mtu", MTU(r.interfaceMTU))
    ensures RouteEntrySays(r, to, to + "competing", Value.Text(CompetingWord(r.competing)))
  {
    hide CompetingWord;
  }

  lemma EntryReads(cs: seq<Change>, id: string, at: string, b: Route, a: Route)
    ensures forall c :: c in RouteEntryDiff(cs, id, at, b, a) ==>
      c in cs || (c.section == InCheck && c.check == id && Differs(c)
                  && RouteEntrySays(b, at + "routes." + b.destination + ".", c.path, c.before)
                  && RouteEntrySays(a, at + "routes." + b.destination + ".", c.path, c.after))
  {
    hide Field, Str, YesNo, Differs, RouteEntrySays, Optional, MTU, CompetingWord;
    RulesHave();
    EntryFields(b, at + "routes." + b.destination + ".");
    EntryFields(a, at + "routes." + b.destination + ".");
  }

  lemma RoutesRead(cs: seq<Change>, ids: Identity, id: string, at: string, b: seq<Route>, a: seq<Route>)
    ensures forall c :: c in RoutesDiff(cs, ids, id, at, b, a) ==>
      c in cs || (c.section == InCheck && c.check == id
                  && (|| OneSided(c, at + "routes.", ids.address, Destinations(b), Destinations(a))
                      || (Differs(c) && RoutesTell(ids, b, a, at, c))))
  {
    hide ByKey, Collect, MergedOrder, KeysOf, RouteDiff, Differs, RouteFieldSays, Member;
    var mb, ma := RoutesOf(ids, b), RoutesOf(ids, a);
    var one := RouteOne(ids, id, at, mb, ma);
    var p := (c: Change) => c.section == InCheck && c.check == id
      && (|| OneSided(c, at + "routes.", ids.address, Destinations(b), Destinations(a))
          || (Differs(c) && RoutesTell(ids, b, a, at, c)));
    forall ds, v, c {:trigger c in one(ds, v)} | c in one(ds, v)
      ensures c in ds || p(c)
    {
      if c !in ds {
        OneRoute(ds, ids, id, at, b, a, v, c);
      }
    }
    CollectReads(cs, MergedOrder(KeysOf(b, RouteKey(ids)), KeysOf(a, RouteKey(ids))), one, p);
  }

  lemma OneRoute(cs: seq<Change>, ids: Identity, id: string, at: string, b: seq<Route>, a: seq<Route>, v: string,
                 c: Change)
    requires c in RouteOne(ids, id, at, RoutesOf(ids, b), RoutesOf(ids, a))(cs, v) && c !in cs
    ensures c.section == InCheck && c.check == id
    ensures || OneSided(c, at + "routes.", ids.address, Destinations(b), Destinations(a))
            || (Differs(c) && RoutesTell(ids, b, a, at, c))
  {
    hide ByKey, RouteDiff, Differs, RouteFieldSays;
    var mb, ma := RoutesOf(ids, b), RoutesOf(ids, a);
    DestinationsAre(b);
    DestinationsAre(a);
    Firsts(b, RouteKey(ids));
    Firsts(a, RouteKey(ids));
    if v in mb && v in ma {
      RouteReads(cs, ids, id, at, mb[v], ma[v]);
      var spelled := mb[v].destination;
      assert RouteSays(ids, b, mb[v], spelled, at, c.path, c.before);
      assert RouteSays(ids, a, ma[v], spelled, at, c.path, c.after);
      assert SomeRouteSays(ids, b, spelled, at, c.path, c.before)
        && SomeRouteSays(ids, a, spelled, at, c.path, c.after);
    } else if v in mb {
      assert Names(c, at + "routes.", ids.address, Destinations(b), Destinations(a), mb[v].destination);
    } else {
      assert Names(c, at + "routes.", ids.address, Destinations(b), Destinations(a), ma[v].destination);
    }
  }

  lemma DestinationsAre(routes: seq<Route>)
    ensures forall s :: s in Destinations(routes) <==> exists r :: r in routes && r.destination == s
  {
    forall s
      ensures s in Destinations(routes) <==> exists r :: r in routes && r.destination == s
    {
      if r :| r in routes && r.destination == s {
        var i :| 0 <= i < |routes| && routes[i] == r;
        assert Destinations(routes)[i] == s;
      }
    }
  }

  /** A group holds its key's items, all of them and no others. */
  lemma {:induction false} GroupsHold<T>(items: seq<T>, key: T -> string)
    ensures forall k, x :: k in GroupBy(items, key) && x in GroupBy(items, key)[k] ==> x in items && key(x) == k
    ensures forall x :: x in items ==> key(x) in GroupBy(items, key) && x in GroupBy(items, key)[key(x)]
  {
    if items != [] {
      GroupsHold(items[..|items| - 1], key);
      assert items == items[..|items| - 1] + [items[|items| - 1]];
    }
  }

  lemma IPsAre(attempts: seq<Attempt>)
    ensures forall s :: s in IPs(attempts) <==> exists x :: x in attempts && x.ip == s
  {
    forall s
      ensures s in IPs(attempts) <==> exists x :: x in attempts && x.ip == s
    {
      if x :| x in attempts && x.ip == s {
        var i :| 0 <= i < |attempts| && attempts[i] == x;
        assert IPs(attempts)[i] == s;
      }
    }
  }

  lemma GroupIs(ids: Identity, attempts: seq<Attempt>, k: string)
    ensures k in AttemptsOf(ids, attempts) ==>
      forall x :: x in AttemptsOf(ids, attempts)[k] <==> x in attempts && ids.address(x.ip) == k
    ensures k !in AttemptsOf(ids, attempts) ==> forall x :: x in attempts ==> ids.address(x.ip) != k
  {
    hide GroupBy;
    GroupsHold(attempts, AttemptKey(ids));
    assert forall x: Attempt :: AttemptKey(ids)(x) == ids.address(x.ip);
  }

  /** The outcomes of a group are those of the attempts to its address. */
  lemma OutcomesAre(ids: Identity, attempts: seq<Attempt>, k: string, said: (string, string, bool))
    requires k in AttemptsOf(ids, attempts)
    ensures said in OutcomesOf(AttemptsOf(ids, attempts)[k]) <==>
      exists y :: y in attempts && ids.address(y.ip) == k && said == (y.error, y.cause, y.aborted)
  {
    hide GroupBy;
    GroupIs(ids, attempts, k);
    var group := AttemptsOf(ids, attempts)[k];
    if y :| y in attempts && ids.address(y.ip) == k && said == (y.error, y.cause, y.aborted) {
      assert y in group;
      var i :| 0 <= i < |group| && group[i] == y;
      assert OutcomeOf(group[i]) in OutcomesOf(group);
    }
    if said in OutcomesOf(group) {
      var i :| 0 <= i < |group| && OutcomeOf(group[i]) == said;
      var y := group[i];
      assert y in group;
      assert y in attempts && ids.address(y.ip) == k && said == (y.error, y.cause, y.aborted);
    }
  }

  lemma OutcomesSay(ids: Identity, attempts: seq<Attempt>, k: string, spelled: string, at: string)
    requires k in AttemptsOf(ids, attempts) && ids.address(spelled) == k
    ensures SomeAttemptSays(ids, attempts, spelled, at, at + "attempts." + spelled + ".outcomes",
                            Outcomes(OutcomesOf(AttemptsOf(ids, attempts)[k])))
  {
    hide AttemptsOf, OutcomesOf;
    GroupIs(ids, attempts, k);
    var group := AttemptsOf(ids, attempts)[k];
    assert group[0] in group;
    forall said
      ensures said in OutcomesOf(group) <==>
        exists y :: y in attempts && ids.address(y.ip) == k && said == (y.error, y.cause, y.aborted)
    {
      OutcomesAre(ids, attempts, k, said);
    }
    assert AttemptSays(ids, attempts, group[0], spelled, at, at + "attempts." + spelled + ".outcomes",
                       Outcomes(OutcomesOf(group)));
  }

  lemma OneAttemptSays(ids: Identity, attempts: seq<Attempt>, x: Attempt, spelled: string, at: string)
    requires x in attempts && ids.address(x.ip) == ids.address(spelled)
    ensures SomeAttemptSays(ids, attempts, spelled, at, at + "attempts." + spelled + ".error", Value.Text(x.error))
    ensures SomeAttemptSays(ids, attempts, spelled, at, at + "attempts." + spelled + ".cause", Value.Text(x.cause))
    ensures SomeAttemptSays(ids, attempts, spelled, at, at + "attempts." + spelled + ".aborted", Flag(x.aborted))
  {
    assert AttemptSays(ids, attempts, x, spelled, at, at + "attempts." + spelled + ".error", Value.Text(x.error));
    assert AttemptSays(ids, attempts, x, spelled, at, at + "attempts." + spelled + ".cause", Value.Text(x.cause));
    assert AttemptSays(ids, attempts, x, spelled, at, at + "attempts." + spelled + ".aborted", Flag(x.aborted));
  }

  /** All attempts to one address. */
  lemma GroupReads(cs: seq<Change>, ids: Identity, id: string, at: string, b: seq<Attempt>, a: seq<Attempt>, k: string,
                   c: Change)
    requires k in AttemptsOf(ids, b) && k in AttemptsOf(ids, a)
    requires c in AttemptDiff(cs, id, at, AttemptsOf(ids, b)[k], AttemptsOf(ids, a)[k]) && c !in cs
    ensures c.section == InCheck && c.check == id && Differs(c) && AttemptsTell(ids, b, a, at, c)
  {
    hide AttemptsOf, Differs, OutcomesOf, SomeAttemptSays, AttemptDiff;
    var gb, ga := AttemptsOf(ids, b)[k], AttemptsOf(ids, a)[k];
    GroupIs(ids, b, k);
    GroupIs(ids, a, k);
    IPsAre(b);
    var spelled := gb[0].ip;
    assert gb[0] in b && gb[0] in gb && ga[0] in ga;
    OneAttemptSays(ids, b, gb[0], spelled, at);
    OneAttemptSays(ids, a, ga[0], spelled, at);
    OutcomesSay(ids, b, k, spelled, at);
    OutcomesSay(ids, a, k, spelled, at);
    AttemptFields(cs, id, at, gb, ga, c);
    assert spelled in IPs(b);
  }

  /** Which readings of two groups a change can hold. */
  lemma AttemptFields(cs: seq<Change>, id: string, at: string, b: seq<Attempt>, a: seq<Attempt>, c: Change)
    requires b != [] && a != [] && c in AttemptDiff(cs, id, at, b, a) && c !in cs
    ensures c.section == InCheck && c.check == id && Differs(c)
    ensures var to := at + "attempts." + b[0].ip;
      || (c.path == to + ".error" && c.before == Value.Text(b[0].error) && c.after == Value.Text(a[0].error))
      || (c.path == to + ".cause" && c.before == Value.Text(b[0].cause) && c.after == Value.Text(a[0].cause))
      || (c.path == to + ".aborted" && c.before == Flag(b[0].aborted) && c.after == Flag(a[0].aborted))
      || (c.path == to + ".outcomes" && c.before == Outcomes(OutcomesOf(b)) && c.after == Outcomes(OutcomesOf(a)))
  {
    hide Field, Str, YesNo, Differs, OutcomesOf;
    RulesHave();
  }

  lemma OneAttempt(cs: seq<Change>, ids: Identity, id: string, at: string, b: seq<Attempt>, a: seq<Attempt>, k: string,
                   c: Change)
    requires c in AttemptOne(id, at, AttemptsOf(ids, b), AttemptsOf(ids, a))(cs, k) && c !in cs
    ensures c.section == InCheck && c.check == id
    ensures || OneSided(c, at + "attempts.", ids.address, IPs(b), IPs(a))
            || (Differs(c) && AttemptsTell(ids, b, a, at, c))
  {
    hide AttemptsOf, AttemptDiff, Differs, AttemptsTell;
    var mb, ma := AttemptsOf(ids, b), AttemptsOf(ids, a);
    if k in mb && k in ma {
      GroupReads(cs, ids, id, at, b, a, k, c);
    } else {
      IPsAre(b);
      IPsAre(a);
      GroupIs(ids, b, k);
      GroupIs(ids, a, k);
      if k in mb {
        assert mb[k][0] in mb[k];
        assert Names(c, at + "attempts.", ids.address, IPs(b), IPs(a), mb[k][0].ip);
      } else {
        assert ma[k][0] in ma[k];
        assert Names(c, at + "attempts.", ids.address, IPs(b), IPs(a), ma[k][0].ip);
      }
    }
  }

  lemma AttemptsRead(cs: seq<Change>, ids: Identity, id: string, at: string, b: seq<Attempt>, a: seq<Attempt>)
    ensures forall c :: c in AttemptsDiff(cs, ids, id, at, b, a) ==>
      c in cs || (c.section == InCheck && c.check == id
                  && (|| OneSided(c, at + "attempts.", ids.address, IPs(b), IPs(a))
                      || (Differs(c) && AttemptsTell(ids, b, a, at, c))))
  {
    hide GroupBy, Collect, MergedOrder, KeysOf, AttemptDiff, Differs, AttemptsTell, OneSided;
    var one := AttemptOne(id, at, AttemptsOf(ids, b), AttemptsOf(ids, a));
    var p := (c: Change) => c.section == InCheck && c.check == id
      && (|| OneSided(c, at + "attempts.", ids.address, IPs(b), IPs(a))
          || (Differs(c) && AttemptsTell(ids, b, a, at, c)));
    forall ds, v, c {:trigger c in one(ds, v)} | c in one(ds, v)
      ensures c in ds || p(c)
    {
      if c !in ds {
        OneAttempt(ds, ids, id, at, b, a, v, c);
      }
    }
    CollectReads(cs, MergedOrder(KeysOf(b, AttemptKey(ids)), KeysOf(a, AttemptKey(ids))), one, p);
  }

  // ---------------------------------------------------------------- one check, one finding

  lemma NamesRead(cs: seq<Change>, ids: Identity, id: string, at: string, b: Observed, a: Observed)
    ensures forall c :: c in ResolverDiff(NameDiff(cs, ids, id, at, b, a), ids, id, at, b, a) ==>
      c in cs || (c.section == InCheck && c.check == id
                  && (|| OneSided(c, at + "addresses.", ids.address, b.addresses, a.addresses)
                      || OneSided(c, at + "resolver_targets.", ids.endpoint, b.resolverTargets, a.resolverTargets)
                      || (Differs(c) && ObservedTells(b, a, at, c))))
  {
    hide Field, Str, YesNo, IdentityField, Differs, SetDiff, OneSided;
    RulesHave();
    var scope := Str(cs, InCheck, id, at + "dns_name_scope", b.dnsNameScope, a.dnsNameScope);
    SetReads(scope, id, at + "addresses", ids.address, b.addresses, a.addresses);
    var cs1 := NameDiff(cs, ids, id, at, b, a);
    SetReads(ResolverHeadDiff(cs1, ids, id, at, b, a), id, at + "resolver_targets", ids.endpoint, b.resolverTargets,
             a.resolverTargets);
    assert (at + "addresses") + "." == at + "addresses.";
    assert (at + "resolver_targets") + "." == at + "resolver_targets.";
  }

  lemma ObservationReads(cs: seq<Change>, ids: Identity, id: string, b: Observed, a: Observed)
    ensures forall c :: c in ObservedDiff(cs, ids, id, b, a) ==>
      c in cs || (c.section == InCheck && c.check == id
                  && ObservationTells(ids, b, a, "checks." + id + ".observed.", c))
  {
    hide Differs, OneSided, ObservedTells, LinkTells, AttemptsTell, RoutesTell;
    hide NameDiff, ResolverDiff, LinkDiff, AttemptsDiff, RoutesDiff, TimingDiff;
    var at := "checks." + id + ".observed.";
    var cs2 := ResolverDiff(NameDiff(cs, ids, id, at, b, a), ids, id, at, b, a);
    NamesRead(cs, ids, id, at, b, a);
    var cs3 := LinkDiff(cs2, ids, id, at, b, a);
    LinkReads(cs2, ids, id, at, b, a);
    var cs4 := AttemptsDiff(cs3, ids, id, at, b.attempts, a.attempts);
    AttemptsRead(cs3, ids, id, at, b.attempts, a.attempts);
    var cs5 := RoutesDiff(cs4, ids, id, at, b.routes, a.routes);
    RoutesRead(cs4, ids, id, at, b.routes, a.routes);
    TimingReads(cs5, id, at, b, a);
  }

  lemma CheckReads(cs: seq<Change>, ids: Identity, b: Check, a: Check)
    requires b.id == a.id
    ensures forall c :: c in CheckDiff(cs, ids, b.id, b, a) ==> c in cs || CheckTells(ids, b, a, c)
  {
    hide Differs, RowTells, StatusTells, ObservationTells, RowDiff, ObservedDiff;
    RowReads(cs, b, a);
    ObservationReads(RowDiff(cs, b.id, b, a), ids, b.id, ObservedOf(b), ObservedOf(a));
  }

  lemma FindingReads(cs: seq<Change>, ids: Identity, b: Finding, a: Finding)
    requires b.id == a.id
    ensures forall c :: c in FindingDiff(cs, ids, b.id, b, a) ==>
      c in cs || (c.section == InDiagnosis && c.check == "" && FindingTells(b, a, c))
  {
    hide Differs, FindingHeadDiff, CounterfactualDiff, ComparisonSays;
    FindingHeadReads(cs, ids, b, a);
    ComparisonReads(FindingHeadDiff(cs, ids, b.id, b, a), ids, "diagnosis.findings." + b.id + ".counterfactual",
                    b.counterfactual, a.counterfactual);
    assert "diagnosis.findings." + b.id + ".counterfactual" == ("diagnosis.findings." + b.id) + ".counterfactual";
  }

  lemma FindingHeadReads(cs: seq<Change>, ids: Identity, b: Finding, a: Finding)
    requires b.id == a.id
    ensures forall c :: c in FindingHeadDiff(cs, ids, b.id, b, a) ==>
      c in cs || (c.section == InDiagnosis && c.check == "" && FindingTells(b, a, c))
  {
    hide Field, Str, Differs, EvidenceKey, Join, ComparisonSays;
    RulesHave();
  }

  lemma ComparisonReads(cs: seq<Change>, ids: Identity, at: string, b: Option<Counterfactual>,
                        a: Option<Counterfactual>)
    ensures forall c :: c in CounterfactualDiff(cs, ids, at, b, a) ==>
      c in cs || (c.section == InDiagnosis && c.check == "" && Differs(c)
                  && ComparisonSays(b, at, c.path, c.before) && ComparisonSays(a, at, c.path, c.after))
  {
    hide Field, Str, Differs, AlternativesKey;
    RulesHave();
  }

  // ---------------------------------------------------------------- the whole comparison

  lemma OneCheck(cs: seq<Change>, ids: Identity, b: seq<Check>, a: seq<Check>, id: string, c: Change)
    requires c in CheckOne(ids, ByKey(b, CheckID), ByKey(a, CheckID))(cs, id) && c !in cs
    ensures ChecksTell(ids, b, a, c)
  {
    hide ByKey, CheckDiff, CheckTells, FirstOf;
    var mb, ma := ByKey(b, CheckID), ByKey(a, CheckID);
    Firsts(b, CheckID);
    Firsts(a, CheckID);
    if id in mb && id in ma {
      CheckReads(cs, ids, mb[id], ma[id]);
      assert CheckID(mb[id]) == mb[id].id == id;
    } else {
      ByKeyKeys(b, CheckID);
      ByKeyKeys(a, CheckID);
      assert Names(c, "checks.", Itself, KeysOf(b, CheckID), KeysOf(a, CheckID), id);
    }
  }

  lemma OneFinding(cs: seq<Change>, ids: Identity, b: Snapshot, a: Snapshot, id: string, c: Change)
    requires c in FindingOne(ids, FindingsOf(b), FindingsOf(a))(cs, id) && c !in cs
    ensures c.section == InDiagnosis && DiagnosisTells(b, a, c)
  {
    hide ByKey, FindingDiff, FindingTells, FirstOf;
    var mb, ma := FindingsOf(b), FindingsOf(a);
    Firsts(b.diagnosis.findings, FindingID);
    Firsts(a.diagnosis.findings, FindingID);
    if id in mb && id in ma {
      FindingReads(cs, ids, mb[id], ma[id]);
      assert FindingID(mb[id]) == mb[id].id == id;
    } else {
      ByKeyKeys(b.diagnosis.findings, FindingID);
      ByKeyKeys(a.diagnosis.findings, FindingID);
      assert Names(c, "diagnosis.findings.", Itself, KeysOf(b.diagnosis.findings, FindingID),
                   KeysOf(a.diagnosis.findings, FindingID), id);
    }
  }

  lemma HeadReads(cs: seq<Change>, b: Snapshot, a: Snapshot)
    ensures forall c :: c in DiagnosisHeadDiff(cs, b, a) ==>
      c in cs || (c.section == InDiagnosis && DiagnosisTells(b, a, c))
  {
    hide Field, Str, Differs, OneSided, FirstOf, FindingTells;
    RulesHave();
  }

  lemma DiagnosisReads(cs: seq<Change>, ids: Identity, b: Snapshot, a: Snapshot)
    ensures forall c :: c in DiagnosisDiff(cs, ids, b, a) ==>
      c in cs || (c.section == InDiagnosis && DiagnosisTells(b, a, c))
  {
    hide Collect, FindingOrder, DiagnosisHeadDiff, DiagnosisTells, FindingOne;
    HeadReads(cs, b, a);
    var one := FindingOne(ids, FindingsOf(b), FindingsOf(a));
    var p := (c: Change) => c.section == InDiagnosis && DiagnosisTells(b, a, c);
    forall ds, v, c {:trigger c in one(ds, v)} | c in one(ds, v)
      ensures c in ds || p(c)
    {
      if c !in ds {
        OneFinding(ds, ids, b, a, v, c);
      }
    }
    CollectReads(DiagnosisHeadDiff(cs, b, a), FindingOrder(b, a), one, p);
  }

  lemma ChecksRead(cs: seq<Change>, ids: Identity, b: Snapshot, a: Snapshot)
    ensures forall c :: c in ChecksDiff(cs, ids, b, a) ==>
      c in cs || (c.section == InCheck && ChecksTell(ids, b.checks, a.checks, c))
  {
    hide Collect, CheckOrder, ChecksTell, CheckOne;
    var one := CheckOne(ids, ChecksOf(b), ChecksOf(a));
    var p := (c: Change) => c.section == InCheck && ChecksTell(ids, b.checks, a.checks, c);
    forall ds, v, c {:trigger c in one(ds, v)} | c in one(ds, v)
      ensures c in ds || p(c)
    {
      if c !in ds {
        OneCheck(ds, ids, b.checks, a.checks, v, c);
        CheckSection(ds, ids, b.checks, a.checks, v, c);
      }
    }
    CollectReads(cs, CheckOrder(b.checks, a.checks), one, p);
  }

  lemma CheckSection(cs: seq<Change>, ids: Identity, b: seq<Check>, a: seq<Check>, id: string, c: Change)
    requires c in CheckOne(ids, ByKey(b, CheckID), ByKey(a, CheckID))(cs, id) && c !in cs
    ensures c.section == InCheck
  {
    OneCheck(cs, ids, b, a, id, c);
    hide OneSided, FirstOf, Differs, RowTells, StatusTells, ObservationTells;
  }

  /** Every change of a comparison tells the truth about both snapshots. */
  lemma EveryChangeTells(ids: Identity, b: Snapshot, a: Snapshot, c: Change)
    requires c in SnapshotsDiff(ids, b, a)
    ensures Tells(ids, b, a, c)
  {
    hide Differs, TargetTells, ToolSays, OptionsSay, PathsSay, PathsOf, DiagnosisTells, ChecksTell;
    hide TargetDiff, ToolDiff, OptionsDiff, DiagnosisDiff, PathsDiff, ChecksDiff;
    var d1 := TargetDiff([], b.target, a.target);
    TargetReads([], b.target, a.target);
    var d2 := ToolDiff(d1, b.tool, a.tool);
    ToolReads(d1, b.tool, a.tool);
    var d3 := OptionsDiff(d2, ids, b.options, a.options);
    OptionsRead(d2, ids, b.options, a.options);
    var d4 := DiagnosisDiff(d3, ids, b, a);
    DiagnosisReads(d3, ids, b, a);
    var d5 := PathsDiff(d4, ids, b, a);
    PathsRead(d4, ids, b, a);
    ChecksRead(d5, ids, b, a);
  }

  // ---------------------------------------------------------------- the derived paths

  /** A route is for an address when it names it, in any spelling. */
  predicate RouteTo(ids: Identity, r: Route, selected: string) {
    r.destination != "" && ids.address(r.destination) == ids.address(selected)
  }

  /** The decision for the address that was used, or failing that the first one recorded. */
  ghost predicate Decides(ids: Identity, routes: seq<Route>, selected: string, r: Route) {
    if exists i :: 0 <= i < |routes| && RouteTo(ids, routes[i], selected) then
      exists i :: 0 <= i < |routes| && routes[i] == r && RouteTo(ids, r, selected)
                  && forall j :: 0 <= j < i ==> !RouteTo(ids, routes[j], selected)
    else if routes != [] then r == routes[0]
    else r == Route("", "", "", "", "", None, "", false, 0, "", "", false, "", [])
  }

  /** Two tables are one routing domain: equal, or both spellings of the main lookup. */
  predicate OneDomain(x: string, y: string) {
    x == y || ((x == "" || x == "local" || x == "default") && (y == "" || y == "local" || y == "default"))
  }

  /** Traffic leaves two ways: another interface, another next hop, or another known routing domain. */
  predicate LeavesElsewhere(ids: Identity, a: Route, b: Route) {
    || a.iface != b.iface
    || ids.address(a.gateway) != ids.address(b.gateway)
    || (a.tableKnown && b.tableKnown && !OneDomain(a.table, b.table))
  }

  function RoutesAt(s: Snapshot, id: string): seq<Route> {
    if id in ChecksOf(s) then ObservedOf(ChecksOf(s)[id]).routes else []
  }

  lemma {:induction false} RouteForDecides(ids: Identity, routes: seq<Route>, selected: string)
    ensures Decides(ids, routes, selected,
                    if RouteFor(ids, routes, selected).Some? then RouteFor(ids, routes, selected).value
                    else if routes == [] then NO_ROUTE else routes[0])
    ensures RouteFor(ids, routes, selected).Some? <==>
      exists i :: 0 <= i < |routes| && RouteTo(ids, routes[i], selected)
  {
    if routes != [] && !RouteTo(ids, routes[0], selected) {
      var rest := routes[1..];
      RouteForDecides(ids, rest, selected);
      assert forall i :: 0 < i < |routes| ==> routes[i] == rest[i - 1];
      if i :| 0 <= i < |rest| && RouteTo(ids, rest[i], selected) {
        assert RouteTo(ids, routes[i + 1], selected);
        var r := RouteFor(ids, rest, selected).value;
        var k :| 0 <= k < |rest| && rest[k] == r && RouteTo(ids, r, selected) && forall j :: 0 <= j < k ==>
          !RouteTo(ids, rest[j], selected);
        assert routes[k + 1] == r;
      }
    } else if routes != [] {
      assert RouteTo(ids, routes[0], selected);
    }
  }

  lemma {:induction false} InterfacesAre(routes: seq<Route>)
    ensures forall x :: x in Interfaces(routes) <==> x != "" && exists r :: r in routes && r.iface == x
  {
    if routes != [] {
      var before, last := routes[..|routes| - 1], routes[|routes| - 1];
      InterfacesAre(before);
      assert routes == before + [last];
      forall x
        ensures x in Interfaces(routes) <==> x != "" && exists r :: r in routes && r.iface == x
      {
        if x != "" && exists r :: r in routes && r.iface == x {
          var r :| r in routes && r.iface == x;
          assert r in before || r == last;
        }
      }
    }
  }

  lemma WaysDiffer(ids: Identity, a: Route, b: Route)
    ensures RoutesDiffer(ids, a, b) <==> LeavesElsewhere(ids, a, b)
  {
  }

  /** A list rendered as one word: its distinct members in ascending order. */
  ghost predicate Renders(word: string, p: string -> bool) {
    exists names :: IsListing(names, p) && word == Join(names, ",")
  }

  ghost predicate IsListing(names: seq<string>, p: string -> bool) {
    && Sorted(names, TextLE) && (forall i, j :: 0 <= i < j < |names| ==> names[i] != names[j])
    && forall x :: x in names <==> p(x)
  }

  lemma SelectionRenders(values: seq<string>)
    ensures Renders(SortedList(values), x => x in values)
  {
    TextOrder();
    SortedSetProperties(values, TextLE);
    assert IsListing(SortedSet(values, TextLE), x => x in values);
  }

  /** The paths of one run, read off its recorded route decisions. */
  lemma PathsMean(ids: Identity, s: Snapshot) returns (target: Route)
    ensures Decides(ids, RoutesAt(s, "target_tcp"),
                    if "target_tcp" in ChecksOf(s) then ObservedOf(ChecksOf(s)["target_tcp"]).selectedIP else "",
                    target)
    ensures var p, resolvers, reference := PathsOf(ids, s), RoutesAt(s, "dns"), RoutesAt(s, "iface");
      && p.targetIface == target.iface && p.targetReason == target.reason && p.targetTunnel == target.tunnel
      && p.targetPrefix == (if target.unreachable then "no route" else target.prefix)
      && p.referenceIface == (if reference == [] then "" else reference[0].iface)
      && Renders(p.resolverIface, x => x != "" && exists r :: r in resolvers && r.iface == x)
      && (p.agreement == "different paths" <==>
        exists r :: r in resolvers && r.iface != "" && LeavesElsewhere(ids, r, target))
      && (p.agreement == "same path" <==>
            && resolvers != [] && target.iface != ""
            && forall r :: r in resolvers ==> r.iface != "" && !LeavesElsewhere(ids, r, target))
      && p.agreement in {"different paths", "same path", ""}
  {
    hide ByKey, SortedList, Interfaces, RoutesDiffer, LeavesElsewhere, RouteFor, Decides;
    var checks := ChecksOf(s);
    target := SelectedRoute(ids, Lookup(checks, "target_tcp"));
    var resolvers := RoutesAt(s, "dns");
    RouteForDecides(ids, RoutesAt(s, "target_tcp"),
                    if "target_tcp" in checks then ObservedOf(checks["target_tcp"]).selectedIP else "");
    InterfacesAre(resolvers);
    SelectionRenders(Interfaces(resolvers));
    forall r: Route
      ensures RoutesDiffer(ids, r, target) <==> LeavesElsewhere(ids, r, target)
    {
      WaysDiffer(ids, r, target);
    }
    RendersAlike(PathsOf(ids, s).resolverIface, x => x in Interfaces(resolvers),
                 x => x != "" && exists r :: r in resolvers && r.iface == x);
  }

  lemma RendersAlike(word: string, p: string -> bool, q: string -> bool)
    requires Renders(word, p) && forall x :: p(x) <==> q(x)
    ensures Renders(word, q)
  {
    var names :| IsListing(names, p) && word == Join(names, ",");
    assert IsListing(names, q);
  }

  // ---------------------------------------------------------------- evidence read as one

  /** Two cited items are one: their value is an address exactly for these observations, and read as one there. */
  predicate OneItem(ids: Identity, x: CausalEvidence, y: CausalEvidence) {
    && x.kind == y.kind && x.check == y.check && x.observation == y.observation
    && x.candidate == y.candidate && x.reason == y.reason
    && (if x.observation in {"dns_answers", "address_succeeded", "address_failed", "route_unreachable",
                             "route_next_hop_differs"}
        then ids.address(x.value) == ids.address(y.value) else x.value == y.value)
  }

  predicate OneEvidence(ids: Identity, x: seq<CausalEvidence>, y: seq<CausalEvidence>) {
    |x| == |y| && forall i :: 0 <= i < |x| ==> OneItem(ids, x[i], y[i])
  }

  lemma EvidenceReadsAsOne(ids: Identity, x: seq<CausalEvidence>, y: seq<CausalEvidence>)
    ensures EvidenceKey(ids, x) == EvidenceKey(ids, y) <==> OneEvidence(ids, x, y)
  {
    var kx, ky := EvidenceKey(ids, x), EvidenceKey(ids, y);
    if |x| == |y| {
      forall i | 0 <= i < |x|
        ensures kx[i] == ky[i] <==> OneItem(ids, x[i], y[i])
      {
        ItemReadsAsOne(ids, x[i], y[i]);
      }
      if forall i :: 0 <= i < |x| ==> kx[i] == ky[i] {
        assert kx == ky;
      }
    } else {
      assert |kx| != |ky|;
    }
  }

  lemma ItemReadsAsOne(ids: Identity, x: CausalEvidence, y: CausalEvidence)
    ensures EvidenceIdentity(ids, x) == EvidenceIdentity(ids, y) <==> OneItem(ids, x, y)
  {
  }

  /** Two lists of alternatives are one, the compared value read as an address where addresses are compared. */
  lemma AlternativesReadAsOne(ids: Identity, x: Counterfactual, y: Counterfactual)
    requires x.variable == y.variable
    ensures AlternativesKey(ids, x) == AlternativesKey(ids, y) <==>
      && |x.alternatives| == |y.alternatives|
      && forall i :: 0 <= i < |x.alternatives| ==>
           && (if x.variable == "resolved_address"
               then ids.address(x.alternatives[i].value) == ids.address(y.alternatives[i].value)
               else x.alternatives[i].value == y.alternatives[i].value)
           && x.alternatives[i].outcome == y.alternatives[i].outcome
           && OneEvidence(ids, x.alternatives[i].evidence, y.alternatives[i].evidence)
  {
    hide EvidenceKey, OneEvidence;
    var kx, ky := AlternativesKey(ids, x), AlternativesKey(ids, y);
    if |x.alternatives| == |y.alternatives| {
      forall i | 0 <= i < |x.alternatives|
        ensures EvidenceKey(ids, x.alternatives[i].evidence) == EvidenceKey(ids, y.alternatives[i].evidence)
           <==> OneEvidence(ids, x.alternatives[i].evidence, y.alternatives[i].evidence)
      {
        EvidenceReadsAsOne(ids, x.alternatives[i].evidence, y.alternatives[i].evidence);
      }
      assert forall i :: 0 <= i < |kx| ==>
        kx[i] == AlternativeKey(ids, VariableIsAddress(x.variable), x.alternatives[i]);
      assert forall i :: 0 <= i < |ky| ==>
        ky[i] == AlternativeKey(ids, VariableIsAddress(x.variable), y.alternatives[i]);
      if forall i :: 0 <= i < |kx| ==> kx[i] == ky[i] {
        assert kx == ky;
      }
    } else {
      assert |kx| != |ky|;
    }
  }
}
