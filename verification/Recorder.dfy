/**
  The comparison as it runs: a recorder whose methods append to its list of changes.

  Each method of `Diff` makes the same decisions in the same order as the code and ends with
  exactly the changes the rule of `Compare` adds; `CompareCanon` proves what an empty list means.
 */
module Recorder {
  import opened Wrappers
  import opened Text
  import opened Ordering
  import opened Snapshots
  import opened Changes
  import opened Keyed
  import opened Compare
  import opened CompareCanon
  import opened CompareReads

  datatype RowKind = RowUnchanged | RowAdded | RowRemoved | RowChanged

  datatype CheckRow = CheckRow(id: string, before: string, after: string, kind: RowKind, direction: Direction,
                               differs: bool)

  function StatusIn(m: map<string, Check>, id: string): string { if id in m then m[id].status else "" }

  /** The row the report shows for one check: it differs exactly when its two readings do. */
  ghost predicate IsRow(ids: Identity, mb: map<string, Check>, ma: map<string, Check>, id: string, row: CheckRow) {
    && row.id == id && row.before == StatusIn(mb, id) && row.after == StatusIn(ma, id)
    && (row.differs <==> !SameAt(mb, ma, id, (c: Check) => CheckCanonOf(ids, c)))
    && (row.kind == RowAdded <==> id !in mb) && (row.kind == RowRemoved <==> id !in ma)
    && (row.kind == RowChanged <==> id in mb && id in ma && row.before != row.after)
    && (row.kind != RowChanged ==> row.direction == NoDirection)
    && (row.kind == RowChanged ==> Moved(row.before, row.after, row.direction))
  }

  ghost predicate AreRows(ids: Identity, b: Snapshot, a: Snapshot, order: seq<string>, rows: seq<CheckRow>) {
    |rows| == |order| && forall i :: 0 <= i < |order| ==> IsRow(ids, ChecksOf(b), ChecksOf(a), order[i], rows[i])
  }

  /** A set's members in one order, whatever order the map yields them in. */
  method SortedMembers(members: set<string>, ghost listed: seq<string>) returns (r: seq<string>)
    requires forall x :: x in listed <==> x in members
    ensures r == SortedSet(listed, TextLE)
  {
    var rest := members;
    var union: seq<string> := [];
    while rest != {}
      invariant rest <= members
      invariant forall x :: x in union <==> x in members && x !in rest
      invariant forall i, j :: 0 <= i < j < |union| ==> union[i] != union[j]
      decreases |rest|
    {
      var v :| v in rest;
      rest, union := rest - {v}, union + [v];
    }
    r := Sort(union, TextLE);
    SortOfDistinct(union, listed);
  }

  lemma SortOfDistinct(union: seq<string>, listed: seq<string>)
    requires forall x :: x in union <==> x in listed
    requires forall i, j :: 0 <= i < j < |union| ==> union[i] != union[j]
    ensures Sort(union, TextLE) == SortedSet(listed, TextLE)
  {
    hide SortedSet, Sort, TextLE;
    TextOrder();
    SortSorted(union, TextLE);
    SortMembers(union, TextLE);
    SortedSetProperties(listed, TextLE);
    var r := Sort(union, TextLE);
    forall i, j | 0 <= i < j < |r|
      ensures r[i] != r[j]
    {
      DistinctOnce(union, r[i]);
      assert multiset(r)[r[i]] <= 1;
      if r[i] == r[j] {
        TwiceCounts(r, i, j);
      }
    }
    AscendingUnique(r, SortedSet(listed, TextLE), TextLE);
  }

  lemma TwiceCounts(s: seq<string>, i: nat, j: nat)
    requires i < j < |s| && s[i] == s[j]
    ensures multiset(s)[s[i]] >= 2
  {
    assert s == s[..i] + [s[i]] + s[i + 1..j] + [s[j]] + s[j + 1..];
  }

  // ---------------------------------------------------------------- the derived paths

  method ResolverInterfaces(routes: seq<Route>) returns (word: string)
    ensures word == SortedList(Interfaces(routes))
  {
    var seen: set<string> := {};
    for i := 0 to |routes|
      invariant forall x :: x in seen <==> x in Interfaces(routes[..i])
    {
      assert routes[..i + 1][..i] == routes[..i];
      if routes[i].iface != "" {
        seen := seen + {routes[i].iface};
      }
    }
    assert routes[..|routes|] == routes;
    var interfaces := SortedMembers(seen, Interfaces(routes));
    word := Join(interfaces, ",");
  }

  method ReadPaths(ids: Identity, s: Snapshot) returns (out: Paths)
    ensures out == PathsOf(ids, s)
  {
    hide ByKey, RouteFor, RoutesDiffer, SortedList, Interfaces;
    var checks := IndexByKey(s.checks, CheckID);
    var target := SelectedRoute(ids, Lookup(checks, "target_tcp"));
    var reference := FirstRoute(Lookup(checks, "iface"));
    var resolvers := if "dns" in checks then ObservedOf(checks["dns"]).routes else [];
    var interfaces := ResolverInterfaces(resolvers);
    out := Paths(target.iface, target.prefix, target.reason, target.tunnel, reference.iface, interfaces, "");
    if target.unreachable {
      out := out.(targetPrefix := "no route");
    }
    var allKnown := |resolvers| > 0 && target.iface != "";
    var i := 0;
    while i < |resolvers|
      invariant 0 <= i <= |resolvers|
      invariant allKnown <==> resolvers != [] && target.iface != "" && forall k :: 0 <= k < i ==>
        resolvers[k].iface != ""
      invariant forall k :: 0 <= k < i ==> !(resolvers[k].iface != "" && RoutesDiffer(ids, resolvers[k], target))
    {
      if resolvers[i].iface == "" {
        allKnown := false;
      } else if RoutesDiffer(ids, resolvers[i], target) {
        out := out.(agreement := "different paths");
        return;
      }
      i := i + 1;
    }
    if allKnown {
      out := out.(agreement := "same path");
    }
  }

  class Diff {
    var changes: seq<Change>

    constructor ()
      ensures changes == []
    {
      changes := [];
    }

    method RecordField(section: Section, check: string, path: string, before: Value, after: Value)
      modifies this
      ensures changes == Field(old(changes), section, check, path, before, after)
    {
      if before == after {
        return;
      }
      var c := Change(section, check, path, Changed, before, after, NoDirection);
      if Absent(before) {
        c := c.(kind := Added);
      } else if Absent(after) {
        c := c.(kind := Removed);
      }
      changes := changes + [c];
    }

    method RecordText(section: Section, check: string, path: string, before: string, after: string)
      modifies this
      ensures changes == Str(old(changes), section, check, path, before, after)
    {
      RecordField(section, check, path, Value.Text(before), Value.Text(after));
    }

    method RecordFlag(section: Section, check: string, path: string, before: bool, after: bool)
      modifies this
      ensures changes == YesNo(old(changes), section, check, path, before, after)
    {
      RecordField(section, check, path, Flag(before), Flag(after));
    }

    method RecordIdentity(key: string -> string, section: Section, check: string, path: string, before: string,
                          after: string)
      modifies this
      ensures changes == IdentityField(old(changes), key, section, check, path, before, after)
    {
      if key(before) == key(after) {
        return;
      }
      RecordField(section, check, path, Value.Text(before), Value.Text(after));
    }

    method RecordMember(section: Section, check: string, path: string, key: string, added: bool)
      modifies this
      ensures changes == Member(old(changes), section, check, path, key, added)
    {
      var c := Change(section, check, path, Removed, Value.Text(key), Value.Text(""), NoDirection);
      if added {
        c := c.(kind := Added, before := Value.Text(""), after := Value.Text(key));
      }
      changes := changes + [c];
    }

    method RecordRanked(section: Section, check: string, path: string, before: Value, after: Value, d: Direction)
      modifies this
      ensures changes == Ranked(old(changes), section, check, path, before, after, d)
    {
      if before != after {
        changes := changes + [Change(section, check, path, Changed, before, after, d)];
      }
    }

    method DiffTarget(before: Option<Target>, after: Option<Target>)
      modifies this
      ensures changes == TargetDiff(old(changes), before, after)
    {
      hide Field, Str, YesNo;
      if before.None? || after.None? {
        if before.None? && after.None? {
          return;
        }
        RecordField(InTarget, "", "target", if before.Some? then Shown(before.value) else Value.Text(""),
                    if after.Some? then Shown(after.value) else Value.Text(""));
        return;
      }
      var b, a := before.value, after.value;
      RecordText(InTarget, "", "target.host", b.host, a.host);
      RecordText(InTarget, "", "target.ip", b.ip, a.ip);
      RecordField(InTarget, "", "target.port", Number(b.port), Number(a.port));
      RecordText(InTarget, "", "target.protocol", b.protocol, a.protocol);
      RecordFlag(InTarget, "", "target.port_explicit", b.portExplicit, a.portExplicit);
      RecordText(InTarget, "", "target.raw", b.raw, a.raw);
    }

    method DiffTool(b: Tool, a: Tool)
      modifies this
      ensures changes == ToolDiff(old(changes), b, a)
    {
      hide Str;
      RecordText(InTool, "", "tool.version", b.version, a.version);
      RecordText(InTool, "", "tool.os", b.os, a.os);
      RecordText(InTool, "", "tool.arch", b.arch, a.arch);
    }

    method DiffOptions(ids: Identity, b: Options, a: Options)
      modifies this
      ensures changes == OptionsDiff(old(changes), ids, b, a)
    {
      hide Field, Str, YesNo, IdentityField, SortedList;
      RecordField(InOptions, "", "options.probe_timeout_ms", Number(b.probeTimeoutMs), Number(a.probeTimeoutMs));
      RecordIdentity(ids.address, InOptions, "", "options.public_dns", b.publicDNS, a.publicDNS);
      RecordFlag(InOptions, "", "options.public_dns_auto", b.publicDNSAuto, a.publicDNSAuto);
      RecordText(InOptions, "", "options.check", SortedList(b.check), SortedList(a.check));
      RecordText(InOptions, "", "options.skip", SortedList(b.skip), SortedList(a.skip));
      var sb, sa := SourceOf(b), SourceOf(a);
      RecordText(InOptions, "", "options.source.interface", sb.iface, sa.iface);
      RecordIdentity(ids.address, InOptions, "", "options.source.ipv4", sb.ipv4, sa.ipv4);
      RecordIdentity(ids.address, InOptions, "", "options.source.ipv6", sb.ipv6, sa.ipv6);
    }

    method DiffCounterfactual(ids: Identity, id: string, before: Option<Counterfactual>, after: Option<Counterfactual>)
      modifies this
      ensures changes
              == CounterfactualDiff(old(changes), ids, "diagnosis.findings." + id + ".counterfactual", before, after)
    {
      hide Str, AlternativesKey;
      var path := "diagnosis.findings." + id + ".counterfactual";
      if before.None? || after.None? {
        RecordField(InDiagnosis, "", path, if before.Some? then Whole(before.value) else Value.Text(""),
                    if after.Some? then Whole(after.value) else Value.Text(""));
        return;
      }
      RecordText(InDiagnosis, "", path + ".variable", before.value.variable, after.value.variable);
      if AlternativesKey(ids, before.value) != AlternativesKey(ids, after.value) {
        RecordField(InDiagnosis, "", path + ".alternatives", AlternativeList(before.value.alternatives),
                    AlternativeList(after.value.alternatives));
      }
    }

    method DiffFinding(ids: Identity, id: string, b: Finding, a: Finding)
      modifies this
      ensures changes == FindingDiff(old(changes), ids, id, b, a)
    {
      hide Field, Str, EvidenceKey, Join, CounterfactualDiff;
      var path := "diagnosis.findings." + id;
      RecordText(InDiagnosis, "", path + ".verdict", b.verdict, a.verdict);
      RecordText(InDiagnosis, "", path + ".focus", b.focus, a.focus);
      RecordText(InDiagnosis, "", path + ".confidence", b.confidence, a.confidence);
      RecordText(InDiagnosis, "", path + ".evidence", Join(b.evidence, ","), Join(a.evidence, ","));
      if EvidenceKey(ids, b.causal) != EvidenceKey(ids, a.causal) {
        RecordField(InDiagnosis, "", path + ".causal_evidence", EvidenceList(b.causal), EvidenceList(a.causal));
      }
      DiffCounterfactual(ids, id, b.counterfactual, a.counterfactual);
    }

    method DiffDiagnosis(ids: Identity, before: Snapshot, after: Snapshot)
      modifies this
      ensures changes == DiagnosisDiff(old(changes), ids, before, after)
    {
      hide Field, Str, Ranked, FindingDiff, ByKey, MergedOrder, KeysOf;
      RecordRanked(InDiagnosis, "", "ok", Flag(before.ok), Flag(after.ok), OKDirection(after.ok));
      RecordText(InDiagnosis, "", "diagnosis.verdict", before.diagnosis.verdict, after.diagnosis.verdict);
      RecordText(InDiagnosis, "", "diagnosis.blamed", before.diagnosis.blamed, after.diagnosis.blamed);
      RecordText(InDiagnosis, "", "diagnosis.failed_stage", before.diagnosis.failedStage, after.diagnosis.failedStage);
      RecordText(InDiagnosis, "", "diagnosis.findings.primary", Primary(before.diagnosis.findings),
                 Primary(after.diagnosis.findings));
      ghost var head := changes;
      var mb := IndexByKey(before.diagnosis.findings, FindingID);
      var ma := IndexByKey(after.diagnosis.findings, FindingID);
      var order :=
        MergeOrders(KeysOf(before.diagnosis.findings, FindingID), KeysOf(after.diagnosis.findings, FindingID));
      OrderIsCovered(before.diagnosis.findings, after.diagnosis.findings, FindingID);
      for i := 0 to |order|
        invariant changes == Collect(head, order[..i], FindingOne(ids, mb, ma))
      {
        var id := order[i];
        assert order[..i + 1][..i] == order[..i];
        assert id in mb || id in ma;
        if (id in mb) != (id in ma) {
          RecordMember(InDiagnosis, "", "diagnosis.findings." + id, id, id in ma);
        } else {
          DiffFinding(ids, id, mb[id], ma[id]);
        }
      }
      assert order[..|order|] == order;
    }

    method DiffPaths(ids: Identity, before: Snapshot, after: Snapshot)
      modifies this
      ensures changes == PathsDiff(old(changes), ids, before, after)
    {
      hide Str, IdentityField, PathsOf;
      var b := ReadPaths(ids, before);
      var a := ReadPaths(ids, after);
      RecordText(InPaths, "", "paths.target.interface", b.targetIface, a.targetIface);
      RecordIdentity(ids.prefix, InPaths, "", "paths.target.prefix", b.targetPrefix, a.targetPrefix);
      RecordText(InPaths, "", "paths.target.reason", b.targetReason, a.targetReason);
      RecordText(InPaths, "", "paths.target.tunnel", b.targetTunnel, a.targetTunnel);
      RecordText(InPaths, "", "paths.reference.interface", b.referenceIface, a.referenceIface);
      RecordText(InPaths, "", "paths.resolver.interface", b.resolverIface, a.resolverIface);
      RecordText(InPaths, "", "paths.resolver.agreement", b.agreement, a.agreement);
    }

    method DiffSet(id: string, path: string, key: string -> string, before: seq<string>, after: seq<string>)
      modifies this
      ensures changes == SetDiff(old(changes), id, path, key, before, after)
    {
      hide Member, ByKey, SortedSet, KeysOf;
      var inBefore := IndexByKey(before, key);
      var inAfter := IndexByKey(after, key);
      ghost var listed := KeysOf(before, key) + KeysOf(after, key);
      ByKeyKeys(before, key);
      ByKeyKeys(after, key);
      var union := SortedMembers(inBefore.Keys + inAfter.Keys, listed);
      assert union == SetOrder(before, after, key);
      for i := 0 to |union|
        invariant changes == Collect(old(changes), union[..i], SetOne(id, path, inBefore, inAfter))
      {
        var v := union[i];
        assert union[..i + 1][..i] == union[..i];
        if (v in inBefore) != (v in inAfter) {
          var recorded := if v in inAfter then inAfter[v] else inBefore[v];
          RecordMember(InCheck, id, path + "." + recorded, recorded, v in inAfter);
        }
      }
      assert union[..|union|] == union;
    }

    method DiffAttempts(ids: Identity, id: string, path: string, before: seq<Attempt>, after: seq<Attempt>)
      modifies this
      ensures changes == AttemptsDiff(old(changes), ids, id, path, before, after)
    {
      hide Member, KeysOf, MergedOrder, GroupBy, AttemptDiff;
      var mb: Groups := GroupItems(before, AttemptKey(ids));
      var ma: Groups := GroupItems(after, AttemptKey(ids));
      var order := MergeOrders(KeysOf(before, AttemptKey(ids)), KeysOf(after, AttemptKey(ids)));
      GroupByKeys(before, AttemptKey(ids));
      GroupByKeys(after, AttemptKey(ids));
      MergedOrderSwaps(KeysOf(before, AttemptKey(ids)), KeysOf(after, AttemptKey(ids)));
      for i := 0 to |order|
        invariant changes == Collect(old(changes), order[..i], AttemptOne(id, path, mb, ma))
      {
        var ip := order[i];
        assert order[..i + 1][..i] == order[..i];
        assert ip in mb || ip in ma;
        if (ip in mb) != (ip in ma) {
          var recorded := if ip in ma then ma[ip] else mb[ip];
          RecordMember(InCheck, id, path + "attempts." + recorded[0].ip, recorded[0].ip, ip in ma);
        } else {
          DiffAttempt(id, path, mb[ip], ma[ip]);
        }
      }
      assert order[..|order|] == order;
    }

    method DiffAttempt(id: string, path: string, b: seq<Attempt>, a: seq<Attempt>)
      requires b != [] && a != []
      modifies this
      ensures changes == AttemptDiff(old(changes), id, path, b, a)
    {
      hide Field, Str, YesNo, OutcomesOf;
      var at := path + "attempts." + b[0].ip;
      if |b| == 1 && |a| == 1 {
        RecordText(InCheck, id, at + ".error", b[0].error, a[0].error);
        RecordText(InCheck, id, at + ".cause", b[0].cause, a[0].cause);
        RecordFlag(InCheck, id, at + ".aborted", b[0].aborted, a[0].aborted);
      } else {
        RecordField(InCheck, id, at + ".outcomes", Outcomes(OutcomesOf(b)), Outcomes(OutcomesOf(a)));
      }
    }

    method DiffRoute(ids: Identity, id: string, path: string, b: Route, a: Route)
      modifies this
      ensures changes == RouteDiff(old(changes), ids, id, path, b, a)
    {
      hide Field, Str, YesNo, IdentityField, CompetingWord;
      var at := path + "routes." + b.destination + ".";
      RecordFlag(InCheck, id, at + "unreachable", b.unreachable, a.unreachable);
      RecordIdentity(ids.prefix, InCheck, id, at + "prefix", b.prefix, a.prefix);
      RecordText(InCheck, id, at + "interface", b.iface, a.iface);
      RecordIdentity(ids.address, InCheck, id, at + "gateway", b.gateway, a.gateway);
      RecordIdentity(ids.address, InCheck, id, at + "source", b.source, a.source);
      assert changes == RouteHopDiff(old(changes), ids, id, path, b, a);
      RecordField(InCheck, id, at + "metric", Optional(b.metric), Optional(a.metric));
      RecordText(InCheck, id, at + "table", b.table, a.table);
      RecordFlag(InCheck, id, at + "table_known", b.tableKnown, a.tableKnown);
      RecordText(InCheck, id, at + "tunnel", b.tunnel, a.tunnel);
      RecordText(InCheck, id, at + "tunnel_kind", b.tunnelKind, a.tunnelKind);
      RecordText(InCheck, id, at + "reason", b.reason, a.reason);
      RecordField(InCheck, id, at + "interface_mtu", MTU(b.interfaceMTU), MTU(a.interfaceMTU));
      RecordText(InCheck, id, at + "competing", CompetingWord(b.competing), CompetingWord(a.competing));
    }

    method DiffRoutes(ids: Identity, id: string, path: string, before: seq<Route>, after: seq<Route>)
      modifies this
      ensures changes == RoutesDiff(old(changes), ids, id, path, before, after)
    {
      hide Member, RouteDiff, ByKey, KeysOf, MergedOrder;
      var mb := IndexByKey(before, RouteKey(ids));
      var ma := IndexByKey(after, RouteKey(ids));
      var order := MergeOrders(KeysOf(before, RouteKey(ids)), KeysOf(after, RouteKey(ids)));
      OrderIsCovered(before, after, RouteKey(ids));
      for i := 0 to |order|
        invariant changes == Collect(old(changes), order[..i], RouteOne(ids, id, path, mb, ma))
      {
        var dst := order[i];
        assert order[..i + 1][..i] == order[..i];
        assert dst in mb || dst in ma;
        if (dst in mb) != (dst in ma) {
          var recorded := if dst in ma then ma[dst].destination else mb[dst].destination;
          RecordMember(InCheck, id, path + "routes." + recorded, recorded, dst in ma);
        } else {
          DiffRoute(ids, id, path, mb[dst], ma[dst]);
        }
      }
      assert order[..|order|] == order;
    }

    method DiffObserved(ids: Identity, id: string, b: Observed, a: Observed)
      modifies this
      ensures changes == ObservedDiff(old(changes), ids, id, b, a)
    {
      hide NameDiff, ResolverDiff, LinkDiff, TimingDiff, AttemptsDiff, RoutesDiff;
      var path := "checks." + id + ".observed.";
      DiffNames(ids, id, path, b, a);
      DiffLink(ids, id, path, b, a);
      DiffAttempts(ids, id, path, b.attempts, a.attempts);
      DiffRoutes(ids, id, path, b.routes, a.routes);
      DiffTiming(id, path, b, a);
    }

    // The three stretches of field comparisons that one observation is made of.
    method DiffNames(ids: Identity, id: string, path: string, b: Observed, a: Observed)
      modifies this
      ensures changes == ResolverDiff(NameDiff(old(changes), ids, id, path, b, a), ids, id, path, b, a)
    {
      hide Field, Str, YesNo, IdentityField, SetDiff;
      RecordText(InCheck, id, path + "dns_name_scope", b.dnsNameScope, a.dnsNameScope);
      DiffSet(id, path + "addresses", ids.address, b.addresses, a.addresses);
      RecordIdentity(ids.address, InCheck, id, path + "selected_ip", b.selectedIP, a.selectedIP);
      RecordFlag(InCheck, id, path + "dns_not_found", b.dnsNotFound, a.dnsNotFound);
      RecordIdentity(ids.address, InCheck, id, path + "resolver", b.resolver, a.resolver);
      DiffSet(id, path + "resolver_targets", ids.endpoint, b.resolverTargets, a.resolverTargets);
    }

    method DiffLink(ids: Identity, id: string, path: string, b: Observed, a: Observed)
      modifies this
      ensures changes == LinkDiff(old(changes), ids, id, path, b, a)
    {
      hide Field, Str, YesNo, IdentityField, FamiliesOf;
      RecordIdentity(ids.address, InCheck, id, path + "source_ip", b.sourceIP, a.sourceIP);
      RecordText(InCheck, id, path + "interface", b.iface, a.iface);
      RecordFlag(InCheck, id, path + "interface_ambiguous", b.ambiguous, a.ambiguous);
      RecordText(InCheck, id, path + "ssid", b.ssid, a.ssid);
      var bf, af := FamiliesOf(b), FamiliesOf(a);
      RecordText(InCheck, id, path + "address_families.ipv4", bf.ipv4, af.ipv4);
      RecordText(InCheck, id, path + "address_families.ipv6", bf.ipv6, af.ipv6);
      RecordText(InCheck, id, path + "portal", PortalWord(b.portal), PortalWord(a.portal));
      RecordText(InCheck, id, path + "portal.redirect_url", PortalURL(b.portal), PortalURL(a.portal));
      RecordFlag(InCheck, id, path + "connect_cleartext", b.connectCleartext, a.connectCleartext);
    }

    method DiffTiming(id: string, path: string, b: Observed, a: Observed)
      modifies this
      ensures changes == TimingDiff(old(changes), id, path, b, a)
    {
      hide Field, YesNo, ClockOffset;
      RecordField(InCheck, id, path + "clock_offset_ms", Optional(ClockOffset(b.clockOffsetMs)),
                  Optional(ClockOffset(a.clockOffsetMs)));
      RecordFlag(InCheck, id, path + "timeout", b.timeout, a.timeout);
    }

    method DiffCheck(ids: Identity, id: string, b: Check, a: Check)
      modifies this
      ensures changes == CheckDiff(old(changes), ids, id, b, a)
    {
      hide Str, YesNo, Ranked, Join, DerivedOf, ObservedOf, ObservedDiff, DirectionOf;
      var path := "checks." + id;
      RecordRanked(InCheck, id, path + ".status", Value.Text(b.status), Value.Text(a.status),
                   DirectionOf(b.status, a.status));
      RecordText(InCheck, id, path + ".cause", b.cause, a.cause);
      RecordText(InCheck, id, path + ".cause_family", b.causeFamily, a.causeFamily);
      RecordFlag(InCheck, id, path + ".ran", b.ran, a.ran);
      RecordText(InCheck, id, path + ".deps", Join(b.deps, ","), Join(a.deps, ","));
      RecordFlag(InCheck, id, path + ".derived.status_downgraded", DerivedOf(b).statusDowngraded,
                 DerivedOf(a).statusDowngraded);
      RecordText(InCheck, id, path + ".derived.answer_comparison", DerivedOf(b).answerComparison,
                 DerivedOf(a).answerComparison);
      DiffObserved(ids, id, ObservedOf(b), ObservedOf(a));
    }

    method DiffCheckRow(ids: Identity, mb: map<string, Check>, ma: map<string, Check>, id: string)
      returns (row: CheckRow)
      requires id in mb || id in ma
      modifies this
      ensures changes == CheckOne(ids, mb, ma)(old(changes), id)
      ensures IsRow(ids, mb, ma, id, row)
    {
      hide Member, CheckDiff, CheckCanonOf, DirectionOf, Moved;
      row := CheckRow(id, StatusIn(mb, id), StatusIn(ma, id), RowUnchanged, NoDirection, false);
      if (id in mb) != (id in ma) {
        row := row.(kind := if id in ma then RowAdded else RowRemoved, differs := true);
        RecordMember(InCheck, id, "checks." + id, id, id in ma);
        return;
      }
      var start := |changes|;
      CheckGrew(changes, ids, id, mb[id], ma[id]);
      DiffCheck(ids, id, mb[id], ma[id]);
      row := row.(differs := |changes| > start);
      if mb[id].status != ma[id].status {
        DirectionMoves(mb[id].status, ma[id].status);
        row := row.(kind := RowChanged, direction := DirectionOf(mb[id].status, ma[id].status));
      }
    }

    method DiffChecks(ids: Identity, before: Snapshot, after: Snapshot) returns (rows: seq<CheckRow>)
      modifies this
      ensures changes == ChecksDiff(old(changes), ids, before, after)
      ensures AreRows(ids, before, after, CheckOrder(before.checks, after.checks), rows)
    {
      hide CheckOne, IsRow, ByKey, KeysOf, MergedOrder;
      var mb := IndexByKey(before.checks, CheckID);
      var ma := IndexByKey(after.checks, CheckID);
      var order := MergeOrders(KeysOf(before.checks, CheckID), KeysOf(after.checks, CheckID));
      OrderIsCovered(before.checks, after.checks, CheckID);
      rows := [];
      for i := 0 to |order|
        invariant changes == Collect(old(changes), order[..i], CheckOne(ids, mb, ma))
        invariant |rows| == i && forall k :: 0 <= k < i ==> IsRow(ids, mb, ma, order[k], rows[k])
      {
        assert order[..i + 1][..i] == order[..i];
        var row := DiffCheckRow(ids, mb, ma, order[i]);
        rows := rows + [row];
      }
      assert order[..|order|] == order;
    }

    /** The whole comparison. */
    method Snapshots(ids: Identity, before: Snapshot, after: Snapshot) returns (rows: seq<CheckRow>)
      requires changes == []
      modifies this
      ensures changes == SnapshotsDiff(ids, before, after)
      ensures changes == [] <==> CanonOf(ids, before) == CanonOf(ids, after)
      ensures forall c :: c in changes ==> Tells(ids, before, after, c)
      ensures AreRows(ids, before, after, CheckOrder(before.checks, after.checks), rows)
    {
      NoChangeIsEqualProjection(ids, before, after);
      hide TargetDiff, ToolDiff, OptionsDiff, DiagnosisDiff, PathsDiff, ChecksDiff, AreRows, CanonOf, Tells;
      DiffTarget(before.target, after.target);
      DiffTool(before.tool, after.tool);
      DiffOptions(ids, before.options, after.options);
      DiffDiagnosis(ids, before, after);
      DiffPaths(ids, before, after);
      rows := DiffChecks(ids, before, after);
      forall c | c in changes
        ensures Tells(ids, before, after, c)
      {
        EveryChangeTells(ids, before, after, c);
      }
    }
  }

  lemma OrderIsCovered<T>(before: seq<T>, after: seq<T>, key: T -> string)
    ensures forall id :: id in MergedOrder(KeysOf(before, key), KeysOf(after, key)) <==>
      id in ByKey(before, key) || id in ByKey(after, key)
  {
    ByKeyKeys(before, key);
    ByKeyKeys(after, key);
    MergedOrderSwaps(KeysOf(before, key), KeysOf(after, key));
  }
}
