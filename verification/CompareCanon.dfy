/**
  "No change" is equality of a canonical projection: what the comparison looks at in one
  snapshot, with everything it deliberately forgets already forgotten.

  `CanonOf` is that projection, defined on one snapshot and without any recorder. Each rule of the
  comparison is shown to record something exactly when its part of the two projections differs,
  and the whole comparison by adding the parts up.
 */
module CompareCanon {
  import opened Wrappers
  import opened Text
  import opened Ordering
  import opened Snapshots
  import opened Changes
  import opened Keyed
  import opened Compare

  datatype FindingCanon = FindingCanon(verdict: string, focus: string, confidence: string, evidence: string,
                                       causal: seq<CausalEvidence>, counterfactual: Option<Counterfactual>)

  datatype RouteCanon = RouteCanon(unreachable: bool, prefix: string, iface: string, gateway: string, source: string,
                                   metric: Option<int>, table: string, tableKnown: bool,
                                   tunnel: string, tunnelKind: string, reason: string, mtu: nat, competing: string)

  datatype ObservedCanon = ObservedCanon(
    dnsNameScope: string, addresses: set<string>, selectedIP: string, dnsNotFound: bool, resolver: string,
    resolverTargets: set<string>, sourceIP: string, iface: string, ambiguous: bool, ssid: string, families: Families,
    portal: Option<string>, connectCleartext: bool,
    attempts: map<string, set<(string, string, bool)>>, routes: map<string, RouteCanon>,
    clockOffset: Option<int>, timeout: bool)

  datatype CheckCanon = CheckCanon(status: string, cause: string, causeFamily: string, ran: bool, deps: string,
                                   derived: Derived, observed: ObservedCanon)

  datatype OptionsCanon = OptionsCanon(probeTimeoutMs: int, publicDNS: string, publicDNSAuto: bool,
                                       check: string, skip: string, source: Source)

  datatype Canon = Canon(target: Option<Target>, tool: Tool, options: OptionsCanon, ok: bool, verdict: string,
                         blamed: string, failedStage: string, primary: string, findings: map<string, FindingCanon>,
                         paths: Paths, checks: map<string, CheckCanon>)

  function MapValues<T, U>(m: map<string, T>, f: T -> U): map<string, U> { map k | k in m :: f(m[k]) }

  function OptionsCanonOf(ids: Identity, o: Options): OptionsCanon {
    var s := SourceOf(o);
    OptionsCanon(o.probeTimeoutMs, ids.address(o.publicDNS), o.publicDNSAuto, SortedList(o.check), SortedList(o.skip),
                 Source(s.iface, ids.address(s.ipv4), ids.address(s.ipv6)))
  }

  function CounterfactualCanonOf(ids: Identity, c: Option<Counterfactual>): Option<Counterfactual> {
    if c.None? then None else Some(Counterfactual(c.value.variable, AlternativesKey(ids, c.value)))
  }

  function FindingCanonOf(ids: Identity, f: Finding): FindingCanon {
    FindingCanon(f.verdict, f.focus, f.confidence, Join(f.evidence, ","), EvidenceKey(ids, f.causal),
                 CounterfactualCanonOf(ids, f.counterfactual))
  }

  function RouteCanonOf(ids: Identity, r: Route): RouteCanon {
    RouteCanon(r.unreachable, ids.prefix(r.prefix), r.iface, ids.address(r.gateway), ids.address(r.source), r.metric,
               r.table, r.tableKnown, r.tunnel, r.tunnelKind, r.reason,
               if r.interfaceMTU > 0 then r.interfaceMTU else 0, CompetingWord(r.competing))
  }

  function KeySet(values: seq<string>, key: string -> string): set<string> {
    set i | 0 <= i < |values| :: key(values[i])
  }

  function AttemptsCanonOf(ids: Identity, attempts: seq<Attempt>): map<string, set<(string, string, bool)>> {
    MapValues(AttemptsOf(ids, attempts), OutcomesOf)
  }

  function RoutesCanonOf(ids: Identity, routes: seq<Route>): map<string, RouteCanon> {
    MapValues(RoutesOf(ids, routes), (r: Route) => RouteCanonOf(ids, r))
  }

  function ObservedCanonOf(ids: Identity, o: Observed): ObservedCanon {
    ObservedCanon(o.dnsNameScope, KeySet(o.addresses, ids.address), ids.address(o.selectedIP), o.dnsNotFound,
                  ids.address(o.resolver), KeySet(o.resolverTargets, ids.endpoint), ids.address(o.sourceIP),
                  o.iface, o.ambiguous, o.ssid, FamiliesOf(o), o.portal, o.connectCleartext,
                  AttemptsCanonOf(ids, o.attempts), RoutesCanonOf(ids, o.routes),
                  ClockOffset(o.clockOffsetMs), o.timeout)
  }

  function CheckCanonOf(ids: Identity, c: Check): CheckCanon {
    CheckCanon(c.status, c.cause, c.causeFamily, c.ran, Join(c.deps, ","), DerivedOf(c),
               ObservedCanonOf(ids, ObservedOf(c)))
  }

  function PathsCanonOf(ids: Identity, s: Snapshot): Paths {
    var p := PathsOf(ids, s);
    p.(targetPrefix := ids.prefix(p.targetPrefix))
  }

  function FindingsCanonOf(ids: Identity, s: Snapshot): map<string, FindingCanon> {
    MapValues(FindingsOf(s), (f: Finding) => FindingCanonOf(ids, f))
  }

  function ChecksCanonOf(ids: Identity, s: Snapshot): map<string, CheckCanon> {
    MapValues(ChecksOf(s), (c: Check) => CheckCanonOf(ids, c))
  }

  function CanonOf(ids: Identity, s: Snapshot): Canon {
    Canon(s.target, s.tool, OptionsCanonOf(ids, s.options), s.ok, s.diagnosis.verdict, s.diagnosis.blamed,
          s.diagnosis.failedStage, Primary(s.diagnosis.findings), FindingsCanonOf(ids, s),
          PathsCanonOf(ids, s), ChecksCanonOf(ids, s))
  }

  /** `after` extends `before`, by something exactly when `same` does not hold. */
  predicate Grew(before: seq<Change>, after: seq<Change>, same: bool) {
    |before| <= |after| && (|before| == |after| <==> same)
  }

  // ---------------------------------------------------------------- keyed collections

  /** Two indexes hold the same reading under one key. */
  predicate SameAt<T, U(==)>(mb: map<string, T>, ma: map<string, T>, k: string, f: T -> U) {
    (k in mb <==> k in ma) && (k in mb && k in ma ==> f(mb[k]) == f(ma[k]))
  }

  /** A per-key rule that records something exactly for the keys where the indexes differ. */
  ghost predicate Records<T, U>(one: (seq<Change>, string) -> seq<Change>, mb: map<string, T>, ma: map<string, T>,
                                f: T -> U) {
    forall cs, k {:trigger one(cs, k)} :: Grew(cs, one(cs, k), SameAt(mb, ma, k, f))
  }

  ghost predicate AllSame<T, U>(order: seq<string>, mb: map<string, T>, ma: map<string, T>, f: T -> U) {
    forall k :: k in order ==> SameAt(mb, ma, k, f)
  }

  lemma {:induction false} CollectGrew<T, U>(cs: seq<Change>, order: seq<string>,
                                             one: (seq<Change>, string) -> seq<Change>,
                                             mb: map<string, T>, ma: map<string, T>, f: T -> U)
    requires Records(one, mb, ma, f)
    ensures Grew(cs, Collect(cs, order, one), AllSame(order, mb, ma, f))
  {
    if order != [] {
      var rest, last := order[..|order| - 1], order[|order| - 1];
      CollectGrew(cs, rest, one, mb, ma, f);
      assert order == rest + [last];
    }
  }

  lemma MapsAgree<T, U>(order: seq<string>, mb: map<string, T>, ma: map<string, T>, f: T -> U)
    requires forall k :: k in order <==> k in mb || k in ma
    ensures AllSame(order, mb, ma, f) <==> MapValues(mb, f) == MapValues(ma, f)
  {
    var cb, ca := MapValues(mb, f), MapValues(ma, f);
    if cb == ca {
      forall k | k in order
        ensures SameAt(mb, ma, k, f)
      {
        assert k in cb <==> k in ca;
        assert k in cb ==> cb[k] == ca[k];
      }
    }
    if AllSame(order, mb, ma, f) {
      forall k
        ensures k in cb <==> k in ca
        ensures k in cb && k in ca ==> cb[k] == ca[k]
      {
        assert k in mb || k in ma ==> SameAt(mb, ma, k, f);
      }
      assert cb.Keys == ca.Keys;
    }
  }

  /** A keyed collection records nothing exactly when the two indexes read the same. */
  lemma KeyedGrew<T, U>(cs: seq<Change>, order: seq<string>, one: (seq<Change>, string) -> seq<Change>,
                        mb: map<string, T>, ma: map<string, T>, f: T -> U)
    requires forall k :: k in order <==> k in mb || k in ma
    requires Records(one, mb, ma, f)
    ensures Grew(cs, Collect(cs, order, one), MapValues(mb, f) == MapValues(ma, f))
  {
    CollectGrew(cs, order, one, mb, ma, f);
    MapsAgree(order, mb, ma, f);
  }

  // ---------------------------------------------------------------- attempts

  lemma OneOutcome(b: seq<Attempt>, a: seq<Attempt>)
    requires |b| == |a| == 1
    ensures OutcomesOf(b) == OutcomesOf(a) <==> OutcomeOf(b[0]) == OutcomeOf(a[0])
  {
    assert OutcomeOf(b[0]) in OutcomesOf(b);
    assert OutcomeOf(a[0]) in OutcomesOf(a);
  }

  lemma AttemptGrew(cs: seq<Change>, id: string, path: string, b: seq<Attempt>, a: seq<Attempt>)
    requires b != [] && a != []
    ensures Grew(cs, AttemptDiff(cs, id, path, b, a), OutcomesOf(b) == OutcomesOf(a))
  {
    hide OutcomesOf;
    if |b| == 1 && |a| == 1 {
      OneOutcome(b, a);
    }
  }

  lemma AttemptsGrew(cs: seq<Change>, ids: Identity, id: string, path: string, b: seq<Attempt>, a: seq<Attempt>)
    ensures Grew(cs, AttemptsDiff(cs, ids, id, path, b, a), AttemptsCanonOf(ids, b) == AttemptsCanonOf(ids, a))
  {
    hide AttemptDiff, OutcomesOf, GroupBy, Collect, MergedOrder, KeysOf, MapValues;
    var mb, ma := AttemptsOf(ids, b), AttemptsOf(ids, a);
    var one := AttemptOne(id, path, mb, ma);
    forall ds, ip {:trigger one(ds, ip)}
      ensures Grew(ds, one(ds, ip), SameAt(mb, ma, ip, OutcomesOf))
    {
      if ip in mb && ip in ma {
        AttemptGrew(ds, id, path, mb[ip], ma[ip]);
      }
    }
    var kb, ka := KeysOf(b, AttemptKey(ids)), KeysOf(a, AttemptKey(ids));
    GroupByKeys(b, AttemptKey(ids));
    GroupByKeys(a, AttemptKey(ids));
    MergedOrderSwaps(kb, ka);
    KeyedGrew(cs, MergedOrder(kb, ka), one, mb, ma, OutcomesOf);
  }

  // ---------------------------------------------------------------- routes

  lemma RouteGrew(cs: seq<Change>, ids: Identity, id: string, path: string, b: Route, a: Route)
    ensures Grew(cs, RouteDiff(cs, ids, id, path, b, a), RouteCanonOf(ids, b) == RouteCanonOf(ids, a))
  {
    hide CompetingWord;
  }

  lemma RoutesGrew(cs: seq<Change>, ids: Identity, id: string, path: string, b: seq<Route>, a: seq<Route>)
    ensures Grew(cs, RoutesDiff(cs, ids, id, path, b, a), RoutesCanonOf(ids, b) == RoutesCanonOf(ids, a))
  {
    hide RouteDiff, RouteCanonOf, ByKey, Collect, MergedOrder, KeysOf, MapValues;
    var mb, ma := RoutesOf(ids, b), RoutesOf(ids, a);
    var one := RouteOne(ids, id, path, mb, ma);
    var f := (r: Route) => RouteCanonOf(ids, r);
    forall ds, dst {:trigger one(ds, dst)}
      ensures Grew(ds, one(ds, dst), SameAt(mb, ma, dst, f))
    {
      if dst in mb && dst in ma {
        RouteGrew(ds, ids, id, path, mb[dst], ma[dst]);
      }
    }
    var kb, ka := KeysOf(b, RouteKey(ids)), KeysOf(a, RouteKey(ids));
    ByKeyKeys(b, RouteKey(ids));
    ByKeyKeys(a, RouteKey(ids));
    MergedOrderSwaps(kb, ka);
    KeyedGrew(cs, MergedOrder(kb, ka), one, mb, ma, f);
  }

  // ---------------------------------------------------------------- sets

  const UNIT := (v: string) => true

  lemma SetGrew(cs: seq<Change>, id: string, path: string, key: string -> string, b: seq<string>, a: seq<string>)
    ensures Grew(cs, SetDiff(cs, id, path, key, b, a), KeySet(b, key) == KeySet(a, key))
  {
    hide ByKey, Collect, KeysOf, SetOrder, MapValues;
    var mb, ma := Recorded(b, key), Recorded(a, key);
    var one := SetOne(id, path, mb, ma);
    forall ds, v {:trigger one(ds, v)}
      ensures Grew(ds, one(ds, v), SameAt(mb, ma, v, UNIT))
    {
    }
    SetOrderKeys(b, a, key);
    RecordedKeys(b, key);
    RecordedKeys(a, key);
    KeyedGrew(cs, SetOrder(b, a, key), one, mb, ma, UNIT);
    MapsAgree(SetOrder(b, a, key), mb, ma, UNIT);
    SetsAgree(mb, ma);
  }

  lemma SetsAgree(mb: map<string, string>, ma: map<string, string>)
    ensures MapValues(mb, UNIT) == MapValues(ma, UNIT) <==> mb.Keys == ma.Keys
  {
    assert MapValues(mb, UNIT).Keys == mb.Keys;
    assert MapValues(ma, UNIT).Keys == ma.Keys;
    if mb.Keys == ma.Keys {
      assert MapValues(mb, UNIT) == MapValues(ma, UNIT);
    }
  }

  lemma RecordedKeys(values: seq<string>, key: string -> string)
    ensures Recorded(values, key).Keys == KeySet(values, key)
  {
    ByKeyKeys(values, key);
    KeysAreKeySet(values, key);
  }

  lemma KeysAreKeySet(values: seq<string>, key: string -> string)
    ensures forall k :: k in KeysOf(values, key) <==> k in KeySet(values, key)
  {
    var keys := KeysOf(values, key);
    forall k
      ensures k in keys <==> k in KeySet(values, key)
    {
      if k in keys {
        var i :| 0 <= i < |keys| && keys[i] == k;
        assert key(values[i]) in KeySet(values, key);
      }
      if k in KeySet(values, key) {
        var i :| 0 <= i < |values| && key(values[i]) == k;
        assert keys[i] == k;
      }
    }
  }

  lemma SetOrderKeys(b: seq<string>, a: seq<string>, key: string -> string)
    ensures forall k :: k in SetOrder(b, a, key) <==> k in Recorded(b, key) || k in Recorded(a, key)
  {
    ByKeyKeys(b, key);
    ByKeyKeys(a, key);
    TextOrder();
    SortedSetProperties(KeysOf(b, key) + KeysOf(a, key), TextLE);
  }

  // ---------------------------------------------------------------- one check

  lemma NameGrew(cs: seq<Change>, ids: Identity, id: string, path: string, b: Observed, a: Observed)
    ensures Grew(cs, NameDiff(cs, ids, id, path, b, a),
                 b.dnsNameScope == a.dnsNameScope
                   && KeySet(b.addresses, ids.address) == KeySet(a.addresses, ids.address))
  {
    hide SetDiff, KeySet;
    var cs1 := Str(cs, InCheck, id, path + "dns_name_scope", b.dnsNameScope, a.dnsNameScope);
    SetGrew(cs1, id, path + "addresses", ids.address, b.addresses, a.addresses);
  }

  lemma ResolverGrew(cs: seq<Change>, ids: Identity, id: string, path: string, b: Observed, a: Observed)
    ensures Grew(cs, ResolverDiff(cs, ids, id, path, b, a),
                 ids.address(b.selectedIP) == ids.address(a.selectedIP) && b.dnsNotFound == a.dnsNotFound
                 && ids.address(b.resolver) == ids.address(a.resolver)
                 && KeySet(b.resolverTargets, ids.endpoint) == KeySet(a.resolverTargets, ids.endpoint))
  {
    hide SetDiff, KeySet;
    SetGrew(ResolverHeadDiff(cs, ids, id, path, b, a), id, path + "resolver_targets", ids.endpoint, b.resolverTargets,
            a.resolverTargets);
  }

  predicate SameLink(ids: Identity, b: Observed, a: Observed) {
    ids.address(b.sourceIP) == ids.address(a.sourceIP) && b.iface == a.iface && b.ambiguous == a.ambiguous
      && b.ssid == a.ssid
    && FamiliesOf(b) == FamiliesOf(a) && b.portal == a.portal && b.connectCleartext == a.connectCleartext
  }

  lemma LinkGrew(cs: seq<Change>, ids: Identity, id: string, path: string, b: Observed, a: Observed)
    ensures Grew(cs, LinkDiff(cs, ids, id, path, b, a), SameLink(ids, b, a))
  {
  }

  lemma TimingGrew(cs: seq<Change>, id: string, path: string, b: Observed, a: Observed)
    ensures Grew(cs, TimingDiff(cs, id, path, b, a),
                 ClockOffset(b.clockOffsetMs) == ClockOffset(a.clockOffsetMs) && b.timeout == a.timeout)
  {
    hide ClockOffset;
  }

  lemma ObservedGrew(cs: seq<Change>, ids: Identity, id: string, b: Observed, a: Observed)
    ensures Grew(cs, ObservedDiff(cs, ids, id, b, a), ObservedCanonOf(ids, b) == ObservedCanonOf(ids, a))
  {
    hide NameDiff, ResolverDiff, LinkDiff, AttemptsDiff, RoutesDiff, TimingDiff, KeySet, AttemptsCanonOf;
    hide RoutesCanonOf, ClockOffset, FamiliesOf;
    var path := "checks." + id + ".observed.";
    var cs1 := NameDiff(cs, ids, id, path, b, a);
    NameGrew(cs, ids, id, path, b, a);
    var cs2 := ResolverDiff(cs1, ids, id, path, b, a);
    ResolverGrew(cs1, ids, id, path, b, a);
    var cs3 := LinkDiff(cs2, ids, id, path, b, a);
    LinkGrew(cs2, ids, id, path, b, a);
    var cs4 := AttemptsDiff(cs3, ids, id, path, b.attempts, a.attempts);
    AttemptsGrew(cs3, ids, id, path, b.attempts, a.attempts);
    var cs5 := RoutesDiff(cs4, ids, id, path, b.routes, a.routes);
    RoutesGrew(cs4, ids, id, path, b.routes, a.routes);
    TimingGrew(cs5, id, path, b, a);
  }

  predicate SameRow(b: Check, a: Check) {
    b.status == a.status && b.cause == a.cause && b.causeFamily == a.causeFamily && b.ran == a.ran
    && Join(b.deps, ",") == Join(a.deps, ",") && DerivedOf(b) == DerivedOf(a)
  }

  lemma RowGrew(cs: seq<Change>, id: string, b: Check, a: Check)
    ensures Grew(cs, RowDiff(cs, id, b, a), SameRow(b, a))
  {
    hide Join;
  }

  lemma CheckGrew(cs: seq<Change>, ids: Identity, id: string, b: Check, a: Check)
    ensures Grew(cs, CheckDiff(cs, ids, id, b, a), CheckCanonOf(ids, b) == CheckCanonOf(ids, a))
  {
    hide RowDiff, ObservedDiff, Join, DerivedOf, ObservedOf, ObservedCanonOf;
    RowGrew(cs, id, b, a);
    ObservedGrew(RowDiff(cs, id, b, a), ids, id, ObservedOf(b), ObservedOf(a));
  }

  lemma ChecksGrew(cs: seq<Change>, ids: Identity, b: Snapshot, a: Snapshot)
    ensures Grew(cs, ChecksDiff(cs, ids, b, a), ChecksCanonOf(ids, b) == ChecksCanonOf(ids, a))
  {
    hide CheckDiff, CheckCanonOf, ByKey, Collect, MergedOrder, KeysOf, MapValues;
    var mb, ma := ChecksOf(b), ChecksOf(a);
    var one := CheckOne(ids, mb, ma);
    var f := (c: Check) => CheckCanonOf(ids, c);
    forall ds, id {:trigger one(ds, id)}
      ensures Grew(ds, one(ds, id), SameAt(mb, ma, id, f))
    {
      if id in mb && id in ma {
        CheckGrew(ds, ids, id, mb[id], ma[id]);
      }
    }
    var kb, ka := KeysOf(b.checks, CheckID), KeysOf(a.checks, CheckID);
    ByKeyKeys(b.checks, CheckID);
    ByKeyKeys(a.checks, CheckID);
    MergedOrderSwaps(kb, ka);
    KeyedGrew(cs, MergedOrder(kb, ka), one, mb, ma, f);
  }

  // ---------------------------------------------------------------- the diagnosis

  lemma CounterfactualGrew(cs: seq<Change>, ids: Identity, path: string, b: Option<Counterfactual>,
                           a: Option<Counterfactual>)
    ensures Grew(cs, CounterfactualDiff(cs, ids, path, b, a),
                 CounterfactualCanonOf(ids, b) == CounterfactualCanonOf(ids, a))
  {
  }

  lemma FindingGrew(cs: seq<Change>, ids: Identity, id: string, b: Finding, a: Finding)
    ensures Grew(cs, FindingDiff(cs, ids, id, b, a), FindingCanonOf(ids, b) == FindingCanonOf(ids, a))
  {
    hide Join, CounterfactualDiff, CounterfactualCanonOf;
    CounterfactualGrew(FindingHeadDiff(cs, ids, id, b, a), ids, "diagnosis.findings." + id + ".counterfactual",
                       b.counterfactual, a.counterfactual);
  }

  lemma FindingsGrew(cs: seq<Change>, ids: Identity, b: Snapshot, a: Snapshot)
    ensures Grew(cs, Collect(cs, FindingOrder(b, a), FindingOne(ids, FindingsOf(b), FindingsOf(a))),
                 FindingsCanonOf(ids, b) == FindingsCanonOf(ids, a))
  {
    hide FindingDiff, FindingCanonOf, ByKey, Collect, MergedOrder, KeysOf, MapValues;
    var mb, ma := FindingsOf(b), FindingsOf(a);
    var one := FindingOne(ids, mb, ma);
    var f := (x: Finding) => FindingCanonOf(ids, x);
    forall ds, id {:trigger one(ds, id)}
      ensures Grew(ds, one(ds, id), SameAt(mb, ma, id, f))
    {
      if id in mb && id in ma {
        FindingGrew(ds, ids, id, mb[id], ma[id]);
      }
    }
    var kb, ka := KeysOf(b.diagnosis.findings, FindingID), KeysOf(a.diagnosis.findings, FindingID);
    ByKeyKeys(b.diagnosis.findings, FindingID);
    ByKeyKeys(a.diagnosis.findings, FindingID);
    MergedOrderSwaps(kb, ka);
    KeyedGrew(cs, FindingOrder(b, a), one, mb, ma, f);
  }

  predicate SameHead(b: Snapshot, a: Snapshot) {
    b.ok == a.ok && b.diagnosis.verdict == a.diagnosis.verdict && b.diagnosis.blamed == a.diagnosis.blamed
    && b.diagnosis.failedStage == a.diagnosis.failedStage
       && Primary(b.diagnosis.findings) == Primary(a.diagnosis.findings)
  }

  lemma HeadGrew(cs: seq<Change>, b: Snapshot, a: Snapshot)
    ensures Grew(cs, DiagnosisHeadDiff(cs, b, a), SameHead(b, a))
  {
    hide Primary;
  }

  lemma TargetGrew(cs: seq<Change>, b: Option<Target>, a: Option<Target>)
    ensures Grew(cs, TargetDiff(cs, b, a), b == a)
  {
  }

  lemma OptionsGrew(cs: seq<Change>, ids: Identity, b: Options, a: Options)
    ensures Grew(cs, OptionsDiff(cs, ids, b, a), OptionsCanonOf(ids, b) == OptionsCanonOf(ids, a))
  {
    hide SortedList, SourceOf;
  }

  lemma PathsGrew(cs: seq<Change>, ids: Identity, b: Snapshot, a: Snapshot)
    ensures Grew(cs, PathsDiff(cs, ids, b, a), PathsCanonOf(ids, b) == PathsCanonOf(ids, a))
  {
    hide PathsOf;
  }

  // ---------------------------------------------------------------- the theorem

  /** Two snapshots show no change exactly when their projections are equal. */
  lemma NoChangeIsEqualProjection(ids: Identity, b: Snapshot, a: Snapshot)
    ensures SnapshotsDiff(ids, b, a) == [] <==> CanonOf(ids, b) == CanonOf(ids, a)
  {
    hide TargetDiff, ToolDiff, OptionsDiff, DiagnosisHeadDiff, PathsDiff, ChecksDiff, FindingOrder, FindingOne, Collect;
    hide OptionsCanonOf, FindingsCanonOf, PathsCanonOf, ChecksCanonOf, Primary;
    var cs1 := TargetDiff([], b.target, a.target);
    TargetGrew([], b.target, a.target);
    var cs2 := ToolDiff(cs1, b.tool, a.tool);
    ToolGrew(cs1, b.tool, a.tool);
    var cs3 := OptionsDiff(cs2, ids, b.options, a.options);
    OptionsGrew(cs2, ids, b.options, a.options);
    HeadGrew(cs3, b, a);
    var cs4 := DiagnosisDiff(cs3, ids, b, a);
    FindingsGrew(DiagnosisHeadDiff(cs3, b, a), ids, b, a);
    var cs5 := PathsDiff(cs4, ids, b, a);
    PathsGrew(cs4, ids, b, a);
    ChecksGrew(cs5, ids, b, a);
  }

  lemma ToolGrew(cs: seq<Change>, b: Tool, a: Tool)
    ensures Grew(cs, ToolDiff(cs, b, a), b == a)
  {
  }

  predicate Same(ids: Identity, b: Snapshot, a: Snapshot) { SnapshotsDiff(ids, b, a) == [] }

  /** So "the same" is reflexive, symmetric and transitive. */
  lemma SameIsAnEquivalence(ids: Identity, x: Snapshot, y: Snapshot, z: Snapshot)
    ensures Same(ids, x, x)
    ensures Same(ids, x, y) ==> Same(ids, y, x)
    ensures Same(ids, x, y) && Same(ids, y, z) ==> Same(ids, x, z)
  {
    hide SnapshotsDiff, CanonOf;
    NoChangeIsEqualProjection(ids, x, x);
    NoChangeIsEqualProjection(ids, x, y);
    NoChangeIsEqualProjection(ids, y, x);
    NoChangeIsEqualProjection(ids, y, z);
    NoChangeIsEqualProjection(ids, x, z);
  }

  // ---------------------------------------------------------------- what the projection forgets

  /** What a list of attempts says: which addresses were tried, and what each try said. */
  function AttemptPairs(ids: Identity, attempts: seq<Attempt>): set<(string, (string, string, bool))> {
    set i | 0 <= i < |attempts| :: (ids.address(attempts[i].ip), OutcomeOf(attempts[i]))
  }

  predicate Said(ids: Identity, attempts: seq<Attempt>, ip: string, o: (string, string, bool)) {
    ip in AttemptsCanonOf(ids, attempts) && o in AttemptsCanonOf(ids, attempts)[ip]
  }

  lemma {:induction false} SaidIsPairs(ids: Identity, attempts: seq<Attempt>, ip: string, o: (string, string, bool))
    ensures Said(ids, attempts, ip, o) <==> (ip, o) in AttemptPairs(ids, attempts)
  {
    if attempts != [] {
      var n := |attempts| - 1;
      var rest, last := attempts[..n], attempts[n];
      SaidIsPairs(ids, rest, ip, o);
      PairsGrow(ids, attempts, ip, o);
      var before, group := AttemptsOf(ids, rest), AttemptsOf(ids, attempts);
      if ip == ids.address(last.ip) {
        var earlier := if ip in before then before[ip] else [];
        assert group[ip] == earlier + [last];
        OutcomesGrow(earlier, last, o);
      } else {
        assert ip in group <==> ip in before;
        assert ip in group ==> group[ip] == before[ip];
      }
    }
  }

  lemma PairsGrow(ids: Identity, attempts: seq<Attempt>, ip: string, o: (string, string, bool))
    requires attempts != []
    ensures (ip, o) in AttemptPairs(ids, attempts)
       <==> (ip, o) in AttemptPairs(ids, attempts[..|attempts| - 1])
            || (ip == ids.address(attempts[|attempts| - 1].ip) && o == OutcomeOf(attempts[|attempts| - 1]))
  {
    var n := |attempts| - 1;
    if (ip, o) in AttemptPairs(ids, attempts[..n]) {
      var i :| 0 <= i < n && (ip, o) == (ids.address(attempts[..n][i].ip), OutcomeOf(attempts[..n][i]));
      assert attempts[..n][i] == attempts[i];
    }
    if (ip, o) in AttemptPairs(ids, attempts) {
      var i :| 0 <= i <= n && (ip, o) == (ids.address(attempts[i].ip), OutcomeOf(attempts[i]));
      assert i < n ==> attempts[..n][i] == attempts[i];
    }
  }

  lemma OutcomesGrow(before: seq<Attempt>, last: Attempt, o: (string, string, bool))
    ensures o in OutcomesOf(before + [last]) <==> o in OutcomesOf(before) || o == OutcomeOf(last)
  {
    var all := before + [last];
    if o in OutcomesOf(before) {
      var i :| 0 <= i < |before| && o == OutcomeOf(before[i]);
      assert all[i] == before[i];
    }
    assert all[|before|] == last;
  }

  /** Attempts are compared as the set of what was said of each address: order and repetition are forgotten. */
  lemma AttemptsAreASet(ids: Identity, b: seq<Attempt>, a: seq<Attempt>)
    ensures AttemptsCanonOf(ids, b) == AttemptsCanonOf(ids, a) <==> AttemptPairs(ids, b) == AttemptPairs(ids, a)
  {
    hide AttemptsCanonOf, AttemptPairs;
    var cb, ca := AttemptsCanonOf(ids, b), AttemptsCanonOf(ids, a);
    forall ip, o
      ensures Said(ids, b, ip, o) <==> (ip, o) in AttemptPairs(ids, b)
      ensures Said(ids, a, ip, o) <==> (ip, o) in AttemptPairs(ids, a)
    {
      SaidIsPairs(ids, b, ip, o);
      SaidIsPairs(ids, a, ip, o);
    }
    if cb == ca {
      assert forall p :: p in AttemptPairs(ids, b) <==> Said(ids, b, p.0, p.1);
      assert forall p :: p in AttemptPairs(ids, a) <==> Said(ids, a, p.0, p.1);
      assert AttemptPairs(ids, b) == AttemptPairs(ids, a);
    }
    if AttemptPairs(ids, b) == AttemptPairs(ids, a) {
      assert forall ip, o :: Said(ids, b, ip, o) <==> Said(ids, a, ip, o);
      GroupsAreNotEmpty(ids, b);
      GroupsAreNotEmpty(ids, a);
      forall ip
        ensures ip in cb <==> ip in ca
        ensures ip in cb && ip in ca ==> cb[ip] == ca[ip]
      {
        if ip in cb {
          var o :| o in cb[ip];
          assert Said(ids, b, ip, o);
        }
        if ip in ca {
          var o :| o in ca[ip];
          assert Said(ids, a, ip, o);
        }
        if ip in cb && ip in ca {
          assert forall o :: o in cb[ip] <==> Said(ids, b, ip, o);
          assert forall o :: o in ca[ip] <==> Said(ids, a, ip, o);
        }
      }
    }
  }

  lemma GroupsAreNotEmpty(ids: Identity, attempts: seq<Attempt>)
    ensures forall ip :: ip in AttemptsCanonOf(ids, attempts) ==> AttemptsCanonOf(ids, attempts)[ip] != {}
  {
    var groups := AttemptsOf(ids, attempts);
    forall ip | ip in groups
      ensures OutcomesOf(groups[ip]) != {}
    {
      assert OutcomeOf(groups[ip][0]) in OutcomesOf(groups[ip]);
    }
  }

  /**
    Another run's record of the same readings: other prose and durations, the answers in any
    order and spelling, the attempts in any order and repeated any number of times.
   */
  predicate RetoldObserved(ids: Identity, b: Observed, a: Observed) {
    && a == b.(addresses := a.addresses, resolverTargets := a.resolverTargets, attempts := a.attempts)
    && KeySet(b.addresses, ids.address) == KeySet(a.addresses, ids.address)
    && KeySet(b.resolverTargets, ids.endpoint) == KeySet(a.resolverTargets, ids.endpoint)
    && AttemptPairs(ids, b.attempts) == AttemptPairs(ids, a.attempts)
  }

  predicate RetoldCheck(ids: Identity, b: Check, a: Check) {
    && a == b.(name := a.name, detail := a.detail, fix := a.fix, durationMs := a.durationMs, observed := a.observed)
    && b.observed.Some? == a.observed.Some?
    && (b.observed.Some? ==> RetoldObserved(ids, b.observed.value, a.observed.value))
  }

  predicate Retold(ids: Identity, b: Snapshot, a: Snapshot) {
    && b.tool == a.tool && b.target == a.target && b.options == a.options && b.ok == a.ok
    && a.diagnosis == b.diagnosis.(summary := a.diagnosis.summary, findings := a.diagnosis.findings)
    && |b.diagnosis.findings| == |a.diagnosis.findings|
    && (forall i :: 0 <= i < |b.diagnosis.findings| ==>
         a.diagnosis.findings[i] == b.diagnosis.findings[i].(summary := a.diagnosis.findings[i].summary))
    && |b.checks| == |a.checks|
    && (forall i :: 0 <= i < |b.checks| ==> RetoldCheck(ids, b.checks[i], a.checks[i]))
  }

  /** None of that is a change. */
  lemma RetellingIsNoChange(ids: Identity, b: Snapshot, a: Snapshot)
    requires Retold(ids, b, a)
    ensures SnapshotsDiff(ids, b, a) == []
  {
    hide SnapshotsDiff, FindingsCanonOf, ChecksCanonOf, PathsOf, OptionsCanonOf, RetoldCheck;
    NoChangeIsEqualProjection(ids, b, a);
    RetoldFindings(ids, b, a);
    RetoldChecks(ids, b, a);
    RetoldPaths(ids, b, a);
  }

  lemma RetoldFindings(ids: Identity, b: Snapshot, a: Snapshot)
    requires Retold(ids, b, a)
    ensures FindingsCanonOf(ids, b) == FindingsCanonOf(ids, a)
  {
    hide ByKey, RetoldCheck, FindingCanonOf;
    var alike := (x: Finding, y: Finding) => FindingCanonOf(ids, x) == FindingCanonOf(ids, y);
    forall i | 0 <= i < |b.diagnosis.findings|
      ensures alike(b.diagnosis.findings[i], a.diagnosis.findings[i])
    {
      SummaryIsNotRead(ids, b.diagnosis.findings[i], a.diagnosis.findings[i].summary);
    }
    IndexesRelate(b.diagnosis.findings, a.diagnosis.findings, FindingID, alike);
    assert FindingsOf(b).Keys == FindingsOf(a).Keys;
  }

  lemma SummaryIsNotRead(ids: Identity, f: Finding, summary: string)
    ensures FindingCanonOf(ids, f.(summary := summary)) == FindingCanonOf(ids, f)
  {
  }

  lemma RetoldRows(ids: Identity, b: Snapshot, a: Snapshot)
    requires Retold(ids, b, a)
    ensures ChecksOf(b).Keys == ChecksOf(a).Keys
    ensures forall id :: id in ChecksOf(b) ==> RetoldCheck(ids, ChecksOf(b)[id], ChecksOf(a)[id])
  {
    hide ByKey, RetoldObserved;
    IndexesRelate(b.checks, a.checks, CheckID, (x: Check, y: Check) => RetoldCheck(ids, x, y));
  }

  lemma RetoldChecks(ids: Identity, b: Snapshot, a: Snapshot)
    requires Retold(ids, b, a)
    ensures ChecksCanonOf(ids, b) == ChecksCanonOf(ids, a)
  {
    hide CheckCanonOf, ChecksOf, Retold, RetoldCheck;
    RetoldRows(ids, b, a);
    forall id | id in ChecksOf(b)
      ensures CheckCanonOf(ids, ChecksOf(b)[id]) == CheckCanonOf(ids, ChecksOf(a)[id])
    {
      RetoldCheckCanon(ids, ChecksOf(b)[id], ChecksOf(a)[id]);
    }
  }

  lemma RetoldPaths(ids: Identity, b: Snapshot, a: Snapshot)
    requires Retold(ids, b, a)
    ensures PathsOf(ids, b) == PathsOf(ids, a)
  {
    hide ChecksOf, Retold, PathsFrom, RouteFor, KeySet, AttemptPairs;
    RetoldRows(ids, b, a);
    var cb, ca := ChecksOf(b), ChecksOf(a);
    assert SelectedRoute(ids, Lookup(cb, "target_tcp")) == SelectedRoute(ids, Lookup(ca, "target_tcp"));
    assert FirstRoute(Lookup(cb, "iface")) == FirstRoute(Lookup(ca, "iface"));
    assert "dns" in cb ==> ObservedOf(cb["dns"]).routes == ObservedOf(ca["dns"]).routes;
  }

  lemma RetoldCheckCanon(ids: Identity, b: Check, a: Check)
    requires RetoldCheck(ids, b, a)
    ensures CheckCanonOf(ids, b) == CheckCanonOf(ids, a)
  {
    hide KeySet, AttemptPairs, AttemptsCanonOf, RoutesCanonOf, ClockOffset, Join;
    AttemptsAreASet(ids, ObservedOf(b).attempts, ObservedOf(a).attempts);
  }

  lemma {:induction false} IndexesRelate<T>(b: seq<T>, a: seq<T>, key: T -> string, related: (T, T) -> bool)
    requires |b| == |a| && forall i :: 0 <= i < |b| ==> related(b[i], a[i]) && key(b[i]) == key(a[i])
    ensures forall k :: k in ByKey(b, key) <==> k in ByKey(a, key)
    ensures forall k :: k in ByKey(b, key) ==> related(ByKey(b, key)[k], ByKey(a, key)[k])
  {
    if b != [] {
      IndexesRelate(b[..|b| - 1], a[..|a| - 1], key, related);
    }
  }
}
