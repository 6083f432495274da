/**
  Swapping the two snapshots mirrors the comparison: the same differences are recorded, each
  seen from the other side.

  Paths are left out, because they name the earlier side's spellings.

  Every rule is shown to add to the count of a change what the same rule, read from the other
  side, adds to the count of its mirror image; so the two lists agree as multisets, in whatever
  order each was recorded.
 */
module CompareMirror {
  import opened Wrappers
  import opened Text
  import opened Ordering
  import opened Snapshots
  import opened Changes
  import opened Keyed
  import opened Compare

  /** Going from `cs` to `r` recorded as many of a core as going from `cs'` to `r'` did of its mirror image. */
  ghost predicate Mirrors(cs: seq<Change>, r: seq<Change>, cs': seq<Change>, r': seq<Change>, c: Core) {
    Count(cs, c) <= Count(r, c) && Count(r, c) - Count(cs, c) == Count(r', Flip(c)) - Count(cs', Flip(c))
  }

  // ---------------------------------------------------------------- keyed collections

  ghost predicate MirrorsPerKey(one: (seq<Change>, string) -> seq<Change>, one': (seq<Change>, string) -> seq<Change>,
                                c: Core) {
    forall cs, cs', k {:trigger one(cs, k), one'(cs', k)} :: Mirrors(cs, one(cs, k), cs', one'(cs', k), c)
  }

  /** The order the keys are visited in does not matter. */
  lemma CollectMirrors(cs: seq<Change>, order: seq<string>, one: (seq<Change>, string) -> seq<Change>,
                       cs': seq<Change>, order': seq<string>, one': (seq<Change>, string) -> seq<Change>, c: Core)
    requires multiset(order) == multiset(order') && MirrorsPerKey(one, one', c)
    ensures Mirrors(cs, Collect(cs, order, one), cs', Collect(cs', order', one'), c)
  {
    var w: string -> nat := (k: string) => Count(one([], k), c);
    var w': string -> nat := (k: string) => Count(one'([], k), Flip(c));
    forall ds, k {:trigger one(ds, k)}
      ensures Count(one(ds, k), c) == Count(ds, c) + w(k)
    {
      assert Mirrors(ds, one(ds, k), [], one'([], k), c);
      assert Mirrors([], one([], k), [], one'([], k), c);
    }
    forall ds, k {:trigger one'(ds, k)}
      ensures Count(one'(ds, k), Flip(c)) == Count(ds, Flip(c)) + w'(k)
    {
      assert Mirrors([], one([], k), ds, one'(ds, k), c);
      assert Mirrors([], one([], k), [], one'([], k), c);
    }
    forall k
      ensures w(k) == w'(k)
    {
      assert Mirrors([], one([], k), [], one'([], k), c);
    }
    CollectCount(cs, order, one, w, c);
    CollectCount(cs', order', one', w', Flip(c));
    SumByPermutes(order, order', w, w');
  }

  // ---------------------------------------------------------------- straight-line rules

  lemma TargetMirrors(cs: seq<Change>, cs': seq<Change>, b: Option<Target>, a: Option<Target>, c: Core)
    ensures Mirrors(cs, TargetDiff(cs, b, a), cs', TargetDiff(cs', a, b), c)
  {
    hide Count, FieldHit, Field, Str, YesNo, IdentityField, KindOf, Flip;
    HitsFlip(c);
  }

  lemma ToolMirrors(cs: seq<Change>, cs': seq<Change>, b: Tool, a: Tool, c: Core)
    ensures Mirrors(cs, ToolDiff(cs, b, a), cs', ToolDiff(cs', a, b), c)
  {
    hide Count, FieldHit, Field, Str, YesNo, IdentityField, KindOf, Flip;
    HitsFlip(c);
  }

  lemma OptionsMirror(cs: seq<Change>, cs': seq<Change>, ids: Identity, b: Options, a: Options, c: Core)
    ensures Mirrors(cs, OptionsDiff(cs, ids, b, a), cs', OptionsDiff(cs', ids, a, b), c)
  {
    hide Count, FieldHit, Field, Str, YesNo, IdentityField, KindOf, Flip, SortedList, SourceOf;
    HitsFlip(c);
  }

  lemma HeadMirrors(cs: seq<Change>, cs': seq<Change>, b: Snapshot, a: Snapshot, c: Core)
    ensures Mirrors(cs, DiagnosisHeadDiff(cs, b, a), cs', DiagnosisHeadDiff(cs', a, b), c)
  {
    hide Count, FieldHit, Field, Str, YesNo, IdentityField, KindOf, RankedHit, Flip;
    HitsFlip(c);
  }

  lemma PathsMirror(cs: seq<Change>, cs': seq<Change>, ids: Identity, b: Snapshot, a: Snapshot, c: Core)
    ensures Mirrors(cs, PathsDiff(cs, ids, b, a), cs', PathsDiff(cs', ids, a, b), c)
  {
    hide Count, FieldHit, Field, Str, YesNo, IdentityField, KindOf, Flip, PathsOf;
    HitsFlip(c);
  }

  // ---------------------------------------------------------------- findings

  lemma CounterfactualMirrors(cs: seq<Change>, cs': seq<Change>, ids: Identity, path: string,
                              b: Option<Counterfactual>, a: Option<Counterfactual>, c: Core)
    ensures Mirrors(cs, CounterfactualDiff(cs, ids, path, b, a), cs', CounterfactualDiff(cs', ids, path, a, b), c)
  {
    hide Count, FieldHit, Field, Str, YesNo, IdentityField, KindOf, Flip, AlternativesKey;
    HitsFlip(c);
  }

  lemma FindingMirrors(cs: seq<Change>, cs': seq<Change>, ids: Identity, id: string, b: Finding, a: Finding, c: Core)
    ensures Mirrors(cs, FindingDiff(cs, ids, id, b, a), cs', FindingDiff(cs', ids, id, a, b), c)
  {
    hide Count, FieldHit, Field, Str, YesNo, IdentityField, KindOf, Flip, EvidenceKey, Join, CounterfactualDiff;
    HitsFlip(c);
    var path := "diagnosis.findings." + id;
    var ds := FindingHeadDiff(cs, ids, id, b, a);
    var ds' := FindingHeadDiff(cs', ids, id, a, b);
    CounterfactualMirrors(ds, ds', ids, path + ".counterfactual", b.counterfactual, a.counterfactual, c);
  }

  lemma FindingsMirror(cs: seq<Change>, cs': seq<Change>, ids: Identity, b: Snapshot, a: Snapshot, c: Core)
    ensures Mirrors(cs, Collect(cs, FindingOrder(b, a), FindingOne(ids, FindingsOf(b), FindingsOf(a))),
                    cs', Collect(cs', FindingOrder(a, b), FindingOne(ids, FindingsOf(a), FindingsOf(b))), c)
  {
    hide Count, MemberHit, Flip, FindingDiff, FindingsOf, Collect, MergedOrder, KeysOf;
    var mb, ma := FindingsOf(b), FindingsOf(a);
    var one, one' := FindingOne(ids, mb, ma), FindingOne(ids, ma, mb);
    HitsFlip(c);
    forall ds, ds', id {:trigger one(ds, id), one'(ds', id)}
      ensures Mirrors(ds, one(ds, id), ds', one'(ds', id), c)
    {
      if id in mb && id in ma {
        FindingMirrors(ds, ds', ids, id, mb[id], ma[id], c);
      }
    }
    MergedOrderSwaps(KeysOf(b.diagnosis.findings, FindingID), KeysOf(a.diagnosis.findings, FindingID));
    CollectMirrors(cs, FindingOrder(b, a), one, cs', FindingOrder(a, b), one', c);
  }

  // ---------------------------------------------------------------- sets, attempts, routes

  lemma SetMirrors(cs: seq<Change>, cs': seq<Change>, id: string, path: string, key: string -> string, b: seq<string>,
                   a: seq<string>, c: Core)
    ensures Mirrors(cs, SetDiff(cs, id, path, key, b, a), cs', SetDiff(cs', id, path, key, a, b), c)
  {
    hide Count, MemberHit, Flip, Recorded, Collect, SetOrder;
    var mb, ma := Recorded(b, key), Recorded(a, key);
    var one, one' := SetOne(id, path, mb, ma), SetOne(id, path, ma, mb);
    HitsFlip(c);
    forall ds, ds', v {:trigger one(ds, v), one'(ds', v)}
      ensures Mirrors(ds, one(ds, v), ds', one'(ds', v), c)
    {
    }
    SetOrderSwaps(b, a, key);
    CollectMirrors(cs, SetOrder(b, a, key), one, cs', SetOrder(a, b, key), one', c);
  }

  lemma SetOrderSwaps(b: seq<string>, a: seq<string>, key: string -> string)
    ensures SetOrder(b, a, key) == SetOrder(a, b, key)
  {
    hide KeysOf, SortedSet, TextLE;
    TextOrder();
    SortedSetIsSet(KeysOf(b, key) + KeysOf(a, key), KeysOf(a, key) + KeysOf(b, key), TextLE);
  }

  lemma AttemptMirrors(cs: seq<Change>, cs': seq<Change>, id: string, path: string, b: seq<Attempt>, a: seq<Attempt>,
                       c: Core)
    requires b != [] && a != []
    ensures Mirrors(cs, AttemptDiff(cs, id, path, b, a), cs', AttemptDiff(cs', id, path, a, b), c)
  {
    hide Count, FieldHit, Field, Str, YesNo, IdentityField, KindOf, Flip, OutcomesOf;
    HitsFlip(c);
  }

  lemma AttemptsMirror(cs: seq<Change>, cs': seq<Change>, ids: Identity, id: string, path: string, b: seq<Attempt>,
                       a: seq<Attempt>, c: Core)
    ensures Mirrors(cs, AttemptsDiff(cs, ids, id, path, b, a), cs', AttemptsDiff(cs', ids, id, path, a, b), c)
  {
    hide Count, MemberHit, Flip, AttemptDiff, AttemptsOf, Collect, MergedOrder, KeysOf;
    var mb, ma := AttemptsOf(ids, b), AttemptsOf(ids, a);
    var one, one' := AttemptOne(id, path, mb, ma), AttemptOne(id, path, ma, mb);
    HitsFlip(c);
    forall ds, ds', ip {:trigger one(ds, ip), one'(ds', ip)}
      ensures Mirrors(ds, one(ds, ip), ds', one'(ds', ip), c)
    {
      if ip in mb && ip in ma {
        AttemptMirrors(ds, ds', id, path, mb[ip], ma[ip], c);
      }
    }
    var kb, ka := KeysOf(b, AttemptKey(ids)), KeysOf(a, AttemptKey(ids));
    MergedOrderSwaps(kb, ka);
    CollectMirrors(cs, MergedOrder(kb, ka), one, cs', MergedOrder(ka, kb), one', c);
  }

  lemma HopMirrors(cs: seq<Change>, cs': seq<Change>, ids: Identity, id: string, path: string, b: Route, a: Route,
                   c: Core)
    ensures Mirrors(cs, RouteHopDiff(cs, ids, id, path, b, a), cs', RouteHopDiff(cs', ids, id, path, a, b), c)
  {
    hide Count, FieldHit, Field, Str, YesNo, IdentityField, KindOf, Flip;
    HitsFlip(c);
  }

  lemma EntryMirrors(cs: seq<Change>, cs': seq<Change>, id: string, path: string, b: Route, a: Route, c: Core)
    ensures Mirrors(cs, RouteEntryDiff(cs, id, path, b, a), cs', RouteEntryDiff(cs', id, path, a, b), c)
  {
    hide Count, FieldHit, Field, Str, YesNo, IdentityField, KindOf, Flip, CompetingWord;
    HitsFlip(c);
  }

  lemma RouteMirrors(cs: seq<Change>, cs': seq<Change>, ids: Identity, id: string, path: string, b: Route, a: Route,
                     c: Core)
    ensures Mirrors(cs, RouteDiff(cs, ids, id, path, b, a), cs', RouteDiff(cs', ids, id, path, a, b), c)
  {
    hide Count, RouteHopDiff, RouteEntryDiff;
    HopMirrors(cs, cs', ids, id, path, b, a, c);
    EntryMirrors(RouteHopDiff(cs, ids, id, path, b, a), RouteHopDiff(cs', ids, id, path, a, b), id, path, b, a, c);
  }

  lemma RoutesMirror(cs: seq<Change>, cs': seq<Change>, ids: Identity, id: string, path: string, b: seq<Route>,
                     a: seq<Route>, c: Core)
    ensures Mirrors(cs, RoutesDiff(cs, ids, id, path, b, a), cs', RoutesDiff(cs', ids, id, path, a, b), c)
  {
    hide Count, MemberHit, Flip, RouteDiff, RoutesOf, Collect, MergedOrder, KeysOf;
    var mb, ma := RoutesOf(ids, b), RoutesOf(ids, a);
    var one, one' := RouteOne(ids, id, path, mb, ma), RouteOne(ids, id, path, ma, mb);
    HitsFlip(c);
    forall ds, ds', dst {:trigger one(ds, dst), one'(ds', dst)}
      ensures Mirrors(ds, one(ds, dst), ds', one'(ds', dst), c)
    {
      if dst in mb && dst in ma {
        RouteMirrors(ds, ds', ids, id, path, mb[dst], ma[dst], c);
      }
    }
    var kb, ka := KeysOf(b, RouteKey(ids)), KeysOf(a, RouteKey(ids));
    MergedOrderSwaps(kb, ka);
    CollectMirrors(cs, MergedOrder(kb, ka), one, cs', MergedOrder(ka, kb), one', c);
  }

  // ---------------------------------------------------------------- one check

  lemma RowMirrors(cs: seq<Change>, cs': seq<Change>, id: string, b: Check, a: Check, c: Core)
    ensures Mirrors(cs, RowDiff(cs, id, b, a), cs', RowDiff(cs', id, a, b), c)
  {
    hide Count, FieldHit, Field, Str, YesNo, IdentityField, KindOf, RankedHit, Flip, Join, DerivedOf, DirectionOf;
    HitsFlip(c);
    DirectionFlips(b.status, a.status);
  }

  lemma DirectionFlips(before: string, after: string)
    ensures DirectionOf(after, before) == FlipDirection(DirectionOf(before, after))
  {
  }

  lemma NameMirrors(cs: seq<Change>, cs': seq<Change>, ids: Identity, id: string, path: string, b: Observed,
                    a: Observed, c: Core)
    ensures Mirrors(cs, NameDiff(cs, ids, id, path, b, a), cs', NameDiff(cs', ids, id, path, a, b), c)
  {
    hide Count, FieldHit, Field, Str, YesNo, IdentityField, KindOf, Flip, SetDiff;
    HitsFlip(c);
    var ds := Str(cs, InCheck, id, path + "dns_name_scope", b.dnsNameScope, a.dnsNameScope);
    var ds' := Str(cs', InCheck, id, path + "dns_name_scope", a.dnsNameScope, b.dnsNameScope);
    SetMirrors(ds, ds', id, path + "addresses", ids.address, b.addresses, a.addresses, c);
  }

  lemma ResolverMirrors(cs: seq<Change>, cs': seq<Change>, ids: Identity, id: string, path: string, b: Observed,
                        a: Observed, c: Core)
    ensures Mirrors(cs, ResolverDiff(cs, ids, id, path, b, a), cs', ResolverDiff(cs', ids, id, path, a, b), c)
  {
    hide Count, FieldHit, Field, Str, YesNo, IdentityField, KindOf, Flip, SetDiff;
    HitsFlip(c);
    var ds := ResolverHeadDiff(cs, ids, id, path, b, a);
    var ds' := ResolverHeadDiff(cs', ids, id, path, a, b);
    SetMirrors(ds, ds', id, path + "resolver_targets", ids.endpoint, b.resolverTargets, a.resolverTargets, c);
  }

  lemma LinkMirrors(cs: seq<Change>, cs': seq<Change>, ids: Identity, id: string, path: string, b: Observed,
                    a: Observed, c: Core)
    ensures Mirrors(cs, LinkDiff(cs, ids, id, path, b, a), cs', LinkDiff(cs', ids, id, path, a, b), c)
  {
    hide Count, FieldHit, Field, Str, YesNo, IdentityField, KindOf, Flip, FamiliesOf, PortalWord, PortalURL;
    HitsFlip(c);
  }

  lemma TimingMirrors(cs: seq<Change>, cs': seq<Change>, id: string, path: string, b: Observed, a: Observed, c: Core)
    ensures Mirrors(cs, TimingDiff(cs, id, path, b, a), cs', TimingDiff(cs', id, path, a, b), c)
  {
    hide Count, FieldHit, Field, Str, YesNo, IdentityField, KindOf, Flip, ClockOffset;
    HitsFlip(c);
  }

  lemma ObservedMirrors(cs: seq<Change>, cs': seq<Change>, ids: Identity, id: string, b: Observed, a: Observed, c: Core)
    ensures Mirrors(cs, ObservedDiff(cs, ids, id, b, a), cs', ObservedDiff(cs', ids, id, a, b), c)
  {
    hide Count, Flip, NameDiff, ResolverDiff, LinkDiff, AttemptsDiff, RoutesDiff, TimingDiff;
    var path := "checks." + id + ".observed.";
    var d1, d1' := NameDiff(cs, ids, id, path, b, a), NameDiff(cs', ids, id, path, a, b);
    NameMirrors(cs, cs', ids, id, path, b, a, c);
    var d2, d2' := ResolverDiff(d1, ids, id, path, b, a), ResolverDiff(d1', ids, id, path, a, b);
    ResolverMirrors(d1, d1', ids, id, path, b, a, c);
    var d3, d3' := LinkDiff(d2, ids, id, path, b, a), LinkDiff(d2', ids, id, path, a, b);
    LinkMirrors(d2, d2', ids, id, path, b, a, c);
    var d4, d4' := AttemptsDiff(d3, ids, id, path, b.attempts, a.attempts),
        AttemptsDiff(d3', ids, id, path, a.attempts, b.attempts);
    AttemptsMirror(d3, d3', ids, id, path, b.attempts, a.attempts, c);
    var d5, d5' := RoutesDiff(d4, ids, id, path, b.routes, a.routes),
        RoutesDiff(d4', ids, id, path, a.routes, b.routes);
    RoutesMirror(d4, d4', ids, id, path, b.routes, a.routes, c);
    TimingMirrors(d5, d5', id, path, b, a, c);
  }

  lemma CheckMirrors(cs: seq<Change>, cs': seq<Change>, ids: Identity, id: string, b: Check, a: Check, c: Core)
    ensures Mirrors(cs, CheckDiff(cs, ids, id, b, a), cs', CheckDiff(cs', ids, id, a, b), c)
  {
    hide Count, Flip, RowDiff, ObservedDiff, ObservedOf;
    RowMirrors(cs, cs', id, b, a, c);
    ObservedMirrors(RowDiff(cs, id, b, a), RowDiff(cs', id, a, b), ids, id, ObservedOf(b), ObservedOf(a), c);
  }

  lemma ChecksMirror(cs: seq<Change>, cs': seq<Change>, ids: Identity, b: Snapshot, a: Snapshot, c: Core)
    ensures Mirrors(cs, ChecksDiff(cs, ids, b, a), cs', ChecksDiff(cs', ids, a, b), c)
  {
    hide Count, MemberHit, Flip, CheckDiff, ChecksOf, Collect, MergedOrder, KeysOf;
    var mb, ma := ChecksOf(b), ChecksOf(a);
    var one, one' := CheckOne(ids, mb, ma), CheckOne(ids, ma, mb);
    HitsFlip(c);
    forall ds, ds', id {:trigger one(ds, id), one'(ds', id)}
      ensures Mirrors(ds, one(ds, id), ds', one'(ds', id), c)
    {
      if id in mb && id in ma {
        CheckMirrors(ds, ds', ids, id, mb[id], ma[id], c);
      }
    }
    MergedOrderSwaps(KeysOf(b.checks, CheckID), KeysOf(a.checks, CheckID));
    CollectMirrors(cs, CheckOrder(b.checks, a.checks), one, cs', CheckOrder(a.checks, b.checks), one', c);
  }

  // ---------------------------------------------------------------- the theorem

  lemma DiffMirrors(ids: Identity, b: Snapshot, a: Snapshot, c: Core)
    ensures Count(SnapshotsDiff(ids, b, a), c) == Count(SnapshotsDiff(ids, a, b), Flip(c))
  {
    hide Flip, TargetDiff, ToolDiff, OptionsDiff, DiagnosisHeadDiff, FindingOne, FindingOrder, Collect;
    hide PathsDiff, ChecksDiff;
    var d1, d1' := TargetDiff([], b.target, a.target), TargetDiff([], a.target, b.target);
    TargetMirrors([], [], b.target, a.target, c);
    var d2, d2' := ToolDiff(d1, b.tool, a.tool), ToolDiff(d1', a.tool, b.tool);
    ToolMirrors(d1, d1', b.tool, a.tool, c);
    var d3, d3' := OptionsDiff(d2, ids, b.options, a.options), OptionsDiff(d2', ids, a.options, b.options);
    OptionsMirror(d2, d2', ids, b.options, a.options, c);
    HeadMirrors(d3, d3', b, a, c);
    FindingsMirror(DiagnosisHeadDiff(d3, b, a), DiagnosisHeadDiff(d3', a, b), ids, b, a, c);
    var d4, d4' := DiagnosisDiff(d3, ids, b, a), DiagnosisDiff(d3', ids, a, b);
    PathsMirror(d4, d4', ids, b, a, c);
    ChecksMirror(PathsDiff(d4, ids, b, a), PathsDiff(d4', ids, a, b), ids, b, a, c);
  }

  /** The two comparisons record the same differences, as multisets, each mirrored. */
  lemma SwappingMirrors(ids: Identity, b: Snapshot, a: Snapshot)
    ensures multiset(Cores(SnapshotsDiff(ids, b, a))) == multiset(Mirrored(SnapshotsDiff(ids, a, b)))
  {
    hide SnapshotsDiff;
    var d, d' := SnapshotsDiff(ids, b, a), SnapshotsDiff(ids, a, b);
    forall c: Core
      ensures multiset(Cores(d))[c] == multiset(Mirrored(d'))[c]
    {
      DiffMirrors(ids, b, a, c);
      CountIsMultiplicity(d, c);
      MirroredMultiplicity(d', Flip(c));
      FlipIsInjective(c, c);
    }
  }
}
