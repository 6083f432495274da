/** Two snapshots of one target read as two vantage points on it. */
module TwoSided {
  import opened Wrappers
  import opened Ordering
  import opened Snapshots
  import opened Keyed
  import opened Compare
  import opened Evidence

  // ---------------------------------------------------------------- one endpoint or two

  function FoldChar(c: char): char { if 'A' <= c <= 'Z' then c + ('a' - 'A') else c }

  function FoldText(s: string): string { seq(|s|, i requires 0 <= i < |s| => FoldChar(s[i])) }

  function TrimRootDot(host: string): string {
    if host != "" && host[|host| - 1] == '.' then host[..|host| - 1] else host
  }

  predicate SameEndpointName(net: Net, a: string, b: string) {
    if net.parse(a).Some? && net.parse(b).Some? then net.parse(a) == net.parse(b)
    else FoldText(TrimRootDot(a)) == FoldText(TrimRootDot(b))
  }

  /** It is an equivalence among addresses and among names. */
  lemma NameEquivalence(net: Net, a: string, b: string, c: string)
    ensures SameEndpointName(net, a, a)
    ensures SameEndpointName(net, a, b) <==> SameEndpointName(net, b, a)
    ensures net.parse(a).Some? == net.parse(b).Some? == net.parse(c).Some? && SameEndpointName(net, a, b)
            && SameEndpointName(net, b, c)
            ==> SameEndpointName(net, a, c)
  {
  }

  /**
    Across the two kinds it is not, exactly when the spelling in the middle hides a difference:
    between two addresses that a mere name is spelled like, or between an address and a name that
    an address joins.
   */
  lemma NamesBreakExactlyWhen(net: Net, a: string, b: string, c: string)
    requires SameEndpointName(net, a, b) && SameEndpointName(net, b, c)
    ensures !SameEndpointName(net, a, c) <==>
            || (net.parse(b).None? && net.parse(a).Some? && net.parse(c).Some? && net.parse(a) != net.parse(c))
            || (net.parse(b).Some? && net.parse(a).Some? != net.parse(c).Some?
                && FoldText(TrimRootDot(a)) != FoldText(TrimRootDot(c)))
  {
  }

  /** Which happens wherever two spellings of an address parse alike and one of them, dotted, does not parse. */
  lemma NameIsNotTransitive(net: Net)
    requires net.parse("0:0::1") == net.parse("::1") && net.parse("::1").Some? && net.parse("::1.").None?
    ensures SameEndpointName(net, "0:0::1", "::1") && SameEndpointName(net, "::1", "::1.")
    ensures !SameEndpointName(net, "0:0::1", "::1.")
  {
    assert "::1."[..3] == "::1";
    assert |FoldText(TrimRootDot("0:0::1"))| != |FoldText(TrimRootDot("::1."))|;
  }

  datatype TargetRelation = TargetsDifferent | TargetsSame | TargetsUnknown

  /** The dimensions redaction leaves alone. */
  predicate SamePlainTarget(b: Target, a: Target) {
    b.port == a.port && b.protocol == a.protocol && (b.ip == "") == (a.ip == "")
  }

  function TargetRelationOf(net: Net, a: Snapshot, b: Snapshot): TargetRelation {
    match (a.target, b.target)
    case (None, None) => TargetsSame
    case (None, Some(_)) => TargetsDifferent
    case (Some(_), None) => TargetsDifferent
    case (Some(x), Some(y)) =>
      if !SamePlainTarget(x, y) then TargetsDifferent
      else if a.sanitized || b.sanitized then TargetsUnknown
      else if SameEndpointName(net, x.host, y.host) && SameEndpointName(net, x.ip, y.ip) then TargetsSame
      else TargetsDifferent
  }

  // ---------------------------------------------------------------- rows

  datatype SideRow = SideRow(id: string, a: string, b: string, comparable: bool, evidence: seq<EvidenceComparison>)

  predicate Measured(status: string) { status in {STATUS_PASS, STATUS_WARN, STATUS_FAIL} }

  predicate Failed(status: string) { status == STATUS_FAIL }

  function StatusOf(m: map<string, Check>, id: string): string { if id in m then m[id].status else "" }

  predicate Comparable(byA: map<string, Check>, byB: map<string, Check>, id: string) {
    id in byA && id in byB && Measured(byA[id].status) && Measured(byB[id].status)
  }

  function RowFor(net: Net, byA: map<string, Check>, byB: map<string, Check>, redacted: bool, id: string): SideRow {
    SideRow(id, StatusOf(byA, id), StatusOf(byB, id), Comparable(byA, byB, id),
            if Comparable(byA, byB, id) then CheckEvidenceOf(net, byA[id], byB[id], redacted) else [])
  }

  function SideOrder(a: seq<Check>, b: seq<Check>): seq<string> { MergedOrder(KeysOf(b, CheckID), KeysOf(a, CheckID)) }

  function RowsFor(net: Net, byA: map<string, Check>, byB: map<string, Check>, redacted: bool,
                   order: seq<string>): seq<SideRow> {
    seq(|order|, i requires 0 <= i < |order| => RowFor(net, byA, byB, redacted, order[i]))
  }

  function SideRowsOf(net: Net, a: seq<Check>, b: seq<Check>, redacted: bool): seq<SideRow> {
    RowsFor(net, ByKey(a, CheckID), ByKey(b, CheckID), redacted, SideOrder(a, b))
  }

  method SideRows(net: Net, a: seq<Check>, b: seq<Check>, redacted: bool) returns (rows: seq<SideRow>)
    ensures rows == SideRowsOf(net, a, b, redacted)
  {
    hide CheckEvidenceOf, ByKey, MergedOrder, KeysOf;
    var byA := IndexByKey(a, CheckID);
    var byB := IndexByKey(b, CheckID);
    var order := MergeOrders(KeysOf(b, CheckID), KeysOf(a, CheckID));
    rows := [];
    for i := 0 to |order|
      invariant |rows| == i && forall k :: 0 <= k < i ==> rows[k] == RowFor(net, byA, byB, redacted, order[k])
    {
      var id := order[i];
      var row := SideRow(id, StatusOf(byA, id), StatusOf(byB, id), Comparable(byA, byB, id), []);
      if row.comparable {
        var evidence := CheckEvidence(net, byA[id], byB[id], redacted);
        row := row.(evidence := evidence);
      }
      rows := rows + [row];
    }
  }

  // ---------------------------------------------------------------- placement

  datatype Side = SideNone | SideA | SideB | SideShared | SideBoth | SideUnknown

  datatype FindingID =
    | NoFailure | OneSideFails | OneSideFailsMore
    | SharedFailure | DivergentFailures | NoComparableChecks

  datatype Localization = Localization(id: FindingID, side: Side, evidence: seq<string>, ambiguous: bool)

  predicate FailsOnA(r: SideRow) { r.comparable && Failed(r.a) && !Failed(r.b) }

  predicate FailsOnB(r: SideRow) { r.comparable && !Failed(r.a) && Failed(r.b) }

  predicate FailsOnBoth(r: SideRow) { r.comparable && Failed(r.a) && Failed(r.b) }

  predicate FailsSomewhere(r: SideRow) { r.comparable && (Failed(r.a) || Failed(r.b)) }

  function IDsWhere(rows: seq<SideRow>, p: SideRow -> bool): seq<string> {
    if rows == [] then []
    else IDsWhere(rows[..|rows| - 1], p) + (if p(rows[|rows| - 1]) then [rows[|rows| - 1].id] else [])
  }

  predicate Any(rows: seq<SideRow>, p: SideRow -> bool) { exists i :: 0 <= i < |rows| && p(rows[i]) }

  lemma {:induction false} IDsWhereMembers(rows: seq<SideRow>, p: SideRow -> bool)
    ensures IDsWhere(rows, p) != [] <==> Any(rows, p)
    ensures forall id :: id in IDsWhere(rows, p) <==> exists i :: 0 <= i < |rows| && p(rows[i]) && rows[i].id == id
  {
    if rows != [] {
      var n := |rows| - 1;
      IDsWhereMembers(rows[..n], p);
      forall id
        ensures id in IDsWhere(rows, p) <==> exists i :: 0 <= i < |rows| && p(rows[i]) && rows[i].id == id
      {
        if i :| 0 <= i < |rows| && p(rows[i]) && rows[i].id == id {
          assert i < n ==> rows[..n][i] == rows[i];
        }
        if i :| 0 <= i < n && p(rows[..n][i]) && rows[..n][i].id == id {
          assert rows[i] == rows[..n][i];
        }
      }
      assert Any(rows, p) <==> Any(rows[..n], p) || p(rows[n]) by {
        if i :| 0 <= i < |rows| && p(rows[i]) {
          assert i < n ==> rows[..n][i] == rows[i];
        }
        if i :| 0 <= i < n && p(rows[..n][i]) {
          assert rows[i] == rows[..n][i];
        }
      }
    }
  }

  /** The conclusion, from the comparable, one-sided and shared rows. */
  function Conclude(comparable: seq<string>, onlyA: seq<string>, onlyB: seq<string>,
                    shared: seq<string>): Localization {
    if comparable == [] then Localization(NoComparableChecks, SideUnknown, [], true)
    else if shared == [] && onlyA == [] && onlyB == [] then Localization(NoFailure, SideNone, comparable, false)
    else if onlyA != [] && onlyB != [] then Localization(DivergentFailures, SideBoth, shared + onlyA + onlyB, true)
    else if onlyA != [] || onlyB != [] then OneSided(onlyA, onlyB, shared)
    else Localization(SharedFailure, SideShared, shared, true)
  }

  function OneSided(onlyA: seq<string>, onlyB: seq<string>, shared: seq<string>): Localization {
    var side := if onlyB != [] then SideB else SideA;
    var only := if onlyB != [] then onlyB else onlyA;
    if shared == [] then Localization(OneSideFails, side, only, true)
    else Localization(OneSideFailsMore, side, shared + only, true)
  }

  function IsComparable(r: SideRow): bool { r.comparable }

  function LocalizeOf(rows: seq<SideRow>): Localization {
    Conclude(IDsWhere(rows, IsComparable), IDsWhere(rows, FailsOnA), IDsWhere(rows, FailsOnB),
             IDsWhere(rows, FailsOnBoth))
  }

  method Localize(rows: seq<SideRow>) returns (l: Localization)
    ensures l == LocalizeOf(rows)
  {
    var comparable: seq<string>, onlyA: seq<string>, onlyB: seq<string>, shared: seq<string> := [], [], [], [];
    for i := 0 to |rows|
      invariant comparable == IDsWhere(rows[..i], IsComparable)
      invariant onlyA == IDsWhere(rows[..i], FailsOnA)
      invariant onlyB == IDsWhere(rows[..i], FailsOnB)
      invariant shared == IDsWhere(rows[..i], FailsOnBoth)
    {
      var row := rows[i];
      assert rows[..i + 1][..i] == rows[..i];
      if row.comparable {
        comparable := comparable + [row.id];
        if Failed(row.a) && Failed(row.b) {
          shared := shared + [row.id];
        } else if Failed(row.a) {
          onlyA := onlyA + [row.id];
        } else if Failed(row.b) {
          onlyB := onlyB + [row.id];
        }
      }
    }
    assert rows[..|rows|] == rows;
    l := Conclude(comparable, onlyA, onlyB, shared);
  }

  /** Where the evidence places the failure, stated over the comparable rows. */
  function Placement(onlyA: bool, onlyB: bool, shared: bool, comparable: bool): (FindingID, Side) {
    match (onlyA, onlyB, shared)
    case (true, true, _) => (DivergentFailures, SideBoth)
    case (true, false, true) => (OneSideFailsMore, SideA)
    case (true, false, false) => (OneSideFails, SideA)
    case (false, true, true) => (OneSideFailsMore, SideB)
    case (false, true, false) => (OneSideFails, SideB)
    case (false, false, true) => (SharedFailure, SideShared)
    case (false, false, false) => if comparable then (NoFailure, SideNone) else (NoComparableChecks, SideUnknown)
  }

  function IDSet(ids: seq<string>): set<string> { set i | 0 <= i < |ids| :: ids[i] }

  function RowIDs(rows: seq<SideRow>, p: SideRow -> bool): set<string> {
    set i | 0 <= i < |rows| && p(rows[i]) :: rows[i].id
  }

  /**
    A failure is placed by which kinds of comparable row exist, and it rests on every comparable
    row that failed anywhere; with none, on every comparable row.
   */
  lemma LocalizationMeans(rows: seq<SideRow>)
    ensures (LocalizeOf(rows).id, LocalizeOf(rows).side)
         == Placement(Any(rows, FailsOnA), Any(rows, FailsOnB), Any(rows, FailsOnBoth), Any(rows, IsComparable))
    ensures IDSet(LocalizeOf(rows).evidence)
         == if Any(rows, FailsSomewhere) then RowIDs(rows, FailsSomewhere) else RowIDs(rows, IsComparable)
    ensures LocalizeOf(rows).ambiguous <==> LocalizeOf(rows).side != SideNone
  {
    hide IDsWhere;
    IDsWhereMembers(rows, IsComparable);
    IDsWhereMembers(rows, FailsOnA);
    IDsWhereMembers(rows, FailsOnB);
    IDsWhereMembers(rows, FailsOnBoth);
    FailuresAreComparable(rows);
    EvidenceMembers(rows);
  }

  lemma FailuresAreComparable(rows: seq<SideRow>)
    ensures Any(rows, FailsSomewhere) <==> Any(rows, FailsOnA) || Any(rows, FailsOnB) || Any(rows, FailsOnBoth)
    ensures Any(rows, FailsSomewhere) ==> Any(rows, IsComparable)
  {
    if i :| 0 <= i < |rows| && FailsSomewhere(rows[i]) {
      assert FailsOnA(rows[i]) || FailsOnB(rows[i]) || FailsOnBoth(rows[i]);
      assert IsComparable(rows[i]);
    }
    forall i | 0 <= i < |rows| && (FailsOnA(rows[i]) || FailsOnB(rows[i]) || FailsOnBoth(rows[i]))
      ensures FailsSomewhere(rows[i])
    {
    }
  }

  predicate HasID(rows: seq<SideRow>, p: SideRow -> bool, id: string) {
    exists i :: 0 <= i < |rows| && p(rows[i]) && rows[i].id == id
  }

  lemma FailureKinds(rows: seq<SideRow>, id: string)
    ensures HasID(rows, FailsSomewhere, id) <==>
      HasID(rows, FailsOnA, id) || HasID(rows, FailsOnB, id) || HasID(rows, FailsOnBoth, id)
  {
    if i :| 0 <= i < |rows| && FailsSomewhere(rows[i]) && rows[i].id == id {
      assert FailsOnA(rows[i]) || FailsOnB(rows[i]) || FailsOnBoth(rows[i]);
    }
    if i :| 0 <= i < |rows| && (FailsOnA(rows[i]) || FailsOnB(rows[i]) || FailsOnBoth(rows[i])) && rows[i].id == id {
      assert FailsSomewhere(rows[i]);
    }
  }

  lemma EvidenceMembers(rows: seq<SideRow>)
    ensures IDSet(LocalizeOf(rows).evidence)
         == if Any(rows, FailsSomewhere) then RowIDs(rows, FailsSomewhere) else RowIDs(rows, IsComparable)
  {
    hide IDsWhere;
    IDsWhereMembers(rows, IsComparable);
    IDsWhereMembers(rows, FailsOnA);
    IDsWhereMembers(rows, FailsOnB);
    IDsWhereMembers(rows, FailsOnBoth);
    FailuresAreComparable(rows);
    var evidence := LocalizeOf(rows).evidence;
    assert forall id :: id in IDsWhere(rows, FailsOnA) <==> HasID(rows, FailsOnA, id);
    assert forall id :: id in IDsWhere(rows, FailsOnB) <==> HasID(rows, FailsOnB, id);
    assert forall id :: id in IDsWhere(rows, FailsOnBoth) <==> HasID(rows, FailsOnBoth, id);
    assert forall id :: id in IDsWhere(rows, IsComparable) <==> HasID(rows, IsComparable, id);
    forall id
      ensures id in IDSet(evidence) <==>
        id in if Any(rows, FailsSomewhere) then RowIDs(rows, FailsSomewhere) else RowIDs(rows, IsComparable)
    {
      FailureKinds(rows, id);
      assert id in IDSet(evidence) <==> id in evidence;
      assert id in RowIDs(rows, FailsSomewhere) <==> HasID(rows, FailsSomewhere, id);
      assert id in RowIDs(rows, IsComparable) <==> HasID(rows, IsComparable, id);
    }
  }

  // ---------------------------------------------------------------- the reading

  datatype Reading =
    | RefusedDifferent
    | RefusedUnknown
    | Read(checks: seq<SideRow>, diagnosis: Localization)

  function ReadingOf(net: Net, a: Snapshot, b: Snapshot): Reading {
    match TargetRelationOf(net, a, b)
    case TargetsDifferent => RefusedDifferent
    case TargetsUnknown => RefusedUnknown
    case TargetsSame =>
      var rows := SideRowsOf(net, a.checks, b.checks, a.sanitized || b.sanitized);
      Read(rows, LocalizeOf(rows))
  }

  method TwoSidedSnapshots(net: Net, a: Snapshot, b: Snapshot) returns (r: Reading)
    ensures r == ReadingOf(net, a, b)
  {
    var relation := TargetRelationOf(net, a, b);
    if relation == TargetsDifferent {
      return RefusedDifferent;
    }
    if relation == TargetsUnknown {
      return RefusedUnknown;
    }
    var rows := SideRows(net, a.checks, b.checks, a.sanitized || b.sanitized);
    var diagnosis := Localize(rows);
    r := Read(rows, diagnosis);
  }

  // ---------------------------------------------------------------- exchanging the machines

  function SwapRow(r: SideRow): SideRow { SideRow(r.id, r.b, r.a, r.comparable, AllSwapped(r.evidence)) }

  function SwapRows(rows: seq<SideRow>): seq<SideRow> { seq(|rows|, i requires 0 <= i < |rows| => SwapRow(rows[i])) }

  function SwapSide(s: Side): Side { match s case SideA => SideB case SideB => SideA case _ => s }

  lemma RowSwaps(net: Net, byA: map<string, Check>, byB: map<string, Check>, redacted: bool, id: string)
    ensures RowFor(net, byB, byA, redacted, id) == SwapRow(RowFor(net, byA, byB, redacted, id))
  {
    hide CheckEvidenceOf;
    if Comparable(byA, byB, id) {
      EvidenceSwaps(net, byA[id], byB[id], redacted);
    }
  }

  lemma {:induction false} RowsPermute(net: Net, byA: map<string, Check>, byB: map<string, Check>, redacted: bool,
                                       x: seq<string>, y: seq<string>)
    requires multiset(x) == multiset(y)
    ensures multiset(RowsFor(net, byA, byB, redacted, x)) == multiset(RowsFor(net, byA, byB, redacted, y))
  {
    hide RowFor;
    if x == [] {
      assert |y| == |multiset(y)| == 0;
    } else {
      var last := x[|x| - 1];
      var j := TakeOut(x, y);
      RowsPermute(net, byA, byB, redacted, x[..|x| - 1], y[..j] + y[j + 1..]);
      RowsSplit(net, byA, byB, redacted, x[..|x| - 1], last, []);
      RowsSplit(net, byA, byB, redacted, y[..j], last, y[j + 1..]);
      assert x == x[..|x| - 1] + [last] + [];
      assert y == y[..j] + [last] + y[j + 1..];
      assert x[..|x| - 1] + [] == x[..|x| - 1];
    }
  }

  lemma RowsSplit(net: Net, byA: map<string, Check>, byB: map<string, Check>, redacted: bool, x: seq<string>,
                  id: string, y: seq<string>)
    ensures multiset(RowsFor(net, byA, byB, redacted, x + [id] + y))
         == multiset(RowsFor(net, byA, byB, redacted, x + y)) + multiset{RowFor(net, byA, byB, redacted, id)}
  {
    hide RowFor;
    var rx, ry := RowsFor(net, byA, byB, redacted, x), RowsFor(net, byA, byB, redacted, y);
    assert RowsFor(net, byA, byB, redacted, x + [id] + y) == rx + [RowFor(net, byA, byB, redacted, id)] + ry;
    assert RowsFor(net, byA, byB, redacted, x + y) == rx + ry;
  }

  lemma RowsSwap(net: Net, a: seq<Check>, b: seq<Check>, redacted: bool)
    ensures multiset(SideRowsOf(net, b, a, redacted)) == multiset(SwapRows(SideRowsOf(net, a, b, redacted)))
  {
    hide ByKey, KeysOf, MergedOrder, RowFor, SwapRow;
    var byA, byB := ByKey(a, CheckID), ByKey(b, CheckID);
    MergedOrderSwaps(KeysOf(b, CheckID), KeysOf(a, CheckID));
    RowsPermute(net, byB, byA, redacted, SideOrder(b, a), SideOrder(a, b));
    forall i | 0 <= i < |SideOrder(a, b)|
      ensures RowsFor(net, byB, byA, redacted, SideOrder(a, b))[i] == SwapRows(SideRowsOf(net, a, b, redacted))[i]
    {
      RowSwaps(net, byA, byB, redacted, SideOrder(a, b)[i]);
    }
    assert RowsFor(net, byB, byA, redacted, SideOrder(a, b)) == SwapRows(SideRowsOf(net, a, b, redacted));
  }

  /** What the localization reads is which rows there are, not their order. */
  lemma AnyOfRows(x: seq<SideRow>, y: seq<SideRow>, p: SideRow -> bool, q: SideRow -> bool)
    requires multiset(y) == multiset(SwapRows(x)) && forall r :: q(SwapRow(r)) <==> p(r)
    ensures Any(x, p) <==> Any(y, q)
    ensures RowIDs(x, p) == RowIDs(y, q)
  {
    hide SwapRow;
    var s := SwapRows(x);
    assert forall r :: r in y <==> r in multiset(y);
    assert forall r :: r in s <==> r in multiset(s);
    forall i | 0 <= i < |x| && p(x[i])
      ensures x[i].id in RowIDs(y, q) && Any(y, q)
    {
      assert s[i] in y;
      var j :| 0 <= j < |y| && y[j] == SwapRow(x[i]);
      SwapKeepsID(x[i]);
    }
    forall j | 0 <= j < |y| && q(y[j])
      ensures y[j].id in RowIDs(x, p) && Any(x, p)
    {
      assert y[j] in s;
      var i :| 0 <= i < |s| && s[i] == y[j];
      SwapKeepsID(x[i]);
    }
  }

  lemma SwapKeepsID(r: SideRow)
    ensures SwapRow(r).id == r.id
  {
  }

  lemma LocalizationSwaps(x: seq<SideRow>, y: seq<SideRow>)
    requires multiset(y) == multiset(SwapRows(x))
    ensures LocalizeOf(y).id == LocalizeOf(x).id && LocalizeOf(y).side == SwapSide(LocalizeOf(x).side)
    ensures IDSet(LocalizeOf(y).evidence) == IDSet(LocalizeOf(x).evidence)
    ensures LocalizeOf(y).ambiguous == LocalizeOf(x).ambiguous
  {
    hide LocalizeOf, SwapRows, Any, RowIDs, IDSet;
    LocalizationMeans(x);
    LocalizationMeans(y);
    AnyOfRows(x, y, FailsOnA, FailsOnB);
    AnyOfRows(x, y, FailsOnB, FailsOnA);
    AnyOfRows(x, y, FailsOnBoth, FailsOnBoth);
    AnyOfRows(x, y, IsComparable, IsComparable);
    AnyOfRows(x, y, FailsSomewhere, FailsSomewhere);
  }

  lemma RelationSwaps(net: Net, a: Snapshot, b: Snapshot)
    ensures TargetRelationOf(net, b, a) == TargetRelationOf(net, a, b)
  {
  }

  /** Exchanging the machines refuses in the same way, or reads the same thing about the other side. */
  lemma ReadingSwaps(net: Net, a: Snapshot, b: Snapshot)
    ensures ReadingOf(net, a, b).RefusedDifferent? <==> ReadingOf(net, b, a).RefusedDifferent?
    ensures ReadingOf(net, a, b).RefusedUnknown? <==> ReadingOf(net, b, a).RefusedUnknown?
    ensures ReadingOf(net, a, b).Read? ==>
      var r, s := ReadingOf(net, a, b), ReadingOf(net, b, a);
      s.Read? && multiset(s.checks) == multiset(SwapRows(r.checks))
      && s.diagnosis.id == r.diagnosis.id && s.diagnosis.side == SwapSide(r.diagnosis.side)
      && IDSet(s.diagnosis.evidence) == IDSet(r.diagnosis.evidence) && s.diagnosis.ambiguous == r.diagnosis.ambiguous
  {
    hide LocalizeOf, SideRowsOf, SwapRows, IDSet, TargetRelationOf;
    RelationSwaps(net, a, b);
    var redacted := a.sanitized || b.sanitized;
    RowsSwap(net, a.checks, b.checks, redacted);
    LocalizationSwaps(SideRowsOf(net, a.checks, b.checks, redacted), SideRowsOf(net, b.checks, a.checks, redacted));
  }

  // ---------------------------------------------------------------- the reading, over the snapshots

  /** One character in either case of the ASCII letters. */
  predicate OneLetter(c: char, d: char) {
    || c == d
    || ('A' <= c <= 'Z' && d as int == c as int + 32)
    || ('A' <= d <= 'Z' && c as int == d as int + 32)
  }

  predicate OneWord(x: string, y: string) {
    |x| == |y| && forall k :: 0 <= k < |x| ==> OneLetter(x[k], y[k])
  }

  /** `t` is the host name without the root's own dot. */
  predicate Rootless(s: string, t: string) { s == t + "." || (s == t && (s == "" || s[|s| - 1] != '.')) }

  /** Two spellings name one endpoint: as addresses where both are, as names up to case and a final dot otherwise. */
  lemma NameMeans(net: Net, a: string, b: string)
    ensures SameEndpointName(net, a, b) <==>
      if net.parse(a).Some? && net.parse(b).Some? then net.parse(a).value == net.parse(b).value
      else exists x, y :: Rootless(a, x) && Rootless(b, y) && OneWord(x, y)
  {
    var x, y := TrimRootDot(a), TrimRootDot(b);
    OnlyRootless(a);
    OnlyRootless(b);
    FoldIsOneWord(x, y);
  }

  lemma OnlyRootless(s: string)
    ensures forall t :: Rootless(s, t) <==> t == TrimRootDot(s)
  {
    forall t
      ensures Rootless(s, t) <==> t == TrimRootDot(s)
    {
      if s == t + "." {
        assert s[..|s| - 1] == t;
      }
      if s != "" && s[|s| - 1] == '.' {
        assert s == s[..|s| - 1] + ".";
      }
    }
  }

  lemma FoldIsOneWord(x: string, y: string)
    ensures FoldText(x) == FoldText(y) <==> OneWord(x, y)
  {
    if FoldText(x) == FoldText(y) {
      assert |x| == |FoldText(x)| == |FoldText(y)| == |y|;
      forall k | 0 <= k < |x|
        ensures OneLetter(x[k], y[k])
      {
        assert FoldText(x)[k] == FoldText(y)[k];
      }
    }
  }

  /** What redaction leaves to compare: the port, the protocol, and whether an address was pinned. */
  predicate PlainlyAlike(x: Target, y: Target) {
    x.port == y.port && x.protocol == y.protocol && ((x.ip == "" && y.ip == "") || (x.ip != "" && y.ip != ""))
  }

  /** Two runs can be read against each other. */
  predicate OneTarget(net: Net, a: Snapshot, b: Snapshot) {
    || (a.target.None? && b.target.None?)
    || (a.target.Some? && b.target.Some? && PlainlyAlike(a.target.value, b.target.value)
        && !a.sanitized && !b.sanitized
        && SameEndpointName(net, a.target.value.host, b.target.value.host)
        && SameEndpointName(net, a.target.value.ip, b.target.value.ip))
  }

  /** Redaction hides whether they can. */
  predicate HiddenTarget(a: Snapshot, b: Snapshot) {
    a.target.Some? && b.target.Some? && PlainlyAlike(a.target.value, b.target.value) && (a.sanitized || b.sanitized)
  }

  /** Both machines measured a check, with these outcomes. */
  predicate MeasuredBoth(a: Snapshot, b: Snapshot, id: string) {
    && id in ChecksOf(a) && id in ChecksOf(b)
    && ChecksOf(a)[id].status in {"PASS", "WARN", "FAIL"} && ChecksOf(b)[id].status in {"PASS", "WARN", "FAIL"}
  }

  predicate OnlyAFails(a: Snapshot, b: Snapshot, id: string) {
    MeasuredBoth(a, b, id) && ChecksOf(a)[id].status == "FAIL" && ChecksOf(b)[id].status != "FAIL"
  }

  predicate BothFail(a: Snapshot, b: Snapshot, id: string) {
    MeasuredBoth(a, b, id) && ChecksOf(a)[id].status == "FAIL" && ChecksOf(b)[id].status == "FAIL"
  }

  /** When two snapshots are read at all, and when the reading is refused, and why. */
  lemma ReadingMeans(net: Net, a: Snapshot, b: Snapshot)
    ensures ReadingOf(net, a, b).Read? <==> OneTarget(net, a, b)
    ensures ReadingOf(net, a, b).RefusedUnknown? <==> HiddenTarget(a, b)
  {
    hide SideRowsOf, LocalizeOf, SameEndpointName;
  }

  /** Of each check of either machine, one row: the two outcomes, and the evidence where both measured it. */
  lemma RowsMean(net: Net, a: Snapshot, b: Snapshot, row: SideRow)
    requires ReadingOf(net, a, b).Read?
    ensures row in ReadingOf(net, a, b).checks <==>
      && (row.id in ChecksOf(a) || row.id in ChecksOf(b))
      && row.a == (if row.id in ChecksOf(a) then ChecksOf(a)[row.id].status else "")
      && row.b == (if row.id in ChecksOf(b) then ChecksOf(b)[row.id].status else "")
      && (row.comparable <==> MeasuredBoth(a, b, row.id))
      && row.evidence == (if MeasuredBoth(a, b, row.id)
                          then CheckEvidenceOf(net, ChecksOf(a)[row.id], ChecksOf(b)[row.id],
                                               a.sanitized || b.sanitized) else [])
  {
    hide CheckEvidenceOf, ByKey, MergedOrder, KeysOf, LocalizeOf, TargetRelationOf;
    var order := SideOrder(a.checks, b.checks);
    var rows := SideRowsOf(net, a.checks, b.checks, a.sanitized || b.sanitized);
    RowOrder(a.checks, b.checks);
    if row.id in order {
      var i :| 0 <= i < |order| && order[i] == row.id;
      assert rows[i] == RowFor(net, ChecksOf(a), ChecksOf(b), a.sanitized || b.sanitized, row.id);
      assert rows[i] in rows;
    }
    if row in rows {
      var i :| 0 <= i < |rows| && rows[i] == row;
      assert order[i] in order;
    }
  }

  lemma RowOrder(a: seq<Check>, b: seq<Check>)
    ensures forall id :: id in SideOrder(a, b) <==> id in ByKey(a, CheckID) || id in ByKey(b, CheckID)
  {
    ByKeyKeys(a, CheckID);
    ByKeyKeys(b, CheckID);
    MergedOrderSwaps(KeysOf(b, CheckID), KeysOf(a, CheckID));
  }

  lemma AnyRow(rows: seq<SideRow>, p: SideRow -> bool)
    ensures Any(rows, p) <==> exists row :: row in rows && p(row)
  {
    if row :| row in rows && p(row) {
      var i :| 0 <= i < |rows| && rows[i] == row;
      assert p(rows[i]);
    }
  }

  /** The one row of an identity. */
  lemma RowOf(net: Net, a: Snapshot, b: Snapshot, id: string) returns (row: SideRow)
    requires ReadingOf(net, a, b).Read? && MeasuredBoth(a, b, id)
    ensures row in ReadingOf(net, a, b).checks && row.id == id && row.comparable
    ensures row.a == ChecksOf(a)[id].status && row.b == ChecksOf(b)[id].status
  {
    hide CheckEvidenceOf, ByKey, ReadingOf;
    row := SideRow(id, ChecksOf(a)[id].status, ChecksOf(b)[id].status, true,
                   CheckEvidenceOf(net, ChecksOf(a)[id], ChecksOf(b)[id], a.sanitized || b.sanitized));
    RowsMean(net, a, b, row);
  }

  /** A failure is placed by which checks both machines measured failed where. */
  lemma PlacementMeans(net: Net, a: Snapshot, b: Snapshot)
    requires ReadingOf(net, a, b).Read?
    ensures var d := ReadingOf(net, a, b).diagnosis;
      (d.id, d.side) == Placement(exists id :: OnlyAFails(a, b, id), exists id :: OnlyAFails(b, a, id),
                                  exists id :: BothFail(a, b, id), exists id :: MeasuredBoth(a, b, id))
  {
    var rows := ReadingOf(net, a, b).checks;
    LocalizationMeans(rows);
    FailsMeans(net, a, b);
    hide LocalizeOf, Any, SideRowsOf, Placement;
  }

  lemma KindMeans(net: Net, a: Snapshot, b: Snapshot, p: SideRow -> bool, q: string -> bool)
    requires ReadingOf(net, a, b).Read?
    requires forall row :: row in ReadingOf(net, a, b).checks ==> (p(row) <==> q(row.id))
    requires forall id :: q(id) ==> MeasuredBoth(a, b, id)
    ensures Any(ReadingOf(net, a, b).checks, p) <==> exists id :: q(id)
  {
    hide ReadingOf, Any, MeasuredBoth;
    AnyRow(ReadingOf(net, a, b).checks, p);
    if id :| q(id) {
      var row := RowOf(net, a, b, id);
    }
  }

  lemma FailuresAreMeasured(a: Snapshot, b: Snapshot)
    ensures forall id :: OnlyAFails(a, b, id) ==> MeasuredBoth(a, b, id)
    ensures forall id :: OnlyAFails(b, a, id) ==> MeasuredBoth(a, b, id)
    ensures forall id :: BothFail(a, b, id) ==> MeasuredBoth(a, b, id)
  {
    hide ByKey;
  }

  lemma OneRow(net: Net, a: Snapshot, b: Snapshot, row: SideRow)
    requires ReadingOf(net, a, b).Read? && row in ReadingOf(net, a, b).checks
    ensures FailsOnA(row) <==> OnlyAFails(a, b, row.id)
    ensures FailsOnB(row) <==> OnlyAFails(b, a, row.id)
    ensures FailsOnBoth(row) <==> BothFail(a, b, row.id)
    ensures IsComparable(row) <==> MeasuredBoth(a, b, row.id)
  {
    hide ReadingOf, CheckEvidenceOf, ByKey;
    RowsMean(net, a, b, row);
  }

  lemma FailsMeans(net: Net, a: Snapshot, b: Snapshot)
    requires ReadingOf(net, a, b).Read?
    ensures var rows := ReadingOf(net, a, b).checks;
      && (Any(rows, FailsOnA) <==> exists id :: OnlyAFails(a, b, id))
      && (Any(rows, FailsOnB) <==> exists id :: OnlyAFails(b, a, id))
      && (Any(rows, FailsOnBoth) <==> exists id :: BothFail(a, b, id))
      && (Any(rows, IsComparable) <==> exists id :: MeasuredBoth(a, b, id))
  {
    hide ReadingOf, Any, MeasuredBoth, OnlyAFails, BothFail, FailsOnA, FailsOnB, FailsOnBoth, IsComparable;
    FailuresAreMeasured(a, b);
    forall row | row in ReadingOf(net, a, b).checks
      ensures FailsOnA(row) <==> OnlyAFails(a, b, row.id)
      ensures FailsOnB(row) <==> OnlyAFails(b, a, row.id)
      ensures FailsOnBoth(row) <==> BothFail(a, b, row.id)
      ensures IsComparable(row) <==> MeasuredBoth(a, b, row.id)
    {
      OneRow(net, a, b, row);
    }
    var onA: string -> bool := id => OnlyAFails(a, b, id);
    var onB: string -> bool := id => OnlyAFails(b, a, id);
    var onBoth: string -> bool := id => BothFail(a, b, id);
    var measured: string -> bool := id => MeasuredBoth(a, b, id);
    KindMeans(net, a, b, FailsOnA, onA);
    KindMeans(net, a, b, FailsOnB, onB);
    KindMeans(net, a, b, FailsOnBoth, onBoth);
    KindMeans(net, a, b, IsComparable, measured);
    if id :| OnlyAFails(a, b, id) {
      assert onA(id);
    }
    if id :| OnlyAFails(b, a, id) {
      assert onB(id);
    }
    if id :| BothFail(a, b, id) {
      assert onBoth(id);
    }
    if id :| MeasuredBoth(a, b, id) {
      assert measured(id);
    }
  }
}
