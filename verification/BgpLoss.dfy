/**
  Two readings of one recorded BGP table: what a peer's withdrawal of one prefix leaves, and
  what the loss of the whole session leaves. They share how a path is read and counted.
 */
module BgpLoss {
  import opened Wrappers

  /** A parsed address or prefix is its value; 0 is the zero address of a path without a peer. */
  type Addr = nat

  type Prefix = nat

  datatype Source = Learned | NoPeer | Unknown

  datatype Stale = NotRecorded | RecordedFalse | RecordedTrue

  datatype RoutePath = RoutePath(source: Source, peer: Addr, stale: Stale, pathFrom: string, asPath: string,
                                 origin: string, nextHops: seq<Addr>)

  datatype Entry = Entry(prefix: Prefix, paths: seq<RoutePath>)

  datatype PeerState = PeerState(address: Addr, state: string)

  /** The node's summary, when the manifest names one. */
  type Summary = Option<seq<PeerState>>

  const ESTABLISHED := "Established"

  datatype Kind = KindLearned | KindNoPeer | KindContradicted | KindUnattributed

  datatype PathRead = PathRead(kind: Kind, peer: Option<Addr>, sessionState: string, stale: Stale,
                               pathFrom: string, asPath: string, origin: string, nextHops: seq<Addr>)

  datatype Outcome = PathsRemain | NoRecordedPath | OutcomeUnknown

  datatype Withdrawal = Withdrawal(outcome: Outcome, removed: seq<PathRead>, remaining: seq<PathRead>,
                                   peerState: string, peerOtherPaths: nat)

  datatype SessionPrefix = SessionPrefix(prefix: Prefix, outcome: Outcome, removed: seq<PathRead>,
                                         remaining: seq<PathRead>)

  datatype Reading = Established | NotEstablished | NotListed | NotCaptured

  datatype SessionLoss = SessionLoss(peerState: string, reading: Reading, prefixes: seq<SessionPrefix>,
                                     unattributed: seq<Prefix>)

  datatype Refusal = PeerNotInTable

  // ---------------------------------------------------------------- reading one path

  type States = map<Addr, string>

  /** The last state printed for each address. */
  function StatesIn(peers: seq<PeerState>): States {
    if peers == [] then map[]
    else StatesIn(peers[..|peers| - 1])[peers[|peers| - 1].address := peers[|peers| - 1].state]
  }

  function StatesOf(sum: Summary): States {
    match sum
    case None => map[]
    case Some(peers) => StatesIn(peers)
  }

  method CollectStates(sum: Summary) returns (states: States)
    ensures states == StatesOf(sum)
  {
    states := map[];
    if sum.Some? {
      for i := 0 to |sum.value|
        invariant states == StatesIn(sum.value[..i])
      {
        assert sum.value[..i + 1][..i] == sum.value[..i];
        states := states[sum.value[i].address := sum.value[i].state];
      }
      assert sum.value[..|sum.value|] == sum.value;
    }
  }

  function StateOf(states: States, peer: Addr): string { if peer in states then states[peer] else "" }

  predicate FromPeer(p: RoutePath, peer: Addr) { p.source.Learned? && p.peer == peer }

  function PathKind(p: RoutePath, haveSummary: bool, states: States): Kind {
    if p.source.NoPeer? then KindNoPeer
    else if p.source.Unknown? then KindUnattributed
    else if !haveSummary || StateOf(states, p.peer) == ESTABLISHED then KindLearned
    else KindContradicted
  }

  function ReadPath(p: RoutePath, kind: Kind, states: States): PathRead {
    PathRead(kind, if p.source.Learned? then Some(p.peer) else None, StateOf(states, p.peer), p.stale,
             p.pathFrom, p.asPath, p.origin, p.nextHops)
  }

  function KindFor(p: RoutePath, peer: Addr, haveSummary: bool, states: States): Kind {
    if FromPeer(p, peer) then KindLearned else PathKind(p, haveSummary, states)
  }

  function ReadOf(p: RoutePath, peer: Addr, haveSummary: bool, states: States): PathRead {
    ReadPath(p, KindFor(p, peer, haveSummary, states), states)
  }

  /** The paths from (or not from) the peer, in FRR's order. */
  function Reads(paths: seq<RoutePath>, peer: Addr, fromPeer: bool, have: bool, states: States): seq<PathRead> {
    if paths == [] then []
    else
      var p := paths[|paths| - 1];
      Reads(paths[..|paths| - 1], peer, fromPeer, have, states)
      + (if FromPeer(p, peer) == fromPeer then [ReadOf(p, peer, have, states)] else [])
  }

  function Removed(e: Entry, peer: Addr, sum: Summary): seq<PathRead> {
    Reads(e.paths, peer, true, sum.Some?, StatesOf(sum))
  }

  function Remaining(e: Entry, peer: Addr, sum: Summary): seq<PathRead> {
    Reads(e.paths, peer, false, sum.Some?, StatesOf(sum))
  }

  // ---------------------------------------------------------------- counting what remains

  datatype Group = Counted | StaleGroup | Unattributed | Unestablished

  function GroupOf(r: PathRead): Group {
    if r.stale.RecordedTrue? then StaleGroup
    else if r.kind.KindLearned? || r.kind.KindNoPeer? then Counted
    else if r.kind.KindUnattributed? then Unattributed
    else Unestablished
  }

  function CountGroup(rs: seq<PathRead>, g: Group): nat {
    if rs == [] then 0
    else CountGroup(rs[..|rs| - 1], g) + (if GroupOf(rs[|rs| - 1]) == g then 1 else 0)
  }

  method CountRemaining(rs: seq<PathRead>) returns (counted: nat, stale: nat, unattributed: nat, notEstablished: nat)
    ensures counted == CountGroup(rs, Counted) && stale == CountGroup(rs, StaleGroup)
    ensures unattributed == CountGroup(rs, Unattributed) && notEstablished == CountGroup(rs, Unestablished)
    ensures counted + stale + unattributed + notEstablished == |rs|
  {
    counted, stale, unattributed, notEstablished := 0, 0, 0, 0;
    for i := 0 to |rs|
      invariant counted == CountGroup(rs[..i], Counted) && stale == CountGroup(rs[..i], StaleGroup)
      invariant unattributed == CountGroup(rs[..i], Unattributed)
                && notEstablished == CountGroup(rs[..i], Unestablished)
      invariant counted + stale + unattributed + notEstablished == i
    {
      assert rs[..i + 1][..i] == rs[..i];
      if rs[i].stale.RecordedTrue? {
        stale := stale + 1;
      } else if rs[i].kind.KindLearned? || rs[i].kind.KindNoPeer? {
        counted := counted + 1;
      } else if rs[i].kind.KindUnattributed? {
        unattributed := unattributed + 1;
      } else {
        notEstablished := notEstablished + 1;
      }
    }
    assert rs[..|rs|] == rs;
  }

  ghost predicate Has(rs: seq<PathRead>, g: Group) {
    exists r :: r in rs && GroupOf(r) == g
  }

  lemma {:induction false} CountedIffHas(rs: seq<PathRead>, g: Group)
    ensures CountGroup(rs, g) > 0 <==> Has(rs, g)
  {
    if rs != [] {
      var before, last := rs[..|rs| - 1], rs[|rs| - 1];
      CountedIffHas(before, g);
      assert rs == before + [last];
      assert forall r :: r in rs <==> r in before || r == last;
    }
  }

  /** What the remaining paths say: one that counts, none at all, or only ones that settle nothing. */
  ghost function OutcomeOf(rs: seq<PathRead>): Outcome {
    if Has(rs, Counted) then PathsRemain else if rs == [] then NoRecordedPath else OutcomeUnknown
  }

  method RateRemaining(rs: seq<PathRead>) returns (outcome: Outcome)
    ensures outcome == OutcomeOf(rs)
  {
    var counted, stale, unattributed, notEstablished := CountRemaining(rs);
    CountedIffHas(rs, Counted);
    if counted > 0 {
      return PathsRemain;
    }
    if stale + unattributed + notEstablished > 0 {
      return OutcomeUnknown;
    }
    return NoRecordedPath;
  }

  // ---------------------------------------------------------------- the withdrawal

  /** The peer's paths for other prefixes. */
  function OtherPaths(routes: seq<Entry>, peer: Addr, prefix: Prefix): nat {
    if routes == [] then 0
    else
      var e := routes[|routes| - 1];
      OtherPaths(routes[..|routes| - 1], peer, prefix)
      + (if e.prefix == prefix then 0 else |Reads(e.paths, peer, true, false, map[])|)
  }

  function ReadsFor(routes: seq<Entry>, peer: Addr, prefix: Prefix, fromPeer: bool, sum: Summary): seq<PathRead> {
    if routes == [] then []
    else
      var e := routes[|routes| - 1];
      ReadsFor(routes[..|routes| - 1], peer, prefix, fromPeer, sum)
      + (if e.prefix == prefix then Reads(e.paths, peer, fromPeer, sum.Some?, StatesOf(sum)) else [])
  }

  ghost function Withdraw(routes: seq<Entry>, peer: Addr, prefix: Prefix, sum: Summary): Result<Withdrawal, Refusal> {
    var removed, remaining := ReadsFor(routes, peer, prefix, true, sum), ReadsFor(routes, peer, prefix, false, sum);
    if removed == [] then Err(PeerNotInTable)
    else Ok(Withdrawal(OutcomeOf(remaining), removed, remaining, StateOf(StatesOf(sum), peer),
                       OtherPaths(routes, peer, prefix)))
  }

  method WithdrawFRRBGP(routes: seq<Entry>, peer: Addr, prefix: Prefix, sum: Summary)
    returns (out: Result<Withdrawal, Refusal>)
    ensures out == Withdraw(routes, peer, prefix, sum)
  {
    hide OutcomeOf, PathKind, ReadPath, StatesOf, Reads;
    var states := CollectStates(sum);
    var removed, remaining: seq<PathRead>, others := [], [], 0;
    for n := 0 to |routes|
      invariant removed == ReadsFor(routes[..n], peer, prefix, true, sum)
      invariant remaining == ReadsFor(routes[..n], peer, prefix, false, sum)
      invariant others == OtherPaths(routes[..n], peer, prefix)
    {
      assert routes[..n + 1][..n] == routes[..n];
      var gone, kept, elsewhere := WithdrawFrom(routes[n], peer, prefix, sum, states);
      removed, remaining, others := removed + gone, remaining + kept, others + elsewhere;
    }
    assert routes[..|routes|] == routes;
    if |removed| == 0 {
      return Err(PeerNotInTable);
    }
    var outcome := RateRemaining(remaining);
    return Ok(Withdrawal(outcome, removed, remaining, StateOf(states, peer), others));
  }

  /** The inner loop over one entry's paths. */
  method WithdrawFrom(e: Entry, peer: Addr, prefix: Prefix, sum: Summary, states: States)
    returns (gone: seq<PathRead>, kept: seq<PathRead>, elsewhere: nat)
    requires states == StatesOf(sum)
    ensures e.prefix == prefix ==> gone == Removed(e, peer, sum) && kept == Remaining(e, peer, sum) && elsewhere == 0
    ensures e.prefix != prefix ==> gone == kept == [] && elsewhere == |Reads(e.paths, peer, true, false, map[])|
  {
    hide ReadPath, StatesOf;
    gone, kept, elsewhere := [], [], 0;
    for i := 0 to |e.paths|
      invariant e.prefix == prefix ==>
                  && gone == Reads(e.paths[..i], peer, true, sum.Some?, states)
                  && kept == Reads(e.paths[..i], peer, false, sum.Some?, states)
                  && elsewhere == 0
      invariant e.prefix != prefix ==>
        gone == kept == [] && elsewhere == |Reads(e.paths[..i], peer, true, false, map[])|
    {
      var p := e.paths[i];
      assert e.paths[..i + 1][..i] == e.paths[..i];
      var fromPeer := p.source.Learned? && p.peer == peer;
      if e.prefix != prefix {
        if fromPeer {
          elsewhere := elsewhere + 1;
        }
      } else if fromPeer {
        gone := gone + [ReadPath(p, KindLearned, states)];
      } else {
        kept := kept + [ReadPath(p, PathKind(p, sum.Some?, states), states)];
      }
    }
    assert e.paths[..|e.paths|] == e.paths;
  }

  // ---------------------------------------------------------------- the session loss

  ghost function RatedOf(e: Entry, peer: Addr, sum: Summary): SessionPrefix {
    SessionPrefix(e.prefix, OutcomeOf(Remaining(e, peer, sum)), Removed(e, peer, sum), Remaining(e, peer, sum))
  }

  ghost function Rated(routes: seq<Entry>, peer: Addr, sum: Summary): seq<SessionPrefix> {
    if routes == [] then []
    else
      var e := routes[|routes| - 1];
      Rated(routes[..|routes| - 1], peer, sum) + (if Removed(e, peer, sum) == [] then [] else [RatedOf(e, peer, sum)])
  }

  predicate NamesNoPeer(paths: seq<RoutePath>) {
    exists i :: 0 <= i < |paths| && paths[i].source.Unknown?
  }

  function NotRated(routes: seq<Entry>, peer: Addr, sum: Summary): seq<Prefix> {
    if routes == [] then []
    else
      var e := routes[|routes| - 1];
      NotRated(routes[..|routes| - 1], peer, sum)
      + (if Removed(e, peer, sum) == [] && NamesNoPeer(e.paths) then [e.prefix] else [])
  }

  function ReadingOf(sum: Summary, peer: Addr): Reading {
    if sum.None? then NotCaptured
    else if peer !in StatesOf(sum) then NotListed
    else if StatesOf(sum)[peer] == ESTABLISHED then Established
    else NotEstablished
  }

  ghost function LoseSession(routes: seq<Entry>, peer: Addr, sum: Summary): Result<SessionLoss, Refusal> {
    if Rated(routes, peer, sum) == [] && peer !in StatesOf(sum) then Err(PeerNotInTable)
    else Ok(SessionLoss(StateOf(StatesOf(sum), peer), ReadingOf(sum, peer), Rated(routes, peer, sum),
                        NotRated(routes, peer, sum)))
  }

  method FailFRRBGPSession(routes: seq<Entry>, peer: Addr, sum: Summary) returns (out: Result<SessionLoss, Refusal>)
    ensures out == LoseSession(routes, peer, sum)
  {
    hide OutcomeOf, PathKind, ReadPath, StatesOf, Reads;
    var states := CollectStates(sum);
    var removed: nat, prefixes, unattributed: seq<Prefix> := 0, [], [];
    for n := 0 to |routes|
      invariant prefixes == Rated(routes[..n], peer, sum)
      invariant unattributed == NotRated(routes[..n], peer, sum)
      invariant removed == 0 <==> |prefixes| == 0
    {
      var e := routes[n];
      assert routes[..n + 1][..n] == routes[..n];
      var gone, kept, noPeer := ReadEntry(e, peer, sum, states);
      if |gone| > 0 {
        removed := removed + |gone|;
        var outcome := RateRemaining(kept);
        prefixes := prefixes + [SessionPrefix(e.prefix, outcome, gone, kept)];
      } else if noPeer {
        unattributed := unattributed + [e.prefix];
      }
    }
    assert routes[..|routes|] == routes;
    if removed == 0 && peer !in states {
      return Err(PeerNotInTable);
    }
    var reading := if sum.None? then NotCaptured
                   else if peer !in states then NotListed
                   else if states[peer] == ESTABLISHED then Established
                   else NotEstablished;
    return Ok(SessionLoss(StateOf(states, peer), reading, prefixes, unattributed));
  }

  /** The inner loop over one prefix's paths. */
  method ReadEntry(e: Entry, peer: Addr, sum: Summary, states: States)
    returns (gone: seq<PathRead>, kept: seq<PathRead>, noPeer: bool)
    requires states == StatesOf(sum)
    ensures gone == Removed(e, peer, sum) && kept == Remaining(e, peer, sum)
    ensures noPeer <==> NamesNoPeer(e.paths)
  {
    hide ReadPath, StatesOf;
    gone, kept, noPeer := [], [], false;
    for i := 0 to |e.paths|
      invariant gone == Reads(e.paths[..i], peer, true, sum.Some?, states)
      invariant kept == Reads(e.paths[..i], peer, false, sum.Some?, states)
      invariant noPeer <==> exists j :: 0 <= j < i && e.paths[j].source.Unknown?
    {
      var p := e.paths[i];
      assert e.paths[..i + 1][..i] == e.paths[..i];
      if p.source.Learned? && p.peer == peer {
        gone := gone + [ReadPath(p, KindLearned, states)];
        continue;
      }
      var kind := PathKind(p, sum.Some?, states);
      if kind.KindUnattributed? {
        noPeer := true;
      }
      kept := kept + [ReadPath(p, kind, states)];
    }
    assert e.paths[..|e.paths|] == e.paths;
  }

  // ---------------------------------------------------------------- they agree

  /** A decoded route table lists each prefix once. */
  ghost predicate DistinctPrefixes(routes: seq<Entry>) {
    forall i, j :: 0 <= i < j < |routes| ==> routes[i].prefix != routes[j].prefix
  }

  lemma {:induction false} ReadsForAbsent(routes: seq<Entry>, peer: Addr, prefix: Prefix, fromPeer: bool, sum: Summary)
    requires forall i :: 0 <= i < |routes| ==> routes[i].prefix != prefix
    ensures ReadsFor(routes, peer, prefix, fromPeer, sum) == []
  {
    if routes != [] {
      ReadsForAbsent(routes[..|routes| - 1], peer, prefix, fromPeer, sum);
    }
  }

  /** With distinct prefixes, a withdrawal reads exactly its own prefix's entry. */
  lemma {:induction false} ReadsForEntry(routes: seq<Entry>, k: nat, peer: Addr, fromPeer: bool, sum: Summary)
    requires DistinctPrefixes(routes) && k < |routes|
    ensures ReadsFor(routes, peer, routes[k].prefix, fromPeer, sum)
            == Reads(routes[k].paths, peer, fromPeer, sum.Some?, StatesOf(sum))
  {
    var before := routes[..|routes| - 1];
    if k == |routes| - 1 {
      ReadsForAbsent(before, peer, routes[k].prefix, fromPeer, sum);
    } else {
      ReadsForEntry(before, k, peer, fromPeer, sum);
    }
  }

  /** Which prefixes a session loss rates. */
  lemma {:induction false} RatedEntries(routes: seq<Entry>, peer: Addr, sum: Summary, sp: SessionPrefix)
    ensures sp in Rated(routes, peer, sum)
       <==> exists k :: 0 <= k < |routes| && Removed(routes[k], peer, sum) != [] && sp == RatedOf(routes[k], peer, sum)
  {
    hide RatedOf, Removed;
    if routes != [] {
      var before, last := routes[..|routes| - 1], routes[|routes| - 1];
      RatedEntries(before, peer, sum, sp);
      assert forall k :: 0 <= k < |before| ==> before[k] == routes[k];
      assert routes[|routes| - 1] == last;
      if k :| 0 <= k < |before| && Removed(before[k], peer, sum) != [] && sp == RatedOf(before[k], peer, sum) {
        assert routes[k] == before[k];
      }
      if k :| 0 <= k < |routes| && Removed(routes[k], peer, sum) != [] && sp == RatedOf(routes[k], peer, sum) {
        assert k == |before| || routes[k] == before[k];
      }
    }
  }

  /**
    Every prefix the session loss rates is a successful withdrawal of that prefix with the same
    removed paths, remaining paths and outcome, and conversely; a table the one refuses has no
    withdrawal the other accepts.
   */
  lemma SimulationsAgree(routes: seq<Entry>, peer: Addr, sum: Summary, sp: SessionPrefix)
    requires DistinctPrefixes(routes)
    ensures sp in Rated(routes, peer, sum)
       <==> var w := Withdraw(routes, peer, sp.prefix, sum);
            w.Ok? && w.value.removed == sp.removed && w.value.remaining == sp.remaining && w.value.outcome == sp.outcome
    ensures LoseSession(routes, peer, sum).Err? ==> Withdraw(routes, peer, sp.prefix, sum).Err?
  {
    hide OutcomeOf, Reads, ReadsFor;
    RatedEntries(routes, peer, sum, sp);
    if k :| 0 <= k < |routes| && routes[k].prefix == sp.prefix {
      ReadsForEntry(routes, k, peer, true, sum);
      ReadsForEntry(routes, k, peer, false, sum);
      RatedEntries(routes, peer, sum, RatedOf(routes[k], peer, sum));
    } else {
      ReadsForAbsent(routes, peer, sp.prefix, true, sum);
    }
  }

  /** Where the peer's paths (or the others) stand in the table. */
  function Positions(paths: seq<RoutePath>, peer: Addr, fromPeer: bool): seq<nat> {
    if paths == [] then []
    else
      var n := |paths| - 1;
      Positions(paths[..n], peer, fromPeer) + (if FromPeer(paths[n], peer) == fromPeer then [n] else [])
  }

  predicate Ascending(at: seq<nat>) { forall i, j :: 0 <= i < j < |at| ==> at[i] < at[j] }

  lemma {:induction false} PositionsExact(paths: seq<RoutePath>, peer: Addr, fromPeer: bool)
    ensures forall k: nat :: k in Positions(paths, peer, fromPeer) <==>
      k < |paths| && FromPeer(paths[k], peer) == fromPeer
  {
    hide FromPeer;
    if paths != [] {
      PositionsExact(paths[..|paths| - 1], peer, fromPeer);
    }
  }

  lemma {:induction false} PositionsAscend(paths: seq<RoutePath>, peer: Addr, fromPeer: bool)
    ensures Ascending(Positions(paths, peer, fromPeer))
  {
    hide FromPeer;
    if paths != [] {
      var n := |paths| - 1;
      var before := Positions(paths[..n], peer, fromPeer);
      PositionsAscend(paths[..n], peer, fromPeer);
      PositionsExact(paths[..n], peer, fromPeer);
      forall i | 0 <= i < |before|
        ensures before[i] < n
      {
        assert before[i] in before;
      }
    }
  }

  /** Each list reads the paths at those positions. */
  predicate ReadsThere(rs: seq<PathRead>, paths: seq<RoutePath>, at: seq<nat>, peer: Addr, have: bool, states: States) {
    && |rs| == |at|
    && forall i :: 0 <= i < |at| ==> at[i] < |paths| && rs[i] == ReadOf(paths[at[i]], peer, have, states)
  }

  lemma {:induction false} ReadsAt(paths: seq<RoutePath>, peer: Addr, fromPeer: bool, have: bool, states: States)
    ensures ReadsThere(Reads(paths, peer, fromPeer, have, states), paths, Positions(paths, peer, fromPeer), peer, have,
                       states)
  {
    hide ReadOf, FromPeer;
    if paths != [] {
      ReadsAt(paths[..|paths| - 1], peer, fromPeer, have, states);
    }
  }

  lemma {:induction false} ReadsCover(paths: seq<RoutePath>, peer: Addr, have: bool, states: States)
    ensures |Reads(paths, peer, true, have, states)| + |Reads(paths, peer, false, have, states)| == |paths|
  {
    hide ReadOf, FromPeer;
    if paths != [] {
      ReadsCover(paths[..|paths| - 1], peer, have, states);
    }
  }

  /**
    Removed and remaining partition a prefix's paths, each in table order: the positions of each
    ascend, every position belongs to exactly one of the two, and each list reads the paths there.
   */
  lemma ReadsPartition(paths: seq<RoutePath>, peer: Addr, fromPeer: bool, have: bool, states: States)
    ensures Ascending(Positions(paths, peer, fromPeer))
    ensures forall k: nat :: k in Positions(paths, peer, fromPeer) <==>
      k < |paths| && FromPeer(paths[k], peer) == fromPeer
    ensures ReadsThere(Reads(paths, peer, fromPeer, have, states), paths, Positions(paths, peer, fromPeer), peer, have,
                       states)
    ensures |Reads(paths, peer, true, have, states)| + |Reads(paths, peer, false, have, states)| == |paths|
  {
    hide ReadOf, FromPeer;
    PositionsExact(paths, peer, fromPeer);
    PositionsAscend(paths, peer, fromPeer);
    ReadsAt(paths, peer, fromPeer, have, states);
    ReadsCover(paths, peer, have, states);
  }

  /** What is known of the session a path was learned over: nothing contradicts it while no summary was captured. */
  predicate SessionUp(p: RoutePath, have: bool, states: States) {
    !have || (p.peer in states && states[p.peer] == "Established")
  }

  /** A path's class says where it came from, and for a learned one whether its session still stands. */
  lemma KindMeans(p: RoutePath, peer: Addr, have: bool, states: States)
    ensures var r := ReadOf(p, peer, have, states);
      && (r.kind == KindNoPeer <==> p.source == NoPeer)
      && (r.kind == KindUnattributed <==> p.source == Unknown)
      && (r.kind == KindLearned <==> p.source == Learned && (p.peer == peer || SessionUp(p, have, states)))
      && (r.kind == KindContradicted <==> p.source == Learned && p.peer != peer && !SessionUp(p, have, states))
      && r.peer == (if p.source == Learned then Some(p.peer) else None)
      && r.sessionState == (if p.peer in states then states[p.peer] else "")
      && (r.stale, r.pathFrom, r.asPath, r.origin, r.nextHops) == (p.stale, p.pathFrom, p.asPath, p.origin, p.nextHops)
  {
  }

  /** A path that stands without the peer: fresh, and from nobody or over a session that is up. */
  predicate Stands(p: RoutePath, peer: Addr, have: bool, states: States) {
    && !(p.source == Learned && p.peer == peer)
    && p.stale != RecordedTrue && (p.source == NoPeer || (p.source == Learned && SessionUp(p, have, states)))
  }

  lemma {:induction false} ReadsMembers(paths: seq<RoutePath>, peer: Addr, have: bool, states: States)
    ensures forall p :: p in paths && !FromPeer(p, peer) ==>
      ReadOf(p, peer, have, states) in Reads(paths, peer, false, have, states)
    ensures forall r :: r in Reads(paths, peer, false, have, states) ==>
      exists p :: p in paths && !FromPeer(p, peer) && r == ReadOf(p, peer, have, states)
  {
    hide ReadOf, FromPeer;
    if paths != [] {
      var before, last := paths[..|paths| - 1], paths[|paths| - 1];
      ReadsMembers(before, peer, have, states);
      assert paths == before + [last];
    }
  }

  /**
    The outcome, over the recorded paths: paths remain exactly when one of them stands without the
    peer; no path is recorded exactly when all were the peer's; anything else settles nothing.
   */
  lemma OutcomeMeans(paths: seq<RoutePath>, peer: Addr, have: bool, states: States)
    ensures var outcome := OutcomeOf(Reads(paths, peer, false, have, states));
      && (outcome == PathsRemain <==> exists p :: p in paths && Stands(p, peer, have, states))
      && (outcome == NoRecordedPath <==> forall p :: p in paths ==> p.source == Learned && p.peer == peer)
  {
    hide Reads, ReadOf, GroupOf, Stands;
    var rs := Reads(paths, peer, false, have, states);
    ReadsMembers(paths, peer, have, states);
    if p :| p in paths && Stands(p, peer, have, states) {
      StandsCounts(p, peer, have, states);
      assert ReadOf(p, peer, have, states) in rs;
    }
    if r :| r in rs && GroupOf(r) == Counted {
      var p :| p in paths && !FromPeer(p, peer) && r == ReadOf(p, peer, have, states);
      StandsCounts(p, peer, have, states);
    }
    assert rs != [] ==> rs[0] in rs;
  }

  lemma StandsCounts(p: RoutePath, peer: Addr, have: bool, states: States)
    ensures Stands(p, peer, have, states) ==> !FromPeer(p, peer)
    ensures !FromPeer(p, peer) ==>
      (Stands(p, peer, have, states) <==> GroupOf(ReadOf(p, peer, have, states)) == Counted)
  {
  }

  /** A peer's state is the last one printed for its address. */
  lemma {:induction false} LastState(peers: seq<PeerState>, peer: Addr)
    ensures peer in StatesIn(peers) <==> exists k :: 0 <= k < |peers| && peers[k].address == peer
    ensures forall k ::
      0 <= k < |peers| && peers[k].address == peer && (forall j :: k < j < |peers| ==> peers[j].address != peer) ==>
      peer in StatesIn(peers) && StatesIn(peers)[peer] == peers[k].state
  {
    if peers != [] {
      LastState(peers[..|peers| - 1], peer);
      assert forall k :: 0 <= k < |peers| - 1 ==> peers[..|peers| - 1][k] == peers[k];
    }
  }

  function RemovedTotal(prefixes: seq<SessionPrefix>): nat {
    if prefixes == [] then 0 else RemovedTotal(prefixes[..|prefixes| - 1]) + |prefixes[|prefixes| - 1].removed|
  }

  lemma {:induction false} ReadsSize(paths: seq<RoutePath>, peer: Addr, fromPeer: bool, h: bool, s: States, h': bool,
                                     s': States)
    ensures |Reads(paths, peer, fromPeer, h, s)| == |Reads(paths, peer, fromPeer, h', s')|
  {
    if paths != [] {
      ReadsSize(paths[..|paths| - 1], peer, fromPeer, h, s, h', s');
    }
  }

  /**
    Conservation: for any prefix, the paths its withdrawal removes and those it leaves to the
    peer elsewhere are together all the session loss removes.
   */
  lemma {:induction false} SessionRemovesWhatWithdrawalsLeave(routes: seq<Entry>, peer: Addr, prefix: Prefix,
                                                              sum: Summary)
    ensures RemovedTotal(Rated(routes, peer, sum))
         == |ReadsFor(routes, peer, prefix, true, sum)| + OtherPaths(routes, peer, prefix)
  {
    hide Reads, RatedOf;
    if routes != [] {
      var before, e := routes[..|routes| - 1], routes[|routes| - 1];
      SessionRemovesWhatWithdrawalsLeave(before, peer, prefix, sum);
      ReadsSize(e.paths, peer, true, sum.Some?, StatesOf(sum), false, map[]);
      var rated := Rated(before, peer, sum);
      RatedRemoves(e, peer, sum);
      assert (rated + [RatedOf(e, peer, sum)])[..|rated|] == rated;
      assert rated + [] == rated;
      assert RemovedTotal(Rated(routes, peer, sum)) == RemovedTotal(rated) + |Removed(e, peer, sum)|;
    }
  }

  lemma RatedRemoves(e: Entry, peer: Addr, sum: Summary)
    ensures RatedOf(e, peer, sum).removed == Removed(e, peer, sum)
  {
  }

  /** A withdrawal is refused exactly when the table attributes no path for the prefix to the peer. */
  lemma {:induction false} RefusedIffNoPath(routes: seq<Entry>, peer: Addr, prefix: Prefix, sum: Summary)
    ensures ReadsFor(routes, peer, prefix, true, sum) == []
       <==> forall k :: 0 <= k < |routes| && routes[k].prefix == prefix ==> Removed(routes[k], peer, sum) == []
  {
    hide Reads;
    if routes != [] {
      var before := routes[..|routes| - 1];
      RefusedIffNoPath(before, peer, prefix, sum);
      assert forall k :: 0 <= k < |before| ==> before[k] == routes[k];
    }
  }

  // ---------------------------------------------------------------- the session, over the table

  /** The table attributes some path of the entry to the peer. */
  predicate Touches(e: Entry, peer: Addr) { exists p :: p in e.paths && p.source == Learned && p.peer == peer }

  lemma {:induction false} NoReads(paths: seq<RoutePath>, peer: Addr, have: bool, states: States)
    ensures Reads(paths, peer, true, have, states) == [] <==> forall p :: p in paths ==> !FromPeer(p, peer)
  {
    hide ReadOf, FromPeer;
    if paths != [] {
      NoReads(paths[..|paths| - 1], peer, have, states);
      assert paths == paths[..|paths| - 1] + [paths[|paths| - 1]];
    }
  }

  lemma TouchedIsRemoved(e: Entry, peer: Addr, sum: Summary)
    ensures Touches(e, peer) <==> Removed(e, peer, sum) != []
  {
    hide Reads;
    NoReads(e.paths, peer, sum.Some?, StatesOf(sum));
  }

  /** Some path of the entry says nothing of where it came from. */
  predicate Anonymous(e: Entry) { exists p :: p in e.paths && p.source == Unknown }

  lemma AnonymousIs(e: Entry)
    ensures Anonymous(e) <==> NamesNoPeer(e.paths)
  {
    if p :| p in e.paths && p.source == Unknown {
      var k :| 0 <= k < |e.paths| && e.paths[k] == p;
    }
  }

  lemma {:induction false} NotRatedAre(routes: seq<Entry>, peer: Addr, sum: Summary)
    ensures forall x :: x in NotRated(routes, peer, sum) <==>
      exists e :: e in routes && e.prefix == x && !Touches(e, peer) && Anonymous(e)
    ensures Rated(routes, peer, sum) == [] <==> forall e :: e in routes ==> !Touches(e, peer)
  {
    hide Removed, RatedOf, NamesNoPeer, Touches, Anonymous;
    if routes != [] {
      var before, last := routes[..|routes| - 1], routes[|routes| - 1];
      NotRatedAre(before, peer, sum);
      TouchedIsRemoved(last, peer, sum);
      AnonymousIs(last);
      assert routes == before + [last];
      assert forall e :: e in routes <==> e in before || e == last;
    }
  }

  predicate Listed(sum: Summary, peer: Addr) { sum.Some? && exists s :: s in sum.value && s.address == peer }

  lemma ListedIs(sum: Summary, peer: Addr)
    ensures Listed(sum, peer) <==> peer in StatesOf(sum)
  {
    if sum.Some? {
      LastState(sum.value, peer);
      if s :| s in sum.value && s.address == peer {
        var k :| 0 <= k < |sum.value| && sum.value[k] == s;
      }
    }
  }

  /**
    The loss of a session is refused exactly when the peer is neither in the table nor in the
    summary; otherwise it says how the summary reads the peer, and lists as undecided exactly the
    prefixes the peer has no path for where some path names nobody.
   */
  lemma SessionMeans(routes: seq<Entry>, peer: Addr, sum: Summary)
    ensures LoseSession(routes, peer, sum).Err? <==>
      (forall e :: e in routes ==> !Touches(e, peer)) && !Listed(sum, peer)
    ensures LoseSession(routes, peer, sum).Ok? ==>
      var loss := LoseSession(routes, peer, sum).value;
      && (loss.reading == NotCaptured <==> sum.None?)
      && (loss.reading == NotListed <==> sum.Some? && !Listed(sum, peer))
      && (loss.reading == Established <==> Listed(sum, peer) && StatesOf(sum)[peer] == "Established")
      && loss.peerState == (if Listed(sum, peer) then StatesOf(sum)[peer] else "")
      && forall x :: x in loss.unattributed <==>
        exists e :: e in routes && e.prefix == x && !Touches(e, peer) && Anonymous(e)
  {
    hide Touches, Anonymous, Listed, StatesOf, Rated, NotRated;
    NotRatedAre(routes, peer, sum);
    ListedIs(sum, peer);
    NothingCaptured(sum, peer);
  }

  lemma NothingCaptured(sum: Summary, peer: Addr)
    ensures sum.None? ==> peer !in StatesOf(sum)
  {
  }

  /** A withdrawal is refused exactly when no entry of the prefix has a path of the peer. */
  lemma {:induction false} WithdrawalMeans(routes: seq<Entry>, peer: Addr, prefix: Prefix, sum: Summary)
    ensures Withdraw(routes, peer, prefix, sum).Err? <==> forall e :: e in routes && e.prefix == prefix ==>
      !Touches(e, peer)
  {
    hide Reads, OutcomeOf, Touches;
    if routes != [] {
      var before, last := routes[..|routes| - 1], routes[|routes| - 1];
      WithdrawalMeans(before, peer, prefix, sum);
      TouchedIsRemoved(last, peer, sum);
      assert routes == before + [last];
      assert forall e :: e in routes <==> e in before || e == last;
    }
  }
}
