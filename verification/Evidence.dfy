/** Recorded evidence of one check on two machines, compared one dimension at a time. */
module Evidence {
  import opened Wrappers
  import opened Text
  import opened Ordering
  import opened Snapshots
  import opened Keyed
  import opened Compare
  import opened CompareCanon

  /** net/netip as pure functions of the spelling; the parser itself is not part of this model. */
  datatype Net = Net(
    ids: Identity,
    parse: string -> Option<string>,   // the address a spelling names, zone and mapped form kept
    is4: string -> bool,               // whether a parsed address is IPv4 once unmapped
    isEndpoint: string -> bool)        // whether a spelling parses as address and port

  datatype EvidenceFact = EvidenceFact(address: string, family: string, value: string, aborted: bool)

  datatype Values = Values(facts: seq<EvidenceFact>, known: bool)

  const NO_VALUES := Values([], false)

  datatype Relation = Equivalent | Different | Unknown

  datatype Reason = NoReason | MissingEvidence | RedactedIdentity

  datatype EvidenceComparison = EvidenceComparison(dimension: string, relation: Relation, a: seq<EvidenceFact>,
                                                   b: seq<EvidenceFact>, reason: Reason)

  function Fact(value: string): EvidenceFact { EvidenceFact("", "", value, false) }

  function Scalar(value: string): Values { if value == "" then NO_VALUES else Values([Fact(value)], true) }

  function Positive(value: bool): Values { if value then Scalar("observed") else NO_VALUES }

  function Nonempty(value: string): seq<string> { if value == "" then [] else [value] }

  // ---------------------------------------------------------------- one dimension

  function Compared(dimension: string, x: Values, y: Values, identity: bool, redacted: bool): EvidenceComparison {
    if identity && redacted then EvidenceComparison(dimension, Unknown, x.facts, y.facts, RedactedIdentity)
    else if !x.known || !y.known then EvidenceComparison(dimension, Unknown, x.facts, y.facts, MissingEvidence)
    else EvidenceComparison(dimension, if x.facts == y.facts then Equivalent else Different, x.facts, y.facts, NoReason)
  }

  function Add(out: seq<EvidenceComparison>, dimension: string, x: Values, y: Values, identity: bool,
               redacted: bool): seq<EvidenceComparison> {
    if x.facts == [] && y.facts == [] then out else out + [Compared(dimension, x, y, identity, redacted)]
  }

  /** The same comparison with the machines exchanged. */
  function Swapped(c: EvidenceComparison): EvidenceComparison { c.(a := c.b, b := c.a) }

  function AllSwapped(cs: seq<EvidenceComparison>): seq<EvidenceComparison> {
    seq(|cs|, i requires 0 <= i < |cs| => Swapped(cs[i]))
  }

  lemma AddSwaps(out: seq<EvidenceComparison>, dimension: string, x: Values, y: Values, identity: bool, redacted: bool)
    ensures Add(AllSwapped(out), dimension, y, x, identity, redacted)
            == AllSwapped(Add(out, dimension, x, y, identity, redacted))
  {
  }

  // ---------------------------------------------------------------- the order of facts

  /** Address, then family, then value, then "false" before "true". */
  predicate FactLE(a: EvidenceFact, b: EvidenceFact) {
    if a.address != b.address then TextLE(a.address, b.address)
    else if a.family != b.family then TextLE(a.family, b.family)
    else if a.value != b.value then TextLE(a.value, b.value)
    else a.aborted ==> b.aborted
  }

  lemma FactOrder()
    ensures TotalOrder(FactLE)
  {
    hide TextLE;
    TextOrder();
  }

  // ---------------------------------------------------------------- attempts

  function FamilyOf(net: Net, ip: string): string { if net.is4(ip) then "ipv4" else "ipv6" }

  /** What one attempt to a readable address says. */
  function AttemptFact(net: Net, identities: bool, a: Attempt): EvidenceFact {
    EvidenceFact(if identities then net.ids.address(a.ip) else "", FamilyOf(net, a.ip),
                 if a.cause != "" then a.cause
                 else if a.error != "" || a.aborted then "unknown"
                 else "succeeded",
                 a.aborted)
  }

  predicate AttemptKnown(net: Net, a: Attempt) {
    net.parse(a.ip).Some? && (a.cause != "" || (a.error == "" && !a.aborted))
  }

  function AttemptFacts(net: Net, identities: bool, attempts: seq<Attempt>): seq<EvidenceFact> {
    if attempts == [] then []
    else
      var last := attempts[|attempts| - 1];
      AttemptFacts(net, identities, attempts[..|attempts| - 1])
        + (if net.parse(last.ip).Some? then [AttemptFact(net, identities, last)] else [])
  }

  predicate AttemptsKnown(net: Net, attempts: seq<Attempt>) {
    attempts != [] && forall i :: 0 <= i < |attempts| ==> AttemptKnown(net, attempts[i])
  }

  function AttemptValues(net: Net, attempts: seq<Attempt>, identities: bool): Values {
    Values(Sort(AttemptFacts(net, identities, attempts), FactLE), AttemptsKnown(net, attempts))
  }

  method EvidenceAttempts(net: Net, attempts: seq<Attempt>, identities: bool) returns (out: Values)
    ensures out == AttemptValues(net, attempts, identities)
  {
    hide Sort, FactLE, AttemptKnown, AttemptFact;
    var facts: seq<EvidenceFact> := [];
    var known := |attempts| > 0;
    for i := 0 to |attempts|
      invariant facts == AttemptFacts(net, identities, attempts[..i])
      invariant known <==> attempts != [] && forall k :: 0 <= k < i ==> AttemptKnown(net, attempts[k])
    {
      assert attempts[..i + 1][..i] == attempts[..i];
      var f, said := ReadAttempt(net, attempts[i], identities);
      known := known && said;
      if f.Some? {
        facts := facts + [f.value];
      }
    }
    assert attempts[..|attempts|] == attempts;
    out := Values(Sort(facts, FactLE), known);
  }

  /** The fact one attempt carries, if its address is readable, and whether its outcome is known. */
  method ReadAttempt(net: Net, a: Attempt, identities: bool) returns (f: Option<EvidenceFact>, said: bool)
    ensures f == if net.parse(a.ip).Some? then Some(AttemptFact(net, identities, a)) else None
    ensures said == AttemptKnown(net, a)
  {
    if net.parse(a.ip).None? {
      return None, false;
    }
    var fact := EvidenceFact("", "ipv6", a.cause, a.aborted);
    said := true;
    if net.is4(a.ip) {
      fact := fact.(family := "ipv4");
    }
    if identities {
      fact := fact.(address := net.ids.address(a.ip));
    }
    if a.cause == "" {
      if a.error != "" || a.aborted {
        fact, said := fact.(value := "unknown"), false;
      } else {
        fact := fact.(value := "succeeded");
      }
    }
    f := Some(fact);
  }

  /** How often the attempts say each thing, whatever order they are listed in. */
  function AttemptCounts(net: Net, identities: bool, attempts: seq<Attempt>): multiset<EvidenceFact> {
    multiset(AttemptFacts(net, identities, attempts))
  }

  /** Two machines' attempts are equivalent exactly when both are fully known and say the same things equally often. */
  lemma AttemptsEquivalent(net: Net, identities: bool, x: seq<Attempt>, y: seq<Attempt>, redacted: bool)
    ensures Compared("attempts", AttemptValues(net, x, identities), AttemptValues(net, y, identities), identities,
                     redacted).relation == Equivalent
       <==> !(identities && redacted) && AttemptsKnown(net, x) && AttemptsKnown(net, y)
            && AttemptCounts(net, identities, x) == AttemptCounts(net, identities, y)
  {
    hide FactLE, Sort, AttemptFacts, AttemptsKnown;
    FactOrder();
    SortForgetsOrder(AttemptFacts(net, identities, x), AttemptFacts(net, identities, y), FactLE);
  }

  /** Listing the attempts in another order changes nothing. */
  lemma AttemptOrderIsForgotten(net: Net, identities: bool, x: seq<Attempt>, y: seq<Attempt>)
    requires multiset(x) == multiset(y)
    ensures AttemptValues(net, x, identities) == AttemptValues(net, y, identities)
  {
    hide FactLE, Sort, AttemptFacts, AttemptKnown;
    CountsPermute(net, identities, x, y);
    FactOrder();
    SortForgetsOrder(AttemptFacts(net, identities, x), AttemptFacts(net, identities, y), FactLE);
    assert |x| == |multiset(x)| == |multiset(y)| == |y|;
    assert forall a :: a in x <==> a in multiset(x);
    assert forall a :: a in y <==> a in multiset(y);
    assert AttemptsKnown(net, x) <==> x != [] && forall a :: a in x ==> AttemptKnown(net, a);
    assert AttemptsKnown(net, y) <==> y != [] && forall a :: a in y ==> AttemptKnown(net, a);
  }

  lemma {:induction false} CountsPermute(net: Net, identities: bool, x: seq<Attempt>, y: seq<Attempt>)
    requires multiset(x) == multiset(y)
    ensures AttemptCounts(net, identities, x) == AttemptCounts(net, identities, y)
  {
    if x == [] {
      assert |y| == |multiset(y)| == 0;
    } else {
      hide AttemptCounts;
      var j := TakeOut(x, y);
      CountsPermute(net, identities, x[..|x| - 1], y[..j] + y[j + 1..]);
      CountsRemove(net, identities, y, j);
      CountsConcat(net, identities, x[..|x| - 1], [y[j]]);
      assert x == x[..|x| - 1] + [y[j]];
    }
  }

  lemma {:induction false} CountsConcat(net: Net, identities: bool, x: seq<Attempt>, y: seq<Attempt>)
    ensures AttemptCounts(net, identities, x + y) == AttemptCounts(net, identities, x)
            + AttemptCounts(net, identities, y)
  {
    hide AttemptFact;
    if y == [] {
      assert x + y == x;
    } else {
      CountsConcat(net, identities, x, y[..|y| - 1]);
      assert (x + y)[..|x + y| - 1] == x + y[..|y| - 1];
    }
  }

  lemma CountsRemove(net: Net, identities: bool, y: seq<Attempt>, j: nat)
    requires j < |y|
    ensures AttemptCounts(net, identities, y)
         == AttemptCounts(net, identities, y[..j] + y[j + 1..]) + AttemptCounts(net, identities, [y[j]])
  {
    hide AttemptCounts;
    assert y == y[..j] + [y[j]] + y[j + 1..];
    CountsConcat(net, identities, y[..j] + [y[j]], y[j + 1..]);
    CountsConcat(net, identities, y[..j], [y[j]]);
    CountsConcat(net, identities, y[..j], y[j + 1..]);
  }

  // ---------------------------------------------------------------- addresses and resolver targets

  function Facts(values: seq<string>): seq<EvidenceFact> {
    seq(|values|, i requires 0 <= i < |values| => Fact(values[i]))
  }

  function StringValues(values: seq<string>): Values {
    var distinct := SortedSet(values, TextLE);
    Values(Facts(distinct), distinct != [])
  }

  /** Identities of a list of values, unless one of them is not of the kind the rule reads. */
  function NamedValues(readable: string -> bool, key: string -> string, values: seq<string>): Values {
    if exists i :: 0 <= i < |values| && !readable(values[i]) then NO_VALUES
    else StringValues(KeysOf(values, key))
  }

  method EvidenceNamed(readable: string -> bool, key: string -> string, values: seq<string>) returns (out: Values)
    ensures out == NamedValues(readable, key, values)
  {
    var named: seq<string> := [];
    for i := 0 to |values|
      invariant forall k :: 0 <= k < i ==> readable(values[k])
      invariant |named| == i && forall k :: 0 <= k < i ==> named[k] == key(values[k])
    {
      if !readable(values[i]) {
        return NO_VALUES;
      }
      named := named + [key(values[i])];
    }
    assert named == KeysOf(values, key);
    out := StringValues(named);
  }

  function IsAddress(net: Net): string -> bool { (s: string) => net.parse(s).Some? }

  function AddressValues(net: Net, values: seq<string>): Values { NamedValues(IsAddress(net), net.ids.address, values) }

  function EndpointValues(net: Net, values: seq<string>): Values {
    NamedValues(net.isEndpoint, net.ids.endpoint, values)
  }

  /** Two lists of addresses are equivalent exactly when both are readable and name the same nonempty set. */
  lemma NamedEquivalent(readable: string -> bool, key: string -> string, x: seq<string>, y: seq<string>)
    ensures Compared("addresses", NamedValues(readable, key, x), NamedValues(readable, key, y), true, false).relation
            == Equivalent
       <==> x != [] && y != [] && (forall v :: v in x || v in y ==> readable(v)) && KeySet(x, key) == KeySet(y, key)
  {
    if (exists i :: 0 <= i < |x| && !readable(x[i])) || (exists i :: 0 <= i < |y| && !readable(y[i])) {
      assert exists v :: (v in x || v in y) && !readable(v);
    } else {
      assert forall v :: v in x || v in y ==> readable(v);
      ReadableEquivalent(readable, key, x, y);
    }
  }

  lemma ReadableEquivalent(readable: string -> bool, key: string -> string, x: seq<string>, y: seq<string>)
    requires forall v :: v in x || v in y ==> readable(v)
    ensures Compared("addresses", NamedValues(readable, key, x), NamedValues(readable, key, y), true, false).relation
            == Equivalent
       <==> x != [] && y != [] && KeySet(x, key) == KeySet(y, key)
  {
    hide SortedSet, TextLE, Facts, KeySet;
    var kx, ky := KeysOf(x, key), KeysOf(y, key);
    assert NamedValues(readable, key, x) == StringValues(kx);
    assert NamedValues(readable, key, y) == StringValues(ky);
    NonemptySet(kx);
    NonemptySet(ky);
    TextOrder();
    SortedSetIsSet(kx, ky, TextLE);
    KeysAreKeySet(x, key);
    KeysAreKeySet(y, key);
    assert (forall k :: k in kx <==> k in ky) <==> KeySet(x, key) == KeySet(y, key);
    FactsInjective(SortedSet(kx, TextLE), SortedSet(ky, TextLE));
  }

  lemma NonemptySet(s: seq<string>)
    ensures SortedSet(s, TextLE) == [] <==> s == []
  {
    TextOrder();
    SortedSetProperties(s, TextLE);
    assert s != [] ==> s[0] in s;
  }

  lemma FactsInjective(x: seq<string>, y: seq<string>)
    ensures Facts(x) == Facts(y) <==> x == y
  {
    if Facts(x) == Facts(y) {
      assert |x| == |Facts(x)| == |Facts(y)| == |y|;
      forall i | 0 <= i < |x|
        ensures x[i] == y[i]
      {
        assert Facts(x)[i] == Facts(y)[i];
      }
    }
  }

  // ---------------------------------------------------------------- routes

  /** The word a route carries in one dimension; empty when it carries none. */
  datatype RouteField = TunnelState | Selection | LinkMTU

  function RouteWord(field: RouteField, r: Route): string {
    match field
    case TunnelState => r.tunnel
    case Selection => if r.unreachable then "unreachable" else if r.iface != "" then "selected" else ""
    case LinkMTU => if r.interfaceMTU > 0 then Itoa(r.interfaceMTU) else ""
  }

  function RouteFact(net: Net, identities: bool, field: RouteField, r: Route): EvidenceFact {
    EvidenceFact(if identities then net.ids.address(r.destination) else "", FamilyOf(net, r.destination),
                 if RouteWord(field, r) == "" then "unknown" else RouteWord(field, r), false)
  }

  predicate RouteKnown(net: Net, field: RouteField, r: Route) {
    net.parse(r.destination).Some? && RouteWord(field, r) != ""
  }

  function RouteFacts(net: Net, identities: bool, field: RouteField, routes: seq<Route>): seq<EvidenceFact> {
    if routes == [] then []
    else
      var last := routes[|routes| - 1];
      RouteFacts(net, identities, field, routes[..|routes| - 1])
      + (if net.parse(last.destination).Some? then [RouteFact(net, identities, field, last)] else [])
  }

  function RouteValues(net: Net, routes: seq<Route>, identities: bool, field: RouteField): Values {
    if forall i :: 0 <= i < |routes| ==> !RouteKnown(net, field, routes[i]) then NO_VALUES
    else
      Values(Sort(RouteFacts(net, identities, field, routes), FactLE),
             forall i :: 0 <= i < |routes| ==> RouteKnown(net, field, routes[i]))
  }

  lemma NoRouteFacts(net: Net, identities: bool, field: RouteField, routes: seq<Route>)
    ensures RouteFacts(net, identities, field, routes[..0]) == [] && routes[..|routes|] == routes
  {
  }

  lemma NextRouteFact(net: Net, identities: bool, field: RouteField, routes: seq<Route>, i: nat)
    requires i < |routes|
    ensures RouteFacts(net, identities, field, routes[..i + 1]) == RouteFacts(net, identities, field, routes[..i])
            + (if net.parse(routes[i].destination).Some? then [RouteFact(net, identities, field, routes[i])] else [])
  {
    hide RouteFact;
    assert routes[..i + 1][..i] == routes[..i];
  }

  method EvidenceRoutes(net: Net, routes: seq<Route>, identities: bool, field: RouteField) returns (out: Values)
    ensures out == RouteValues(net, routes, identities, field)
  {
    hide Sort, FactLE, RouteKnown, RouteFacts;
    NoRouteFacts(net, identities, field, routes);
    var facts: seq<EvidenceFact> := [];
    var known, anyKnown := |routes| > 0, false;
    for i := 0 to |routes|
      invariant facts == RouteFacts(net, identities, field, routes[..i])
      invariant known <==> routes != [] && forall k :: 0 <= k < i ==> RouteKnown(net, field, routes[k])
      invariant anyKnown <==> exists k :: 0 <= k < i && RouteKnown(net, field, routes[k])
    {
      NextRouteFact(net, identities, field, routes, i);
      var f, said := ReadRoute(net, routes[i], identities, field);
      known, anyKnown := known && said, anyKnown || said;
      if f.Some? {
        facts := facts + [f.value];
      }
    }
    out := if anyKnown then Values(Sort(facts, FactLE), known) else NO_VALUES;
  }

  /** The fact one route carries, if its destination is readable, and whether the route says anything. */
  method ReadRoute(net: Net, r: Route, identities: bool, field: RouteField)
    returns (f: Option<EvidenceFact>, said: bool)
    ensures f == if net.parse(r.destination).Some? then Some(RouteFact(net, identities, field, r)) else None
    ensures said == RouteKnown(net, field, r)
  {
    if net.parse(r.destination).None? {
      return None, false;
    }
    var fact := EvidenceFact("", "ipv6", RouteWord(field, r), false);
    said := true;
    if net.is4(r.destination) {
      fact := fact.(family := "ipv4");
    }
    if identities {
      fact := fact.(address := net.ids.address(r.destination));
    }
    if fact.value == "" {
      fact, said := fact.(value := "unknown"), false;
    }
    f := Some(fact);
  }

  /** Routes too: equivalent exactly when every route on both sides says something, and they say it equally often. */
  lemma RoutesEquivalent(net: Net, identities: bool, field: RouteField, x: seq<Route>, y: seq<Route>, redacted: bool)
    ensures Compared("routes", RouteValues(net, x, identities, field), RouteValues(net, y, identities, field),
                     identities, redacted).relation == Equivalent
       <==> !(identities && redacted) && x != [] && y != []
            && (forall r :: r in x || r in y ==> RouteKnown(net, field, r))
            && multiset(RouteFacts(net, identities, field, x)) == multiset(RouteFacts(net, identities, field, y))
  {
    hide FactLE, Sort, RouteFacts, RouteKnown;
    FactOrder();
    SortForgetsOrder(RouteFacts(net, identities, field, x), RouteFacts(net, identities, field, y), FactLE);
    assert x != [] ==> x[0] in x;
    assert y != [] ==> y[0] in y;
  }

  // ---------------------------------------------------------------- the clock

  /** Go's truncated quotient and remainder by a thousand. */
  function TruncDiv(ms: int): int { if ms >= 0 then ms / 1000 else -((-ms) / 1000) }

  function TruncMod(ms: int): int { ms - 1000 * TruncDiv(ms) }

  function OffsetSeconds(ms: int): int {
    TruncDiv(ms) + (if TruncMod(ms) >= 500 then 1 else 0) - (if TruncMod(ms) <= -500 then 1 else 0)
  }

  function ClockValues(ms: Option<int>): Values {
    if ms.None? then NO_VALUES else Scalar(Itoa(OffsetSeconds(ms.value)))
  }

  /** The largest offset, in milliseconds, whose whole seconds are still a duration. */
  const LAST_OFFSET := 9_223_372_036_499

  lemma RoundNonnegative(ms: int)
    requires 0 <= ms <= LAST_OFFSET
    ensures RoundToSecond(ms * 1_000_000) == OffsetSeconds(ms) * SECOND
  {
    var q, r := ms / 1000, ms % 1000;
    assert ms * 1_000_000 == SECOND * q + r * 1_000_000;
    Remainder(ms * 1_000_000, q, r * 1_000_000);
    assert OffsetSeconds(ms) == if r < 500 then q else q + 1;
  }

  lemma Remainder(n: int, q: int, r: int)
    requires n == SECOND * q + r && 0 <= r < SECOND
    ensures n % SECOND == r
  {
  }

  lemma RoundIsOdd(d: int)
    requires 0 <= d && RoundToSecond(d) != MAX_DURATION
    ensures RoundToSecond(-d) == -RoundToSecond(d)
  {
  }

  lemma RoundStays(d: int)
    requires MIN_DURATION <= d <= MAX_DURATION
    ensures MIN_DURATION <= RoundToSecond(d) <= MAX_DURATION
  {
  }

  lemma OffsetIsOdd(ms: int)
    ensures OffsetSeconds(-ms) == -OffsetSeconds(ms)
  {
  }

  lemma OffsetIsNear(ms: int)
    ensures -500 <= ms - OffsetSeconds(ms) * 1000 <= 500
    ensures ms > LAST_OFFSET ==> OffsetSeconds(ms) > LAST_OFFSET / 1000
  {
  }

  lemma RoundWithin(ms: int)
    requires -LAST_OFFSET <= ms <= LAST_OFFSET
    ensures RoundToSecond(ms * 1_000_000) == OffsetSeconds(ms) * SECOND
  {
    hide RoundToSecond, OffsetSeconds;
    if ms >= 0 {
      RoundNonnegative(ms);
    } else {
      RoundNonnegative(-ms);
      RoundIsOdd(-ms * 1_000_000);
      OffsetIsOdd(ms);
    }
  }

  lemma WrapStays(n: int)
    ensures MIN_DURATION <= Wrap64(n) <= MAX_DURATION
  {
  }

  lemma WrapIsPlain(ms: int)
    requires -LAST_OFFSET <= ms <= LAST_OFFSET
    ensures Wrap64(ms * 1_000_000) == ms * 1_000_000
  {
  }

  /**
    The whole-second reading is within half a second of the offset, and it is the one the other
    comparison makes exactly for the offsets whose whole seconds are a duration: beyond them that
    comparison's nanoseconds wrap around or saturate, and this reading's seconds do not.
   */
  lemma OffsetAgreesWithComparison(ms: int)
    ensures -500 <= ms - OffsetSeconds(ms) * 1000 <= 500
    ensures ClockOffset(Some(ms)) == Some(OffsetSeconds(ms) * SECOND) <==> -LAST_OFFSET <= ms <= LAST_OFFSET
  {
    hide RoundToSecond, OffsetSeconds, Wrap64;
    OffsetIsNear(ms);
    if -LAST_OFFSET <= ms <= LAST_OFFSET {
      WrapIsPlain(ms);
      RoundWithin(ms);
    } else {
      WrapStays(ms * 1_000_000);
      RoundStays(Wrap64(ms * 1_000_000));
      OffsetIsNear(-ms);
      OffsetIsOdd(ms);
    }
  }

  /** A witness: the largest recordable offset is no skew at all to the one comparison and eras to the other. */
  lemma OffsetAvoidsOverflow()
    ensures ClockOffset(Some(0x7fff_ffff_ffff_ffff)) == Some(0)
    ensures OffsetSeconds(0x7fff_ffff_ffff_ffff) == 9_223_372_036_854_776
  {
    hide Wrap64, RoundToSecond;
    WrapAt(0x7fff_ffff_ffff_ffff * 1_000_000, 500_000, 0x8000_0000_0000_0000 - 1_000_000);
    RoundsToZero();
  }

  lemma WrapAt(n: int, q: int, r: int)
    requires n + 0x8000_0000_0000_0000 == q * 0x1_0000_0000_0000_0000 + r && 0 <= r < 0x1_0000_0000_0000_0000
    ensures Wrap64(n) == r - 0x8000_0000_0000_0000
  {
  }

  lemma RoundsToZero()
    ensures RoundToSecond(-1_000_000) == 0
  {
  }

  // ---------------------------------------------------------------- one check

  function DNSOutcome(c: Check): string {
    var o := ObservedOf(c);
    if c.id != "dns" && c.id != "dns_public" then ""
    else if o.dnsNotFound then "negative_answer"
    else if |o.addresses| > 0 then "addresses_returned"
    else if c.cause == "dns_timeout" then "timeout"
    else if c.cause == "dns_temporary_failure" then "temporary_failure"
    else ""
  }

  function HeadEvidence(a: Check, b: Check, redacted: bool): seq<EvidenceComparison> {
    var x, y := ObservedOf(a), ObservedOf(b);
    var out := Add([], "cause", Scalar(a.cause), Scalar(b.cause), false, redacted);
    var out := Add(out, "cause_family", Scalar(a.causeFamily), Scalar(b.causeFamily), false, redacted);
    var out :=
      Add(out, "address_families.ipv4", Scalar(FamiliesOf(x).ipv4), Scalar(FamiliesOf(y).ipv4), false, redacted);
    var out :=
      Add(out, "address_families.ipv6", Scalar(FamiliesOf(x).ipv6), Scalar(FamiliesOf(y).ipv6), false, redacted);
    var out := Add(out, "dns_name_scope", Scalar(x.dnsNameScope), Scalar(y.dnsNameScope), false, redacted);
    Add(out, "dns_outcome", Scalar(DNSOutcome(a)), Scalar(DNSOutcome(b)), false, redacted)
  }

  function AddressEvidence(out: seq<EvidenceComparison>, net: Net, x: Observed, y: Observed,
                           redacted: bool): seq<EvidenceComparison> {
    var out := Add(out, "addresses", AddressValues(net, x.addresses), AddressValues(net, y.addresses), true, redacted);
    var out :=
      Add(out, "selected_ip", AddressValues(net, Nonempty(x.selectedIP)), AddressValues(net, Nonempty(y.selectedIP)),
          true, redacted);
    var out :=
      Add(out, "resolver", AddressValues(net, Nonempty(x.resolver)), AddressValues(net, Nonempty(y.resolver)), true,
          redacted);
    var out :=
      Add(out, "resolver_targets", EndpointValues(net, x.resolverTargets), EndpointValues(net, y.resolverTargets),
          true, redacted);
    var out :=
      Add(out, "attempt_outcomes", AttemptValues(net, x.attempts, false), AttemptValues(net, y.attempts, false), false,
          redacted);
    Add(out, "attempts", AttemptValues(net, x.attempts, true), AttemptValues(net, y.attempts, true), true, redacted)
  }

  const ROUTE_FIELDS := [TunnelState, Selection, LinkMTU]

  function FieldName(f: RouteField): string {
    match f case TunnelState => "tunnel" case Selection => "selection" case LinkMTU => "link_mtu"
  }

  function FieldEvidence(out: seq<EvidenceComparison>, net: Net, f: RouteField, x: Observed, y: Observed,
                         redacted: bool): seq<EvidenceComparison> {
    var out :=
      Add(out, "route_" + FieldName(f) + "_states", RouteValues(net, x.routes, false, f),
          RouteValues(net, y.routes, false, f), false, redacted);
    Add(out, "route_" + FieldName(f), RouteValues(net, x.routes, true, f), RouteValues(net, y.routes, true, f), true,
        redacted)
  }

  function TailEvidence(out: seq<EvidenceComparison>, a: Check, b: Check, redacted: bool): seq<EvidenceComparison> {
    var x, y := ObservedOf(a), ObservedOf(b);
    var out := Add(out, "protocol_timeout", Positive(x.timeout), Positive(y.timeout), false, redacted);
    var out :=
      Add(out, "clock_offset_seconds", ClockValues(x.clockOffsetMs), ClockValues(y.clockOffsetMs), false, redacted);
    Add(out, "portal", Scalar(PortalWord(x.portal)), Scalar(PortalWord(y.portal)), false, redacted)
  }

  function DerivedEvidence(out: seq<EvidenceComparison>, a: Check, b: Check, redacted: bool): seq<EvidenceComparison> {
    var x, y := ObservedOf(a), ObservedOf(b);
    var out :=
      Add(out, "connect_cleartext", Positive(x.connectCleartext), Positive(y.connectCleartext), false, redacted);
    var out :=
      Add(out, "derived.status_downgraded", Positive(DerivedOf(a).statusDowngraded),
          Positive(DerivedOf(b).statusDowngraded), false, redacted);
    Add(out, "derived.answer_comparison", Scalar(DerivedOf(a).answerComparison), Scalar(DerivedOf(b).answerComparison),
        false, redacted)
  }

  function CheckEvidenceOf(net: Net, a: Check, b: Check, redacted: bool): seq<EvidenceComparison> {
    var x, y := ObservedOf(a), ObservedOf(b);
    var out := AddressEvidence(HeadEvidence(a, b, redacted), net, x, y, redacted);
    var out := FieldEvidence(out, net, TunnelState, x, y, redacted);
    var out := FieldEvidence(out, net, Selection, x, y, redacted);
    var out := FieldEvidence(out, net, LinkMTU, x, y, redacted);
    DerivedEvidence(TailEvidence(out, a, b, redacted), a, b, redacted)
  }

  method CheckEvidence(net: Net, a: Check, b: Check, redacted: bool) returns (out: seq<EvidenceComparison>)
    ensures out == CheckEvidenceOf(net, a, b, redacted)
  {
    hide Add, RouteValues, AttemptValues, NamedValues, ClockValues, TailEvidence, HeadEvidence, DerivedEvidence;
    var x, y := ObservedOf(a), ObservedOf(b);
    out := HeadEvidence(a, b, redacted);
    var p := EvidenceNamed(IsAddress(net), net.ids.address, x.addresses);
    var q := EvidenceNamed(IsAddress(net), net.ids.address, y.addresses);
    out := Add(out, "addresses", p, q, true, redacted);
    p := EvidenceNamed(IsAddress(net), net.ids.address, Nonempty(x.selectedIP));
    q := EvidenceNamed(IsAddress(net), net.ids.address, Nonempty(y.selectedIP));
    out := Add(out, "selected_ip", p, q, true, redacted);
    p := EvidenceNamed(IsAddress(net), net.ids.address, Nonempty(x.resolver));
    q := EvidenceNamed(IsAddress(net), net.ids.address, Nonempty(y.resolver));
    out := Add(out, "resolver", p, q, true, redacted);
    p := EvidenceNamed(net.isEndpoint, net.ids.endpoint, x.resolverTargets);
    q := EvidenceNamed(net.isEndpoint, net.ids.endpoint, y.resolverTargets);
    out := Add(out, "resolver_targets", p, q, true, redacted);
    p := EvidenceAttempts(net, x.attempts, false);
    q := EvidenceAttempts(net, y.attempts, false);
    out := Add(out, "attempt_outcomes", p, q, false, redacted);
    p := EvidenceAttempts(net, x.attempts, true);
    q := EvidenceAttempts(net, y.attempts, true);
    out := Add(out, "attempts", p, q, true, redacted);
    assert out == AddressEvidence(HeadEvidence(a, b, redacted), net, x, y, redacted);
    ghost var start := out;
    ghost var one := FieldEvidence(start, net, TunnelState, x, y, redacted);
    ghost var two := FieldEvidence(one, net, Selection, x, y, redacted);
    ghost var three := FieldEvidence(two, net, LinkMTU, x, y, redacted);
    for i := 0 to |ROUTE_FIELDS|
      invariant out == if i == 0 then start else if i == 1 then one else if i == 2 then two else three
    {
      var f := ROUTE_FIELDS[i];
      p := EvidenceRoutes(net, x.routes, false, f);
      q := EvidenceRoutes(net, y.routes, false, f);
      out := Add(out, "route_" + FieldName(f) + "_states", p, q, false, redacted);
      p := EvidenceRoutes(net, x.routes, true, f);
      q := EvidenceRoutes(net, y.routes, true, f);
      out := Add(out, "route_" + FieldName(f), p, q, true, redacted);
    }
    out := TailEvidence(out, a, b, redacted);
    out := DerivedEvidence(out, a, b, redacted);
  }

  // ---------------------------------------------------------------- exchanging the machines

  lemma HeadSwaps(a: Check, b: Check, redacted: bool)
    ensures HeadEvidence(b, a, redacted) == AllSwapped(HeadEvidence(a, b, redacted))
  {
    hide Add, Scalar, FamiliesOf, DNSOutcome;
    AddsSwap(redacted);
    assert AllSwapped([]) == [];
  }

  /** AddSwaps for every dimension, triggered on the swapped side. */
  lemma AddsSwap(redacted: bool)
    ensures forall out, dimension, x, y, identity
      {:trigger AllSwapped(Add(out, dimension, x, y, identity, redacted))} ::
      Add(AllSwapped(out), dimension, y, x, identity, redacted)
        == AllSwapped(Add(out, dimension, x, y, identity, redacted))
  {
    forall out, dimension, x, y, identity
      ensures Add(AllSwapped(out), dimension, y, x, identity, redacted)
              == AllSwapped(Add(out, dimension, x, y, identity, redacted))
    {
      AddSwaps(out, dimension, x, y, identity, redacted);
    }
  }

  lemma AddressSwaps(out: seq<EvidenceComparison>, net: Net, x: Observed, y: Observed, redacted: bool)
    ensures AddressEvidence(AllSwapped(out), net, y, x, redacted)
            == AllSwapped(AddressEvidence(out, net, x, y, redacted))
  {
    hide Add, AddressValues, EndpointValues, AttemptValues;
    AddsSwap(redacted);
  }

  lemma FieldSwaps(out: seq<EvidenceComparison>, net: Net, f: RouteField, x: Observed, y: Observed, redacted: bool)
    ensures FieldEvidence(AllSwapped(out), net, f, y, x, redacted)
            == AllSwapped(FieldEvidence(out, net, f, x, y, redacted))
  {
    hide Add, RouteValues;
    AddsSwap(redacted);
  }

  lemma DerivedSwaps(out: seq<EvidenceComparison>, a: Check, b: Check, redacted: bool)
    ensures DerivedEvidence(AllSwapped(out), b, a, redacted) == AllSwapped(DerivedEvidence(out, a, b, redacted))
  {
    hide Add, Scalar, Positive, AllSwapped;
    AddsSwap(redacted);
  }

  lemma TailSwaps(out: seq<EvidenceComparison>, a: Check, b: Check, redacted: bool)
    ensures TailEvidence(AllSwapped(out), b, a, redacted) == AllSwapped(TailEvidence(out, a, b, redacted))
  {
    hide Add, Scalar, Positive, ClockValues;
    AddsSwap(redacted);
  }

  /** Exchanging the machines exchanges the two columns and no relation or reason. */
  lemma EvidenceSwaps(net: Net, a: Check, b: Check, redacted: bool)
    ensures CheckEvidenceOf(net, b, a, redacted) == AllSwapped(CheckEvidenceOf(net, a, b, redacted))
  {
    hide HeadEvidence, AddressEvidence, FieldEvidence, TailEvidence, DerivedEvidence, AllSwapped;
    var x, y := ObservedOf(a), ObservedOf(b);
    HeadSwaps(a, b, redacted);
    var o1 := HeadEvidence(a, b, redacted);
    AddressSwaps(o1, net, x, y, redacted);
    var o2 := AddressEvidence(o1, net, x, y, redacted);
    FieldSwaps(o2, net, TunnelState, x, y, redacted);
    var o3 := FieldEvidence(o2, net, TunnelState, x, y, redacted);
    FieldSwaps(o3, net, Selection, x, y, redacted);
    var o4 := FieldEvidence(o3, net, Selection, x, y, redacted);
    FieldSwaps(o4, net, LinkMTU, x, y, redacted);
    var o5 := FieldEvidence(o4, net, LinkMTU, x, y, redacted);
    TailSwaps(o5, a, b, redacted);
    DerivedSwaps(TailEvidence(o5, a, b, redacted), a, b, redacted);
  }
}
