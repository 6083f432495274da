/**
  What the evidence of one check amounts to.

  One row for every dimension in which either machine says something, its two columns what each
  machine says there, and the relation and the reason read off the columns alone.
 */
module EvidenceTable {
  import opened Wrappers
  import opened Text
  import opened Ordering
  import opened Snapshots
  import opened Compare
  import opened CompareCanon
  import opened Evidence

  // ---------------------------------------------------------------- one dimension

  /**
    A row of the table. Nothing is concluded from identities that were redacted or from a side that
    is not wholly known; otherwise the two sides are equivalent or different, as they say the same.
   */
  predicate Weighs(c: EvidenceComparison, dimension: string, x: Values, y: Values, identity: bool, redacted: bool) {
    && (x.facts != [] || y.facts != [])
    && c.dimension == dimension && c.a == x.facts && c.b == y.facts
    && (c.reason == RedactedIdentity <==> identity && redacted)
    && (c.reason == MissingEvidence <==> !(identity && redacted) && !(x.known && y.known))
    && (c.relation == Unknown <==> (identity && redacted) || !x.known || !y.known)
    && (c.relation == Equivalent <==> !(identity && redacted) && x.known && y.known && x.facts == y.facts)
  }

  /** One word a machine says, or nothing, which is not known. */
  function Word(s: string): Values {
    if s != "" then Values([EvidenceFact("", "", s, false)], true) else Values([], false)
  }

  function Seen(b: bool): Values { Word(if b then "observed" else "") }

  lemma Words(s: string, b: bool)
    ensures Scalar(s) == Word(s) && Positive(b) == Seen(b)
  {
  }

  /** What a name lookup came to, in the order the answers settle it. */
  predicate Came(c: Check, word: string) {
    var lookup, o := c.id == "dns" || c.id == "dns_public", ObservedOf(c);
    && (word == "negative_answer" <==> lookup && o.dnsNotFound)
    && (word == "addresses_returned" <==> lookup && !o.dnsNotFound && o.addresses != [])
    && (word == "timeout" <==> lookup && !o.dnsNotFound && o.addresses == [] && c.cause == "dns_timeout")
    && (word == "temporary_failure" <==>
      lookup && !o.dnsNotFound && o.addresses == [] && c.cause == "dns_temporary_failure")
    && word in {"negative_answer", "addresses_returned", "timeout", "temporary_failure", ""}
  }

  lemma OutcomeCame(c: Check)
    ensures Came(c, DNSOutcome(c))
  {
  }

  // ---------------------------------------------------------------- the table

  predicate HeadWeighs(a: Check, b: Check, c: EvidenceComparison, redacted: bool) {
    var x, y := ObservedOf(a), ObservedOf(b);
    || Weighs(c, "cause", Word(a.cause), Word(b.cause), false, redacted)
    || Weighs(c, "cause_family", Word(a.causeFamily), Word(b.causeFamily), false, redacted)
    || Weighs(c, "address_families.ipv4", Word(FamiliesOf(x).ipv4), Word(FamiliesOf(y).ipv4), false, redacted)
    || Weighs(c, "address_families.ipv6", Word(FamiliesOf(x).ipv6), Word(FamiliesOf(y).ipv6), false, redacted)
    || Weighs(c, "dns_name_scope", Word(x.dnsNameScope), Word(y.dnsNameScope), false, redacted)
    || Weighs(c, "dns_outcome", Word(DNSOutcome(a)), Word(DNSOutcome(b)), false, redacted)
  }

  /** A single recorded value as a list. */
  function Only(s: string): seq<string> { if s != "" then [s] else [] }

  lemma OnlyOne(s: string)
    ensures Only(s) == Nonempty(s)
  {
  }

  predicate AddressesWeigh(net: Net, x: Observed, y: Observed, c: EvidenceComparison, redacted: bool) {
    || Weighs(c, "addresses", AddressValues(net, x.addresses), AddressValues(net, y.addresses), true, redacted)
    || Weighs(c, "selected_ip", AddressValues(net, Only(x.selectedIP)), AddressValues(net, Only(y.selectedIP)), true,
              redacted)
    || Weighs(c, "resolver", AddressValues(net, Only(x.resolver)), AddressValues(net, Only(y.resolver)), true, redacted)
    || Weighs(c, "resolver_targets", EndpointValues(net, x.resolverTargets), EndpointValues(net, y.resolverTargets),
              true, redacted)
    || Weighs(c, "attempt_outcomes", AttemptValues(net, x.attempts, false), AttemptValues(net, y.attempts, false),
              false, redacted)
    || Weighs(c, "attempts", AttemptValues(net, x.attempts, true), AttemptValues(net, y.attempts, true), true, redacted)
  }

  predicate RouteWeighs(net: Net, f: RouteField, name: string, states: string, x: Observed, y: Observed,
                        c: EvidenceComparison, redacted: bool) {
    || Weighs(c, states, RouteValues(net, x.routes, false, f), RouteValues(net, y.routes, false, f), false, redacted)
    || Weighs(c, name, RouteValues(net, x.routes, true, f), RouteValues(net, y.routes, true, f), true, redacted)
  }

  predicate RoutesWeigh(net: Net, x: Observed, y: Observed, c: EvidenceComparison, redacted: bool) {
    || RouteWeighs(net, TunnelState, "route_tunnel", "route_tunnel_states", x, y, c, redacted)
    || RouteWeighs(net, Selection, "route_selection", "route_selection_states", x, y, c, redacted)
    || RouteWeighs(net, LinkMTU, "route_link_mtu", "route_link_mtu_states", x, y, c, redacted)
  }

  predicate TailWeighs(a: Check, b: Check, c: EvidenceComparison, redacted: bool) {
    var x, y := ObservedOf(a), ObservedOf(b);
    || Weighs(c, "protocol_timeout", Seen(x.timeout), Seen(y.timeout), false, redacted)
    || Weighs(c, "clock_offset_seconds", Offset(x.clockOffsetMs), Offset(y.clockOffsetMs), false, redacted)
    || Weighs(c, "portal", Word(if x.portal.Some? then "intercepted" else ""),
              Word(if y.portal.Some? then "intercepted" else ""), false, redacted)
  }

  predicate DerivedWeighs(a: Check, b: Check, c: EvidenceComparison, redacted: bool) {
    var x, y := ObservedOf(a), ObservedOf(b);
    || Weighs(c, "connect_cleartext", Seen(x.connectCleartext), Seen(y.connectCleartext), false, redacted)
    || Weighs(c, "derived.status_downgraded", Seen(DerivedOf(a).statusDowngraded), Seen(DerivedOf(b).statusDowngraded),
              false, redacted)
    || Weighs(c, "derived.answer_comparison", Word(DerivedOf(a).answerComparison), Word(DerivedOf(b).answerComparison),
              false, redacted)
  }

  function Offset(ms: Option<int>): Values { Word(if ms.Some? then Itoa(OffsetSeconds(ms.value)) else "") }

  predicate RowOfTable(net: Net, a: Check, b: Check, c: EvidenceComparison, redacted: bool) {
    var x, y := ObservedOf(a), ObservedOf(b);
    || HeadWeighs(a, b, c, redacted) || AddressesWeigh(net, x, y, c, redacted)
    || RoutesWeigh(net, x, y, c, redacted) || TailWeighs(a, b, c, redacted)
    || DerivedWeighs(a, b, c, redacted)
  }

  // ---------------------------------------------------------------- the rows that are there

  lemma AddsHave()
    ensures forall out, dimension, x, y, identity, redacted, c
      {:trigger c in Add(out, dimension, x, y, identity, redacted)} ::
      c in Add(out, dimension, x, y, identity, redacted) <==> c in out || Weighs(c, dimension, x, y, identity, redacted)
  {
    forall out, dimension, x, y, identity, redacted, c {:trigger c in Add(out, dimension, x, y, identity, redacted)}
      ensures c in Add(out, dimension, x, y, identity, redacted) <==>
        c in out || Weighs(c, dimension, x, y, identity, redacted)
    {
      AddHas(out, dimension, x, y, identity, redacted, c);
    }
  }

  lemma AddHas(out: seq<EvidenceComparison>, dimension: string, x: Values, y: Values, identity: bool, redacted: bool,
               c: EvidenceComparison)
    ensures c in Add(out, dimension, x, y, identity, redacted) <==>
      c in out || Weighs(c, dimension, x, y, identity, redacted)
  {
    assert Weighs(c, dimension, x, y, identity, redacted) ==> c == Compared(dimension, x, y, identity, redacted);
  }

  lemma HeadRows(a: Check, b: Check, redacted: bool)
    ensures forall c :: c in HeadEvidence(a, b, redacted) <==> HeadWeighs(a, b, c, redacted)
  {
    hide Add, Weighs, Scalar, Word, DNSOutcome, FamiliesOf;
    AddsHave();
    WordsAlways();
  }

  lemma AddressRows(out: seq<EvidenceComparison>, net: Net, x: Observed, y: Observed, redacted: bool)
    ensures forall c :: c in AddressEvidence(out, net, x, y, redacted) <==>
      c in out || AddressesWeigh(net, x, y, c, redacted)
  {
    hide Add, Weighs, AddressValues, EndpointValues, AttemptValues, Nonempty, Only;
    AddsHave();
    forall s
      ensures Only(s) == Nonempty(s)
    {
      OnlyOne(s);
    }
  }

  lemma RouteRows(out: seq<EvidenceComparison>, net: Net, f: RouteField, name: string, states: string, x: Observed,
                  y: Observed, redacted: bool)
    requires name == "route_" + FieldName(f) && states == "route_" + FieldName(f) + "_states"
    ensures forall c :: c in FieldEvidence(out, net, f, x, y, redacted) <==>
      c in out || RouteWeighs(net, f, name, states, x, y, c, redacted)
  {
    hide Add, Weighs, RouteValues, FieldName;
    AddsHave();
  }

  lemma TailRows(out: seq<EvidenceComparison>, a: Check, b: Check, redacted: bool)
    ensures forall c :: c in TailEvidence(out, a, b, redacted) <==> c in out || TailWeighs(a, b, c, redacted)
  {
    hide Add, Weighs, Scalar, Positive, Word, ClockValues, Offset;
    AddsHave();
    WordsAlways();
    ClockSays(ObservedOf(a).clockOffsetMs);
    ClockSays(ObservedOf(b).clockOffsetMs);
  }

  lemma DerivedRows(out: seq<EvidenceComparison>, a: Check, b: Check, redacted: bool)
    ensures forall c :: c in DerivedEvidence(out, a, b, redacted) <==> c in out || DerivedWeighs(a, b, c, redacted)
  {
    hide Add, Weighs, Scalar, Positive, Word, DerivedOf;
    AddsHave();
    WordsAlways();
  }

  lemma WordsAlways()
    ensures forall s :: Scalar(s) == Word(s)
    ensures forall b :: Positive(b) == Seen(b)
  {
    forall s, b
      ensures Scalar(s) == Word(s) && Positive(b) == Seen(b)
    {
      Words(s, b);
    }
  }

  lemma ClockSays(ms: Option<int>)
    ensures ClockValues(ms) == Offset(ms)
  {
    hide Itoa, OffsetSeconds;
  }

  /** The rows of one check are exactly those of the table. */
  lemma EvidenceIsTable(net: Net, a: Check, b: Check, redacted: bool, c: EvidenceComparison)
    ensures c in CheckEvidenceOf(net, a, b, redacted) <==> RowOfTable(net, a, b, c, redacted)
  {
    hide HeadEvidence, AddressEvidence, FieldEvidence, TailEvidence, DerivedEvidence;
    hide HeadWeighs, AddressesWeigh, RouteWeighs, TailWeighs, DerivedWeighs;
    var x, y := ObservedOf(a), ObservedOf(b);
    HeadRows(a, b, redacted);
    var head := HeadEvidence(a, b, redacted);
    AddressRows(head, net, x, y, redacted);
    var addresses := AddressEvidence(head, net, x, y, redacted);
    RouteRows(addresses, net, TunnelState, "route_tunnel", "route_tunnel_states", x, y, redacted);
    var one := FieldEvidence(addresses, net, TunnelState, x, y, redacted);
    RouteRows(one, net, Selection, "route_selection", "route_selection_states", x, y, redacted);
    var two := FieldEvidence(one, net, Selection, x, y, redacted);
    RouteRows(two, net, LinkMTU, "route_link_mtu", "route_link_mtu_states", x, y, redacted);
    var three := FieldEvidence(two, net, LinkMTU, x, y, redacted);
    TailRows(three, a, b, redacted);
    DerivedRows(TailEvidence(three, a, b, redacted), a, b, redacted);
  }

  // ---------------------------------------------------------------- the facts

  /** An attempt that came to nothing anyone could name. */
  predicate Unsaid(a: Attempt) { a.cause == "" && (a.error != "" || a.aborted) }

  /** What an attempt's fact says: its cause, or that it succeeded, or that nobody knows. */
  lemma AttemptFactMeans(net: Net, identities: bool, a: Attempt)
    ensures var f := AttemptFact(net, identities, a);
      && f.address == (if identities then net.ids.address(a.ip) else "")
      && f.family == (if net.is4(a.ip) then "ipv4" else "ipv6") && f.aborted == a.aborted
      && (a.cause != "" ==> f.value == a.cause)
      && (a.cause == "" ==>
        (f.value == "unknown" <==> Unsaid(a)) && (f.value == "succeeded" <==> a.error == "" && !a.aborted))
    ensures AttemptKnown(net, a) <==> net.parse(a.ip).Some? && !Unsaid(a)
  {
  }

  /** What a route's fact says in each dimension, and when the route says nothing there. */
  lemma RouteFactMeans(net: Net, identities: bool, field: RouteField, r: Route)
    ensures var f := RouteFact(net, identities, field, r);
      && f.address == (if identities then net.ids.address(r.destination) else "")
      && f.family == (if net.is4(r.destination) then "ipv4" else "ipv6") && !f.aborted
    ensures var v := RouteFact(net, identities, field, r).value;
      match field
      case TunnelState => v == if r.tunnel == "" then "unknown" else r.tunnel
      case Selection =>
        && (v == "unreachable" <==> r.unreachable) && (v == "selected" <==> !r.unreachable && r.iface != "")
        && (v == "unknown" <==> !r.unreachable && r.iface == "")
      case LinkMTU => r.interfaceMTU > 0 ==> RouteWord(field, r) == Itoa(r.interfaceMTU)
    ensures RouteKnown(net, field, r) ==> net.parse(r.destination).Some?
    ensures field == Selection ==>
      (RouteKnown(net, field, r) <==> net.parse(r.destination).Some? && (r.unreachable || r.iface != ""))
    ensures field == TunnelState ==> (RouteKnown(net, field, r) <==> net.parse(r.destination).Some? && r.tunnel != "")
    ensures field == LinkMTU && r.interfaceMTU <= 0 ==> !RouteKnown(net, field, r)
  {
  }
}
