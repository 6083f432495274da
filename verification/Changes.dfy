/**
  The changes a comparison records, and the recorder's own rules.

  Every rule takes the changes recorded so far and returns them with its own added. What it adds
  is stated twice: as a length, for when nothing is recorded, and as a count of each change up to
  its path, for what the same rule adds when the sides are exchanged. A collection is compared by
  `Collect`, key by key in a report order that the counts do not depend on.
 */
module Changes {
  import opened Ordering
  import opened Snapshots

  /** A recorded value. Each constructor stands for its own injective rendering as text. */
  datatype Value =
    | Text(text: string)
    | Flag(on: bool)
    | Number(n: int)
    | Shown(target: Target)
    | EvidenceList(evidence: seq<CausalEvidence>)
    | AlternativeList(alternatives: seq<Alternative>)
    | Whole(counterfactual: Counterfactual)
    | Outcomes(outcomes: set<(string, string, bool)>)

  /** What renders as the empty string. */
  predicate Absent(v: Value) {
    v == Text("") || v == EvidenceList([]) || v == AlternativeList([])
  }

  datatype Section = InTarget | InTool | InOptions | InDiagnosis | InPaths | InCheck

  datatype Kind = Added | Removed | Changed

  datatype Direction = NoDirection | Better | Worse

  datatype Change = Change(section: Section, check: string, path: string, kind: Kind, before: Value, after: Value,
                           direction: Direction)

  /** A change up to where the report says it is: paths name the earlier side's spellings. */
  datatype Core = Core(section: Section, check: string, kind: Kind, before: Value, after: Value, direction: Direction)

  function CoreOf(c: Change): Core { Core(c.section, c.check, c.kind, c.before, c.after, c.direction) }

  function FlipKind(k: Kind): Kind { match k case Added => Removed case Removed => Added case Changed => Changed }

  function FlipDirection(d: Direction): Direction {
    match d case Better => Worse case Worse => Better case NoDirection => NoDirection
  }

  /** The same difference, seen from the other side. */
  function Flip(c: Core): Core {
    Core(c.section, c.check, FlipKind(c.kind), c.after, c.before, FlipDirection(c.direction))
  }

  /** How many recorded changes have this core. */
  function Count(cs: seq<Change>, core: Core): nat {
    if cs == [] then 0
    else Count(cs[..|cs| - 1], core) + (if CoreOf(cs[|cs| - 1]) == core then 1 else 0)
  }

  lemma CountAppend(cs: seq<Change>, c: Change)
    ensures forall core {:trigger Count(cs + [c], core)} ::
      Count(cs + [c], core) == Count(cs, core) + (if CoreOf(c) == core then 1 else 0)
  {
    assert (cs + [c])[..|cs|] == cs;
  }

  /** The changes up to their paths, and the same seen from the other side. */
  function Cores(cs: seq<Change>): seq<Core> { seq(|cs|, i requires 0 <= i < |cs| => CoreOf(cs[i])) }

  function Mirrored(cs: seq<Change>): seq<Core> { seq(|cs|, i requires 0 <= i < |cs| => Flip(CoreOf(cs[i]))) }

  lemma {:induction false} CountIsMultiplicity(cs: seq<Change>, core: Core)
    ensures Count(cs, core) == multiset(Cores(cs))[core]
  {
    if cs != [] {
      var n := |cs| - 1;
      CountIsMultiplicity(cs[..n], core);
      assert Cores(cs) == Cores(cs[..n]) + [CoreOf(cs[n])];
    }
  }

  lemma FlipIsInjective(c: Core, d: Core)
    ensures Flip(c) == Flip(d) <==> c == d
    ensures Flip(Flip(c)) == c
  {
  }

  lemma {:induction false} MirroredMultiplicity(cs: seq<Change>, core: Core)
    ensures Count(cs, core) == multiset(Mirrored(cs))[Flip(core)]
  {
    hide Flip, CoreOf;
    if cs != [] {
      var n := |cs| - 1;
      MirroredMultiplicity(cs[..n], core);
      assert Mirrored(cs) == Mirrored(cs[..n]) + [Flip(CoreOf(cs[n]))];
      FlipIsInjective(CoreOf(cs[n]), core);
    }
  }

  /** What recording one change with these readings adds to the count of a core. */
  function Hit(section: Section, check: string, kind: Kind, before: Value, after: Value, d: Direction,
               core: Core): nat {
    if Core(section, check, kind, before, after, d) == core then 1 else 0
  }

  // ---------------------------------------------------------------- one field

  function KindOf(before: Value, after: Value): Kind {
    if Absent(before) then Added else if Absent(after) then Removed else Changed
  }

  function FieldHit(section: Section, check: string, before: Value, after: Value, core: Core): nat {
    if before == after then 0 else Hit(section, check, KindOf(before, after), before, after, NoDirection, core)
  }

  /** One scalar difference, or nothing when the two readings agree. */
  function Field(cs: seq<Change>, section: Section, check: string, path: string, before: Value,
                 after: Value): (r: seq<Change>)
    ensures |r| == |cs| + (if before == after then 0 else 1)
    ensures forall core {:trigger Count(r, core)} ::
      Count(r, core) == Count(cs, core) + FieldHit(section, check, before, after, core)
  {
    if before == after then cs
    else
      var c := Change(section, check, path, KindOf(before, after), before, after, NoDirection);
      CountAppend(cs, c);
      cs + [c]
  }

  /** An address-valued difference, read through its identity. */
  function IdentityField(cs: seq<Change>, key: string -> string, section: Section, check: string, path: string,
                         before: string, after: string): (r: seq<Change>)
    ensures |r| == |cs| + (if key(before) == key(after) then 0 else 1)
    ensures forall core {:trigger Count(r, core)} ::
      Count(r, core) == Count(cs, core)
        + (if key(before) == key(after) then 0 else FieldHit(section, check, Text(before), Text(after), core))
  {
    if key(before) == key(after) then cs else Field(cs, section, check, path, Text(before), Text(after))
  }

  function MemberHit(section: Section, check: string, key: string, added: bool, core: Core): nat {
    if added then Hit(section, check, Added, Text(""), Text(key), NoDirection, core)
    else Hit(section, check, Removed, Text(key), Text(""), NoDirection, core)
  }

  /** One item of an unordered collection that is on one side only. */
  function Member(cs: seq<Change>, section: Section, check: string, path: string, key: string,
                  added: bool): (r: seq<Change>)
    ensures |r| == |cs| + 1
    ensures forall core {:trigger Count(r, core)} ::
      Count(r, core) == Count(cs, core) + MemberHit(section, check, key, added, core)
  {
    var c := if added then Change(section, check, path, Added, Text(""), Text(key), NoDirection)
             else Change(section, check, path, Removed, Text(key), Text(""), NoDirection);
    CountAppend(cs, c);
    cs + [c]
  }

  function RankedHit(section: Section, check: string, before: Value, after: Value, d: Direction, core: Core): nat {
    if before == after then 0 else Hit(section, check, Changed, before, after, d, core)
  }

  /** A difference between two outcomes, with the direction the caller's scale gives it. */
  function Ranked(cs: seq<Change>, section: Section, check: string, path: string, before: Value, after: Value,
                  d: Direction): (r: seq<Change>)
    ensures |r| == |cs| + (if before == after then 0 else 1)
    ensures forall core {:trigger Count(r, core)} ::
      Count(r, core) == Count(cs, core) + RankedHit(section, check, before, after, d, core)
  {
    if before == after then cs
    else
      var c := Change(section, check, path, Changed, before, after, d);
      CountAppend(cs, c);
      cs + [c]
  }

  /** What each rule adds is what the same rule adds to the flipped core, read from the other side. */
  lemma HitsFlip(core: Core)
    ensures forall section, check, before, after {:trigger FieldHit(section, check, before, after, core)} ::
      (Absent(before) && Absent(after) ==> before == after) ==>
        FieldHit(section, check, before, after, core) == FieldHit(section, check, after, before, Flip(core))
    ensures forall section, check, key, added {:trigger MemberHit(section, check, key, added, core)} ::
      MemberHit(section, check, key, added, core) == MemberHit(section, check, key, !added, Flip(core))
    ensures forall section, check, before, after, d {:trigger RankedHit(section, check, before, after, d, core)} ::
      RankedHit(section, check, before, after, d, core)
        == RankedHit(section, check, after, before, FlipDirection(d), Flip(core))
  {
  }

  // ---------------------------------------------------------------- over a list of keys

  /** Record what `one` records for each key in turn. */
  function Collect(cs: seq<Change>, order: seq<string>, one: (seq<Change>, string) -> seq<Change>): seq<Change> {
    if order == [] then cs
    else one(Collect(cs, order[..|order| - 1], one), order[|order| - 1])
  }

  function SumBy(order: seq<string>, w: string -> nat): nat {
    if order == [] then 0 else SumBy(order[..|order| - 1], w) + w(order[|order| - 1])
  }

  lemma {:induction false} CollectCount(cs: seq<Change>, order: seq<string>, one: (seq<Change>, string) -> seq<Change>,
                                        w: string -> nat, core: Core)
    requires forall ds, id {:trigger one(ds, id)} :: Count(one(ds, id), core) == Count(ds, core) + w(id)
    ensures Count(Collect(cs, order, one), core) == Count(cs, core) + SumBy(order, w)
  {
    if order != [] {
      CollectCount(cs, order[..|order| - 1], one, w, core);
    }
  }

  lemma {:induction false} SumByPermutes(a: seq<string>, b: seq<string>, w: string -> nat, w': string -> nat)
    requires multiset(a) == multiset(b) && forall id :: w(id) == w'(id)
    ensures SumBy(a, w) == SumBy(b, w')
  {
    if a == [] {
      assert |b| == |multiset(b)| == 0;
    } else {
      var j := TakeOut(a, b);
      SumByPermutes(a[..|a| - 1], b[..j] + b[j + 1..], w, w');
      SumByRemove(b, j, w');
    }
  }

  lemma {:induction false} SumByConcat(a: seq<string>, b: seq<string>, w: string -> nat)
    ensures SumBy(a + b, w) == SumBy(a, w) + SumBy(b, w)
  {
    if b == [] {
      assert a + b == a;
    } else {
      SumByConcat(a, b[..|b| - 1], w);
      assert (a + b)[..|a + b| - 1] == a + b[..|b| - 1];
    }
  }

  lemma SumByRemove(b: seq<string>, j: nat, w: string -> nat)
    requires j < |b|
    ensures SumBy(b, w) == SumBy(b[..j] + b[j + 1..], w) + w(b[j])
  {
    hide SumBy;
    assert b == b[..j] + [b[j]] + b[j + 1..];
    SumByConcat(b[..j] + [b[j]], b[j + 1..], w);
    SumByConcat(b[..j], [b[j]], w);
    SumByConcat(b[..j], b[j + 1..], w);
    SumByOne(b[j], w);
  }

  lemma SumByOne(id: string, w: string -> nat)
    ensures SumBy([id], w) == w(id)
  {
    assert [id][..0] == [];
  }
}
