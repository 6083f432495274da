/**
  Destination ordering before the race (RFC 8305, section 4) and what a finished race proves
  about one address family.
 */
module Families {

  /** An address is its value; To4() tells the family. */
  datatype Address = V4(host: nat) | V6(host: nat)

  /** At most this many addresses are dialed. */
  const MAX_ATTEMPTS: nat := 16

  function OfFamily(ips: seq<Address>, v4: bool): seq<Address> {
    if ips == [] then []
    else if ips[0].V4? == v4 then [ips[0]] + OfFamily(ips[1..], v4)
    else OfFamily(ips[1..], v4)
  }

  lemma {:induction false} OfFamilyAppend(ips: seq<Address>, ip: Address, v4: bool)
    ensures OfFamily(ips + [ip], v4) == OfFamily(ips, v4) + (if ip.V4? == v4 then [ip] else [])
  {
    if ips == [] {
      assert [ip][1..] == [];
    } else {
      assert (ips + [ip])[1..] == ips[1..] + [ip];
      OfFamilyAppend(ips[1..], ip, v4);
    }
  }

  lemma {:induction false} OfFamilySplits(ips: seq<Address>)
    ensures multiset(OfFamily(ips, true)) + multiset(OfFamily(ips, false)) == multiset(ips)
  {
    if ips != [] {
      OfFamilySplits(ips[1..]);
      assert ips == [ips[0]] + ips[1..];
    }
  }

  lemma {:induction false} OfFamilyPure(ips: seq<Address>, v4: bool)
    ensures forall k :: 0 <= k < |OfFamily(ips, v4)| ==> OfFamily(ips, v4)[k].V4? == v4
  {
    if ips != [] {
      OfFamilyPure(ips[1..], v4);
    }
  }

  /** One of a, one of b, and so on; the longer one ends alone. */
  function Zip(a: seq<Address>, b: seq<Address>): seq<Address>
    decreases |a| + |b|
  {
    if a == [] then b else [a[0]] + Zip(b, a[1..])
  }

  lemma {:induction false} ZipPermutes(a: seq<Address>, b: seq<Address>)
    ensures multiset(Zip(a, b)) == multiset(a) + multiset(b)
    decreases |a| + |b|
  {
    if a != [] {
      ZipPermutes(b, a[1..]);
      assert a == [a[0]] + a[1..];
    }
  }

  lemma {:induction false} ZipFamily(a: seq<Address>, b: seq<Address>, v4: bool)
    requires forall k :: 0 <= k < |a| ==> a[k].V4? == v4
    requires forall k :: 0 <= k < |b| ==> b[k].V4? != v4
    ensures OfFamily(Zip(a, b), v4) == a && OfFamily(Zip(a, b), !v4) == b
    decreases |a| + |b|
  {
    if a == [] {
      AllOfFamily(b, !v4);
    } else {
      ZipFamily(b, a[1..], !v4);
      var rest := Zip(b, a[1..]);
      assert ([a[0]] + rest)[1..] == rest;
    }
  }

  lemma {:induction false} AllOfFamily(ips: seq<Address>, v4: bool)
    requires forall k :: 0 <= k < |ips| ==> ips[k].V4? == v4
    ensures OfFamily(ips, v4) == ips && OfFamily(ips, !v4) == []
  {
    if ips != [] {
      AllOfFamily(ips[1..], v4);
    }
  }

  /** While both families last, position k holds a's family exactly when k is even. */
  lemma {:induction false} ZipAlternates(a: seq<Address>, b: seq<Address>, k: nat)
    requires k < |Zip(a, b)| && k / 2 < |a| && k / 2 < |b|
    ensures Zip(a, b)[k] == if k % 2 == 0 then a[k / 2] else b[k / 2]
    decreases |a| + |b|
  {
    if k > 0 {
      assert Zip(a, b) == [a[0]] + Zip(b, a[1..]);
      if k > 1 {
        assert Zip(b, a[1..]) == [b[0]] + Zip(a[1..], b[1..]);
        ZipAlternates(a[1..], b[1..], k - 2);
      }
    }
  }

  function Interleaved(ips: seq<Address>): seq<Address> {
    var v4, v6 := OfFamily(ips, true), OfFamily(ips, false);
    if v4 == [] || v6 == [] then ips else Zip(v6, v4)
  }

  method SplitFamilies(ips: seq<Address>) returns (v4: seq<Address>, v6: seq<Address>)
    ensures v4 == OfFamily(ips, true) && v6 == OfFamily(ips, false)
  {
    v4, v6 := [], [];
    for i := 0 to |ips|
      invariant v4 == OfFamily(ips[..i], true) && v6 == OfFamily(ips[..i], false)
    {
      assert ips[..i + 1] == ips[..i] + [ips[i]];
      OfFamilyAppend(ips[..i], ips[i], true);
      OfFamilyAppend(ips[..i], ips[i], false);
      if ips[i].V4? {
        v4 := v4 + [ips[i]];
      } else {
        v6 := v6 + [ips[i]];
      }
    }
    assert ips[..|ips|] == ips;
  }

  method InterleaveFamilies(ips: seq<Address>) returns (out: seq<Address>)
    ensures out == Interleaved(ips)
  {
    var v4, v6 := SplitFamilies(ips);
    if |v6| == 0 || |v4| == 0 {
      return ips;
    }
    hide Zip, OfFamily, Drop;
    out := [];
    var i := 0;
    assert Drop(v6, 0) == v6 && Drop(v4, 0) == v4;
    while i < |v6| || i < |v4|
      invariant 0 <= i
      invariant out + Zip(Drop(v6, i), Drop(v4, i)) == Zip(v6, v4)
      decreases |v6| + |v4| - i
    {
      ZipTake(out, v6, v4, i);
      ghost var before, rest := out, Zip(Drop(v6, i + 1), Drop(v4, i + 1));
      if i < |v6| {
        out := out + [v6[i]];
      }
      assert out == before + (if i < |v6| then [v6[i]] else []);
      if i < |v4| {
        out := out + [v4[i]];
      }
      assert out == before + (if i < |v6| then [v6[i]] else []) + (if i < |v4| then [v4[i]] else []);
      assert out + rest == Zip(v6, v4);
      i := i + 1;
    }
    ZipStep([], []);
    assert out + [] == out;
  }

  /** One round of the loop takes the next of each that is left. */
  lemma ZipTake(out: seq<Address>, v6: seq<Address>, v4: seq<Address>, i: nat)
    ensures (if i < |v6| then [v6[i]] else []) == Head(Drop(v6, i))
    ensures (if i < |v4| then [v4[i]] else []) == Head(Drop(v4, i))
    ensures out + Zip(Drop(v6, i), Drop(v4, i))
         == (out + (if i < |v6| then [v6[i]] else []) + (if i < |v4| then [v4[i]] else []))
           + Zip(Drop(v6, i + 1), Drop(v4, i + 1))
  {
    hide Zip;
    var a, b := Drop(v6, i), Drop(v4, i);
    ZipStep(a, b);
    assert Drop(v6, i + 1) == Tail(a) && Drop(v4, i + 1) == Tail(b);
  }

  function Drop(s: seq<Address>, i: nat): seq<Address> { if i <= |s| then s[i..] else [] }

  function Head(s: seq<Address>): seq<Address> { if s == [] then [] else [s[0]] }

  function Tail(s: seq<Address>): seq<Address> { if s == [] then [] else s[1..] }

  lemma ZipStep(a: seq<Address>, b: seq<Address>)
    ensures Zip(a, b) == Head(a) + Head(b) + Zip(Tail(a), Tail(b))
    ensures a == b == [] ==> Zip(a, b) == []
  {
    if a == [] && b != [] {
      assert Zip([], b[1..]) == b[1..];
    } else if a != [] {
      assert Zip(a, b) == [a[0]] + Zip(b, a[1..]);
    }
  }

  /**
    The order handed to the race: a permutation that keeps the resolver's order within each
    family, starts with IPv6 when there is any beside IPv4, and alternates while both last.
   */
  lemma InterleavingAlternates(ips: seq<Address>, k: nat)
    ensures multiset(Interleaved(ips)) == multiset(ips)
    ensures forall v4 :: OfFamily(Interleaved(ips), v4) == OfFamily(ips, v4)
    ensures k < |Interleaved(ips)| && k / 2 < |OfFamily(ips, true)| && k / 2 < |OfFamily(ips, false)| ==>
              Interleaved(ips)[k].V4? == (k % 2 == 1)
  {
    var v4, v6 := OfFamily(ips, true), OfFamily(ips, false);
    OfFamilyPure(ips, true);
    OfFamilyPure(ips, false);
    OfFamilySplits(ips);
    ZipPermutes(v6, v4);
    ZipFamily(v6, v4, false);
    if k < |Zip(v6, v4)| && k / 2 < |v4| && k / 2 < |v6| {
      ZipAlternates(v6, v4, k);
    }
  }

  // ---------------------------------------------------------------- the cap

  function Take(ips: seq<Address>, m: nat): seq<Address> { if |ips| > m then ips[..m] else ips }

  /** The addresses the race is over. */
  function Dialed(ips: seq<Address>): seq<Address> { Take(Interleaved(ips), MAX_ATTEMPTS) }

  function Min(a: int, b: int): int { if a < b then a else b }

  function Max(a: int, b: int): int { if a < b then b else a }

  /** A cut after h rounds is the first round and a cut of the rest. */
  lemma TakeRound(a: seq<Address>, b: seq<Address>, h: nat)
    requires a != [] && b != [] && h > 0
    ensures Take(Zip(a, b), 2 * h) == [a[0], b[0]] + Take(Zip(a[1..], b[1..]), 2 * h - 2)
  {
    hide Take;
    var rest := Zip(a[1..], b[1..]);
    assert Zip(a, b) == [a[0]] + ([b[0]] + rest) == [a[0], b[0]] + rest;
    TakePair(a[0], b[0], rest, 2 * h - 2);
  }

  lemma TakePair(x: Address, y: Address, rest: seq<Address>, m: nat)
    ensures Take([x, y] + rest, m + 2) == [x, y] + Take(rest, m)
  {
    if |rest| > m {
      assert ([x, y] + rest)[..m + 2] == [x, y] + rest[..m];
    }
  }

  lemma OfFamilyRound(x: Address, y: Address, rest: seq<Address>)
    requires x.V4? != y.V4?
    ensures |OfFamily([x, y] + rest, x.V4?)| == 1 + |OfFamily(rest, x.V4?)|
    ensures |OfFamily([x, y] + rest, y.V4?)| == 1 + |OfFamily(rest, y.V4?)|
  {
    assert ([x, y] + rest)[1..] == [y] + rest;
    assert ([y] + rest)[1..] == rest;
  }

  /** A cut after h rounds leaves each family h addresses, and what the other does not use. */
  lemma {:induction false} ZipShare(a: seq<Address>, b: seq<Address>, h: nat, v4: bool)
    requires forall k :: 0 <= k < |a| ==> a[k].V4? == v4
    requires forall k :: 0 <= k < |b| ==> b[k].V4? != v4
    ensures |OfFamily(Take(Zip(a, b), 2 * h), v4)| == Min(|a|, Max(h, 2 * h - |b|))
    ensures |OfFamily(Take(Zip(a, b), 2 * h), !v4)| == Min(|b|, Max(h, 2 * h - |a|))
  {
    hide OfFamily;
    if a == [] {
      AllOfFamily(Take(b, 2 * h), !v4);
    } else if b == [] {
      assert Zip(a, b) == [a[0]] + a[1..] == a;
      AllOfFamily(Take(a, 2 * h), v4);
    } else if h == 0 {
      AllOfFamily([], v4);
    } else {
      ZipShare(a[1..], b[1..], h - 1, v4);
      TakeRound(a, b, h);
      hide Zip, Take;
      OfFamilyRound(a[0], b[0], Take(Zip(a[1..], b[1..]), 2 * h - 2));
    }
  }

  /**
    The cap takes nothing from either family while the other could spare it: each gets half of the
    attempts, and whatever the other leaves. So neither disappears, and none monopolizes the race.
   */
  lemma CapIsFair(ips: seq<Address>, v4: bool)
    ensures Dialed(ips) <= Interleaved(ips) && |Dialed(ips)| == Min(|ips|, MAX_ATTEMPTS)
    ensures |OfFamily(Dialed(ips), v4)|
         == Min(|OfFamily(ips, v4)|, Max(MAX_ATTEMPTS / 2, MAX_ATTEMPTS - |OfFamily(ips, !v4)|))
    ensures OfFamily(ips, v4) != [] ==> OfFamily(Dialed(ips), v4) != []
  {
    hide Zip, OfFamily;
    var with4, with6 := OfFamily(ips, true), OfFamily(ips, false);
    OfFamilyPure(ips, true);
    OfFamilyPure(ips, false);
    OfFamilySplits(ips);
    ZipPermutes(with6, with4);
    assert |multiset(Interleaved(ips))| == |multiset(ips)|;
    if with4 != [] && with6 != [] {
      ZipShare(with6, with4, MAX_ATTEMPTS / 2, false);
    } else {
      OneFamily(ips, with6 == []);
    }
  }

  lemma {:induction false} NoneOfFamily(ips: seq<Address>, v4: bool)
    requires OfFamily(ips, v4) == []
    ensures forall k :: 0 <= k < |ips| ==> ips[k].V4? != v4
  {
    if ips != [] {
      NoneOfFamily(ips[1..], v4);
      assert forall k :: 0 < k < |ips| ==> ips[k] == ips[1..][k - 1];
    }
  }

  lemma OneFamily(ips: seq<Address>, v4: bool)
    requires OfFamily(ips, !v4) == []
    ensures OfFamily(ips, v4) == ips
    ensures OfFamily(Take(ips, MAX_ATTEMPTS), v4) == Take(ips, MAX_ATTEMPTS)
            && OfFamily(Take(ips, MAX_ATTEMPTS), !v4) == []
  {
    hide OfFamily;
    NoneOfFamily(ips, !v4);
    AllOfFamily(ips, v4);
    AllOfFamily(Take(ips, MAX_ATTEMPTS), v4);
  }

  datatype FamilyState = Untested | Reachable | Unreachable

  /**
    A family is called unreachable only when every eligible address was tried, whatever the
    order of the attempts, and a connection settles it as reachable.
   */
  method TargetFamilyState(ips: seq<Address>, connected: bool, attempts: seq<Address>) returns (state: FamilyState)
    ensures state == Unreachable <==> ips != [] && !connected && forall ip :: ip in ips ==> ip in attempts
    ensures state == Reachable <==> ips != [] && connected
  {
    if ips == [] {
      return Untested;
    }
    if connected {
      return Reachable;
    }
    for i := 0 to |ips|
      invariant forall ip :: ip in ips[..i] ==> ip in attempts
    {
      if ips[i] !in attempts {
        return Untested;
      }
    }
    assert ips[..|ips|] == ips;
    return Unreachable;
  }
}
