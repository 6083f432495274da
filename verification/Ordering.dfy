/**
  Sorting by a total order, and why the sorted form of a collection is unique.

  The code sorts in several places only to make a result independent of the order it was gathered
  in. `SortForgetsOrder` says that sorting forgets exactly the order, so that two sorted results
  are equal when the multisets are; `SortedSetIsSet` says the same of a sorted list without
  repetition and the set of its members.
 */
module Ordering {

  ghost predicate TotalOrder<T(!new)>(le: (T, T) -> bool) {
    && (forall a, b :: le(a, b) || le(b, a))
    && (forall a, b :: le(a, b) && le(b, a) ==> a == b)
    && (forall a, b, c :: le(a, b) && le(b, c) ==> le(a, c))
  }

  ghost predicate Sorted<T>(s: seq<T>, le: (T, T) -> bool) {
    forall i, j :: 0 <= i < j < |s| ==> le(s[i], s[j])
  }

  function Insert<T>(x: T, s: seq<T>, le: (T, T) -> bool): (r: seq<T>)
    ensures multiset(r) == multiset(s) + multiset{x}
  {
    if s == [] then [x]
    else if le(x, s[0]) then
      assert [x] + s == [x] + s;
      [x] + s
    else
      assert s == [s[0]] + s[1..];
      [s[0]] + Insert(x, s[1..], le)
  }

  /** slices.Sort and slices.SortFunc: some sorted permutation, and there is only one. */
  function Sort<T>(s: seq<T>, le: (T, T) -> bool): (r: seq<T>)
    ensures multiset(r) == multiset(s)
  {
    if s == [] then []
    else
      assert s == [s[0]] + s[1..];
      Insert(s[0], Sort(s[1..], le), le)
  }

  lemma {:induction false} InsertSorted<T(!new)>(x: T, s: seq<T>, le: (T, T) -> bool)
    requires TotalOrder(le) && Sorted(s, le)
    ensures Sorted(Insert(x, s, le), le)
  {
    if s != [] && !le(x, s[0]) {
      InsertSorted(x, s[1..], le);
      var rest := Insert(x, s[1..], le);
      forall j | 0 <= j < |rest|
        ensures le(s[0], rest[j])
      {
        assert rest[j] in multiset(rest);
        assert rest[j] == x || rest[j] in s[1..];
      }
    } else if s != [] {
      assert forall j :: 0 <= j < |s| ==> le(x, s[j]);
    }
  }

  lemma {:induction false} SortSorted<T(!new)>(s: seq<T>, le: (T, T) -> bool)
    requires TotalOrder(le)
    ensures Sorted(Sort(s, le), le)
  {
    if s != [] {
      SortSorted(s[1..], le);
      InsertSorted(s[0], Sort(s[1..], le), le);
    }
  }

  lemma SortedHead<T(!new)>(s: seq<T>, x: T, le: (T, T) -> bool)
    requires TotalOrder(le) && Sorted(s, le) && x in s
    ensures le(s[0], x)
  {
    var i :| 0 <= i < |s| && s[i] == x;
    assert le(x, x);
  }

  lemma SortedTail<T(!new)>(s: seq<T>, le: (T, T) -> bool)
    requires s != [] && Sorted(s, le)
    ensures Sorted(s[1..], le)
    ensures multiset(s[1..]) == multiset(s) - multiset{s[0]}
  {
    assert s == [s[0]] + s[1..];
  }

  /** Two sorted sequences with the same elements, counted, are the same sequence. */
  lemma {:induction false} SortedUnique<T(!new)>(a: seq<T>, b: seq<T>, le: (T, T) -> bool)
    requires TotalOrder(le) && Sorted(a, le) && Sorted(b, le) && multiset(a) == multiset(b)
    ensures a == b
  {
    hide Sorted;
    if a == [] {
      assert |b| == |multiset(b)| == 0;
    } else {
      assert a[0] in multiset(b) && b != [];
      assert b[0] in multiset(a);
      SortedHead(a, b[0], le);
      SortedHead(b, a[0], le);
      SortedTail(a, le);
      SortedTail(b, le);
      SortedUnique(a[1..], b[1..], le);
      assert a == [a[0]] + a[1..] && b == [b[0]] + b[1..];
    }
  }

  /** Sorting forgets exactly the order: equal sorted forms are equal multisets. */
  lemma SortForgetsOrder<T(!new)>(a: seq<T>, b: seq<T>, le: (T, T) -> bool)
    requires TotalOrder(le)
    ensures Sort(a, le) == Sort(b, le) <==> multiset(a) == multiset(b)
  {
    SortSorted(a, le);
    SortSorted(b, le);
    if multiset(a) == multiset(b) {
      SortedUnique(Sort(a, le), Sort(b, le), le);
    }
  }

  lemma WithoutOne<T>(s: seq<T>, j: nat)
    requires j < |s|
    ensures multiset(s[..j] + s[j + 1..]) == multiset(s) - multiset{s[j]}
  {
    assert s == s[..j] + [s[j]] + s[j + 1..];
  }

  /** Two permutations of one another stay so when the last of one is taken out of both. */
  lemma TakeOut<T>(a: seq<T>, b: seq<T>) returns (j: nat)
    requires a != [] && multiset(a) == multiset(b)
    ensures j < |b| && b[j] == a[|a| - 1]
    ensures multiset(a[..|a| - 1]) == multiset(b[..j] + b[j + 1..])
  {
    var last := a[|a| - 1];
    assert last in multiset(a);
    j :| 0 <= j < |b| && b[j] == last;
    WithoutOne(a, |a| - 1);
    assert a[..|a| - 1] + a[|a|..] == a[..|a| - 1];
    WithoutOne(b, j);
  }

  /** slices.Compact: drop an element equal to the one before it. */
  function Compact<T(==)>(s: seq<T>): seq<T> {
    if |s| <= 1 then s
    else if s[0] == s[1] then Compact(s[1..])
    else [s[0]] + Compact(s[1..])
  }

  lemma {:induction false} CompactSorted<T(!new)>(s: seq<T>, le: (T, T) -> bool)
    requires TotalOrder(le) && Sorted(s, le)
    ensures Sorted(Compact(s), le)
    ensures forall i, j :: 0 <= i < j < |Compact(s)| ==> Compact(s)[i] != Compact(s)[j]
    ensures forall x :: x in Compact(s) <==> x in s
    ensures s != [] ==> Compact(s) != [] && Compact(s)[0] == s[0]
  {
    if |s| > 1 {
      CompactSorted(s[1..], le);
      assert s == [s[0]] + s[1..];
      var rest := Compact(s[1..]);
      if s[0] != s[1] {
        forall j | 0 <= j < |rest|
          ensures le(s[0], rest[j]) && rest[j] != s[0]
        {
          assert rest[j] in s[1..];
          assert le(s[1], rest[j]);
        }
      }
    }
  }

  /** Sort, then Compact: the distinct members in one order. */
  function SortedSet<T(==)>(s: seq<T>, le: (T, T) -> bool): seq<T> {
    Compact(Sort(s, le))
  }

  lemma SortMembers<T(!new)>(s: seq<T>, le: (T, T) -> bool)
    ensures forall x :: x in Sort(s, le) <==> x in s
  {
    forall x
      ensures x in Sort(s, le) <==> x in s
    {
      assert x in Sort(s, le) <==> x in multiset(Sort(s, le));
      assert x in s <==> x in multiset(s);
    }
  }

  lemma SortedSetProperties<T(!new)>(s: seq<T>, le: (T, T) -> bool)
    requires TotalOrder(le)
    ensures Sorted(SortedSet(s, le), le)
    ensures forall i, j :: 0 <= i < j < |SortedSet(s, le)| ==> SortedSet(s, le)[i] != SortedSet(s, le)[j]
    ensures forall x :: x in SortedSet(s, le) <==> x in s
  {
    SortSorted(s, le);
    SortMembers(s, le);
    CompactSorted(Sort(s, le), le);
  }

  /** Ascending sequences without repetition are determined by their members. */
  lemma {:induction false} AscendingUnique<T(!new)>(a: seq<T>, b: seq<T>, le: (T, T) -> bool)
    requires TotalOrder(le) && Sorted(a, le) && Sorted(b, le)
    requires forall i, j :: 0 <= i < j < |a| ==> a[i] != a[j]
    requires forall i, j :: 0 <= i < j < |b| ==> b[i] != b[j]
    requires forall x :: x in a <==> x in b
    ensures a == b
  {
    assert a != [] ==> a[0] in b;
    assert b != [] ==> b[0] in a;
    if a != [] {
      assert a[0] == b[0];
      assert a == [a[0]] + a[1..] && b == [b[0]] + b[1..];
      forall x
        ensures x in a[1..] <==> x in b[1..]
      {
        assert x in a <==> x in b;
        assert x in a[1..] ==> x != a[0];
        assert x in b[1..] ==> x != b[0];
      }
      AscendingUnique(a[1..], b[1..], le);
    }
  }

  /** The normal form of a set: equal exactly when the members are. */
  lemma SortedSetIsSet<T(!new)>(a: seq<T>, b: seq<T>, le: (T, T) -> bool)
    requires TotalOrder(le)
    ensures SortedSet(a, le) == SortedSet(b, le) <==> forall x :: x in a <==> x in b
  {
    SortedSetProperties(a, le);
    SortedSetProperties(b, le);
    if forall x :: x in a <==> x in b {
      AscendingUnique(SortedSet(a, le), SortedSet(b, le), le);
    }
  }

  /** strings.Compare(a, b) <= 0, byte by byte. */
  predicate TextLE(a: string, b: string) {
    a == [] || (b != [] && (a[0] < b[0] || (a[0] == b[0] && TextLE(a[1..], b[1..]))))
  }

  lemma TextOrder()
    ensures TotalOrder(TextLE)
  {
    forall a, b
      ensures TextLE(a, b) || TextLE(b, a)
      ensures TextLE(a, b) && TextLE(b, a) ==> a == b
    {
      TextTotal(a, b);
    }
    forall a, b, c | TextLE(a, b) && TextLE(b, c)
      ensures TextLE(a, c)
    {
      TextTransitive(a, b, c);
    }
  }

  lemma {:induction false} TextTotal(a: string, b: string)
    ensures TextLE(a, b) || TextLE(b, a)
    ensures TextLE(a, b) && TextLE(b, a) ==> a == b
  {
    if a != [] && b != [] {
      TextTotal(a[1..], b[1..]);
      assert a == [a[0]] + a[1..] && b == [b[0]] + b[1..];
    }
  }

  lemma {:induction false} TextTransitive(a: string, b: string, c: string)
    requires TextLE(a, b) && TextLE(b, c)
    ensures TextLE(a, c)
  {
    if a != [] && b != [] && c != [] && a[0] == b[0] == c[0] {
      TextTransitive(a[1..], b[1..], c[1..]);
    }
  }

  /** The order of strings by their first difference, a proper prefix coming first. */
  lemma {:induction false} TextLEMeans(a: string, b: string) returns (k: nat)
    ensures k <= |a| && k <= |b| && a[..k] == b[..k]
    ensures k < |a| && k < |b| ==> a[k] != b[k]
    ensures TextLE(a, b) <==> k == |a| || (k < |b| && a[k] < b[k])
  {
    if a == "" || b == "" || a[0] != b[0] {
      k := 0;
    } else {
      k := TextLEMeans(a[1..], b[1..]);
      assert a[..k + 1] == [a[0]] + a[1..][..k];
      assert b[..k + 1] == [b[0]] + b[1..][..k];
      k := k + 1;
    }
  }
}
