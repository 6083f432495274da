/** Collections compared by a key: first occurrence wins, and the later side's order leads. */
module Keyed {

  /** The index of a list by a key. The first item wins where a key repeats. */
  function ByKey<T>(items: seq<T>, key: T -> string): map<string, T> {
    if items == [] then map[]
    else
      var before := ByKey(items[..|items| - 1], key);
      var last := items[|items| - 1];
      if key(last) in before then before else before[key(last) := last]
  }

  method IndexByKey<T>(items: seq<T>, key: T -> string) returns (byKey: map<string, T>)
    ensures byKey == ByKey(items, key)
  {
    byKey := map[];
    for i := 0 to |items|
      invariant byKey == ByKey(items[..i], key)
    {
      assert items[..i + 1][..i] == items[..i];
      if key(items[i]) !in byKey {
        byKey := byKey[key(items[i]) := items[i]];
      }
    }
    assert items[..|items|] == items;
  }

  /** The list grouped by a key, each group in list order. */
  function GroupBy<T>(items: seq<T>, key: T -> string): (groups: map<string, seq<T>>)
    ensures forall k :: k in groups ==> groups[k] != []
  {
    if items == [] then map[]
    else
      var before := GroupBy(items[..|items| - 1], key);
      var last := items[|items| - 1];
      before[key(last) := (if key(last) in before then before[key(last)] else []) + [last]]
  }

  method GroupItems<T>(items: seq<T>, key: T -> string) returns (groups: map<string, seq<T>>)
    ensures groups == GroupBy(items, key)
  {
    groups := map[];
    for i := 0 to |items|
      invariant groups == GroupBy(items[..i], key)
    {
      assert items[..i + 1][..i] == items[..i];
      var k := key(items[i]);
      groups := groups[k := (if k in groups then groups[k] else []) + [items[i]]];
    }
    assert items[..|items|] == items;
  }

  function KeysOf<T>(items: seq<T>, key: T -> string): seq<string> {
    seq(|items|, i requires 0 <= i < |items| => key(items[i]))
  }

  lemma {:induction false} ByKeyKeys<T>(items: seq<T>, key: T -> string)
    ensures forall k :: k in ByKey(items, key) <==> k in KeysOf(items, key)
  {
    if items != [] {
      ByKeyKeys(items[..|items| - 1], key);
      assert KeysOf(items, key) == KeysOf(items[..|items| - 1], key) + [key(items[|items| - 1])];
    }
  }

  lemma {:induction false} GroupByKeys<T>(items: seq<T>, key: T -> string)
    ensures forall k :: k in GroupBy(items, key) <==> k in KeysOf(items, key)
  {
    if items != [] {
      GroupByKeys(items[..|items| - 1], key);
      assert KeysOf(items, key) == KeysOf(items[..|items| - 1], key) + [key(items[|items| - 1])];
    }
  }

  // ---------------------------------------------------------------- order

  /** Each key once, at its first occurrence. */
  function Dedupe(keys: seq<string>): (r: seq<string>)
    ensures forall k :: k in r <==> k in keys
    ensures forall i, j :: 0 <= i < j < |r| ==> r[i] != r[j]
  {
    if keys == [] then []
    else
      var before := Dedupe(keys[..|keys| - 1]);
      var last := keys[|keys| - 1];
      assert keys == keys[..|keys| - 1] + [last];
      if last in before then before else before + [last]
  }

  /** The later run's order first, then whatever only the earlier run had, in its own order. */
  function MergedOrder(before: seq<string>, after: seq<string>): seq<string> { Dedupe(after + before) }

  method MergeOrders(before: seq<string>, after: seq<string>) returns (order: seq<string>)
    ensures order == MergedOrder(before, after)
  {
    var seen: set<string> := {};
    order := [];
    order, seen := AddUnseen([], after, order, seen);
    assert [] + after == after;
    order, seen := AddUnseen(after, before, order, seen);
  }

  /** The inner loop, over the keys of one run. */
  method AddUnseen(ghost done: seq<string>, ids: seq<string>, order0: seq<string>, seen0: set<string>)
    returns (order: seq<string>, seen: set<string>)
    requires order0 == Dedupe(done) && forall k :: k in seen0 <==> k in order0
    ensures order == Dedupe(done + ids) && forall k :: k in seen <==> k in order
  {
    order, seen := order0, seen0;
    assert done + ids[..0] == done;
    for i := 0 to |ids|
      invariant order == Dedupe(done + ids[..i])
      invariant forall k :: k in seen <==> k in order
    {
      var id := ids[i];
      assert done + ids[..i + 1] == (done + ids[..i]) + [id];
      DedupeAppend(done + ids[..i], id);
      if id !in seen {
        seen, order := seen + {id}, order + [id];
      }
    }
    assert ids[..|ids|] == ids;
  }

  lemma DedupeAppend(keys: seq<string>, id: string)
    ensures Dedupe(keys + [id]) == if id in Dedupe(keys) then Dedupe(keys) else Dedupe(keys) + [id]
  {
    assert (keys + [id])[..|keys|] == keys;
  }

  lemma DistinctMultiset(a: seq<string>, b: seq<string>)
    requires forall i, j :: 0 <= i < j < |a| ==> a[i] != a[j]
    requires forall i, j :: 0 <= i < j < |b| ==> b[i] != b[j]
    requires forall k :: k in a <==> k in b
    ensures multiset(a) == multiset(b)
  {
    forall k
      ensures multiset(a)[k] == multiset(b)[k]
    {
      DistinctOnce(a, k);
      DistinctOnce(b, k);
    }
  }

  lemma {:induction false} DistinctOnce(a: seq<string>, k: string)
    requires forall i, j :: 0 <= i < j < |a| ==> a[i] != a[j]
    ensures multiset(a)[k] == if k in a then 1 else 0
  {
    if a != [] {
      assert a == a[..|a| - 1] + [a[|a| - 1]];
      DistinctOnce(a[..|a| - 1], k);
    }
  }

  /** Swapping the runs reorders the merged keys and changes nothing else. */
  lemma MergedOrderSwaps(before: seq<string>, after: seq<string>)
    ensures multiset(MergedOrder(before, after)) == multiset(MergedOrder(after, before))
    ensures forall k :: k in MergedOrder(before, after) <==> k in before || k in after
  {
    DistinctMultiset(MergedOrder(before, after), MergedOrder(after, before));
  }
}
