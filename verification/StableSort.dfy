/** A stable sort by a two-part key, and why it has one result when no key repeats. */
module StableSort {
  type Key = (nat, nat)

  predicate Before(a: Key, b: Key) {
    a.0 < b.0 || (a.0 == b.0 && a.1 < b.1)
  }

  ghost predicate Ordered<T>(key: T -> Key, s: seq<T>) {
    forall i, j | 0 <= i < j < |s| :: !Before(key(s[j]), key(s[i]))
  }

  ghost predicate Increasing<T>(key: T -> Key, s: seq<T>) {
    forall i, j | 0 <= i < j < |s| :: Before(key(s[i]), key(s[j]))
  }

  /** Places x after every element whose key is not greater. */
  function Place<T>(key: T -> Key, sorted: seq<T>, x: T): seq<T> {
    if sorted == [] || !Before(key(x), key(sorted[|sorted| - 1])) then sorted + [x]
    else Place(key, sorted[..|sorted| - 1], x) + [sorted[|sorted| - 1]]
  }

  function Sort<T>(key: T -> Key, s: seq<T>): seq<T> {
    if s == [] then [] else Place(key, Sort(key, s[..|s| - 1]), s[|s| - 1])
  }

  lemma {:induction false} PlaceKeeps<T>(key: T -> Key, sorted: seq<T>, x: T)
    ensures multiset(Place(key, sorted, x)) == multiset(sorted) + multiset{x}
  {
    if sorted != [] && Before(key(x), key(sorted[|sorted| - 1])) {
      var init, last := sorted[..|sorted| - 1], sorted[|sorted| - 1];
      PlaceKeeps(key, init, x);
      assert sorted == init + [last];
    }
  }

  lemma OrderedPush<T>(key: T -> Key, sorted: seq<T>, x: T)
    requires Ordered(key, sorted) && forall r | r in sorted :: !Before(key(x), key(r))
    ensures Ordered(key, sorted + [x])
  {
  }

  lemma {:induction false} PlaceOrders<T>(key: T -> Key, sorted: seq<T>, x: T)
    requires Ordered(key, sorted)
    ensures Ordered(key, Place(key, sorted, x))
    ensures forall r | r in Place(key, sorted, x) :: r == x || r in sorted
  {
    if sorted != [] && Before(key(x), key(sorted[|sorted| - 1])) {
      var init, last := sorted[..|sorted| - 1], sorted[|sorted| - 1];
      PlaceOrders(key, init, x);
      OrderedPush(key, Place(key, init, x), last);
    } else {
      OrderedPush(key, sorted, x);
    }
  }

  /** The result is ordered and holds exactly the elements given. */
  lemma {:induction false} SortSorts<T>(key: T -> Key, s: seq<T>)
    ensures multiset(Sort(key, s)) == multiset(s)
    ensures Ordered(key, Sort(key, s)) && |Sort(key, s)| == |s|
  {
    if s != [] {
      var init, last := s[..|s| - 1], s[|s| - 1];
      SortSorts(key, init);
      PlaceKeeps(key, Sort(key, init), last);
      PlaceOrders(key, Sort(key, init), last);
      assert s == init + [last];
    }
    assert |multiset(Sort(key, s))| == |multiset(s)|;
  }

  /** The greatest element ends every ordered arrangement. */
  lemma SameLast<T>(key: T -> Key, a: seq<T>, b: seq<T>)
    requires a != [] && Increasing(key, a) && Ordered(key, b) && multiset(a) == multiset(b)
    ensures b != [] && b[|b| - 1] == a[|a| - 1]
  {
    var x := a[|a| - 1];
    assert x in multiset(a);
    assert x in b;
    var k :| 0 <= k < |b| && b[k] == x;
    var y := b[|b| - 1];
    assert y in multiset(b);
    assert y in a;
    var m :| 0 <= m < |a| && a[m] == y;
  }

  /** When no key repeats there is one ordered arrangement. */
  lemma {:induction false} OrderedUnique<T>(key: T -> Key, a: seq<T>, b: seq<T>)
    requires Increasing(key, a) && Ordered(key, b) && multiset(a) == multiset(b)
    ensures a == b
  {
    SameSize(a, b);
    if a != [] {
      SameLast(key, a, b);
      DropLast(a, b);
      OrderedUnique(key, a[..|a| - 1], b[..|b| - 1]);
      assert a == a[..|a| - 1] + [a[|a| - 1]];
      assert b == b[..|b| - 1] + [b[|b| - 1]];
    }
  }

  lemma SameSize<T>(a: seq<T>, b: seq<T>)
    requires multiset(a) == multiset(b)
    ensures |a| == |b|
  {
    assert |multiset(a)| == |multiset(b)|;
  }

  lemma DropLast<T>(a: seq<T>, b: seq<T>)
    requires a != [] && b != [] && a[|a| - 1] == b[|b| - 1] && multiset(a) == multiset(b)
    ensures multiset(a[..|a| - 1]) == multiset(b[..|b| - 1])
  {
    assert a == a[..|a| - 1] + [a[|a| - 1]];
    assert b == b[..|b| - 1] + [b[|b| - 1]];
    assert multiset(a[..|a| - 1]) == multiset(a) - multiset{a[|a| - 1]};
  }

  /** Sorting any arrangement of elements with increasing keys restores it. */
  lemma SortRestores<T>(key: T -> Key, s: seq<T>, shuffled: seq<T>)
    requires Increasing(key, s) && multiset(s) == multiset(shuffled)
    ensures Sort(key, shuffled) == s
  {
    SortSorts(key, shuffled);
    OrderedUnique(key, s, Sort(key, shuffled));
  }

  ghost predicate DistinctKeys<T>(key: T -> Key, s: seq<T>) {
    forall i, j | 0 <= i < j < |s| :: key(s[i]) != key(s[j])
  }

  lemma IncreasingPush<T>(key: T -> Key, sorted: seq<T>, x: T)
    requires Increasing(key, sorted) && forall r | r in sorted :: Before(key(r), key(x))
    ensures Increasing(key, sorted + [x])
  {
  }

  lemma IncreasingLast<T>(key: T -> Key, sorted: seq<T>)
    requires Increasing(key, sorted) && sorted != []
    ensures Increasing(key, sorted[..|sorted| - 1])
    ensures forall r | r in sorted[..|sorted| - 1] :: Before(key(r), key(sorted[|sorted| - 1]))
  {
  }

  lemma {:induction false} PlaceIncreases<T>(key: T -> Key, sorted: seq<T>, x: T)
    requires Increasing(key, sorted) && forall r | r in sorted :: key(r) != key(x)
    ensures Increasing(key, Place(key, sorted, x))
    ensures forall r | r in Place(key, sorted, x) :: r == x || r in sorted
  {
    if sorted != [] && Before(key(x), key(sorted[|sorted| - 1])) {
      var init, last := sorted[..|sorted| - 1], sorted[|sorted| - 1];
      IncreasingLast(key, sorted);
      hide Increasing;
      PlaceIncreases(key, init, x);
      forall r | r in Place(key, init, x)
        ensures Before(key(r), key(last))
      {
      }
      IncreasingPush(key, Place(key, init, x), last);
    } else {
      if sorted != [] {
        IncreasingLast(key, sorted);
      }
      hide Increasing;
      forall r | r in sorted
        ensures Before(key(r), key(x))
      {
        assert key(r) != key(x);
      }
      IncreasingPush(key, sorted, x);
    }
  }

  /** Without equal keys the sorted order is strict. */
  lemma {:induction false} SortIncreases<T>(key: T -> Key, s: seq<T>)
    requires DistinctKeys(key, s)
    ensures Increasing(key, Sort(key, s))
    ensures forall r | r in Sort(key, s) :: r in s
  {
    if s != [] {
      var init, last := s[..|s| - 1], s[|s| - 1];
      SortIncreases(key, init);
      assert forall r | r in init :: key(r) != key(last);
      PlaceIncreases(key, Sort(key, init), last);
    }
  }
}
