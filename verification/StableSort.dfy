/** The language's stable sort, by insertion, and what it gives under an order. */
module StableSort {

  function Inserted<T>(items: seq<T>, x: T, before: (T, T) -> bool): seq<T> {
    if items == [] then [x]
    else
      var last := items[|items| - 1];
      if before(x, last) then Inserted(items[..|items| - 1], x, before) + [last] else items + [x]
  }

  function Sorted<T>(items: seq<T>, before: (T, T) -> bool): seq<T> {
    if items == [] then [] else Inserted(Sorted(items[..|items| - 1], before), items[|items| - 1], before)
  }

  /** "Not after" is transitive and no two stand before each other. */
  ghost predicate IsOrder<T(!new)>(before: (T, T) -> bool) {
    && (forall a, b :: before(a, b) ==> !before(b, a))
    && (forall a, b, c :: !before(b, a) && !before(c, b) ==> !before(c, a))
  }

  ghost predicate Ordered<T>(items: seq<T>, before: (T, T) -> bool) {
    forall i, j :: 0 <= i < j < |items| ==> !before(items[j], items[i])
  }

  /** One of any two places stands strictly before the other. */
  ghost predicate Strict<T>(items: seq<T>, before: (T, T) -> bool) {
    forall i, j :: 0 <= i < j < |items| ==> before(items[i], items[j]) || before(items[j], items[i])
  }

  lemma SameSize<T>(a: seq<T>, b: seq<T>)
    requires multiset(a) == multiset(b)
    ensures |a| == |b|
  {
    assert |multiset(a)| == |multiset(b)|;
  }

  lemma {:induction false} InsertedHolds<T>(items: seq<T>, x: T, before: (T, T) -> bool)
    ensures multiset(Inserted(items, x, before)) == multiset(items) + multiset{x}
  {
    if items != [] {
      var init, last := items[..|items| - 1], items[|items| - 1];
      assert items == init + [last];
      InsertedHolds(init, x, before);
    }
  }

  lemma {:induction false} InsertedOrdered<T(!new)>(items: seq<T>, x: T, before: (T, T) -> bool)
    requires Ordered(items, before) && IsOrder(before)
    ensures Ordered(Inserted(items, x, before), before)
  {
    if items != [] {
      var init, last := items[..|items| - 1], items[|items| - 1];
      if before(x, last) {
        InsertedOrdered(init, x, before);
        InsertedHolds(init, x, before);
        var r := Inserted(init, x, before);
        forall i | 0 <= i < |r| ensures !before(last, r[i]) {
          assert r[i] in multiset(r);
        }
      } else {
        forall i | 0 <= i < |items| ensures !before(x, items[i]) {
          assert i < |items| - 1 ==> !before(last, items[i]);
        }
      }
    }
  }

  lemma {:induction false} SortedIsSorted<T(!new)>(items: seq<T>, before: (T, T) -> bool)
    requires IsOrder(before)
    ensures Ordered(Sorted(items, before), before) && multiset(Sorted(items, before)) == multiset(items)
    ensures |Sorted(items, before)| == |items|
  {
    if items != [] {
      var init, last := items[..|items| - 1], items[|items| - 1];
      assert items == init + [last];
      SortedIsSorted(init, before);
      InsertedHolds(Sorted(init, before), last, before);
      InsertedOrdered(Sorted(init, before), last, before);
    }
    SameSize(Sorted(items, before), items);
  }

  lemma SameHead<T>(a: seq<T>, b: seq<T>, before: (T, T) -> bool)
    requires Ordered(a, before) && Ordered(b, before) && multiset(a) == multiset(b) && Strict(a, before)
    requires |a| == |b| > 0
    ensures a[0] == b[0]
  {
    assert a[0] in multiset(b) && b[0] in multiset(a);
    var i :| 0 <= i < |b| && b[i] == a[0];
    var j :| 0 <= j < |a| && a[j] == b[0];
  }

  lemma TailOf<T>(a: seq<T>)
    requires a != []
    ensures a == [a[0]] + a[1..] && multiset(a[1..]) == multiset(a) - multiset{a[0]}
  {
    assert a == [a[0]] + a[1..];
  }

  lemma StrictTail<T>(a: seq<T>, before: (T, T) -> bool)
    requires a != [] && Ordered(a, before)
    ensures Ordered(a[1..], before) && (Strict(a, before) ==> Strict(a[1..], before))
  {
  }

  /** An ordered sequence of strictly comparable items is decided by what it holds. */
  lemma {:induction false} OrderedUnique<T>(a: seq<T>, b: seq<T>, before: (T, T) -> bool)
    requires Ordered(a, before) && Ordered(b, before) && multiset(a) == multiset(b) && Strict(a, before)
    ensures a == b
  {
    SameSize(a, b);
    if a != [] {
      SameHead(a, b, before);
      TailOf(a);
      TailOf(b);
      StrictTail(a, before);
      StrictTail(b, before);
      hide Ordered, Strict;
      OrderedUnique(a[1..], b[1..], before);
    }
  }

  lemma TwiceCounted<T>(b: seq<T>, i: nat, j: nat)
    requires i < j < |b| && b[i] == b[j]
    ensures multiset(b)[b[i]] >= 2
  {
    assert b == b[..j] + b[j..];
    assert b[i] in b[..j] && b[j] in b[j..];
  }

  lemma OnceCounted<T(!new)>(a: seq<T>, x: T, before: (T, T) -> bool)
    requires Strict(a, before) && IsOrder(before)
    ensures multiset(a)[x] <= 1
  {
    if x in a {
      var k :| 0 <= k < |a| && a[k] == x;
      assert a == a[..k] + [a[k]] + a[k + 1..];
      assert x !in a[..k] && x !in a[k + 1..];
    }
  }

  /** Whether any two are strictly comparable does not depend on where they stand. */
  lemma PermutedStrict<T(!new)>(a: seq<T>, b: seq<T>, before: (T, T) -> bool)
    requires multiset(a) == multiset(b) && Strict(a, before) && IsOrder(before)
    ensures Strict(b, before)
  {
    forall i, j | 0 <= i < j < |b| ensures before(b[i], b[j]) || before(b[j], b[i]) {
      assert b[i] in multiset(a) && b[j] in multiset(a);
      OnceCounted(a, b[i], before);
      if b[i] == b[j] { TwiceCounted(b, i, j); }
    }
  }
}
