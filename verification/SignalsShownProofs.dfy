/**
 What the signals screen promises about its list: how long it is, which pairs have a place, in what
 order they stand, and that the order in which the signals came does not matter.
 */
module SignalsShownProofs {
  import opened SignalsShown
  import StableSort

  // ----- the sort

  ghost predicate Ordered(items: seq<Item>) {
    forall i, j :: 0 <= i < j < |items| ==> !Before(items[j].pair, items[i].pair)
  }

  ghost predicate DistinctIds(items: seq<Item>) {
    forall i, j :: 0 <= i < j < |items| ==> items[i].pair.id != items[j].pair.id
  }

  /** The better payout first, of equal ones the lower id. */
  lemma SortedIsSorted(items: seq<Item>)
    ensures Ordered(Sorted(items)) && multiset(Sorted(items)) == multiset(items)
    ensures |Sorted(items)| == |items|
    ensures forall i, j | 0 <= i < j < |items| ::
              var a, b := Sorted(items)[i].pair, Sorted(items)[j].pair;
              a.payout > b.payout || (a.payout == b.payout && a.id <= b.id)
  {
    StableSort.SortedIsSorted(items, ByPayout);
  }

  lemma {:induction false} CheckedCounts(signals: seq<Signal>, tradable: map<nat, Pair>, x: Item)
    ensures multiset(Checked(signals, tradable))[x]
         == if x.signal.assetId in tradable && tradable[x.signal.assetId] == x.pair then multiset(signals)[x.signal]
            else 0
  {
    if signals != [] {
      var init, last := signals[..|signals| - 1], signals[|signals| - 1];
      assert signals == init + [last];
      CheckedCounts(init, tradable, x);
    }
  }

  ghost predicate DistinctAssets(signals: seq<Signal>) {
    forall i, j :: 0 <= i < j < |signals| ==> signals[i].assetId != signals[j].assetId
  }

  /** The catalog gives a pair under its own id. */
  ghost predicate ById(tradable: map<nat, Pair>) { forall a: nat :: a in tradable ==> tradable[a].id == a }

  lemma {:induction false} CheckedDistinct(signals: seq<Signal>, tradable: map<nat, Pair>)
    requires DistinctAssets(signals) && ById(tradable)
    ensures DistinctIds(Checked(signals, tradable))
    ensures forall x :: x in Checked(signals, tradable) ==> x.signal in signals && x.pair.id == x.signal.assetId
  {
    if signals != [] {
      CheckedDistinct(signals[..|signals| - 1], tradable);
    }
  }

  /** Neither the route's order nor the catalog's matters. */
  lemma OrderIndependent(a: seq<Signal>, b: seq<Signal>, tradable: map<nat, Pair>)
    requires multiset(a) == multiset(b) && DistinctAssets(a) && ById(tradable)
    ensures Sorted(Checked(a, tradable)) == Sorted(Checked(b, tradable))
    ensures Shown(Sorted(Checked(a, tradable))) == Shown(Sorted(Checked(b, tradable)))
  {
    var ca, cb := Checked(a, tradable), Checked(b, tradable);
    forall x: Item ensures multiset(ca)[x] == multiset(cb)[x] {
      CheckedCounts(a, tradable, x);
      CheckedCounts(b, tradable, x);
    }
    assert multiset(ca) == multiset(cb);
    SortedIsSorted(ca);
    SortedIsSorted(cb);
    CheckedDistinct(a, tradable);
    StableSort.PermutedStrict(ca, Sorted(ca), ByPayout);
    StableSort.OrderedUnique(Sorted(ca), Sorted(cb), ByPayout);
  }

  // ----- the parts of the list

  /** The places 0 to n - 1. */
  ghost function Upto(n: nat): (r: set<nat>)
    ensures forall i: nat :: i in r <==> i < n
    ensures |r| == n
  {
    if n == 0 then {} else Upto(n - 1) + {n - 1}
  }

  ghost function Everything(items: seq<Item>): set<nat> { Upto(|items|) }

  /** All items of a group, in order. */
  ghost function OfGroup(items: seq<Item>, g: nat): seq<Item> { Part(items, Everything(items), g, |items|) }

  /** The items below the floor from k on. */
  function Below(items: seq<Item>, k: nat): seq<Item>
    requires k <= |items|
    decreases |items| - k
  {
    if k == |items| then [] else (if Accepted(items[k].pair) then [] else [items[k]]) + Below(items, k + 1)
  }

  function Min(a: nat, b: nat): nat { if a <= b then a else b }

  /** How many below the floor a list of this length takes. */
  function TailSize(length: nat, low: seq<Item>): (t: nat)
    ensures t <= |low|
  {
    if length >= MIN_SIZE then 0 else Min(MIN_SIZE - length, |low|)
  }

  lemma {:induction false} TailIsPrefix(items: seq<Item>, shown: seq<Item>, k: nat)
    requires k <= |items|
    ensures Tailed(items, shown, k) == shown + Below(items, k)[..TailSize(|shown|, Below(items, k))]
    decreases |items| - k
  {
    if k < |items| && |shown| < MIN_SIZE {
      var rest := Below(items, k + 1);
      if Accepted(items[k].pair) {
        TailIsPrefix(items, shown, k + 1);
        assert Below(items, k) == rest;
      } else {
        var more := shown + [items[k]];
        TailIsPrefix(items, more, k + 1);
        TailLed(shown, items[k], rest);
      }
    } else {
      assert shown == shown + [];
    }
  }

  lemma TailLed(shown: seq<Item>, x: Item, rest: seq<Item>)
    requires |shown| < MIN_SIZE
    ensures var low := [x] + rest;
      shown + low[..TailSize(|shown|, low)] == shown + [x] + rest[..TailSize(|shown| + 1, rest)]
  {
    var t := TailSize(|shown| + 1, rest);
    assert ([x] + rest)[..t + 1] == [x] + rest[..t];
  }

  lemma {:induction false} PrimaryIs(items: seq<Item>)
    requires Ordered(items)
    ensures Ordered(Primary(items))
    ensures forall x :: x in Primary(items) <==> x in items && Accepted(x.pair)
  {
    if items != [] {
      var init := items[..|items| - 1];
      assert items == init + [items[|items| - 1]];
      PrimaryIs(init);
      forall x | x in init ensures !Before(items[|items| - 1].pair, x.pair) {
        var i :| 0 <= i < |init| && init[i] == x;
        assert items[i] == x;
      }
    }
  }

  lemma {:induction false} BelowFrom(items: seq<Item>, k: nat, x: Item)
    requires k <= |items| && x in Below(items, k)
    ensures !Accepted(x.pair) && exists i :: k <= i < |items| && items[i] == x
    decreases |items| - k
  {
    if k < |items| && x in Below(items, k + 1) { BelowFrom(items, k + 1, x); }
  }

  lemma {:induction false} BelowIs(items: seq<Item>, k: nat)
    requires k <= |items| && Ordered(items)
    ensures Ordered(Below(items, k))
    decreases |items| - k
  {
    if k < |items| {
      BelowIs(items, k + 1);
      var rest := Below(items, k + 1);
      forall i | 0 <= i < |rest| ensures !Before(rest[i].pair, items[k].pair) {
        BelowFrom(items, k + 1, rest[i]);
      }
      hide Before, Accepted;
    }
  }

  /** How often an item stands in the sequence. */
  ghost function Times(items: seq<Item>, x: Item): nat { multiset(items)[x] }

  lemma TimesAdd(a: seq<Item>, b: seq<Item>, x: Item)
    ensures Times(a + b, x) == Times(a, x) + Times(b, x)
  {
  }

  lemma TimesOne(y: Item, x: Item)
    ensures Times([y], x) == if y == x then 1 else 0
  {
  }

  lemma {:induction false} PrimaryCounts(items: seq<Item>, x: Item)
    ensures Times(Primary(items), x) == if Accepted(x.pair) then Times(items, x) else 0
  {
    hide Times;
    if items == [] {
      NoTimes(x);
    } else {
      var init, last := items[..|items| - 1], items[|items| - 1];
      PrimaryCounts(init, x);
      assert items == init + [last];
      assert Primary(items) == if Accepted(last.pair) then Primary(init) + [last] else Primary(init);
      hide Primary;
      TimesOne(last, x);
      TimesAdd(init, [last], x);
      TimesAdd(Primary(init), [last], x);
    }
  }

  lemma NoTimes(x: Item)
    ensures Times([], x) == 0
  {
  }

  lemma {:induction false} BelowCounts(items: seq<Item>, k: nat, x: Item)
    requires k <= |items|
    ensures Times(Below(items, k), x) == if Accepted(x.pair) then 0 else Times(items[k..], x)
    decreases |items| - k
  {
    hide Times;
    if k == |items| {
      NoTimes(x);
    } else {
      BelowCounts(items, k + 1, x);
      var rest := Below(items, k + 1);
      assert items[k..] == [items[k]] + items[k + 1..];
      assert Below(items, k) == if Accepted(items[k].pair) then rest else [items[k]] + rest;
      hide Below;
      TimesOne(items[k], x);
      TimesAdd([items[k]], items[k + 1..], x);
      TimesAdd([items[k]], rest, x);
    }
  }

  /** Each checked pair is either accepted or below the floor. */
  lemma PrimaryAndBelow(items: seq<Item>)
    ensures multiset(Primary(items)) + multiset(Below(items, 0)) == multiset(items)
    ensures |Primary(items)| + |Below(items, 0)| == |items|
  {
    hide Primary, Below, Accepted;
    var p, low := Primary(items), Below(items, 0);
    assert items[0..] == items;
    forall x: Item ensures multiset(p + low)[x] == multiset(items)[x] {
      PrimaryCounts(items, x);
      BelowCounts(items, 0, x);
    }
    StableSort.SameSize(p + low, items);
  }

  // ----- the places of one group

  lemma {:induction false} CountMonotone(items: seq<Item>, g: nat, i: nat, j: nat)
    requires i <= j <= |items|
    ensures CountOf(items, g, i) <= CountOf(items, g, j)
    decreases j
  {
    if i < j { CountMonotone(items, g, i, j - 1); }
  }

  /** Of one group the taken ones are the first ones. */
  ghost predicate Closed(items: seq<Item>, taken: set<nat>) {
    forall i: nat, j: nat :: i < j < |items| && j in taken && items[i].pair.group == items[j].pair.group ==> i in taken
  }

  lemma {:induction false} PartIsPrefix(items: seq<Item>, taken: set<nat>, g: nat, k: nat)
    requires k <= |items| && Closed(items, taken)
    ensures Part(items, taken, g, k) <= Part(items, Everything(items), g, k)
    ensures |Part(items, Everything(items), g, k)| == CountOf(items, g, k)
    ensures Part(items, taken, g, k) == Part(items, Everything(items), g, k)
         || forall j: nat :: k <= j < |items| && items[j].pair.group == g ==> j !in taken
  {
    if k > 0 {
      PartIsPrefix(items, taken, g, k - 1);
    }
  }

  lemma {:induction false} PartHasQuota(items: seq<Item>, taken: set<nat>, g: nat, k: nat)
    requires k <= |items| && Quota(items) <= taken
    ensures |Part(items, taken, g, k)| >= Min(PER_GROUP, CountOf(items, g, k))
  {
    if k > 0 {
      PartHasQuota(items, taken, g, k - 1);
      if items[k - 1].pair.group == g && CountOf(items, g, k - 1) < PER_GROUP {
        assert InQuota(items, k - 1);
      }
    }
  }

  lemma {:induction false} QuotaPart(items: seq<Item>, g: nat, k: nat)
    requires k <= |items|
    ensures |Part(items, Quota(items), g, k)| == Min(PER_GROUP, CountOf(items, g, k))
  {
    if k > 0 {
      QuotaPart(items, g, k - 1);
    }
  }

  lemma {:induction false} PartIs(items: seq<Item>, taken: set<nat>, g: nat, k: nat)
    requires k <= |items| && Ordered(items)
    ensures Ordered(Part(items, taken, g, k))
    ensures forall x :: x in Part(items, taken, g, k)
                   <==> exists i: nat :: i < k && i in taken && items[i].pair.group == g && items[i] == x
  {
    if k > 0 {
      PartIs(items, taken, g, k - 1);
      var part := Part(items, taken, g, k - 1);
      forall x | x in part ensures !Before(items[k - 1].pair, x.pair) {
      }
      assert forall i :: 0 <= i < |part| ==> part[i] in part;
    }
  }

  // ----- how many are taken

  /** The taken places of one group among the first k. */
  ghost function PlacesOf(items: seq<Item>, taken: set<nat>, g: nat, k: nat): set<nat>
    requires k <= |items|
  {
    set i: nat | i < k && i in taken && items[i].pair.group == g
  }

  /** The taken places of the first n groups. */
  ghost function PlacesUpTo(items: seq<Item>, taken: set<nat>, n: nat): set<nat> {
    set i: nat | i < |items| && i in taken && items[i].pair.group < n
  }

  lemma {:induction false} PartSize(items: seq<Item>, taken: set<nat>, g: nat, k: nat)
    requires k <= |items|
    ensures |Part(items, taken, g, k)| == |PlacesOf(items, taken, g, k)|
  {
    var now := PlacesOf(items, taken, g, k);
    if k > 0 {
      PartSize(items, taken, g, k - 1);
      var was := PlacesOf(items, taken, g, k - 1);
      if k - 1 in taken && items[k - 1].pair.group == g {
        assert now == was + {k - 1};
      } else {
        assert now == was;
      }
    } else {
      assert now == {};
    }
  }

  lemma PlacesSplit(items: seq<Item>, taken: set<nat>, n: nat)
    requires n > 0
    ensures |PlacesUpTo(items, taken, n)|
         == |PlacesUpTo(items, taken, n - 1)| + |PlacesOf(items, taken, n - 1, |items|)|
  {
    var was, part := PlacesUpTo(items, taken, n - 1), PlacesOf(items, taken, n - 1, |items|);
    assert PlacesUpTo(items, taken, n) == was + part && was !! part;
  }

  lemma {:induction false} ByGroupSize(items: seq<Item>, taken: set<nat>, n: nat)
    ensures |ByGroup(items, taken, n)| == |PlacesUpTo(items, taken, n)|
  {
    if n > 0 {
      hide PlacesUpTo, PlacesOf, Part;
      ByGroupSize(items, taken, n - 1);
      PartSize(items, taken, n - 1, |items|);
      PlacesSplit(items, taken, n);
    } else {
      assert PlacesUpTo(items, taken, n) == {};
    }
  }

  lemma AllGroupsSize(items: seq<Item>, taken: set<nat>)
    requires taken <= Everything(items)
    ensures |ByGroup(items, taken, GROUPS)| == |taken|
  {
    ByGroupSize(items, taken, GROUPS);
    assert taken == PlacesUpTo(items, taken, GROUPS);
  }

  lemma {:induction false} QuotaBound(items: seq<Item>, n: nat)
    ensures |ByGroup(items, Quota(items), n)| <= PER_GROUP * n
  {
    if n > 0 {
      QuotaBound(items, n - 1);
      QuotaPart(items, n - 1, |items|);
    }
  }

  /** The fill takes a whole beginning of the list, and stops only at the end or at the last place. */
  lemma {:induction false} FillIs(items: seq<Item>, taken: set<nat>, k: nat)
    requires k <= |items| && taken <= Everything(items) && |taken| <= LIST_SIZE
    requires forall i: nat :: i < k ==> i in taken
    ensures taken <= Filled(items, taken, k) <= Everything(items)
    ensures |Filled(items, taken, k)| == Min(|items|, LIST_SIZE)
    ensures forall i: nat, j: nat | i in Filled(items, taken, k) && i !in taken && j <= i ::
              j in Filled(items, taken, k)
    decreases |items| - k
  {
    if k < |items| && |taken| < LIST_SIZE {
      FillIs(items, taken + {k}, k + 1);
    } else if k == |items| {
      assert taken == Everything(items);
    } else {
      Subset(taken, Everything(items));
    }
  }

  lemma {:induction false} Subset(a: set<nat>, b: set<nat>)
    requires a <= b
    ensures |a| <= |b| && (|a| == |b| ==> a == b)
  {
    assert b == a + (b - a);
    assert |b| == |a| + |b - a|;
  }

  /** Who has a place. */
  lemma TakenIs(items: seq<Item>)
    ensures Quota(items) <= Taken(items) <= Everything(items)
    ensures |Taken(items)| == Min(|items|, LIST_SIZE)
    ensures forall i: nat, j: nat | i in Taken(items) && i !in Quota(items) && j < |items| ::
              j !in Taken(items) ==> i < j
    ensures Closed(items, Taken(items))
    ensures |items| <= LIST_SIZE ==> Taken(items) == Everything(items)
  {
    var quota, taken := Quota(items), Taken(items);
    assert quota <= Everything(items);
    QuotaBound(items, GROUPS);
    AllGroupsSize(items, quota);
    FillIs(items, quota, 0);
    forall i: nat, j: nat | i < j < |items| && j in taken && items[i].pair.group == items[j].pair.group
      ensures i in taken
    {
      if j in quota {
        CountMonotone(items, items[i].pair.group, i, j);
        assert InQuota(items, i);
      }
    }
    Subset(taken, Everything(items));
  }

  // ----- the whole list

  lemma {:induction false} PartCounts(items: seq<Item>, g: nat, k: nat, x: Item)
    requires k <= |items|
    ensures Times(Part(items, Everything(items), g, k), x) == if x.pair.group == g then Times(items[..k], x) else 0
  {
    hide Times;
    if k == 0 {
      NoTimes(x);
    } else {
      PartCounts(items, g, k - 1, x);
      var part, last := Part(items, Everything(items), g, k - 1), items[k - 1];
      assert items[..k] == items[..k - 1] + [last];
      assert Part(items, Everything(items), g, k) == if last.pair.group == g then part + [last] else part;
      hide Part, Everything;
      TimesOne(last, x);
      TimesAdd(items[..k - 1], [last], x);
      TimesAdd(part, [last], x);
    }
  }

  lemma PrefixCounts(a: seq<Item>, b: seq<Item>, x: Item)
    requires a <= b
    ensures Times(a, x) <= Times(b, x)
  {
    assert b == a + b[|a|..];
  }

  lemma {:induction false} ByGroupCounts(items: seq<Item>, taken: set<nat>, n: nat, x: Item)
    requires Closed(items, taken)
    ensures Times(ByGroup(items, taken, n), x) <= if x.pair.group < n then Times(items, x) else 0
    ensures taken == Everything(items) ==>
            Times(ByGroup(items, taken, n), x) == if x.pair.group < n then Times(items, x) else 0
  {
    hide Part, Closed, Everything, Min, Times;
    if n == 0 {
      NoTimes(x);
    } else {
      ByGroupCounts(items, taken, n - 1, x);
      TimesAdd(ByGroup(items, taken, n - 1), Part(items, taken, n - 1, |items|), x);
      PartIsPrefix(items, taken, n - 1, |items|);
      PrefixCounts(Part(items, taken, n - 1, |items|), OfGroup(items, n - 1), x);
      PartCounts(items, n - 1, |items|, x);
      assert items[..|items|] == items;
    }
  }

  /** Nobody stands twice: the list holds each item at most as often as the checked ones do. */
  lemma NothingInvented(checked: seq<Item>)
    ensures multiset(Shown(checked)) <= multiset(checked)
  {
    hide Primary, ByGroup, Taken, Below, Tailed, Closed, Accepted;
    var p := Primary(checked);
    var chosen, low := ByGroup(p, Taken(p), GROUPS), Below(checked, 0);
    TakenIs(p);
    TailIsPrefix(checked, chosen, 0);
    PrimaryAndBelow(checked);
    var t := TailSize(|chosen|, low);
    forall x: Item ensures multiset(chosen + low[..t])[x] <= multiset(checked)[x] {
      ByGroupCounts(p, Taken(p), GROUPS, x);
      PrefixCounts(low[..t], low, x);
    }
  }

  /** With n accepted and m checked pairs: min(n, 12) from five accepted ones on, else min(5, m). */
  lemma ListLength(checked: seq<Item>)
    ensures |Shown(checked)|
         == if |Primary(checked)| >= 5 then Min(|Primary(checked)|, 12) else Min(5, |checked|)
  {
    var p := Primary(checked);
    TakenIs(p);
    AllGroupsSize(p, Taken(p));
    TailIsPrefix(checked, ByGroup(p, Taken(p), GROUPS), 0);
    PrimaryAndBelow(checked);
  }

  /** The list: per group a beginning of its accepted pairs, best first, then a beginning of those below the floor. */
  ghost predicate Arranged(checked: seq<Item>, sizes: seq<nat>, tail: nat)
    requires |sizes| == GROUPS
  {
    var p := Primary(checked);
    && (forall g :: 0 <= g < GROUPS ==> sizes[g] <= |OfGroup(p, g)|)
    && tail <= |Below(checked, 0)|
    && Shown(checked) == Joined(p, sizes, GROUPS) + Below(checked, 0)[..tail]
  }

  ghost function Joined(p: seq<Item>, sizes: seq<nat>, n: nat): seq<Item>
    requires n <= |sizes|
    requires forall g :: 0 <= g < |sizes| ==> sizes[g] <= |OfGroup(p, g)|
  {
    if n == 0 then [] else Joined(p, sizes, n - 1) + OfGroup(p, n - 1)[..sizes[n - 1]]
  }

  lemma {:induction false} JoinedIs(p: seq<Item>, taken: set<nat>, sizes: seq<nat>, n: nat)
    requires n <= |sizes| && Closed(p, taken)
    requires forall g :: 0 <= g < |sizes| ==> sizes[g] == |Part(p, taken, g, |p|)| <= |OfGroup(p, g)|
    ensures Joined(p, sizes, n) == ByGroup(p, taken, n)
  {
    hide Part, Closed, Everything;
    if n > 0 {
      JoinedIs(p, taken, sizes, n - 1);
      PartIsPrefix(p, taken, n - 1, |p|);
    }
  }

  /**
   The order of the screen: the groups one after the other, each a beginning of its accepted pairs
   with at least its two places when it has that many, and the tail of the ones below the floor only
   after all accepted ones.
   */
  lemma ListArranged(checked: seq<Item>) returns (sizes: seq<nat>, tail: nat)
    requires Ordered(checked)
    ensures |sizes| == GROUPS && Arranged(checked, sizes, tail)
    ensures forall g :: 0 <= g < GROUPS ==> sizes[g] >= Min(PER_GROUP, |OfGroup(Primary(checked), g)|)
    ensures forall g :: 0 <= g < GROUPS ==> Ordered(OfGroup(Primary(checked), g))
    ensures Ordered(Below(checked, 0))
    ensures tail > 0 ==> forall g :: 0 <= g < GROUPS ==> sizes[g] == |OfGroup(Primary(checked), g)|
  {
    var p := Primary(checked);
    var taken := Taken(p);
    TakenIs(p);
    PrimaryIs(checked);
    BelowIs(checked, 0);
    forall g | 0 <= g < GROUPS
      ensures |Part(p, taken, g, |p|)| <= |OfGroup(p, g)| && Ordered(OfGroup(p, g))
      ensures |Part(p, taken, g, |p|)| >= Min(PER_GROUP, |OfGroup(p, g)|)
    {
      PartIsPrefix(p, taken, g, |p|);
      PartHasQuota(p, taken, g, |p|);
      PartIs(p, Everything(p), g, |p|);
    }
    sizes := seq(GROUPS, g requires 0 <= g < GROUPS => |Part(p, taken, g, |p|)|);
    JoinedIs(p, taken, sizes, GROUPS);
    var chosen := ByGroup(p, taken, GROUPS);
    AllGroupsSize(p, taken);
    TailIsPrefix(checked, chosen, 0);
    tail := TailSize(|chosen|, Below(checked, 0));
  }

  /** An accepted pair without a place beats none of those that fill the free ones. */
  lemma FillIsBest(checked: seq<Item>, i: nat, j: nat)
    requires Ordered(checked)
    requires i in Taken(Primary(checked)) && i !in Quota(Primary(checked))
    requires j < |Primary(checked)| && j !in Taken(Primary(checked))
    ensures i < |Primary(checked)| && !Before(Primary(checked)[j].pair, Primary(checked)[i].pair)
  {
    PrimaryIs(checked);
    TakenIs(Primary(checked));
  }

  lemma {:induction false} PrimaryHas(checked: seq<Item>)
    ensures forall x :: x in Primary(checked) <==> x in checked && x.pair.payout >= 80.0
  {
    if checked != [] {
      var init := checked[..|checked| - 1];
      PrimaryHas(init);
      assert checked == init + [checked[|checked| - 1]];
    }
  }

  /** No pair below the floor is shown while an accepted one is left out. */
  lemma FloorRespected(checked: seq<Item>, low: Item)
    requires Ordered(checked) && low in Shown(checked) && low.pair.payout < 80.0
    ensures multiset(Primary(checked)) <= multiset(Shown(checked))
    ensures |Primary(checked)| < 5
    ensures forall x :: x in Primary(checked) <==> x in checked && x.pair.payout >= 80.0
  {
    var p := Primary(checked);
    var taken := Taken(p);
    TakenIs(p);
    AllGroupsSize(p, taken);
    var chosen := ByGroup(p, taken, GROUPS);
    TailIsPrefix(checked, chosen, 0);
    PrimaryIs(checked);
    ByGroupCounts(p, taken, GROUPS, low);
    PrimaryHas(checked);
    assert low !in p;
    assert low !in multiset(chosen);
    assert |chosen| < MIN_SIZE;
    forall x: Item ensures multiset(p)[x] <= multiset(chosen)[x] {
      ByGroupCounts(p, taken, GROUPS, x);
    }
  }
}
