/**
 The choice of the signals screen's pairs (`signalsShown` of `apps/bot/src/demo.ts`), with the order,
 the payout floor and the groups of `packages/shared/src/catalog.ts`. Which pairs can be traded now
 is an input: the map from an asset to its pair as `checkDemoTrade` lets it through.
 */
module SignalsShown {
  import StableSort

  const GROUPS: nat := 6
  const PER_GROUP: nat := 2
  const LIST_SIZE: nat := PER_GROUP * GROUPS
  const MIN_SIZE: nat := 5
  const MIN_PAYOUT: real := 80.0

  type Group = g: nat | g < GROUPS

  datatype Pair = Pair(id: nat, payout: real, group: Group)
  /** A listed signal: its asset and what the record of the shown direction takes from it. */
  datatype Signal = Signal(assetId: nat, action: nat, second: nat, decidedAt: nat)
  datatype Item = Item(pair: Pair, signal: Signal)

  /** `comparePairsByPayout(a, b) < 0`: the better payout, the lower id of two equal ones. */
  predicate Before(a: Pair, b: Pair) {
    a.payout > b.payout || (a.payout == b.payout && a.id < b.id)
  }

  /** `byPayout(a, b) < 0`. */
  predicate ByPayout(a: Item, b: Item) { Before(a.pair, b.pair) }

  function Sorted(items: seq<Item>): seq<Item> { StableSort.Sorted(items, ByPayout) }

  predicate Accepted(p: Pair) { p.payout >= MIN_PAYOUT }

  function Checked(signals: seq<Signal>, tradable: map<nat, Pair>): seq<Item> {
    if signals == [] then []
    else
      var s := signals[|signals| - 1];
      Checked(signals[..|signals| - 1], tradable)
      + if s.assetId in tradable then [Item(tradable[s.assetId], s)] else []
  }

  // ----- the places

  function Primary(items: seq<Item>): seq<Item> {
    if items == [] then []
    else Primary(items[..|items| - 1]) + if Accepted(items[|items| - 1].pair) then [items[|items| - 1]] else []
  }

  /** How many of the first k items are of the group. */
  function CountOf(items: seq<Item>, g: nat, k: nat): nat
    requires k <= |items|
  {
    if k == 0 then 0 else CountOf(items, g, k - 1) + if items[k - 1].pair.group == g then 1 else 0
  }

  /** Among the first two of its group. */
  predicate InQuota(items: seq<Item>, i: nat)
    requires i < |items|
  {
    CountOf(items, items[i].pair.group, i) < PER_GROUP
  }

  function Quota(items: seq<Item>): set<nat> {
    set i | 0 <= i < |items| && InQuota(items, i)
  }

  /** The free places go to the rest in order: the items from k on are taken until the list is full. */
  function Filled(items: seq<Item>, taken: set<nat>, k: nat): set<nat>
    requires k <= |items|
    decreases |items| - k
  {
    if k == |items| || |taken| >= LIST_SIZE then taken else Filled(items, taken + {k}, k + 1)
  }

  function Taken(items: seq<Item>): set<nat> { Filled(items, Quota(items), 0) }

  /** The taken ones of one group among the first k. */
  function Part(items: seq<Item>, taken: set<nat>, g: nat, k: nat): seq<Item>
    requires k <= |items|
  {
    if k == 0 then []
    else Part(items, taken, g, k - 1) + if k - 1 in taken && items[k - 1].pair.group == g then [items[k - 1]] else []
  }

  /** The taken ones of the first n groups, group after group. */
  function ByGroup(items: seq<Item>, taken: set<nat>, n: nat): seq<Item> {
    if n == 0 then [] else ByGroup(items, taken, n - 1) + Part(items, taken, n - 1, |items|)
  }

  /** Below the floor, best first, until the list has its least size. */
  function Tailed(items: seq<Item>, shown: seq<Item>, k: nat): seq<Item>
    requires k <= |items|
    decreases |items| - k
  {
    if k == |items| || |shown| >= MIN_SIZE then shown
    else Tailed(items, if Accepted(items[k].pair) then shown else shown + [items[k]], k + 1)
  }

  function Shown(checked: seq<Item>): seq<Item> {
    var primary := Primary(checked);
    Tailed(checked, ByGroup(primary, Taken(primary), GROUPS), 0)
  }

  // ----- the code

  method Choose(signals: seq<Signal>, tradable: map<nat, Pair>) returns (shown: seq<Item>)
    ensures shown == Shown(Sorted(Checked(signals, tradable)))
  {
    hide Primary, ByGroup, Tailed, Quota, Filled, Sorted;
    var checked := CheckAll(signals, tradable);
    checked := Sorted(checked);
    var primary := Primary(checked);
    var taken := TakeQuota(primary);
    taken := FillPlaces(primary, taken);
    shown := GroupUp(primary, taken);
    shown := AddTail(checked, shown);
  }

  /** The signals of pairs that can be traded now. */
  method CheckAll(signals: seq<Signal>, tradable: map<nat, Pair>) returns (checked: seq<Item>)
    ensures checked == Checked(signals, tradable)
  {
    checked := [];
    for n := 0 to |signals|
      invariant checked == Checked(signals[..n], tradable)
    {
      assert signals[..n + 1][..n] == signals[..n];
      if signals[n].assetId in tradable {
        checked := checked + [Item(tradable[signals[n].assetId], signals[n])];
      }
    }
    assert signals[..|signals|] == signals;
  }

  /** The free places, from the first pair on. */
  method FillPlaces(primary: seq<Item>, quota: set<nat>) returns (taken: set<nat>)
    ensures taken == Filled(primary, quota, 0)
  {
    taken := quota;
    var k: nat := 0;
    while k < |primary| && |taken| < LIST_SIZE
      invariant k <= |primary|
      invariant Filled(primary, taken, k) == Filled(primary, quota, 0)
    {
      taken := taken + {k};
      k := k + 1;
    }
  }

  /** The taken ones, group after group. */
  method GroupUp(primary: seq<Item>, taken: set<nat>) returns (shown: seq<Item>)
    ensures shown == ByGroup(primary, taken, GROUPS)
  {
    shown := [];
    for g := 0 to GROUPS
      invariant shown == ByGroup(primary, taken, g)
    {
      var before := shown;
      for i := 0 to |primary|
        invariant shown == before + Part(primary, taken, g, i)
      {
        if i in taken && primary[i].pair.group == g {
          shown := shown + [primary[i]];
        }
      }
    }
  }

  /** The pairs below the floor, until the list has its least size. */
  method AddTail(checked: seq<Item>, before: seq<Item>) returns (shown: seq<Item>)
    ensures shown == Tailed(checked, before, 0)
  {
    shown := before;
    var k: nat := 0;
    while k < |checked| && |shown| < MIN_SIZE
      invariant k <= |checked|
      invariant Tailed(checked, shown, k) == Tailed(checked, before, 0)
    {
      if !Accepted(checked[k].pair) {
        shown := shown + [checked[k]];
      }
      k := k + 1;
    }
  }

  /** Up to two of every group. */
  method TakeQuota(primary: seq<Item>) returns (taken: set<nat>)
    ensures taken == Quota(primary)
  {
    taken := {};
    for g := 0 to GROUPS
      invariant taken == set i | 0 <= i < |primary| && primary[i].pair.group < g && InQuota(primary, i)
    {
      var before := taken;
      var places := 0;
      for i := 0 to |primary|
        invariant places == CountOf(primary, g, i)
        invariant taken == before + set j | 0 <= j < i && primary[j].pair.group == g && InQuota(primary, j)
      {
        if primary[i].pair.group == g {
          if places < PER_GROUP {
            taken := taken + {i};
          }
          places := places + 1;
        }
      }
    }
  }
}
