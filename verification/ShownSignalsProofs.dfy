/** The store against a memory without bounds: what it still has is the newest record shown and not yet taken. */
module ShownSignalsProofs {
  import opened Wrappers
  import opened MapOrder
  import opened ShownSignals

  // ----- one level

  lemma TouchIs<V>(m: Ordered<V>, k: nat, v: V)
    requires m.Valid()
    ensures m.Touch(k, v).Valid() && |m.Touch(k, v).keys| == |m.keys| + if k in m.values then 0 else 1
  {
    RemovedNoRepeats(m.keys, k);
    RemovedSize(m.keys, k);
    NoRepeatsCons(k, Removed(m.keys, k));
  }

  lemma DeleteIs<V>(m: Ordered<V>, k: nat)
    requires m.Valid()
    ensures m.Delete(k).Valid() && |m.Delete(k).keys| <= |m.keys|
  {
    RemovedNoRepeats(m.keys, k);
    RemovedSize(m.keys, k);
  }

  /** Trimming keeps exactly the newest keys, and their values. */
  lemma {:induction false} NewestIs<V>(m: Ordered<V>, max: nat)
    requires m.Valid()
    ensures var t := m.Newest(max);
      && t.Valid() && t.keys == (if |m.keys| <= max then m.keys else m.keys[|m.keys| - max..])
      && forall k: nat :: k in t.values ==> k in m.values && t.values[k] == m.values[k]
    decreases |m.keys|
  {
    if |m.keys| > max {
      var rest := Ordered(m.keys[1..], m.values - {m.keys[0]});
      assert m.keys == [m.keys[0]] + m.keys[1..];
      assert m.keys[0] !in m.keys[1..];
      NewestIs(rest, max);
    }
  }

  /** The key is among the newest. */
  ghost predicate Recent(keys: seq<nat>, max: nat, k: nat) {
    exists p :: 0 <= p < |keys| && keys[p] == k && |keys| - p <= max
  }

  lemma RecentIsKept(keys: seq<nat>, max: nat, k: nat)
    ensures Recent(keys, max, k) <==> k in if |keys| <= max then keys else keys[|keys| - max..]
  {
    var kept := if |keys| <= max then keys else keys[|keys| - max..];
    var from := |keys| - |kept|;
    assert forall q :: 0 <= q < |kept| ==> kept[q] == keys[from + q];
    if k in kept {
      var q :| 0 <= q < |kept| && kept[q] == k;
      assert keys[from + q] == k;
    }
    if Recent(keys, max, k) {
      var p :| 0 <= p < |keys| && keys[p] == k && |keys| - p <= max;
      assert kept[p - from] == k;
    }
  }

  /** What trimming leaves: exactly the newest keys, each with its value. */
  lemma NewestGets<V>(m: Ordered<V>, max: nat, k: nat)
    requires m.Valid()
    ensures m.Newest(max).Get(k) == if Recent(m.keys, max, k) then m.Get(k) else None
  {
    NewestIs(m, max);
    RecentIsKept(m.keys, max, k);
    hide Recent, NoRepeats;
  }

  // ----- a screen's records

  /** The assets of the records, by their last occurrence. */
  function Assets(records: seq<Shown>): seq<nat> {
    if records == [] then []
    else Removed(Assets(records[..|records| - 1]), records[|records| - 1].assetId) + [records[|records| - 1].assetId]
  }

  /** The last record of the asset, as the store keeps it. */
  function LastOf(records: seq<Shown>, asset: nat, source: nat, shownAtMs: int): Option<Kept> {
    if records == [] then None
    else if records[|records| - 1].assetId == asset then
      var r := records[|records| - 1];
      Some(Kept(r.action, r.second, r.decidedAt, shownAtMs, source))
    else LastOf(records[..|records| - 1], asset, source, shownAtMs)
  }

  function Others(keys: seq<nat>, written: seq<nat>): (rest: seq<nat>)
    ensures forall k :: k in rest <==> k in keys && k !in written
  {
    if keys == [] then []
    else (if keys[0] in written then [] else [keys[0]]) + Others(keys[1..], written)
  }

  lemma {:induction false} RemovedSum(a: seq<nat>, b: seq<nat>, k: nat)
    ensures Removed(a + b, k) == Removed(a, k) + Removed(b, k)
  {
    if a == [] {
      assert a + b == b;
    } else {
      assert (a + b)[1..] == a[1..] + b;
      RemovedSum(a[1..], b, k);
    }
  }

  lemma {:induction false} OthersRemoved(keys: seq<nat>, written: seq<nat>, k: nat)
    ensures Removed(Others(keys, written), k) == Others(keys, Removed(written, k) + [k])
  {
    if keys != [] {
      OthersRemoved(keys[1..], written, k);
      var x, rest, more := keys[0], Others(keys[1..], written), Removed(written, k) + [k];
      assert x in more <==> x in written || x == k;
      if x in written {
        assert Others(keys, written) == rest;
        assert Others(keys, more) == Others(keys[1..], more);
      } else if x == k {
        assert Others(keys, written) == [x] + rest;
        assert ([x] + rest)[1..] == rest;
        assert Others(keys, more) == Others(keys[1..], more);
      } else {
        assert Others(keys, written) == [x] + rest;
        assert ([x] + rest)[1..] == rest;
      }
    }
  }

  /** After a screen its assets are the newest, in the order of their last records. */
  lemma {:induction false} WrittenKeys(own: Own, source: nat, shownAtMs: int, records: seq<Shown>)
    requires own.Valid()
    ensures var t := Written(own, source, shownAtMs, records);
      t.Valid() && t.keys == Others(own.keys, Assets(records)) + Assets(records)
  {
    if records == [] {
      AllOthers(own.keys);
    } else {
      var init, last := records[..|records| - 1], records[|records| - 1];
      WrittenKeys(own, source, shownAtMs, init);
      var before := Written(own, source, shownAtMs, init);
      TouchIs(before, last.assetId, KeptOf(last, source, shownAtMs));
      RemovedSum(Others(own.keys, Assets(init)), Assets(init), last.assetId);
      OthersRemoved(own.keys, Assets(init), last.assetId);
      hide NoRepeats, Others, Removed, KeptOf;
    }
  }

  /** After a screen each of its assets has its last record, every other one its old one. */
  lemma {:induction false} WrittenValue(own: Own, source: nat, shownAtMs: int, records: seq<Shown>, k: nat)
    ensures Written(own, source, shownAtMs, records).Get(k)
         == if LastOf(records, k, source, shownAtMs).Some? then LastOf(records, k, source, shownAtMs) else own.Get(k)
  {
    if records != [] {
      hide Removed;
      WrittenValue(own, source, shownAtMs, records[..|records| - 1], k);
    }
  }

  lemma {:induction false} AllOthers(keys: seq<nat>)
    ensures Others(keys, []) == keys
  {
    if keys != [] { AllOthers(keys[1..]); }
  }

  // ----- the store

  datatype Config = Config(maxPerUser: nat, maxUsers: nat)

  /** Both levels within their bounds; a user is kept only with records. */
  ghost predicate Bounded(c: Config, users: Users) {
    && users.Valid() && |users.keys| <= c.maxUsers
    && forall u: nat :: u in users.values ==> OwnBounded(c, users.values[u])
  }

  type Memory = map<(nat, nat), Kept>

  /** The memory without bounds: a screen writes, a start takes. */
  function Recalled(memory: Memory, user: nat, source: nat, shownAtMs: int, records: seq<Shown>): Memory {
    if records == [] then memory
    else
      var last := records[|records| - 1];
      var before := Recalled(memory, user, source, shownAtMs, records[..|records| - 1]);
      before[(user, last.assetId) := Kept(last.action, last.second, last.decidedAt, shownAtMs, source)]
  }

  lemma {:induction false} RecalledIs(memory: Memory, user: nat, source: nat, shownAtMs: int, records: seq<Shown>,
                                      u: nat, a: nat)
    ensures var after := Recalled(memory, user, source, shownAtMs, records);
      var last := LastOf(records, a, source, shownAtMs);
      if u == user && last.Some? then (u, a) in after && after[(u, a)] == last.value
      else ((u, a) in after <==> (u, a) in memory) && ((u, a) in after ==> after[(u, a)] == memory[(u, a)])
  {
    if records != [] { RecalledIs(memory, user, source, shownAtMs, records[..|records| - 1], u, a); }
  }

  datatype Op = Screen(user: nat, source: nat, shownAtMs: int, records: seq<Shown>) | Taking(user: nat, asset: nat)

  function Applied(c: Config, users: Users, op: Op): Users {
    match op
    case Screen(user, source, at, records) => Remembered(users, c.maxPerUser, c.maxUsers, user, source, at, records)
    case Taking(user, asset) => Without(users, user, asset)
  }

  function Recollected(memory: Memory, op: Op): Memory {
    match op
    case Screen(user, source, at, records) => Recalled(memory, user, source, at, records)
    case Taking(user, asset) => memory - {(user, asset)}
  }

  /** What the store has is what the memory has. */
  ghost predicate Remembers(users: Users, memory: Memory) {
    forall u: nat, a: nat :: Found(users, u, a).Some? ==> (u, a) in memory && memory[(u, a)] == Found(users, u, a).value
  }

  ghost predicate OwnBounded(c: Config, own: Own) {
    own.Valid() && |own.keys| <= c.maxPerUser && (c.maxPerUser > 0 ==> own.keys != [])
  }

  /** A user's records after a screen. */
  ghost function OwnAfter(c: Config, own: Own, source: nat, shownAtMs: int, records: seq<Shown>): Own {
    Written(own, source, shownAtMs, records).Newest(c.maxPerUser)
  }

  lemma OwnAfterIs(c: Config, own: Own, source: nat, shownAtMs: int, records: seq<Shown>, a: nat)
    requires own.Valid() && records != []
    ensures var kept := OwnAfter(c, own, source, shownAtMs, records);
      && OwnBounded(c, kept)
      && kept.Get(a) == if !Recent(Others(own.keys, Assets(records)) + Assets(records), c.maxPerUser, a) then None
                        else if LastOf(records, a, source, shownAtMs).Some? then LastOf(records, a, source, shownAtMs)
                        else own.Get(a)
  {
    WrittenKeys(own, source, shownAtMs, records);
    WrittenValue(own, source, shownAtMs, records, a);
    var written := Written(own, source, shownAtMs, records);
    assert Assets(records) != [];
    hide Written, LastOf, Assets, Others, KeptOf, NoRepeats, Recent;
    NewestIs(written, c.maxPerUser);
    NewestGets(written, c.maxPerUser, a);
  }

  lemma UserPut(c: Config, users: Users, user: nat, kept: Own)
    requires Bounded(c, users) && OwnBounded(c, kept)
    ensures var t := users.Touch(user, kept).Newest(c.maxUsers);
      && Bounded(c, t)
      && forall u: nat :: t.Get(u) ==
           if !Recent(Removed(users.keys, user) + [user], c.maxUsers, u) then None
           else if u == user then Some(kept) else users.Get(u)
  {
    var touched := users.Touch(user, kept);
    TouchIs(users, user, kept);
    NewestIs(touched, c.maxUsers);
    var t := touched.Newest(c.maxUsers);
    forall u: nat
      ensures t.Get(u) == if !Recent(touched.keys, c.maxUsers, u) then None else touched.Get(u)
    {
      NewestGets(touched, c.maxUsers, u);
    }
    hide Recent, Removed;
    assert Bounded(c, t) by {
      forall u: nat | u in t.values ensures OwnBounded(c, t.values[u]) {
        assert u == user || u in users.values;
      }
    }
  }

  /**
   What is found after a screen: nothing of a user who is not among the newest maxUsers, the screen's last;
   of another user what was found before; of the screen's own user nothing of a pair that is not among the
   newest maxPerUser, the screen's pairs last; and else the screen's last record of it, or the old one.
   */
  ghost function Survivor(c: Config, users: Users, screen: Op, u: nat, a: nat): Option<Kept>
    requires screen.Screen?
  {
    var Screen(user, source, at, records) := screen;
    var own := OwnOf(users, user);
    if !Recent(Removed(users.keys, user) + [user], c.maxUsers, u) then None
    else if u != user then Found(users, u, a)
    else if !Recent(Others(own.keys, Assets(records)) + Assets(records), c.maxPerUser, a) then None
    else if LastOf(records, a, source, at).Some? then LastOf(records, a, source, at)
    else own.Get(a)
  }

  /** Who and what survives a screen, exactly. */
  lemma ScreenSurvivors(c: Config, users: Users, screen: Op, u: nat, a: nat)
    requires Bounded(c, users) && screen.Screen? && screen.records != []
    ensures var t := Applied(c, users, screen); Bounded(c, t) && Found(t, u, a) == Survivor(c, users, screen, u, a)
  {
    var Screen(user, source, at, records) := screen;
    var own := OwnOf(users, user);
    assert own.Valid();
    hide Written, LastOf, OwnBounded, Bounded, Recent, Assets, Others, Removed;
    OwnAfterIs(c, own, source, at, records, a);
    UserPut(c, users, user, OwnAfter(c, own, source, at, records));
  }

  /** A screen's records keep the store within its bounds and within the memory. */
  lemma RememberKeeps(c: Config, users: Users, memory: Memory, screen: Op)
    requires Bounded(c, users) && Remembers(users, memory) && screen.Screen?
    ensures Bounded(c, Applied(c, users, screen)) && Remembers(Applied(c, users, screen), Recollected(memory, screen))
  {
    var Screen(user, source, at, records) := screen;
    var t, after := Applied(c, users, screen), Recollected(memory, screen);
    hide Bounded, Remembered, Recalled, Found, Recent, Assets, Others, Removed;
    if records != [] {
      ScreenSurvivors(c, users, screen, 0, 0);
      forall u: nat, a: nat | Found(t, u, a).Some?
        ensures (u, a) in after && after[(u, a)] == Found(t, u, a).value
      {
        ScreenSurvivors(c, users, screen, u, a);
        RecalledIs(memory, user, source, at, records, u, a);
        FoundOwn(users, u, a);
      }
    } else {
      NoRecords(c, users, memory, screen);
    }
  }

  lemma FoundOwn(users: Users, u: nat, a: nat)
    ensures Found(users, u, a) == OwnOf(users, u).Get(a)
  {
  }

  lemma NoRecords(c: Config, users: Users, memory: Memory, screen: Op)
    requires screen.Screen? && screen.records == []
    ensures Applied(c, users, screen) == users && Recollected(memory, screen) == memory
  {
  }

  /** A start takes the newest record shown for its pair that was not taken yet, once; every other record stays. */
  lemma TakeIsOnce(c: Config, users: Users, memory: Memory, user: nat, asset: nat)
    requires Bounded(c, users) && Remembers(users, memory)
    ensures var t := Without(users, user, asset);
      && Bounded(c, t) && Remembers(t, memory - {(user, asset)})
      && Found(t, user, asset) == None
      && (forall u: nat, a: nat :: (u, a) != (user, asset) ==> Found(t, u, a) == Found(users, u, a))
      && var found := Found(users, user, asset);
        found.Some? ==> (user, asset) in memory && found.value == memory[(user, asset)]
  {
    TakenBounded(c, users, user, asset);
    TakenFound(c, users, user, asset);
    hide Without, Bounded, Found;
  }

  lemma TakenBounded(c: Config, users: Users, user: nat, asset: nat)
    requires Bounded(c, users)
    ensures Bounded(c, Without(users, user, asset))
  {
    hide Removed;
    DeleteIs(OwnOf(users, user), asset);
    DeleteIs(users, user);
  }

  lemma TakenFound(c: Config, users: Users, user: nat, asset: nat)
    requires Bounded(c, users)
    ensures var t := Without(users, user, asset);
      forall u: nat, a: nat :: Found(t, u, a) == if (u, a) == (user, asset) then None else Found(users, u, a)
  {
    DeleteIs(OwnOf(users, user), asset);
    if Found(users, user, asset) != None {
      var rest := OwnOf(users, user).Delete(asset);
      assert rest.keys == [] ==> forall a: nat :: a !in rest.values;
    }
    hide NoRepeats;
  }

  // ----- every run

  function StoreAfter(c: Config, ops: seq<Op>): Users {
    if ops == [] then Nobody() else Applied(c, StoreAfter(c, ops[..|ops| - 1]), ops[|ops| - 1])
  }

  /** The newest record of each pair shown and not taken since. */
  function MemoryAfter(ops: seq<Op>): Memory {
    if ops == [] then map[] else Recollected(MemoryAfter(ops[..|ops| - 1]), ops[|ops| - 1])
  }

  /** After every run of screens and starts the store is within its bounds, and a start would take the newest record. */
  lemma {:induction false} StoreWithinMemory(c: Config, ops: seq<Op>)
    ensures Bounded(c, StoreAfter(c, ops)) && Remembers(StoreAfter(c, ops), MemoryAfter(ops))
  {
    if ops != [] {
      var init, op := ops[..|ops| - 1], ops[|ops| - 1];
      StoreWithinMemory(c, init);
      hide Bounded, Remembers, Remembered, Recalled, Without, Found;
      match op
      case Screen(_, _, _, _) => RememberKeeps(c, StoreAfter(c, init), MemoryAfter(init), op);
      case Taking(user, asset) => TakeIsOnce(c, StoreAfter(c, init), MemoryAfter(init), user, asset);
    }
  }
}
