/**
 The bot's record of the directions it showed (`apps/bot/src/shown-signals.ts`): per user the pairs, both
 levels a `Map` whose insertion order is the recency.
 */
module ShownSignals {
  import opened Wrappers
  import opened MapOrder

  /** A record of a screen, and what is kept of it. */
  datatype Shown = Shown(assetId: nat, action: nat, second: nat, decidedAt: nat)
  datatype Kept = Kept(action: nat, second: nat, decidedAt: nat, shownAtMs: int, source: nat)

  function KeptOf(shown: Shown, source: nat, shownAtMs: int): Kept {
    Kept(shown.action, shown.second, shown.decidedAt, shownAtMs, source)
  }

  /** A `Map` with its insertion order. */
  datatype Ordered<V> = Ordered(keys: seq<nat>, values: map<nat, V>) {
    ghost predicate Valid() { NoRepeats(keys) && forall k: nat :: k in keys <==> k in values }

    function Get(k: nat): Option<V> { if k in values then Some(values[k]) else None }

    function Delete(k: nat): Ordered<V> { Ordered(Removed(keys, k), values - {k}) }

    /** `delete` and `set`: the key goes last. */
    function Touch(k: nat, v: V): Ordered<V> { Ordered(Removed(keys, k) + [k], values[k := v]) }

    /** The newest that fit. */
    function Newest(max: nat): Ordered<V>
      decreases |keys|
    {
      if |keys| <= max then this else Ordered(keys[1..], values - {keys[0]}).Newest(max)
    }
  }

  type Own = Ordered<Kept>
  type Users = Ordered<Own>

  function Nobody<V>(): Ordered<V> { Ordered([], map[]) }

  function Written(own: Own, source: nat, shownAtMs: int, records: seq<Shown>): Own {
    if records == [] then own
    else
      var last := records[|records| - 1];
      Written(own, source, shownAtMs, records[..|records| - 1]).Touch(last.assetId, KeptOf(last, source, shownAtMs))
  }

  function OwnOf(users: Users, user: nat): Own { if user in users.values then users.values[user] else Nobody() }

  function Remembered(users: Users, maxPerUser: nat, maxUsers: nat, user: nat, source: nat, shownAtMs: int,
                      records: seq<Shown>): Users {
    if records == [] then users
    else users.Touch(user, Written(OwnOf(users, user), source, shownAtMs, records).Newest(maxPerUser)).Newest(maxUsers)
  }

  function Found(users: Users, user: nat, asset: nat): Option<Kept> { OwnOf(users, user).Get(asset) }

  function Without(users: Users, user: nat, asset: nat): Users {
    if Found(users, user, asset) == None then users
    else
      var rest := OwnOf(users, user).Delete(asset);
      if rest.keys == [] then users.Delete(user) else Ordered(users.keys, users.values[user := rest])
  }

  // ----- the code

  class Store {
    const maxPerUser: nat
    const maxUsers: nat
    var users: Users

    constructor (maxPerUser: nat, maxUsers: nat)
      ensures this.maxPerUser == maxPerUser && this.maxUsers == maxUsers && users == Nobody()
    {
      this.maxPerUser, this.maxUsers, users := maxPerUser, maxUsers, Nobody();
    }

    method Remember(user: nat, source: nat, shownAtMs: int, records: seq<Shown>)
      modifies this`users
      ensures users == Remembered(old(users), maxPerUser, maxUsers, user, source, shownAtMs, records)
    {
      if |records| == 0 {
        return;
      }
      var own := OwnOf(users, user);
      ghost var before := own;
      for i := 0 to |records|
        invariant own == Written(before, source, shownAtMs, records[..i])
      {
        assert records[..i + 1][..i] == records[..i];
        own := own.Touch(records[i].assetId, KeptOf(records[i], source, shownAtMs));
      }
      assert records[..|records|] == records;
      ghost var all := own;
      while |own.keys| > maxPerUser
        invariant own.Newest(maxPerUser) == all.Newest(maxPerUser)
        decreases |own.keys|
      {
        own := Ordered(own.keys[1..], own.values - {own.keys[0]});
      }
      users := users.Touch(user, own);
      ghost var everybody := users;
      while |users.keys| > maxUsers
        invariant users.Newest(maxUsers) == everybody.Newest(maxUsers)
        decreases |users.keys|
      {
        users := Ordered(users.keys[1..], users.values - {users.keys[0]});
      }
    }

    method Take(user: nat, asset: nat) returns (record: Option<Kept>)
      modifies this`users
      ensures record == Found(old(users), user, asset)
      ensures users == Without(old(users), user, asset)
    {
      if user !in users.values || asset !in users.values[user].values {
        return None;
      }
      var own := users.values[user];
      record := Some(own.values[asset]);
      own := own.Delete(asset);
      users := if |own.keys| == 0 then users.Delete(user) else Ordered(users.keys, users.values[user := own]);
    }
  }
}
