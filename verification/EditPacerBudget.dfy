/** The other half of the pacer's budget: the slots it owes. */
module EditPacerBudget {
  import opened Wrappers
  import opened EditPacer
  import opened EditPacerProofs
  import opened EditPacerTheorems

  // ----- the bucket, exactly

  /** Full at u, before all slots but the first n, the bucket has what was earned since and not spent; `lost`
      of the milliseconds since then earned nothing. */
  ghost predicate Bucket(c: Config, s: State, u: int, n: nat, lost: int) {
    && n <= |s.grants| && u <= s.refilledAt
    && (forall i | n <= i < |s.grants| :: u <= s.grants[i].at)
    && s.tokens == c.burst + Credit(c, s.refilledAt - u - lost) - (|s.grants| - n) as real
  }

  /** The callback comes inside a pause, the one it may bring included, and works all the same. */
  predicate Held(s: State, e: Event) {
    !s.closed && match e
    case Take(at, _, _, _) => at < s.paused
    case Pause(at, until, _) => s.paused < until && at < until
    case Fire(at, _) => s.timer.Some? && s.timer.value <= at < s.paused
    case Close(_) => false
  }

  /** The milliseconds that earned nothing: those before each callback inside a pause. */
  ghost function Lost(c: Config, start: int, events: seq<Event>): int
    requires c.Valid()
  {
    if events == [] then 0
    else
      var init, e := events[..|events| - 1], events[|events| - 1];
      var s := Run(c, start, init);
      Lost(c, start, init) + if Held(s, e) then e.at - s.refilledAt else 0
  }

  lemma GrantBucket(c: Config, s: State, k: nat, u: int, n: nat, lost: int)
    requires k < |s.Waiting()| && Bucket(c, s, u, n, lost)
    ensures Bucket(c, Granted(s, k, s.refilledAt), u, n, lost)
  {
    hide Credit;
    var t := Granted(s, k, s.refilledAt);
    assert forall i | 0 <= i < |s.grants| :: t.grants[i] == s.grants[i];
  }

  lemma {:induction false} ServedBucket(c: Config, s: State, at: int, unwanted: set<nat>, u: int, n: nat, lost: int)
    requires c.Valid() && Bucket(c, s, u, n, lost) && s.refilledAt == at
    ensures Bucket(c, Served(c, s, at, unwanted), u, n, lost)
    decreases |s.signal| + |s.housekeeping|
  {
    hide Kept, DropReplies, Without, FirstFree, EarliestFree, Credit, TokenWait;
    var f := Filtered(s, unwanted);
    assert Bucket(c, f, u, n, lost);
    if f.Waiting() != [] && f.tokens >= 1.0 {
      var k := FirstFree(c, f, f.Waiting(), at);
      if k < |f.Waiting()| {
        hide Bucket, Filtered;
        GrantBucket(c, f, k, u, n, lost);
        ServedBucket(c, Granted(f, k, at), at, unwanted, u, n, lost);
      }
    }
  }

  /** The bucket runs over, and is full now; or all of the credit is kept. */
  lemma RefreshBucket(c: Config, s: State, at: int, u: int, n: nat, lost: int)
    requires c.Valid() && Bucket(c, s, u, n, lost) && s.refilledAt <= at
    ensures var t := Refreshed(c, s, at); Bucket(c, t, at, |t.grants|, 0) || Bucket(c, t, u, n, lost)
  {
    CreditAdds(c, s.refilledAt - u - lost, at - s.refilledAt);
    assert Credit(c, 0) == 0.0;
  }

  /** After a pump the bucket is counted from this callback or from the one before. */
  lemma PumpedBucket(c: Config, s: State, at: int, unwanted: set<nat>, u: int, n: nat, lost: int)
    requires c.Valid() && Bucket(c, s, u, n, lost) && s.refilledAt <= at
    ensures var t := Pumped(c, s, at, unwanted);
            var held := if !s.closed && at < s.paused then at - s.refilledAt else 0;
            Bucket(c, t, at, |s.grants|, 0) || Bucket(c, t, u, n, lost + held)
  {
    if !s.closed {
      if at < s.paused {
      } else {
        RefreshBucket(c, s, at, u, n, lost);
        var r := Refreshed(c, s.(timer := None), at);
        assert r == Refreshed(c, s, at).(timer := None);
        hide Refreshed, Credit;
        if Bucket(c, r, at, |r.grants|, 0) {
          ServedBucket(c, r, at, unwanted, at, |r.grants|, 0);
        } else {
          ServedBucket(c, r, at, unwanted, u, n, lost);
        }
      }
    }
  }

  lemma StepBucket(c: Config, s: State, e: Event, u: int, n: nat, lost: int)
    requires c.Valid() && Bucket(c, s, u, n, lost) && s.refilledAt <= e.at
    ensures var held := if Held(s, e) then e.at - s.refilledAt else 0;
            Bucket(c, Step(c, s, e), e.at, |s.grants|, 0) || Bucket(c, Step(c, s, e), u, n, lost + held)
  {
    hide Pumped, Credit;
    match e
    case Take(at, chat, priority, unwanted) =>
      if !s.closed { PumpedBucket(c, Pushed(s, chat, priority), at, unwanted, u, n, lost); }
    case Pause(at, until, unwanted) =>
      if until > s.paused { PumpedBucket(c, s.(paused := until), at, unwanted, u, n, lost); }
    case Fire(at, unwanted) =>
      if s.timer.Some? && s.timer.value <= at { PumpedBucket(c, s.(timer := None), at, unwanted, u, n, lost); }
    case Close(at) =>
  }

  /** Of the first k callbacks: when the last of them came, and the slots given before it. */
  ghost function Before(c: Config, start: int, events: seq<Event>, k: nat): nat
    requires c.Valid() && k <= |events|
  {
    if k == 0 then 0 else |Run(c, start, events[..k - 1]).grants|
  }

  ghost predicate FullAt(c: Config, start: int, events: seq<Event>, k: nat) {
    && c.Valid() && k <= |events|
    && Bucket(c, Run(c, start, events), Last(start, events[..k]), Before(c, start, events, k),
              Lost(c, start, events) - Lost(c, start, events[..k]))
  }

  lemma FullOneMore(c: Config, start: int, events: seq<Event>, was: nat)
    requires c.Valid() && Monotone(start, events) && events != [] && was < |events|
    requires FullAt(c, start, events[..|events| - 1], was)
    ensures FullAt(c, start, events, |events|) || FullAt(c, start, events, was)
  {
    hide Bucket, Step, Inv, Held, Refreshed, Pumped;
    var init, e := events[..|events| - 1], events[|events| - 1];
    RunKeeps(c, start, init);
    var s := Run(c, start, init);
    assert init[..was] == events[..was] && events[..|events|] == events;
    if was > 0 { assert init[..was - 1] == events[..was - 1]; }
    StepBucket(c, s, e, Last(start, init[..was]), Before(c, start, init, was),
               Lost(c, start, init) - Lost(c, start, init[..was]));
  }

  /** In every run the bucket was full at some callback, and has exactly what was earned since and not spent. */
  lemma {:induction false} BucketIs(c: Config, start: int, events: seq<Event>) returns (k: nat)
    requires c.Valid() && Monotone(start, events)
    ensures k <= |events| && FullAt(c, start, events, k)
    decreases |events|
  {
    if events == [] {
      k := 0;
      assert Credit(c, 0) == 0.0 && events[..0] == events;
    } else {
      var was := BucketIs(c, start, events[..|events| - 1]);
      hide FullAt, Run, Lost;
      FullOneMore(c, start, events, was);
      k := if FullAt(c, start, events, was) then was else |events|;
    }
  }

  // ----- who waits, and why

  lemma {:induction false} CountAtLeast(grants: seq<Grant>, a: int, b: int, n: nat)
    requires n <= |grants| && forall i | n <= i < |grants| :: a <= grants[i].at <= b
    ensures CountIn(grants, a, b) >= |grants| - n
  {
    if n < |grants| {
      CountAtLeast(grants[..|grants| - 1], a, b, n);
    }
  }

  /** The chat had no slot for a gap before t. */
  ghost predicate Rested(c: Config, grants: seq<Grant>, chat: int, t: int) {
    forall j | 0 <= j < |grants| && grants[j].chat == chat :: t - grants[j].at >= c.chatGapMs
  }

  lemma RestedIsFree(c: Config, s: State, chat: int, t: int)
    requires Remembered(c, s) && Rested(c, s.grants, chat, t)
    ensures ChatFree(c, s, chat, t)
  {
    if chat in s.lastEditAt {
      assert EditedAt(s.grants, |s.grants|, chat, s.lastEditAt[chat]);
    }
  }

  lemma WaiterHasReason(c: Config, s: State, i: nat, t: int, u: int, n: nat, lost: int)
    requires c.Valid() && Inv(c, s) && Watchful(c, s) && Bucket(c, s, u, n, lost)
    requires !s.closed && i < |s.Waiting()| && Rested(c, s.grants, s.Waiting()[i].chat, t)
    requires s.paused <= t && s.refilledAt <= t && (s.timer.Some? ==> t < s.timer.value)
    ensures CountIn(s.grants, u, t) as real > c.burst + Credit(c, t - u - lost) - 1.0
  {
    RestedIsFree(c, s, s.Waiting()[i].chat, t);
    hide Remembered, SignalsFirst, Accounted, InOrder, Gapped, Windowed, Rested;
    assert !CouldGrant(c, s, t);
    CreditAdds(c, s.refilledAt - u - lost, t - s.refilledAt);
    hide Credit, ChatFree;
    CountAtLeast(s.grants, u, t, n);
  }

  /**
   Whoever waits waits for a reason. At any time after a run, no pause on and the timer not due: a waiter
   whose chat has rested is there only because some window up to now, begun at a callback, holds all the
   slots that the burst and its length allow, but for less than one. Of its milliseconds those before
   callbacks inside pauses do not count.
   */
  lemma WaitsForAReason(c: Config, start: int, events: seq<Event>, i: nat, t: int) returns (k: nat)
    requires c.Valid() && Monotone(start, events) && Last(start, events) <= t
    requires var s := Run(c, start, events);
             && !s.closed && i < |s.Waiting()| && Rested(c, s.grants, s.Waiting()[i].chat, t)
             && s.paused <= t && (s.timer.Some? ==> t < s.timer.value)
    ensures k <= |events| && Last(start, events[..k]) <= t
    ensures var u, lost := Last(start, events[..k]), Lost(c, start, events) - Lost(c, start, events[..k]);
            CountIn(Run(c, start, events).grants, u, t) as real > c.burst + Credit(c, t - u - lost) - 1.0
  {
    hide Run, Lost, Monotone, Inv, Watchful, Rested, Bucket, CountIn;
    k := BucketIs(c, start, events);
    RunKeeps(c, start, events);
    NeverStalls(c, start, events);
    WaiterHasReason(c, Run(c, start, events), i, t, Last(start, events[..k]), Before(c, start, events, k),
                    Lost(c, start, events) - Lost(c, start, events[..k]));
    LastBefore(start, events, k);
  }

  lemma {:induction false} LastBefore(start: int, events: seq<Event>, k: nat)
    requires Monotone(start, events) && k <= |events|
    ensures Last(start, events[..k]) <= Last(start, events)
    decreases |events|
  {
    if k < |events| {
      LastBefore(start, events[..|events| - 1], k);
      assert events[..|events| - 1][..k] == events[..k];
    } else {
      assert events[..k] == events;
    }
  }

  // ----- the burst

  /** Takes at one moment, of different chats. */
  predicate AtOnce(start: int, events: seq<Event>) {
    && (forall i | 0 <= i < |events| :: events[i].Take? && events[i].at == start && events[i].unwanted == {})
    && (forall i, j | 0 <= i < j < |events| :: events[i].chat != events[j].chat)
  }

  /** A new pacer gives a burst of different chats their slots at once. */
  lemma {:induction false} BurstAtOnce(c: Config, start: int, events: seq<Event>)
    requires c.Valid() && 0 <= start && AtOnce(start, events) && |events| as real <= c.burst
    ensures var s := Run(c, start, events);
            && s.Waiting() == [] && |s.grants| == |events|
            && (forall i | 0 <= i < |events| :: s.grants[i].chat == events[i].chat && s.grants[i].at == start)
            && s.tokens == c.burst - |events| as real && s.refilledAt == start && !s.closed && s.paused == 0
            && (forall chat <- s.lastEditAt :: exists i | 0 <= i < |events| :: events[i].chat == chat)
    decreases |events|
  {
    hide Step;
    if events != [] {
      var init, e := events[..|events| - 1], events[|events| - 1];
      BurstAtOnce(c, start, init);
      var s := Run(c, start, init);
      OneAtOnce(c, s, e);
      var t := Run(c, start, events);
      assert t == Step(c, s, e);
      hide Run;
      forall chat <- t.lastEditAt ensures exists i | 0 <= i < |events| :: events[i].chat == chat {
        if chat in s.lastEditAt {
          var i :| 0 <= i < |init| && init[i].chat == chat;
          assert events[i].chat == chat;
        } else {
          assert events[|events| - 1].chat == chat;
        }
      }
    }
  }

  lemma NoCredit(c: Config)
    ensures Credit(c, 0) == 0.0
  {
  }

  lemma OneAtOnce(c: Config, s: State, e: Event)
    requires c.Valid() && e.Take? && e.at == s.refilledAt && e.unwanted == {} && !s.closed && s.paused <= e.at
    requires s.Waiting() == [] && e.chat !in s.lastEditAt && 1.0 <= s.tokens <= c.burst
    ensures var t := Step(c, s, e);
            && t.Waiting() == [] && t.tokens == s.tokens - 1.0 && t.refilledAt == s.refilledAt
            && !t.closed && t.paused == s.paused
            && |t.grants| == |s.grants| + 1 && t.grants[..|s.grants|] == s.grants
            && t.grants[|s.grants|].chat == e.chat && t.grants[|s.grants|].at == e.at
            && (forall chat <- t.lastEditAt :: chat in s.lastEditAt || chat == e.chat)
  {
    hide Served, Filtered, Kept, DropReplies, Credit;
    var r := Refreshed(c, Pushed(s, e.chat, e.priority).(timer := None), e.at);
    NoCredit(c);
    assert r.Waiting() == [Waiter(s.nextId, e.chat)];
    FilteredAll(r);
    ServedOnce(c, r, e.at, {});
    var g := Granted(r, 0, e.at);
    assert g.Waiting() == [];
    hide Refreshed, Granted;
    FilteredAll(g);
    ServedOnce(c, g, e.at, {});
  }
}
