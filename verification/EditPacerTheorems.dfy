/** The promises of the edit pacer, over every run of callbacks with a clock that never steps back. */
module EditPacerTheorems {
  import opened Wrappers
  import opened EditPacer
  import opened EditPacerProofs

  /** The slots given from `a` to `b`, both included. */
  function CountIn(grants: seq<Grant>, a: int, b: int): nat {
    if grants == [] then 0
    else
      var last := grants[|grants| - 1];
      CountIn(grants[..|grants| - 1], a, b) + if a <= last.at <= b then 1 else 0
  }

  lemma {:induction false} CountAtMost(grants: seq<Grant>, a: int, b: int, from: nat)
    requires from <= |grants| && forall i | 0 <= i < from :: grants[i].at < a
    ensures CountIn(grants, a, b) <= |grants| - from
  {
    if |grants| > 0 {
      CountAtMost(grants[..|grants| - 1], a, b, if from < |grants| then from else from - 1);
    }
  }

  lemma {:induction false} WindowOfGrants(c: Config, grants: seq<Grant>, a: int, b: int)
    requires c.Valid() && Windowed(c, grants) && a <= b
    ensures CountIn(grants, a, b) as real <= c.burst + Credit(c, b - a)
  {
    CreditGrows(c, 0, b - a);
    if |grants| > 0 {
      var last := |grants| - 1;
      if a <= grants[last].at <= b {
        var from := 0;
        while grants[from].at < a
          invariant 0 <= from <= last && forall i | 0 <= i < from :: grants[i].at < a
          decreases last - from
        {
          from := from + 1;
        }
        CountAtMost(grants, a, b, from);
        CreditGrows(c, grants[last].at - grants[from].at, b - a);
      } else {
        var init := grants[..last];
        assert Windowed(c, init);
        WindowOfGrants(c, init, a, b);
      }
    }
  }

  /** Any window of b - a milliseconds holds at most burst + editsPerSecond * (b - a) / 1000 slots. */
  lemma WindowBound(c: Config, start: int, events: seq<Event>, a: int, b: int)
    requires c.Valid() && Monotone(start, events) && a <= b
    ensures CountIn(Run(c, start, events).grants, a, b) as real <= c.burst + Credit(c, b - a)
    ensures 0.0 <= Run(c, start, events).tokens <= c.burst
  {
    RunKeeps(c, start, events);
    WindowOfGrants(c, Run(c, start, events).grants, a, b);
  }

  /** Two slots of one chat are at least chatGapMs apart, although `lastEditAt` forgets. */
  lemma ChatGap(c: Config, start: int, events: seq<Event>, i: nat, j: nat)
    requires c.Valid() && Monotone(start, events)
    requires i < j < |Run(c, start, events).grants|
    requires Run(c, start, events).grants[i].chat == Run(c, start, events).grants[j].chat
    ensures Run(c, start, events).grants[j].at - Run(c, start, events).grants[i].at >= c.chatGapMs
  {
    RunKeeps(c, start, events);
  }

  /** A housekeeping slot passes over a waiting signal edit only if that edit's chat had a slot less
      than a gap before; and inside a priority a chat's edits go in the order they were asked for. */
  lemma SignalsBeforeHousekeeping(c: Config, start: int, events: seq<Event>)
    requires c.Valid() && Monotone(start, events)
    ensures SignalsFirst(c, Run(c, start, events).grants)
    ensures GrantsInOrder(Run(c, start, events).grants)
  {
    RunKeeps(c, start, events);
  }

  // ----- pauses

  lemma MonotonePrefix(start: int, pre: seq<Event>, e: Event)
    requires Monotone(start, pre + [e])
    ensures Monotone(start, pre) && Last(start, pre) <= e.at
  {
    assert (pre + [e])[..|pre|] == pre;
  }

  /** Once a pause is taken, no slot is given before it ends. */
  lemma {:induction false} PauseHolds(c: Config, start: int, pre: seq<Event>, p: Event, post: seq<Event>)
    requires c.Valid() && p.Pause? && Monotone(start, pre + [p] + post)
    ensures var s, t := Run(c, start, pre), Run(c, start, pre + [p] + post);
            && |s.grants| <= |t.grants|
            && t.paused >= p.until
            && forall i | |s.grants| <= i < |t.grants| :: t.grants[i].at >= p.until
    decreases |post|
  {
    hide Inv, Step, Monotone;
    var s := Run(c, start, pre);
    if post == [] {
      assert pre + [p] + post == pre + [p];
      assert (pre + [p])[..|pre|] == pre;
      MonotonePrefix(start, pre, p);
      RunKeeps(c, start, pre);
      StepKeeps(c, s, p);
    } else {
      var last, init := post[|post| - 1], post[..|post| - 1];
      assert pre + [p] + post == (pre + [p] + init) + [last];
      assert (pre + [p] + post)[..|pre + [p] + init|] == pre + [p] + init;
      MonotonePrefix(start, pre + [p] + init, last);
      PauseHolds(c, start, pre, p, init);
      RunKeeps(c, start, pre + [p] + init);
      var m, t := Run(c, start, pre + [p] + init), Run(c, start, pre + [p] + post);
      assert t == Step(c, m, last);
      StepKeeps(c, m, last);
      forall i | |s.grants| <= i < |t.grants|
        ensures t.grants[i].at >= p.until
      {
        if i < |m.grants| {
          assert t.grants[i] == t.grants[..|m.grants|][i] == m.grants[i];
        }
      }
    }
  }

  // ----- answers

  function Takes(events: seq<Event>): nat {
    if events == [] then 0
    else Takes(events[..|events| - 1]) + if events[|events| - 1].Take? then 1 else 0
  }

  lemma {:induction false} ServedCounts(c: Config, s: State, at: int, unwanted: set<nat>)
    requires c.Valid()
    ensures Served(c, s, at, unwanted).nextId == s.nextId
    decreases |s.signal| + |s.housekeeping|
  {
    hide Kept, DropReplies, FirstFree, EarliestFree, Without;
    var f := Filtered(s, unwanted);
    if f.Waiting() != [] && f.tokens >= 1.0 && FirstFree(c, f, f.Waiting(), at) < |f.Waiting()| {
      ServedCounts(c, Granted(f, FirstFree(c, f, f.Waiting(), at), at), at, unwanted);
    }
  }

  lemma PumpedCounts(c: Config, s: State, at: int, unwanted: set<nat>)
    requires c.Valid()
    ensures Pumped(c, s, at, unwanted).nextId == s.nextId
  {
    if !s.closed && s.paused <= at {
      ServedCounts(c, Refreshed(c, s.(timer := None), at), at, unwanted);
    }
  }

  lemma {:induction false} TakesCounted(c: Config, start: int, events: seq<Event>)
    requires c.Valid()
    ensures Run(c, start, events).nextId == Takes(events)
    decreases |events|
  {
    if events != [] {
      var init, e := events[..|events| - 1], events[|events| - 1];
      TakesCounted(c, start, init);
      var s := Run(c, start, init);
      hide Pumped;
      match e
      case Take(at, chat, priority, unwanted) => PumpedCounts(c, Pushed(s, chat, priority), at, unwanted);
      case Pause(at, until, unwanted) => PumpedCounts(c, s.(paused := until), at, unwanted);
      case Fire(at, unwanted) => PumpedCounts(c, s.(timer := None), at, unwanted);
      case Close(at) =>
    }
  }

  /** No take is answered twice, and a take is unanswered only while it waits in a queue. */
  lemma AnsweredAtMostOnce(c: Config, start: int, events: seq<Event>)
    requires c.Valid() && Monotone(start, events)
    ensures NoTwice(Run(c, start, events).replies)
    ensures forall id: nat ::
              id < Takes(events) <==>
              id in RepliedIds(Run(c, start, events).replies) || id in Ids(Run(c, start, events).Waiting())
    ensures RepliedIds(Run(c, start, events).replies) !! Ids(Run(c, start, events).Waiting())
  {
    RunKeeps(c, start, events);
    TakesCounted(c, start, events);
    var s := Run(c, start, events);
    assert Ids(s.Waiting()) == Ids(s.signal) + Ids(s.housekeeping);
    assert AllBelow(Ids(s.signal) + Ids(s.housekeeping) + RepliedIds(s.replies), s.nextId);
    hide Run, Ids, RepliedIds;
    assert forall id: nat :: id in Ids(s.signal) + Ids(s.housekeeping) + RepliedIds(s.replies) <==> id < s.nextId;
  }

  lemma {:induction false} ClosedHasNoWaiters(c: Config, start: int, events: seq<Event>)
    requires c.Valid()
    ensures var s := Run(c, start, events); s.closed ==> s.Waiting() == [] && s.timer.None?
    decreases |events|
  {
    if events != [] {
      var init, e := events[..|events| - 1], events[|events| - 1];
      ClosedHasNoWaiters(c, start, init);
      var s := Run(c, start, init);
      hide Pumped;
      if !s.closed {
        match e
        case Take(at, chat, priority, unwanted) => PumpedStaysOpen(c, Pushed(s, chat, priority), at, unwanted);
        case Pause(at, until, unwanted) => PumpedStaysOpen(c, s.(paused := until), at, unwanted);
        case Fire(at, unwanted) => PumpedStaysOpen(c, s.(timer := None), at, unwanted);
        case Close(at) =>
      } else {
        PumpedClosed(c);
      }
    }
  }

  lemma PumpedClosed(c: Config)
    requires c.Valid()
    ensures forall s: State, at, unwanted | s.closed :: Pumped(c, s, at, unwanted) == s
  {
  }

  lemma {:induction false} ServedStaysOpen(c: Config, s: State, at: int, unwanted: set<nat>)
    requires c.Valid()
    ensures Served(c, s, at, unwanted).closed == s.closed && Served(c, s, at, unwanted).paused == s.paused
    decreases |s.signal| + |s.housekeeping|
  {
    hide Kept, DropReplies, FirstFree, EarliestFree, Without;
    var f := Filtered(s, unwanted);
    if f.Waiting() != [] && f.tokens >= 1.0 && FirstFree(c, f, f.Waiting(), at) < |f.Waiting()| {
      ServedStaysOpen(c, Granted(f, FirstFree(c, f, f.Waiting(), at), at), at, unwanted);
    }
  }

  lemma PumpedStaysOpen(c: Config, s: State, at: int, unwanted: set<nat>)
    requires c.Valid()
    ensures Pumped(c, s, at, unwanted).closed == s.closed && Pumped(c, s, at, unwanted).paused == s.paused
  {
    if !s.closed && s.paused <= at {
      ServedStaysOpen(c, Refreshed(c, s.(timer := None), at), at, unwanted);
    }
  }

  /** Once closed, every take of the run, before the close or after it, has exactly one answer. */
  lemma AnsweredOnceAfterClose(c: Config, start: int, events: seq<Event>)
    requires c.Valid() && Monotone(start, events) && Run(c, start, events).closed
    ensures NoTwice(Run(c, start, events).replies)
    ensures forall id: nat :: id < Takes(events) <==> id in RepliedIds(Run(c, start, events).replies)
  {
    AnsweredAtMostOnce(c, start, events);
    ClosedHasNoWaiters(c, start, events);
  }

  // ----- each answer has its reason

  ghost predicate HasSlot(grants: seq<Grant>, id: nat) {
    exists i | 0 <= i < |grants| :: grants[i].id == id
  }

  /** A drop needs a waiter no longer wanted, a slot a wanted one and its grant, a `closed` a close. */
  ghost predicate Justified(t: State, r: Reply, unwanted: set<nat>) {
    match r.answer
    case Dropped => r.id in unwanted
    case Slot => r.id !in unwanted && HasSlot(t.grants, r.id)
    case Closed => t.closed
  }

  ghost predicate AllJustified(s: State, t: State, unwanted: set<nat>) {
    && s.replies <= t.replies && s.grants <= t.grants
    && forall i | |s.replies| <= i < |t.replies| :: Justified(t, t.replies[i], unwanted)
  }

  lemma JustifiedTrans(s: State, m: State, t: State, unwanted: set<nat>)
    requires AllJustified(s, m, unwanted) && AllJustified(m, t, unwanted) && m.closed == t.closed
    ensures AllJustified(s, t, unwanted)
  {
    forall i | |s.replies| <= i < |t.replies|
      ensures Justified(t, t.replies[i], unwanted)
    {
      if i < |m.replies| {
        assert t.replies[i] == m.replies[i];
        var r := m.replies[i];
        if r.answer.Slot? {
          var j :| 0 <= j < |m.grants| && m.grants[j].id == r.id;
          assert t.grants[j].id == r.id;
        }
      }
    }
  }

  lemma {:induction false} DropsUnwanted(queue: seq<Waiter>, unwanted: set<nat>)
    ensures forall r <- DropReplies(queue, unwanted) :: r.answer.Dropped? && r.id in unwanted
  {
    if queue != [] {
      DropsUnwanted(queue[1..], unwanted);
    }
  }

  lemma FilteredJustified(s: State, unwanted: set<nat>)
    ensures AllJustified(s, Filtered(s, unwanted), unwanted)
    ensures forall w <- Filtered(s, unwanted).Waiting() :: w.id !in unwanted
  {
    DropsUnwanted(s.signal, unwanted);
    DropsUnwanted(s.housekeeping, unwanted);
    KeptMembers(s.signal, unwanted);
    KeptMembers(s.housekeeping, unwanted);
    hide DropReplies, Kept;
    var told := DropReplies(s.signal, unwanted) + DropReplies(s.housekeeping, unwanted);
    var t := Filtered(s, unwanted);
    assert t.replies == s.replies + told;
    forall i | |s.replies| <= i < |t.replies|
      ensures Justified(t, t.replies[i], unwanted)
    {
      assert t.replies[i] == told[i - |s.replies|] && t.replies[i] in told;
    }
  }

  lemma GrantedJustified(s: State, k: nat, at: int, unwanted: set<nat>)
    requires k < |s.Waiting()| && s.Waiting()[k].id !in unwanted
    ensures AllJustified(s, Granted(s, k, at), unwanted)
  {
    var t := Granted(s, k, at);
    assert t.grants[|s.grants|].id == s.Waiting()[k].id;
  }

  lemma {:induction false} ServedJustified(c: Config, s: State, at: int, unwanted: set<nat>)
    requires c.Valid()
    ensures AllJustified(s, Served(c, s, at, unwanted), unwanted)
    decreases |s.signal| + |s.housekeeping|
  {
    var f, t := Filtered(s, unwanted), Served(c, s, at, unwanted);
    ServedOnce(c, s, at, unwanted);
    ServedStaysOpen(c, s, at, unwanted);
    FilteredJustified(s, unwanted);
    hide Served, FirstFree, EarliestFree, TokenWait, Kept, DropReplies, Without;
    if f.Waiting() == [] || f.tokens < 1.0 || FirstFree(c, f, f.Waiting(), at) == |f.Waiting()| {
      assert t.replies == f.replies && t.grants == f.grants && t.closed == f.closed;
    } else {
      var k := FirstFree(c, f, f.Waiting(), at);
      var g := Granted(f, k, at);
      assert f.Waiting()[k] in f.Waiting();
      GrantedJustified(f, k, at, unwanted);
      ServedJustified(c, g, at, unwanted);
      hide AllJustified, Filtered, Granted;
      JustifiedTrans(f, g, t, unwanted);
      JustifiedTrans(s, f, t, unwanted);
    }
  }

  lemma PumpedJustified(c: Config, s: State, at: int, unwanted: set<nat>)
    requires c.Valid()
    ensures AllJustified(s, Pumped(c, s, at, unwanted), unwanted)
  {
    if !s.closed && s.paused <= at {
      ServedJustified(c, Refreshed(c, s.(timer := None), at), at, unwanted);
    }
  }

  /** Every callback's answers are justified: nobody wanted is dropped, nobody dropped costs a token. */
  lemma AnswersJustified(c: Config, s: State, e: Event)
    requires c.Valid()
    ensures AllJustified(s, Step(c, s, e), if e.Close? then {} else e.unwanted)
  {
    hide Pumped;
    match e
    case Take(at, chat, priority, unwanted) => PumpedJustified(c, Pushed(s, chat, priority), at, unwanted);
    case Pause(at, until, unwanted) => PumpedJustified(c, s.(paused := until), at, unwanted);
    case Fire(at, unwanted) => PumpedJustified(c, s.(timer := None), at, unwanted);
    case Close(at) =>
  }

  // ----- it never stalls

  /** Some waiter could get a slot at `t` if nothing but time happens until then. */
  ghost predicate CouldGrant(c: Config, s: State, t: int) {
    && !s.closed
    && s.refilledAt <= t
    && s.paused <= t
    && s.tokens + Credit(c, t - s.refilledAt) >= 1.0
    && exists i | 0 <= i < |s.Waiting()| :: ChatFree(c, s, s.Waiting()[i].chat, t)
  }

  /** A timer is armed whenever someone waits, never inside a pause and never later than the first
      millisecond at which some waiter could get a slot. */
  ghost predicate Watchful(c: Config, s: State) {
    && (!s.closed && s.Waiting() != [] ==> s.timer.Some?)
    && (s.timer.Some? ==>
          && s.paused <= s.timer.value
          && forall t :: CouldGrant(c, s, t) ==> s.timer.value <= t)
  }

  lemma CeilLeast(x: real, n: int)
    ensures x <= Ceil(x) as real && (x <= n as real ==> Ceil(x) <= n)
  {
  }

  /** The wait for a token: the first whole millisecond by which it is earned. */
  lemma TokenWaitExact(c: Config, tokens: real, ms: int)
    requires c.Valid() && tokens < 1.0
    ensures var wait := TokenWait(c, tokens);
            wait >= 0 && (tokens + Credit(c, ms) >= 1.0 <==> wait <= ms)
  {
    var need := (1.0 - tokens) * 1000.0 / c.editsPerSecond;
    CeilLeast(need, ms);
    assert need * c.editsPerSecond == (1.0 - tokens) * 1000.0;
    assert need > 0.0;
    if need <= ms as real {
      assert need * c.editsPerSecond <= ms as real * c.editsPerSecond;
    } else {
      assert need * c.editsPerSecond > ms as real * c.editsPerSecond;
    }
  }

  lemma {:induction false} ServedWatchful(c: Config, s: State, at: int, unwanted: set<nat>)
    requires c.Valid() && s.refilledAt == at && s.paused <= at && s.timer.None?
    ensures Watchful(c, Served(c, s, at, unwanted))
    decreases |s.signal| + |s.housekeeping|
  {
    hide Kept, DropReplies, Without, Credit, TokenWait;
    var f := Filtered(s, unwanted);
    if f.Waiting() != [] {
      if f.tokens < 1.0 {
        forall ms: int
          ensures var wait := TokenWait(c, f.tokens);
                  wait >= 0 && (f.tokens + Credit(c, ms) >= 1.0 <==> wait <= ms)
        {
          TokenWaitExact(c, f.tokens, ms);
        }
      } else {
        var k := FirstFree(c, f, f.Waiting(), at);
        if k < |f.Waiting()| {
          ServedWatchful(c, Granted(f, k, at), at, unwanted);
        }
      }
    }
  }

  lemma PumpedWatchful(c: Config, s: State, at: int, unwanted: set<nat>)
    requires c.Valid() && s.refilledAt <= at && (s.closed ==> s.timer.None?)
    ensures Watchful(c, Pumped(c, s, at, unwanted))
  {
    if !s.closed && s.paused <= at {
      ServedWatchful(c, Refreshed(c, s.(timer := None), at), at, unwanted);
    }
  }

  lemma {:induction false} NeverStalls(c: Config, start: int, events: seq<Event>)
    requires c.Valid() && Monotone(start, events)
    ensures Watchful(c, Run(c, start, events))
    decreases |events|
  {
    if events != [] {
      var init, e := events[..|events| - 1], events[|events| - 1];
      NeverStalls(c, start, init);
      RunKeeps(c, start, init);
      var s := Run(c, start, init);
      assert s.refilledAt <= Last(start, init);
      hide Pumped, Inv, Run, Watchful;
      ClosedHasNoWaiters(c, start, init);
      match e
      case Take(at, chat, priority, unwanted) => PumpedWatchful(c, Pushed(s, chat, priority), at, unwanted);
      case Pause(at, until, unwanted) => PumpedWatchful(c, s.(paused := until), at, unwanted);
      case Fire(at, unwanted) => PumpedWatchful(c, s.(timer := None), at, unwanted);
      case Close(at) =>
    }
  }

  lemma {:induction false} KeptAll(queue: seq<Waiter>)
    ensures Kept(queue, {}) == queue && DropReplies(queue, {}) == []
  {
    if queue != [] {
      KeptAll(queue[1..]);
    }
  }

  /** What an armed timer waits for when nothing is paused: a token, or a waiting chat's gap. */
  ghost predicate AwaitsToken(c: Config, s: State)
    requires c.Valid()
  {
    s.tokens < 1.0 && s.timer == Some(s.refilledAt + TokenWait(c, s.tokens))
  }

  ghost predicate AwaitsChat(c: Config, s: State) {
    && s.tokens >= 1.0
    && s.timer.Some?
    && exists i | 0 <= i < |s.Waiting()| :: ChatFree(c, s, s.Waiting()[i].chat, s.timer.value)
  }

  lemma ServedOnce(c: Config, s: State, at: int, unwanted: set<nat>)
    requires c.Valid()
    ensures Served(c, s, at, unwanted) ==
            var f := Filtered(s, unwanted);
            if f.Waiting() == [] then f
            else if f.tokens < 1.0 then
              f.(timer := Some(at + TokenWait(c, f.tokens)))
            else
              var k := FirstFree(c, f, f.Waiting(), at);
              if k == |f.Waiting()| then f.(timer := Some(EarliestFree(c, f, f.Waiting())))
              else Served(c, Granted(f, k, at), at, unwanted)
  {
  }

  lemma FilteredAll(s: State)
    ensures Filtered(s, {}) == s
  {
    KeptAll(s.signal);
    KeptAll(s.housekeeping);
    assert s.replies + [] + [] == s.replies;
  }

  lemma TokensAfter(c: Config, s: State, t: int)
    requires c.Valid() && s.timer.Some? && s.timer.value <= t && s.refilledAt <= t && s.tokens <= c.burst
    requires AwaitsToken(c, s) || s.tokens >= 1.0
    ensures Refreshed(c, s, t).tokens >= 1.0
  {
    CreditGrows(c, 0, t - s.refilledAt);
    assert Credit(c, 0) == 0.0;
    if AwaitsToken(c, s) {
      TokenWaitExact(c, s.tokens, t - s.refilledAt);
    }
  }

  lemma ChatAfter(c: Config, s: State, t: int)
    requires AwaitsChat(c, s) && s.timer.value <= t
    ensures var r := Refreshed(c, s, t); FirstFree(c, r, s.Waiting(), t) < |s.Waiting()|
  {
    var r := Refreshed(c, s, t);
    hide FirstFree;
    var i :| 0 <= i < |s.Waiting()| && ChatFree(c, s, s.Waiting()[i].chat, s.timer.value);
    assert ChatFree(c, r, s.Waiting()[i].chat, t);
  }

  /** A timer that fires when due gives a slot, or what it waited for is there and it waits for the
      next thing missing. */
  lemma FireProgress(c: Config, s: State, t: int)
    requires c.Valid() && Inv(c, s) && !s.closed && s.Waiting() != []
    requires s.timer.Some? && s.paused <= s.timer.value <= t && s.refilledAt <= t
    ensures var s' := Step(c, s, Fire(t, {}));
            || |s'.grants| > |s.grants|
            || (&& s'.Waiting() == s.Waiting() && s'.grants == s.grants && !s'.closed
                && s'.refilledAt == t && s'.timer.Some? && s'.paused <= s'.timer.value
                && (AwaitsToken(c, s') || AwaitsChat(c, s'))
                && (AwaitsToken(c, s) ==> AwaitsChat(c, s'))
                && !AwaitsChat(c, s))
  {
    hide Served, Filtered, Granted, FirstFree, Credit, TokenWait, EarliestFree, ChatFree, AwaitsToken;
    var r := Refreshed(c, s.(timer := None), t);
    assert s.tokens <= c.burst;
    assert AwaitsChat(c, s) ==> s.tokens >= 1.0;
    hide Inv, AwaitsChat;
    RefreshKeeps(c, s, t);
    ServedOnce(c, r, t, {});
    FilteredAll(r);
    if AwaitsToken(c, s) || s.tokens >= 1.0 {
      TokensAfter(c, s, t);
    }
    if r.tokens < 1.0 {
      TokenArmed(c, r, t);
    } else {
      var k := FirstFree(c, r, r.Waiting(), t);
      if AwaitsChat(c, s) {
        ChatAfter(c, s, t);
        SameFree(c, s, t);
      }
      if k < |r.Waiting()| {
        GrantKeeps(c, r, k);
        GrantGrows(r, k, t);
        ServedKeeps(c, Granted(r, k, t), t, {});
      } else {
        ChatArmed(c, r, t);
      }
    }
  }

  lemma TokenArmed(c: Config, r: State, t: int)
    requires c.Valid() && r.refilledAt == t && r.tokens < 1.0
    ensures AwaitsToken(c, r.(timer := Some(t + TokenWait(c, r.tokens)))) && TokenWait(c, r.tokens) >= 0
  {
    TokenWaitExact(c, r.tokens, 0);
  }

  lemma ChatArmed(c: Config, r: State, t: int)
    requires r.Waiting() != [] && r.tokens >= 1.0 && FirstFree(c, r, r.Waiting(), t) == |r.Waiting()|
    ensures forall i | 0 <= i < |r.Waiting()| :: r.Waiting()[i].chat in r.lastEditAt
    ensures AwaitsChat(c, r.(timer := Some(EarliestFree(c, r, r.Waiting())))) && t <= EarliestFree(c, r, r.Waiting())
  {
    hide FirstFree;
    assert forall i | 0 <= i < |r.Waiting()| :: !ChatFree(c, r, r.Waiting()[i].chat, t);
    var free := EarliestFree(c, r, r.Waiting());
    hide EarliestFree;
    var i :| 0 <= i < |r.Waiting()| && free == r.lastEditAt[r.Waiting()[i].chat] + c.chatGapMs;
    var s := r.(timer := Some(free));
    assert ChatFree(c, s, s.Waiting()[i].chat, free);
  }

  lemma SameFree(c: Config, s: State, t: int)
    ensures FirstFree(c, Refreshed(c, s.(timer := None), t), s.Waiting(), t)
         == FirstFree(c, Refreshed(c, s, t), s.Waiting(), t)
  {
    FirstFreeFrame(c, Refreshed(c, s.(timer := None), t), Refreshed(c, s, t), s.Waiting(), t);
  }

  lemma {:induction false} FirstFreeFrame(c: Config, s: State, t: State, waiting: seq<Waiter>, at: int)
    requires s.lastEditAt == t.lastEditAt
    ensures FirstFree(c, s, waiting, at) == FirstFree(c, t, waiting, at)
  {
    if waiting != [] {
      FirstFreeFrame(c, s, t, waiting[1..], at);
    }
  }

  lemma GrantGrows(s: State, k: nat, at: int)
    requires k < |s.Waiting()|
    ensures |Granted(s, k, at).grants| == |s.grants| + 1 && Granted(s, k, at).refilledAt == s.refilledAt
  {
  }

  /** Whoever waits is served: three firings of the timer, each at or after its time, and someone has
      a slot, as long as nobody pauses or closes the pacer and the waiters stay wanted. */
  lemma ThreeFirings(c: Config, start: int, events: seq<Event>, t1: int, t2: int, t3: int)
    requires c.Valid() && Monotone(start, events) && Last(start, events) <= t1 <= t2 <= t3
    requires !Run(c, start, events).closed && Run(c, start, events).Waiting() != []
    requires var s := Run(c, start, events);
             var s1 := Step(c, s, Fire(t1, {}));
             var s2 := Step(c, s1, Fire(t2, {}));
             && (s.timer.Some? ==> s.timer.value <= t1)
             && (s1.timer.Some? ==> s1.timer.value <= t2)
             && (s2.timer.Some? ==> s2.timer.value <= t3)
    ensures var s := Run(c, start, events);
            |Step(c, Step(c, Step(c, s, Fire(t1, {})), Fire(t2, {})), Fire(t3, {})).grants| > |s.grants|
  {
    hide Inv, Step, Run, Monotone, AwaitsToken, AwaitsChat;
    RunKeeps(c, start, events);
    NeverStalls(c, start, events);
    var s := Run(c, start, events);
    var s1 := Step(c, s, Fire(t1, {}));
    var s2 := Step(c, s1, Fire(t2, {}));
    StepKeeps(c, s, Fire(t1, {}));
    StepKeeps(c, s1, Fire(t2, {}));
    StepKeeps(c, s2, Fire(t3, {}));
    FireProgress(c, s, t1);
    if |s1.grants| == |s.grants| {
      FireProgress(c, s1, t2);
      if |s2.grants| == |s1.grants| {
        FireProgress(c, s2, t3);
      }
    }
  }
}
