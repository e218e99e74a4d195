/**
 What each event of the signal waits comes to, exactly: whom a tick launches and how, who gets a read slot,
 which gates send, and who waits on.
 */
module SignalWaitEffects {
  import opened MapOrder
  import opened SignalWait
  import opened SignalWaitProofs

  // ----- the order of the map, in part

  ghost predicate Before(order: seq<EntryId>, d: EntryId, e: EntryId) {
    exists i, j | 0 <= i < j < |order| :: order[i] == d && order[j] == e
  }

  /** Some of the order's entries, in its order. */
  ghost predicate InOrderOf(es: seq<EntryId>, order: seq<EntryId>) {
    (forall i :: 0 <= i < |es| ==> es[i] in order) && forall i, j :: 0 <= i < j < |es| ==> Before(order, es[i], es[j])
  }

  lemma BeforeTail(order: seq<EntryId>, d: EntryId, e: EntryId)
    requires order != []
    ensures Before(order[1..], d, e) ==> Before(order, d, e)
    ensures e in order[1..] ==> Before(order, order[0], e)
  {
    var rest := order[1..];
    if Before(rest, d, e) {
      var i, j :| 0 <= i < j < |rest| && rest[i] == d && rest[j] == e;
      assert order[i + 1] == d && order[j + 1] == e;
    }
    if e in rest {
      var j :| 0 <= j < |rest| && rest[j] == e;
      assert order[j + 1] == e;
    }
  }

  lemma InOrderTail(es: seq<EntryId>, order: seq<EntryId>)
    requires order != [] && InOrderOf(es, order[1..])
    ensures InOrderOf(es, order) && InOrderOf([order[0]] + es, order)
  {
    hide Before;
    var all := [order[0]] + es;
    forall i, j | 0 <= i < j < |es| ensures Before(order, es[i], es[j]) {
      BeforeTail(order, es[i], es[j]);
    }
    forall i, j | 0 <= i < j < |all| ensures Before(order, all[i], all[j]) {
      BeforeTail(order, all[i], all[j]);
      assert all[j] == es[j - 1];
      if i > 0 { assert all[i] == es[i - 1]; }
    }
  }

  lemma InOrderTrans(a: seq<EntryId>, b: seq<EntryId>, order: seq<EntryId>)
    requires InOrderOf(a, b) && InOrderOf(b, order)
    ensures InOrderOf(a, order)
  {
    forall i, j | 0 <= i < j < |a| ensures Before(order, a[i], a[j]) {
      assert Before(b, a[i], a[j]);
      var k, m :| 0 <= k < m < |b| && b[k] == a[i] && b[m] == a[j];
      assert Before(order, b[k], b[m]);
    }
  }

  lemma InOrderSelf(order: seq<EntryId>)
    ensures InOrderOf(order, order)
  {
  }

  lemma {:induction false} RemovedInOrder(order: seq<EntryId>, e: EntryId)
    ensures InOrderOf(Removed(order, e), order)
  {
    hide InOrderOf;
    if order == [] {
      InOrderSelf([]);
    } else {
      RemovedInOrder(order[1..], e);
      InOrderTail(Removed(order[1..], e), order);
    }
  }

  lemma {:induction false} OthersInOrder(entries: seq<Entry>, order: seq<EntryId>, user: nat)
    ensures InOrderOf(OfOthers(entries, order, user), order)
  {
    hide InOrderOf;
    if order == [] {
      InOrderSelf([]);
    } else {
      OthersInOrder(entries, order[1..], user);
      InOrderTail(OfOthers(entries, order[1..], user), order);
      var rest := OfOthers(entries, order[1..], user);
      assert OfOthers(entries, order, user) == rest || OfOthers(entries, order, user) == [order[0]] + rest;
    }
  }

  // ----- whom a tick picks

  /** The tick decides about the entry: it waits, no edit of it is under way, and it was asked for something. */
  predicate Picked(s: State, choices: map<EntryId, Choice>, e: EntryId) {
    e in s.order && e < |s.entries| && !s.entries[e].busy && e in choices
  }

  lemma {:induction false} ChosenExact(entries: seq<Entry>, order: seq<EntryId>, choices: map<EntryId, Choice>,
                                       wanted: Choice -> bool)
    ensures var es := Chosen(entries, order, choices, wanted);
      && InOrderOf(es, order)
      && forall e: nat :: e in es <==>
           e in order && e < |entries| && !entries[e].busy && e in choices && wanted(choices[e])
  {
    hide InOrderOf;
    if order == [] {
      InOrderSelf([]);
    } else {
      ChosenExact(entries, order[1..], choices, wanted);
      InOrderTail(Chosen(entries, order[1..], choices, wanted), order);
      var rest := Chosen(entries, order[1..], choices, wanted);
      var all := Chosen(entries, order, choices, wanted);
      assert all == rest || all == [order[0]] + rest;
    }
  }

  lemma {:induction false} EndedAllExact(s: State, es: seq<EntryId>)
    ensures var t := EndedAll(s, es);
      && t == s.(order := t.order, timer := t.timer) && InOrderOf(t.order, s.order)
      && forall e: nat :: e in t.order <==> e in s.order && e !in es
  {
    if es == [] {
      InOrderSelf(s.order);
    } else {
      var init, e := es[..|es| - 1], es[|es| - 1];
      EndedAllExact(s, init);
      var m := EndedAll(s, init);
      RemovedInOrder(m.order, e);
      InOrderTrans(Removed(m.order, e), m.order, s.order);
      hide InOrderOf;
      assert forall d: nat :: d in es <==> d in init || d == e;
    }
  }

  lemma {:induction false} LiveOfExact(s: State, es: seq<EntryId>)
    ensures forall e: nat :: e in LiveOf(s, es) <==> e in es && e < |s.entries| && Live(s, e)
    ensures InOrderOf(LiveOf(s, es), es)
  {
    if es != [] {
      var init, e := es[..|es| - 1], es[|es| - 1];
      LiveOfExact(s, init);
      assert forall d: nat :: d in es <==> d in init || d == e;
      var rest := LiveOf(s, init);
      InOrderSnoc(rest, init, e);
      hide InOrderOf;
      assert init + [e] == es;
      assert LiveOf(s, es) == rest || LiveOf(s, es) == rest + [e];
    }
  }

  lemma InOrderSnoc(a: seq<EntryId>, order: seq<EntryId>, e: EntryId)
    requires InOrderOf(a, order)
    ensures InOrderOf(a, order + [e]) && InOrderOf(a + [e], order + [e])
  {
    var all, more := order + [e], a + [e];
    forall i, j | 0 <= i < j < |more| ensures Before(all, more[i], more[j]) {
      if j < |a| {
        assert Before(order, a[i], a[j]);
        var k, m :| 0 <= k < m < |order| && order[k] == a[i] && order[m] == a[j];
        assert all[k] == a[i] && all[m] == a[j];
      } else {
        assert a[i] in order;
        var k :| 0 <= k < |order| && order[k] == a[i];
        assert all[k] == a[i] && all[|order|] == e;
      }
    }
    assert forall i, j | 0 <= i < j < |a| :: more[i] == a[i] && more[j] == a[j];
  }

  // ----- what the launches are

  /** How many of the launches from n on, up to the l-th, ask for a read slot. */
  function Asked(launches: seq<Launch>, n: nat, l: nat): nat
    requires n <= l <= |launches|
  {
    if l == n then 0 else Asked(launches, n, l - 1) + if launches[l - 1].resolves then 1 else 0
  }

  lemma {:induction false} AskedFrame(launches: seq<Launch>, x: Launch, n: nat, l: nat)
    requires n <= l <= |launches|
    ensures Asked(launches + [x], n, l) == Asked(launches, n, l)
  {
    if l > n {
      AskedFrame(launches, x, n, l - 1);
    }
  }

  function Min(a: int, b: int): int { if a < b then a else b }

  /**
   From the n-th on the launches are those of the entries given, in their order; those that resolve have the
   free read slots first come first served, the rest of them queue.
   */
  ghost predicate LaunchedFor(c: Config, was: seq<Launch>, reading: int, readers: seq<LaunchId>, t: State,
                              es: seq<EntryId>, resolving: set<EntryId>) {
    && FreshLaunches(c, was, reading, t.launches, es, resolving)
    && t.reading == Min(reading + Asked(t.launches, |was|, |t.launches|), c.resolveConcurrency)
    && QueuedBehind(readers, t.readers, t.launches, |was|)
  }

  ghost predicate FreshLaunches(c: Config, was: seq<Launch>, reading: int, launches: seq<Launch>, es: seq<EntryId>,
                                resolving: set<EntryId>) {
    var n := |was|;
    && |launches| == n + |es| && launches[..n] == was
    && forall l: nat :: n <= l < |launches| ==>
         launches[l] == LaunchOf(es[l - n], es[l - n] in resolving, SlotFree(c, reading, launches, n, l))
  }

  /** Those before it leave it a read slot. */
  predicate SlotFree(c: Config, reading: int, launches: seq<Launch>, n: nat, l: nat)
    requires n <= l <= |launches|
  {
    reading + Asked(launches, n, l) < c.resolveConcurrency
  }

  /** A launch that begins: with a slot if it resolves and there is one. */
  function LaunchOf(e: EntryId, resolves: bool, free: bool): Launch {
    Launch(e, resolves, false, if !resolves then Working else if free then Holding else Queued)
  }

  /** Those of the launches from n on that queue stand in the queue, behind the others and in their order. */
  ghost predicate QueuedBehind(was: seq<LaunchId>, readers: seq<LaunchId>, launches: seq<Launch>, n: nat) {
    was <= readers && QueuedFrom(readers[|was|..], launches, n)
  }

  ghost predicate QueuedFrom(tail: seq<LaunchId>, launches: seq<Launch>, n: nat) {
    && (forall i, j :: 0 <= i < j < |tail| ==> tail[i] < tail[j])
    && (forall l: nat :: l in tail <==> n <= l < |launches| && launches[l].phase == Queued)
  }

  lemma QueueGrows(was: seq<LaunchId>, readers: seq<LaunchId>, launches: seq<Launch>, n: nat, x: Launch)
    requires QueuedBehind(was, readers, launches, n) && n <= |launches|
    ensures QueuedBehind(was, if x.phase == Queued then readers + [|launches|] else readers, launches + [x], n)
  {
    hide QueuedFrom;
    QueueJoins(readers[|was|..], launches, n, x);
    assert (readers + [|launches|])[|was|..] == readers[|was|..] + [|launches|];
  }

  lemma QueueJoins(tail: seq<LaunchId>, launches: seq<Launch>, n: nat, x: Launch)
    requires QueuedFrom(tail, launches, n) && n <= |launches|
    ensures QueuedFrom(if x.phase == Queued then tail + [|launches|] else tail, launches + [x], n)
  {
    var more := launches + [x];
    assert forall l: nat :: l < |launches| ==> more[l] == launches[l];
    assert forall i :: 0 <= i < |tail| ==> tail[i] in tail;
  }

  lemma {:induction false} AskedGrows(launches: seq<Launch>, x: Launch, n: nat)
    requires n <= |launches|
    ensures forall l: nat :: n <= l <= |launches| ==> Asked(launches + [x], n, l) == Asked(launches, n, l)
    ensures Asked(launches + [x], n, |launches| + 1) == Asked(launches, n, |launches|) + if x.resolves then 1 else 0
  {
    forall l: nat | n <= l <= |launches| ensures Asked(launches + [x], n, l) == Asked(launches, n, l) {
      AskedFrame(launches, x, n, l);
    }
  }

  lemma FreshGrow(c: Config, was: seq<Launch>, reading: int, launches: seq<Launch>, es: seq<EntryId>, e: EntryId,
                  resolving: set<EntryId>, x: Launch)
    requires FreshLaunches(c, was, reading, launches, es, resolving)
    requires x == LaunchOf(e, e in resolving, SlotFree(c, reading, launches, |was|, |launches|))
    ensures FreshLaunches(c, was, reading, launches + [x], es + [e], resolving)
  {
    var n, more, all := |was|, launches + [x], es + [e];
    forall l: nat | n <= l <= |launches|
      ensures SlotFree(c, reading, more, n, l) == SlotFree(c, reading, launches, n, l)
    {
      AskedFrame(launches, x, n, l);
    }
    hide LaunchOf, Asked, SlotFree;
    assert more[..n] == launches[..n];
    forall l: nat | n <= l < |more|
      ensures more[l] == LaunchOf(all[l - n], all[l - n] in resolving, SlotFree(c, reading, more, n, l))
    {
      if l < |launches| {
        assert more[l] == launches[l] && all[l - n] == es[l - n];
      }
    }
  }

  lemma OneLaunched(c: Config, was: seq<Launch>, reading: int, readers: seq<LaunchId>, m: State, es: seq<EntryId>,
                    e: EntryId, resolving: set<EntryId>)
    requires LaunchedFor(c, was, reading, readers, m, es, resolving) && e < |m.entries|
    requires reading <= c.resolveConcurrency
    ensures LaunchedFor(c, was, reading, readers, Launched(c, m, e, e in resolving), es + [e], resolving)
  {
    hide FreshLaunches, QueuedBehind, Asked;
    var n, t := |was|, Launched(c, m, e, e in resolving);
    FreshSize(c, was, reading, m.launches, es, resolving);
    var x := LaunchOf(e, e in resolving, m.reading < c.resolveConcurrency);
    LaunchedIs(c, m, e, e in resolving);
    hide Launched, LaunchOf;
    assert m.reading < c.resolveConcurrency <==> SlotFree(c, reading, m.launches, n, |m.launches|);
    FreshGrow(c, was, reading, m.launches, es, e, resolving, x);
    AskedGrows(m.launches, x, n);
    QueueGrows(readers, m.readers, m.launches, n, x);
  }

  lemma FreshSize(c: Config, was: seq<Launch>, reading: int, launches: seq<Launch>, es: seq<EntryId>,
                  resolving: set<EntryId>)
    requires FreshLaunches(c, was, reading, launches, es, resolving)
    ensures |was| <= |launches|
  {
  }

  lemma LaunchedIs(c: Config, m: State, e: EntryId, resolves: bool)
    requires e < |m.entries|
    ensures var t, x := Launched(c, m, e, resolves), LaunchOf(e, resolves, m.reading < c.resolveConcurrency);
      && t.launches == m.launches + [x] && x.resolves == resolves
      && t.reading == (if resolves && m.reading < c.resolveConcurrency then m.reading + 1 else m.reading)
      && t.readers == (if x.phase == Queued then m.readers + [|m.launches|] else m.readers)
  {
  }

  lemma NoneLaunched(c: Config, s: State, resolving: set<EntryId>)
    requires s.reading <= c.resolveConcurrency
    ensures LaunchedFor(c, s.launches, s.reading, s.readers, s, [], resolving)
  {
    assert s.launches[..|s.launches|] == s.launches;
    assert s.readers[|s.readers|..] == [];
  }

  lemma {:induction false} LaunchedAllFor(c: Config, s: State, es: seq<EntryId>, resolving: set<EntryId>)
    requires (forall i :: 0 <= i < |es| ==> es[i] < |s.entries|) && s.reading <= c.resolveConcurrency
    ensures LaunchedFor(c, s.launches, s.reading, s.readers, LaunchedAll(c, s, es, resolving), es, resolving)
  {
    hide LaunchedFor, Launched;
    if es == [] {
      NoneLaunched(c, s, resolving);
    } else {
      var init, e := es[..|es| - 1], es[|es| - 1];
      LaunchedAllFor(c, s, init, resolving);
      OneLaunched(c, s.launches, s.reading, s.readers, LaunchedAll(c, s, init, resolving), init, e, resolving);
      assert init + [e] == es;
    }
  }

  // ----- the steps of a run

  /** The i-th event of a run. */
  ghost predicate StepOf(c: Config, states: seq<State>, events: seq<Event>, i: nat) {
    Exec(c, states, events) && i < |events|
  }

  lemma StepIs(c: Config, states: seq<State>, events: seq<Event>, i: nat)
    requires StepOf(c, states, events, i)
    ensures i + 1 < |states| && Inv(c, states[i]) && Inv(c, states[i + 1]) && Enabled(c, states[i], events[i])
    ensures states[i + 1] == Step(c, states[i], events[i])
  {
    ExecKeeps(c, states, events, i);
    ExecKeeps(c, states, events, i + 1);
    hide Inv, Enabled, Step;
  }

  /** The entries launched by a step, in the order of the launches. */
  function NewlyLaunched(s: State, t: State): seq<EntryId>
    requires |s.launches| <= |t.launches|
  {
    var n := |s.launches|;
    seq<EntryId>(|t.launches| - n, i requires 0 <= i < |t.launches| - n => t.launches[n + i].entry)
  }

  lemma NewlyIs(c: Config, s: State, t: State, es: seq<EntryId>, resolving: set<EntryId>)
    requires LaunchedFor(c, s.launches, s.reading, s.readers, t, es, resolving)
    ensures |t.launches| == |s.launches| + |es| && NewlyLaunched(s, t) == es
  {
  }

  /** Everything but the map, the tick and the launches is as it was; an entry launched is busy. */
  ghost predicate OnlyLaunches(s: State, t: State)
    requires |s.launches| <= |t.launches|
  {
    && |t.entries| == |s.entries| && t.sent == s.sent && t.stopped == s.stopped
    && forall e: nat :: e < |s.entries| ==>
         t.entries[e] == if e in NewlyLaunched(s, t) then s.entries[e].(busy := true) else s.entries[e]
  }

  /** What a tick makes of its snapshot. */
  ghost predicate Ticks(c: Config, s: State, choices: map<EntryId, Choice>, t: State) {
    && |s.launches| <= |t.launches|
    && var es := NewlyLaunched(s, t);
    && InOrderOf(es, s.order)
    && (forall e: nat :: e in es <==> Picked(s, choices, e) && choices[e].Signal?)
    && LaunchedFor(c, s.launches, s.reading, s.readers, t, es, set e | e in choices && choices[e] == Signal(true))
    && OnlyLaunches(s, t)
    && (forall e: nat :: e in t.order <==> e in s.order && !(Picked(s, choices, e) && choices[e].Fails?))
    && InOrderOf(t.order, s.order)
    && t.tick.Waiting?
    && (forall e: nat :: e in t.tick.later <==> Picked(s, choices, e) && choices[e].Housekeeping?)
    && InOrderOf(t.tick.later, s.order)
    && (forall l: nat :: l in t.tick.awaited <==> |s.launches| <= l < |t.launches|)
  }

  lemma DecidedTicks(c: Config, s: State, choices: map<EntryId, Choice>)
    requires Inv(c, s)
    ensures Ticks(c, s, choices, Decided(c, s, choices))
  {
    hide SlotsOk, BusyOk, TickOk, Holders, Chosen, EndedAll, LaunchedAll, LaunchedFor, InOrderOf;
    var failing := Chosen(s.entries, s.order, choices, IsFails);
    var signals := Chosen(s.entries, s.order, choices, IsSignal);
    var later := Chosen(s.entries, s.order, choices, IsHousekeeping);
    ChosenExact(s.entries, s.order, choices, IsFails);
    ChosenExact(s.entries, s.order, choices, IsSignal);
    ChosenExact(s.entries, s.order, choices, IsHousekeeping);
    ChosenIs(s.entries, s.order, choices, IsSignal);
    EndedAllExact(s, failing);
    var m := EndedAll(s, failing).(tick := Waiting(later, Ids(|s.launches|, |signals|)));
    ReadingFits(c, s);
    LaunchedAllIs(c, m, signals, Resolving(choices));
    LaunchedAllFor(c, m, signals, Resolving(choices));
    var t := LaunchedAll(c, m, signals, Resolving(choices));
    NewlyIs(c, s, t, signals, Resolving(choices));
    IdsAre(|s.launches|, |signals|);
  }

  lemma IdsAre(from: nat, n: nat)
    ensures forall l: nat :: l in Ids(from, n) <==> from <= l < from + n
  {
    forall l: nat | from <= l < from + n ensures l in Ids(from, n) {
      assert Ids(from, n)[l - from] == l;
    }
  }

  lemma ReadingFits(c: Config, s: State)
    requires Inv(c, s)
    ensures s.reading <= c.resolveConcurrency
  {
  }

  /**
   In every run a tick's snapshot launches the signal edits it decided on and no others: one for each entry
   that waits and is not being edited, in the order of the map, those that read the backend taking the free
   slots or queuing. Exactly these it waits for; exactly the screens that threw end their entries; and the
   housekeeping edits are left for later.
   */
  lemma SnapshotComesTo(c: Config, states: seq<State>, events: seq<Event>, i: nat)
    requires StepOf(c, states, events, i) && events[i].Snapshot?
    ensures i + 1 < |states| && Ticks(c, states[i], events[i].choices, states[i + 1])
  {
    hide Exec, Inv, Decided, Ticks;
    StepIs(c, states, events, i);
    DecidedTicks(c, states[i], events[i].choices);
  }

  /** Once the reads are over: the housekeeping edits of entries still waiting, then the captions given. */
  ghost predicate Housekeeps(c: Config, s: State, captions: seq<EntryId>, t: State)
    requires s.tick.Waiting?
  {
    && |s.launches| <= |t.launches|
    && var es := NewlyLaunched(s, t);
    && |captions| <= |es|
    && var later := es[..|es| - |captions|];
    && es == later + captions
    && InOrderOf(later, s.tick.later)
    && (forall e: nat :: e in later <==> e in s.tick.later && Live(s, e))
    && (forall l: nat :: |s.launches| <= l < |t.launches| ==>
          t.launches[l] == Launch(es[l - |s.launches|], false, false, Working))
    && t.launches[..|s.launches|] == s.launches && t.reading == s.reading && t.readers == s.readers
    && OnlyLaunches(s, t) && t.order == s.order && t.tick == Idle
  }

  lemma NoneAsks(c: Config, s: State, t: State, es: seq<EntryId>)
    requires LaunchedFor(c, s.launches, s.reading, s.readers, t, es, {}) && s.reading <= c.resolveConcurrency
    ensures |t.launches| == |s.launches| + |es| && t.launches[..|s.launches|] == s.launches
    ensures t.reading == s.reading && t.readers == s.readers
    ensures forall l: nat :: |s.launches| <= l < |t.launches| ==>
              t.launches[l] == Launch(es[l - |s.launches|], false, false, Working)
  {
    hide QueuedBehind, SlotFree, Asked;
    assert forall l: nat :: |s.launches| <= l < |t.launches| ==>
        t.launches[l] == Launch(es[l - |s.launches|], false, false, Working);
    hide FreshLaunches;
    NobodyAsked(t.launches, |s.launches|, |t.launches|);
    QueueLonger(s.readers, t.readers, t.launches, |s.launches|);
  }

  lemma QueueLonger(was: seq<LaunchId>, readers: seq<LaunchId>, launches: seq<Launch>, n: nat)
    requires QueuedBehind(was, readers, launches, n)
    ensures readers == was || exists l: nat :: n <= l < |launches| && launches[l].phase == Queued
  {
    var tail := readers[|was|..];
    if tail == [] {
      assert readers == was;
    } else {
      assert tail[0] in tail;
    }
  }

  lemma {:induction false} NobodyAsked(launches: seq<Launch>, n: nat, l: nat)
    requires n <= l <= |launches| && forall k: nat :: n <= k < |launches| ==> !launches[k].resolves
    ensures Asked(launches, n, l) == 0
  {
    if n < l {
      NobodyAsked(launches, n, l - 1);
    }
  }

  /** Edits that read nothing, launched. */
  ghost predicate PlainLaunched(s: State, es: seq<EntryId>, t: State) {
    && |t.launches| == |s.launches| + |es| && t.launches[..|s.launches|] == s.launches
    && (forall l: nat :: |s.launches| <= l < |t.launches| ==>
          t.launches[l] == Launch(es[l - |s.launches|], false, false, Working))
    && |t.entries| == |s.entries|
    && (forall e: nat :: e < |s.entries| ==>
          t.entries[e] == if e in es then s.entries[e].(busy := true) else s.entries[e])
    && t == s.(launches := t.launches, entries := t.entries)
  }

  lemma PlainIs(c: Config, s: State, es: seq<EntryId>)
    requires SlotsOk(c, s.launches, s.reading, s.readers) && BusyOk(s.entries, s.launches) && NoRepeats(es)
    requires forall i :: 0 <= i < |es| ==> es[i] < |s.entries| && !s.entries[es[i]].busy
    ensures var t := LaunchedAll(c, s, es, {});
      && PlainLaunched(s, es, t)
      && SlotsOk(c, t.launches, t.reading, t.readers) && BusyOk(t.entries, t.launches)
  {
    hide SlotsOk, BusyOk, NoRepeats, LaunchedFor, LaunchedAll;
    LaunchedAllIs(c, s, es, {});
    SlotsFit(c, s);
    LaunchedAllFor(c, s, es, {});
    NoneAsks(c, s, LaunchedAll(c, s, es, {}), es);
  }

  lemma SlotsFit(c: Config, s: State)
    requires SlotsOk(c, s.launches, s.reading, s.readers)
    ensures s.reading <= c.resolveConcurrency
  {
  }

  lemma PlainTwice(s: State, m: State, t: State, later: seq<EntryId>, captions: seq<EntryId>)
    requires PlainLaunched(s, later, m) && PlainLaunched(m, captions, t)
    ensures PlainLaunched(s, later + captions, t)
  {
    TwiceLaunched(s, m, t, later, captions);
    assert forall e: nat :: e in later + captions <==> e in later || e in captions;
  }

  lemma PlainNewly(s: State, es: seq<EntryId>, t: State)
    requires PlainLaunched(s, es, t)
    ensures NewlyLaunched(s, t) == es && OnlyLaunches(s, t)
  {
    assert NewlyLaunched(s, t) == es;
  }

  lemma HousekeepingHousekeeps(c: Config, s: State, captions: seq<EntryId>)
    requires Inv(c, s) && Enabled(c, s, ReadsDone(captions))
    ensures Housekeeps(c, s, captions, Step(c, s, ReadsDone(captions)))
  {
    hide SlotsOk, BusyOk, OrderOk, LiveOf, LaunchedAll, PlainLaunched, OnlyLaunches, InOrderOf, NoRepeats, AllReleased;
    var later := LiveOf(s, s.tick.later);
    LiveOfExact(s, s.tick.later);
    LiveOfIs(s, s.tick.later);
    PlainIs(c, s, later);
    var m := LaunchedAll(c, s, later, {});
    PlainIs(c, m, captions);
    var t := LaunchedAll(c, m, captions, {});
    PlainTwice(s, m, t, later, captions);
    PlainHousekeeps(c, s, later, captions, t);
  }

  lemma PlainHousekeeps(c: Config, s: State, later: seq<EntryId>, captions: seq<EntryId>, t: State)
    requires s.tick.Waiting? && PlainLaunched(s, later + captions, t)
    requires InOrderOf(later, s.tick.later) && forall e: nat :: e in later <==> e in s.tick.later && Live(s, e)
    ensures Housekeeps(c, s, captions, t.(tick := Idle))
  {
    hide InOrderOf, OnlyLaunches;
    var es, u := later + captions, t.(tick := Idle);
    PlainNewly(s, es, t);
    assert es[..|es| - |captions|] == later;
    OnlyTicks(s, t, u);
  }

  lemma OnlyTicks(s: State, t: State, u: State)
    requires |s.launches| <= |t.launches| && OnlyLaunches(s, t) && u == t.(tick := u.tick)
    ensures OnlyLaunches(s, u) && NewlyLaunched(s, u) == NewlyLaunched(s, t)
  {
  }

  lemma TwiceLaunched(s: State, m: State, t: State, later: seq<EntryId>, captions: seq<EntryId>)
    requires |m.launches| == |s.launches| + |later| && m.launches[..|s.launches|] == s.launches
    requires |t.launches| == |m.launches| + |captions| && t.launches[..|m.launches|] == m.launches
    requires forall l: nat :: |s.launches| <= l < |m.launches| ==>
               m.launches[l] == Launch(later[l - |s.launches|], false, false, Working)
    requires forall l: nat :: |m.launches| <= l < |t.launches| ==>
               t.launches[l] == Launch(captions[l - |m.launches|], false, false, Working)
    ensures t.launches[..|s.launches|] == s.launches
    ensures forall l: nat :: |s.launches| <= l < |t.launches| ==>
              t.launches[l] == Launch((later + captions)[l - |s.launches|], false, false, Working)
  {
    var n := |s.launches|;
    assert forall l: nat :: l < |m.launches| ==> t.launches[l] == m.launches[l];
    assert forall l: nat :: l < n ==> m.launches[l] == s.launches[l];
  }

  /** Once the reads awaited are over a tick launches the housekeeping edits it put off, of those who still wait. */
  lemma ReadsDoneComesTo(c: Config, states: seq<State>, events: seq<Event>, i: nat)
    requires StepOf(c, states, events, i) && events[i].ReadsDone?
    ensures i + 1 < |states| && states[i].tick.Waiting? && AllReleased(states[i], states[i].tick.awaited)
    ensures Housekeeps(c, states[i], events[i].captions, states[i + 1])
  {
    hide Exec, Inv, Housekeeps, CaptionsFit, HousekeepingLaunched, LaunchedAll, AllReleased;
    StepIs(c, states, events, i);
    HousekeepingHousekeeps(c, states[i], events[i].captions);
  }

  // ----- what a launch comes to

  predicate OfLaunch(ev: Event) { ev.Resume? || ev.Gate? || ev.GateOpens? || ev.SendEnds? || ev.WorkEnds? }

  /** The event ends the wait of the launch's user. */
  predicate EndsWait(ev: Event) {
    (ev.SendEnds? && (ev.ends || ev.final)) || (ev.WorkEnds? && ev.ends)
  }

  function PhaseAfter(ev: Event, live: bool): Phase
    requires OfLaunch(ev)
  {
    match ev
    case Resume(_) => if live then Working else Over
    case Gate(_) => Gated
    case GateOpens(_, slot) => if slot && live then Sending else TurnedAway
    case SendEnds(_, _, _) => Working
    case WorkEnds(_, _) => Over
  }

  /** The launch after its event; the slot it gives back goes to the one that queued first. */
  ghost predicate Proceeds(s: State, ev: Event, t: State)
    requires OfLaunch(ev) && ev.l < |s.launches| && s.launches[ev.l].entry < |s.entries|
  {
    var l, e := ev.l, s.launches[ev.l].entry;
    var was, x, phase := s.launches[l], s.entries[e], PhaseAfter(ev, Live(s, e));
    var done := phase == Gated || phase == Over;
    var gives := done && Holds(was);
    && |t.launches| == |s.launches|
    && t.launches[l] == was.(phase := phase, released := was.released || done)
    && (forall m: nat :: m < |s.launches| && m != l ==>
          t.launches[m] == if gives && s.readers != [] && m == s.readers[0] then s.launches[m].(phase := Holding)
                           else s.launches[m])
    && t.readers == (if gives && s.readers != [] then s.readers[1..] else s.readers)
    && t.reading == (if gives && s.readers == [] then s.reading - 1 else s.reading)
    && t.entries == s.entries[e := x.(busy := x.busy && phase != Over,
                                      slotted := (x.slotted || phase == Sending) && phase != Over,
                                      final := x.final || (ev.SendEnds? && ev.final))]
    && t.sent == s.sent + (if phase == Sending then [Sent(e, true)] else [])
    && t.order == (if EndsWait(ev) then Removed(s.order, e) else s.order)
    && t.tick == s.tick && t.stopped == s.stopped
  }

  /** What giving the slot back leaves: it goes to the one that queued first. */
  ghost predicate SlotGoes(s: State, l: LaunchId, t: State)
    requires l < |s.launches|
  {
    var was := s.launches[l];
    var gives := Holds(was);
    && |t.launches| == |s.launches| && t.launches[l] == was.(released := true)
    && (forall m: nat :: m < |s.launches| && m != l ==>
          t.launches[m] == if gives && s.readers != [] && m == s.readers[0] then s.launches[m].(phase := Holding)
                           else s.launches[m])
    && t.readers == (if gives && s.readers != [] then s.readers[1..] else s.readers)
    && t.reading == (if gives && s.readers == [] then s.reading - 1 else s.reading)
    && t.entries == s.entries && t.sent == s.sent && t.tick == s.tick && t.stopped == s.stopped
  }

  lemma ReleasedProceeds(c: Config, s: State, l: LaunchId)
    requires Inv(c, s) && l < |s.launches| && s.launches[l].phase != Queued
    ensures SlotGoes(s, l, Released(s, l)) && Released(s, l).order == s.order
  {
    hide Holders, BusyOk, OrderOk, TickOk, NoRepeats;
    if s.readers != [] {
      assert s.readers[0] in s.readers;
    }
  }

  lemma LaunchProceeds(c: Config, s: State, ev: Event)
    requires Inv(c, s) && Enabled(c, s, ev) && OfLaunch(ev)
    ensures Proceeds(s, ev, Step(c, s, ev))
  {
    hide Proceeds, Inv, Finalized, Released, SendEnded, Opened, InPhase, MaybeEnded;
    match ev
    case Resume(l) =>
      if Live(s, s.launches[l].entry) { ResumeProceeds(c, s, ev); } else { OverProceeds(c, s, ev); }
    case Gate(_) => GateProceeds(c, s, ev);
    case WorkEnds(_, _) => OverProceeds(c, s, ev);
    case GateOpens(_, _) => OpensProceeds(c, s, ev);
    case SendEnds(_, _, _) => SendProceeds(c, s, ev);
  }

  lemma NoSlotMoves(c: Config, s: State, l: LaunchId)
    requires Inv(c, s) && l < |s.launches|
    ensures s.launches[l].phase in {Gated, Sending} ==> s.launches[l].released
  {
    assert LaunchOk(s.launches[l]);
  }

  lemma ResumeProceeds(c: Config, s: State, ev: Event)
    requires Inv(c, s) && Enabled(c, s, ev) && ev.Resume? && Live(s, s.launches[ev.l].entry)
    ensures Proceeds(s, ev, Step(c, s, ev))
  {
    hide Inv, Removed, Holds;
    var e := s.launches[ev.l].entry;
    assert s.entries[e := s.entries[e]] == s.entries;
  }

  lemma OpensProceeds(c: Config, s: State, ev: Event)
    requires Inv(c, s) && Enabled(c, s, ev) && ev.GateOpens?
    ensures Proceeds(s, ev, Step(c, s, ev))
  {
    hide Inv, Removed, Holds;
    var e := s.launches[ev.l].entry;
    NoSlotMoves(c, s, ev.l);
    assert s.entries[e := s.entries[e]] == s.entries;
  }

  lemma SendProceeds(c: Config, s: State, ev: Event)
    requires Inv(c, s) && Enabled(c, s, ev) && ev.SendEnds?
    ensures Proceeds(s, ev, Step(c, s, ev))
  {
    hide Inv, Removed, Holds;
    var e := s.launches[ev.l].entry;
    NoSlotMoves(c, s, ev.l);
    assert s.entries[e := s.entries[e]] == s.entries;
  }

  lemma GateProceeds(c: Config, s: State, ev: Event)
    requires Inv(c, s) && Enabled(c, s, ev) && ev.Gate?
    ensures Proceeds(s, ev, Step(c, s, ev))
  {
    hide Inv, Removed, Holds, Released;
    var e := s.launches[ev.l].entry;
    ReleasedProceeds(c, s, ev.l);
    assert s.entries[e := s.entries[e]] == s.entries;
  }

  lemma OverProceeds(c: Config, s: State, ev: Event)
    requires Inv(c, s) && Enabled(c, s, ev) && (ev.Resume? || ev.WorkEnds?)
    requires ev.Resume? ==> !Live(s, s.launches[ev.l].entry)
    ensures Proceeds(s, ev, Step(c, s, ev))
  {
    hide Inv, Released, Finalized, Proceeds, Removed;
    ReleasedProceeds(c, s, ev.l);
    var ended := if EndsWait(ev) then EndedEntry(s, s.launches[ev.l].entry) else s;
    SameReleased(s, ended, ev.l);
    FinalizedProceeds(s, ended, ev);
  }

  /** The launch is over, on top of what its slot came to. */
  lemma FinalizedProceeds(s: State, ended: State, ev: Event)
    requires OfLaunch(ev) && ev.l < |s.launches| && s.launches[ev.l].entry < |s.entries|
    requires PhaseAfter(ev, Live(s, s.launches[ev.l].entry)) == Over
    requires ended == if EndsWait(ev) then EndedEntry(s, s.launches[ev.l].entry) else s
    requires SlotGoes(s, ev.l, Released(ended, ev.l)) && Released(ended, ev.l).order == ended.order
    ensures Proceeds(s, ev, Finalized(ended, ev.l))
  {
    hide Released, Removed, Holds, Live;
  }

  lemma SameReleased(s: State, t: State, l: LaunchId)
    requires l < |s.launches| && t == s.(order := t.order, timer := t.timer) && SlotGoes(s, l, Released(s, l))
    ensures SlotGoes(s, l, Released(t, l)) && Released(t, l).order == t.order
  {
  }

  /**
   In every run a launch with its slot works on exactly if its entry still waits; a gate sends exactly when the
   pace gives a slot and the entry still waits then; a slot goes back once, at the gate or at the end, to the
   first that queued; and a wait ends exactly as the edit says.
   */
  lemma LaunchComesTo(c: Config, states: seq<State>, events: seq<Event>, i: nat)
    requires StepOf(c, states, events, i) && OfLaunch(events[i])
    ensures i + 1 < |states| && events[i].l < |states[i].launches|
    ensures states[i].launches[events[i].l].entry < |states[i].entries| && Proceeds(states[i], events[i], states[i + 1])
  {
    hide Exec, Inv, Step, Proceeds;
    StepIs(c, states, events, i);
    LaunchProceeds(c, states[i], events[i]);
  }

  // ----- who waits

  /** The user's new entry is the last, and of those before it the oldest go beyond the bound. */
  ghost predicate Registers(c: Config, s: State, user: nat, t: State) {
    var n := |s.entries|;
    && t.entries == s.entries + [Entry(user, false, false, false)]
    && (s.stopped ==> t.order == s.order)
    && (!s.stopped ==>
          && InOrderOf(t.order, s.order + [n])
          && (forall e: nat :: e in t.order ==> e == n || (e in s.order && e < n && s.entries[e].user != user))
          && (forall d: nat, e: nat ::
                d in t.order && Before(s.order + [n], d, e) && Stays(s, user, e) ==> e in t.order)
          && ((exists e: nat :: e in s.order + [n] && Stays(s, user, e) && e !in t.order) ==>
                |t.order| == c.maxEntries))
    && t.launches == s.launches && t.readers == s.readers && t.reading == s.reading && t.sent == s.sent
    && t.tick == s.tick && t.stopped == s.stopped
  }

  /** The entry is the new one, or another user's. */
  predicate Stays(s: State, user: nat, e: EntryId) { e < |s.entries| ==> s.entries[e].user != user }

  lemma NewestKept(order: seq<EntryId>, max: nat)
    requires NoRepeats(order)
    ensures var rest := Newest(order, max);
      && InOrderOf(rest, order)
      && (forall d: nat, e: nat :: d in rest && Before(order, d, e) ==> e in rest)
      && ((exists e: nat :: e in order && e !in rest) ==> |rest| == max)
  {
    var rest := Newest(order, max);
    var k := |order| - |rest|;
    assert rest == order[k..];
    SuffixInOrder(order, k);
    forall d: nat, e: nat | d in rest && Before(order, d, e) ensures e in rest {
      SuffixNewer(order, k, d, e);
    }
  }

  lemma SuffixInOrder(order: seq<EntryId>, k: nat)
    requires k <= |order|
    ensures InOrderOf(order[k..], order)
  {
    var rest := order[k..];
    forall i, j | 0 <= i < j < |rest| ensures Before(order, rest[i], rest[j]) {
      assert order[k + i] == rest[i] && order[k + j] == rest[j];
    }
  }

  lemma SuffixNewer(order: seq<EntryId>, k: nat, d: EntryId, e: EntryId)
    requires k <= |order| && NoRepeats(order) && d in order[k..] && Before(order, d, e)
    ensures e in order[k..]
  {
    var rest := order[k..];
    var i, j :| 0 <= i < j < |order| && order[i] == d && order[j] == e;
    var m :| 0 <= m < |rest| && rest[m] == d;
    assert order[k + m] == order[i];
    assert rest[j - k] == e;
  }

  lemma NotBoth(order: seq<EntryId>, d: EntryId, e: EntryId)
    requires NoRepeats(order) && Before(order, d, e)
    ensures d in order && e in order && d != e && !Before(order, e, d)
  {
  }

  /** What stays of the order keeps its order. */
  lemma KeptBefore(all: seq<EntryId>, whole: seq<EntryId>, d: EntryId, e: EntryId)
    requires InOrderOf(all, whole) && NoRepeats(whole) && Before(whole, d, e) && d in all && e in all
    ensures Before(all, d, e)
  {
    NotBoth(whole, d, e);
    var p :| 0 <= p < |all| && all[p] == d;
    var q :| 0 <= q < |all| && all[q] == e;
    OrderedPair(all, whole, q, p);
  }

  lemma OrderedPair(all: seq<EntryId>, whole: seq<EntryId>, q: nat, p: nat)
    requires InOrderOf(all, whole) && q < |all| && p < |all|
    ensures q < p ==> Before(whole, all[q], all[p])
  {
    hide Before;
  }

  lemma AllIs(entries: seq<Entry>, order: seq<EntryId>, user: nat)
    requires NoRepeats(order) && forall e :: e in order ==> e < |entries|
    ensures var all, whole := OfOthers(entries, order, user) + [|entries|], order + [|entries|];
      && NoRepeats(all) && NoRepeats(whole) && InOrderOf(all, whole)
      && forall e: nat :: e in all <==> e in whole && (e < |entries| ==> entries[e].user != user)
  {
    hide NoRepeats, InOrderOf;
    var others := OfOthers(entries, order, user);
    OthersInOrder(entries, order, user);
    OthersIs(entries, order, user);
    NoRepeatsCons(|entries|, others);
    NoRepeatsCons(|entries|, order);
    InOrderSnoc(others, order, |entries|);
  }

  lemma OrderFits(c: Config, s: State)
    requires Inv(c, s)
    ensures NoRepeats(s.order) && forall e :: e in s.order ==> e < |s.entries|
  {
  }

  lemma RegisteredRegisters(c: Config, s: State, user: nat)
    requires Inv(c, s)
    ensures Registers(c, s, user, Registered(c, s, user))
  {
    hide Inv, NoRepeats, Newest, InOrderOf, Before;
    if !s.stopped {
      OrderFits(c, s);
      AllIs(s.entries, s.order, user);
      var all, whole := OfOthers(s.entries, s.order, user) + [|s.entries|], s.order + [|s.entries|];
      NewestKept(all, c.maxEntries);
      var rest := Newest(all, c.maxEntries);
      InOrderTrans(rest, all, whole);
      hide OfOthers;
      forall d: nat, e: nat | d in rest && Before(whole, d, e) && Stays(s, user, e)
        ensures e in rest
      {
        NotBoth(whole, d, e);
        KeptBefore(all, whole, d, e);
      }
    }
  }

  /** Exactly the user's own entry leaves. */
  ghost predicate Leaves(s: State, user: nat, t: State) {
    && InOrderOf(t.order, s.order)
    && (forall e: nat :: e in t.order <==> e in s.order && Stays(s, user, e))
    && t == s.(order := t.order, timer := t.timer)
  }

  lemma LeftLeaves(c: Config, s: State, user: nat)
    requires Inv(c, s)
    ensures Leaves(s, user, Left(s, user))
  {
    OthersInOrder(s.entries, s.order, user);
    hide Inv, InOrderOf;
  }

  ghost predicate WaitsOn(c: Config, s: State, ev: Event, t: State) {
    match ev
    case Register(user) => Registers(c, s, user, t)
    case Leave(user) => Leaves(s, user, t)
    case TimerFires => t == s.(timer := t.timer, tick := if s.tick == Idle then Snapshotting else s.tick)
    case SnapshotFails => t == s.(tick := Idle)
    case Stop => t == s.(stopped := true, order := [], timer := false)
    case _ => true
  }

  /**
   In every run a user's entry replaces the one before it and goes last, only the oldest going beyond the
   bound; a leave takes off exactly the user's entry; a stop takes off all; and the timer begins a tick exactly
   when none is under way.
   */
  lemma WaitComesTo(c: Config, states: seq<State>, events: seq<Event>, i: nat)
    requires StepOf(c, states, events, i)
    ensures i + 1 < |states| && WaitsOn(c, states[i], events[i], states[i + 1])
  {
    hide Exec, Inv, Registers, Leaves, Registered, Left;
    StepIs(c, states, events, i);
    var s := states[i];
    match events[i]
    case Register(user) => RegisteredRegisters(c, s, user);
    case Leave(user) => LeftLeaves(c, s, user);
    case Stop => StoppedEmpty(c, s);
    case _ =>
  }

  lemma StoppedEmpty(c: Config, s: State)
    requires Inv(c, s)
    ensures s.stopped ==> s.order == [] && !s.timer
  {
  }
}
