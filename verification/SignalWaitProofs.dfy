/** What every run of the signal waits keeps: the read slots, one edit an entry, and whom an edit is sent to. */
module SignalWaitProofs {
  import opened MapOrder
  import opened SignalWait

  // ----- the invariant

  /** The launch has a read slot it has not given back. */
  predicate Holds(launch: Launch) { launch.resolves && !launch.released && launch.phase != Queued }

  ghost function Holders(launches: seq<Launch>): set<nat> {
    set l: nat | l < |launches| && Holds(launches[l])
  }

  predicate LaunchOk(launch: Launch) {
    match launch.phase
    case Queued => launch.resolves && !launch.released
    case Holding => launch.resolves && !launch.released
    case Working => true
    case _ => launch.released
  }

  ghost predicate SlotsOk(c: Config, launches: seq<Launch>, reading: int, readers: seq<LaunchId>) {
    && reading == |Holders(launches)| <= c.resolveConcurrency
    && (readers != [] ==> reading == c.resolveConcurrency)
    && NoRepeats(readers)
    && (forall l: nat :: l in readers <==> l < |launches| && launches[l].phase == Queued)
    && (forall l: nat :: l < |launches| ==> LaunchOk(launches[l]))
  }

  /** The same, whatever the one launch is. */
  ghost predicate SlotsBut(c: Config, launches: seq<Launch>, reading: int, readers: seq<LaunchId>, l: LaunchId) {
    && reading == |Holders(launches)| <= c.resolveConcurrency
    && (readers != [] ==> reading == c.resolveConcurrency)
    && NoRepeats(readers)
    && (forall m: nat :: m in readers <==> m < |launches| && launches[m].phase == Queued)
    && (forall m: nat :: m < |launches| && m != l ==> LaunchOk(launches[m]))
  }

  predicate Active(launch: Launch) { launch.phase != Over }

  ghost predicate Edited(launches: seq<Launch>, e: EntryId) {
    exists l: nat :: l < |launches| && Active(launches[l]) && launches[l].entry == e
  }

  /** An entry is busy exactly while one launch of it is under way, and there is never a second. */
  ghost predicate BusyOk(entries: seq<Entry>, launches: seq<Launch>) {
    && (forall l: nat :: l < |launches| ==> launches[l].entry < |entries|)
    && (forall l: nat, m: nat ::
          l < |launches| && m < |launches| && Active(launches[l]) && Active(launches[m]) && l != m ==>
            launches[l].entry != launches[m].entry)
    && (forall e: nat :: e < |entries| ==> (entries[e].busy <==> Edited(launches, e)))
  }

  ghost predicate TickOk(entries: seq<Entry>, launches: seq<Launch>, tick: Tick) {
    tick.Waiting? ==>
      && NoRepeats(tick.later)
      && (forall i :: 0 <= i < |tick.later| ==> tick.later[i] < |entries| && !entries[tick.later[i]].busy)
      && (forall i :: 0 <= i < |tick.awaited| ==> tick.awaited[i] < |launches|)
  }

  ghost predicate OrderOk(c: Config, entries: seq<Entry>, order: seq<EntryId>) {
    && |order| <= c.maxEntries && NoRepeats(order)
    && (forall e :: e in order ==> e < |entries|)
    && (forall d, e | d in order && e in order && d < |entries| && e < |entries| ::
          entries[d].user == entries[e].user ==> d == e)
  }

  ghost predicate Inv(c: Config, s: State) {
    && SlotsOk(c, s.launches, s.reading, s.readers)
    && BusyOk(s.entries, s.launches)
    && TickOk(s.entries, s.launches, s.tick)
    && OrderOk(c, s.entries, s.order)
    && (s.timer <==> !s.stopped && s.order != []) && (s.stopped ==> s.order == [])
    && (forall i :: 0 <= i < |s.sent| ==> s.sent[i].live)
  }

  // ----- the read slots

  lemma HoldersPut(launches: seq<Launch>, l: LaunchId, x: Launch)
    requires l < |launches|
    ensures Holders(launches[l := x]) == if Holds(x) then Holders(launches) + {l} else Holders(launches) - {l}
  {
  }

  lemma HoldersGrow(launches: seq<Launch>, x: Launch)
    ensures Holders(launches + [x]) == if Holds(x) then Holders(launches) + {|launches|} else Holders(launches)
  {
  }

  /** A change that neither takes nor gives a slot. */
  lemma SlotsPut(c: Config, launches: seq<Launch>, reading: int, readers: seq<LaunchId>, l: LaunchId, x: Launch)
    requires SlotsOk(c, launches, reading, readers) && l < |launches| && LaunchOk(x)
    requires Holds(x) == Holds(launches[l]) && (x.phase == Queued <==> launches[l].phase == Queued)
    ensures SlotsOk(c, launches[l := x], reading, readers)
  {
    HoldersPut(launches, l, x);
    assert Holders(launches[l := x]) == Holders(launches);
    hide Holders;
  }

  lemma SlotsLaunched(c: Config, s: State, e: EntryId, resolves: bool)
    requires SlotsOk(c, s.launches, s.reading, s.readers) && e < |s.entries|
    ensures var t := Launched(c, s, e, resolves); SlotsOk(c, t.launches, t.reading, t.readers)
  {
    hide SlotsOk;
    if !resolves {
      SlotsGrow(c, s.launches, s.reading, s.readers, Launch(e, false, false, Working));
    } else if s.reading < c.resolveConcurrency {
      SlotsTaken(c, s.launches, s.reading, s.readers, Launch(e, true, false, Holding));
    } else {
      SlotsQueued(c, s.launches, s.reading, s.readers, Launch(e, true, false, Queued));
    }
  }

  lemma SlotsGrow(c: Config, launches: seq<Launch>, reading: int, readers: seq<LaunchId>, x: Launch)
    requires SlotsOk(c, launches, reading, readers) && !Holds(x) && x.phase != Queued && LaunchOk(x)
    ensures SlotsOk(c, launches + [x], reading, readers)
  {
    hide Holders, NoRepeats;
    HoldersGrow(launches, x);
  }

  lemma SlotsTaken(c: Config, launches: seq<Launch>, reading: int, readers: seq<LaunchId>, x: Launch)
    requires SlotsOk(c, launches, reading, readers) && Holds(x) && LaunchOk(x) && reading < c.resolveConcurrency
    ensures SlotsOk(c, launches + [x], reading + 1, readers)
  {
    assert |launches| !in Holders(launches);
    hide Holders, NoRepeats;
    HoldersGrow(launches, x);
  }

  lemma SlotsQueued(c: Config, launches: seq<Launch>, reading: int, readers: seq<LaunchId>, x: Launch)
    requires SlotsOk(c, launches, reading, readers) && x.phase == Queued && LaunchOk(x)
    requires reading >= c.resolveConcurrency
    ensures SlotsOk(c, launches + [x], reading, readers + [|launches|])
  {
    hide Holders, NoRepeats;
    HoldersGrow(launches, x);
    NoRepeatsCons(|launches|, readers);
  }

  lemma SlotsDropped(c: Config, launches: seq<Launch>, reading: int, l: LaunchId, x: Launch)
    requires SlotsOk(c, launches, reading, []) && l < |launches| && Holds(launches[l]) && !Holds(x) && x.phase != Queued
    ensures SlotsBut(c, launches[l := x], reading - 1, [], l)
  {
    HoldersPut(launches, l, x);
    assert l in Holders(launches);
    hide Holders;
  }

  lemma SlotsPassedOn(c: Config, launches: seq<Launch>, reading: int, readers: seq<LaunchId>, l: LaunchId, x: Launch)
    requires SlotsOk(c, launches, reading, readers) && l < |launches| && Holds(launches[l]) && !Holds(x)
    requires x.phase != Queued
    requires readers != []
    ensures var r := readers[0];
      && r < |launches| && r != l
      && SlotsBut(c, launches[l := x][r := launches[r].(phase := Holding)], reading, readers[1..], l)
  {
    var r := readers[0];
    assert r in readers && r != l;
    assert LaunchOk(launches[r]);
    hide Holders, NoRepeats;
    SlotsMovedOn(c, launches, l, x, r);
    FirstLeaves(readers);
  }

  lemma SlotsKept(c: Config, launches: seq<Launch>, reading: int, readers: seq<LaunchId>, l: LaunchId, x: Launch)
    requires SlotsOk(c, launches, reading, readers) && l < |launches| && !Holds(launches[l]) && !Holds(x)
    requires launches[l].phase != Queued && x.phase != Queued
    ensures SlotsBut(c, launches[l := x], reading, readers, l)
  {
    HoldersPut(launches, l, x);
    assert Holders(launches[l := x]) == Holders(launches);
    hide Holders, NoRepeats;
  }

  lemma SlotsMovedOn(c: Config, launches: seq<Launch>, l: LaunchId, x: Launch, r: LaunchId)
    requires l < |launches| && r < |launches| && l != r && Holds(launches[l]) && !Holds(x)
    requires launches[r].resolves && !launches[r].released && launches[r].phase == Queued
    ensures |Holders(launches[l := x][r := launches[r].(phase := Holding)])| == |Holders(launches)|
  {
    var y := launches[r].(phase := Holding);
    var given := launches[l := x];
    assert l in Holders(launches) && r !in Holders(launches);
    HoldersPut(launches, l, x);
    HoldersPut(given, r, y);
    hide Holders;
  }

  /** However often a launch gives its slot back, the slots in use are those held. */
  lemma SlotsReleased(c: Config, s: State, l: LaunchId)
    requires SlotsOk(c, s.launches, s.reading, s.readers) && l < |s.launches| && s.launches[l].phase != Queued
    ensures var t := Released(s, l);
      && |t.launches| == |s.launches| && t.launches[l] == s.launches[l].(released := true)
      && SlotsBut(c, t.launches, t.reading, t.readers, l)
  {
    if !s.launches[l].released {
      var x := s.launches[l].(released := true);
      if !s.launches[l].resolves {
        hide SlotsOk, SlotsBut;
        SlotsKept(c, s.launches, s.reading, s.readers, l, x);
      } else if s.readers == [] {
        hide SlotsOk, SlotsBut;
        SlotsDropped(c, s.launches, s.reading, l, x);
      } else {
        hide SlotsOk, SlotsBut;
        SlotsPassedOn(c, s.launches, s.reading, s.readers, l, x);
      }
    }
  }

  lemma FirstLeaves(readers: seq<nat>)
    requires NoRepeats(readers) && readers != []
    ensures NoRepeats(readers[1..]) && readers[0] !in readers[1..]
    ensures forall m: nat :: m in readers <==> m == readers[0] || m in readers[1..]
  {
  }

  // ----- one edit an entry

  lemma BusyPut(entries: seq<Entry>, launches: seq<Launch>, l: LaunchId, x: Launch)
    requires BusyOk(entries, launches) && l < |launches|
    requires x.entry == launches[l].entry && (Active(x) <==> Active(launches[l]))
    ensures BusyOk(entries, launches[l := x])
  {
    var after := launches[l := x];
    forall e: nat | e < |entries| ensures Edited(launches, e) <==> Edited(after, e) {
      if Edited(launches, e) {
        var m: nat :| m < |launches| && Active(launches[m]) && launches[m].entry == e;
        assert Active(after[m]) && after[m].entry == e;
      }
      if Edited(after, e) {
        var m: nat :| m < |after| && Active(after[m]) && after[m].entry == e;
        assert Active(launches[m]) && launches[m].entry == e;
      }
    }
  }

  lemma BusyLaunched(entries: seq<Entry>, launches: seq<Launch>, e: EntryId, x: Launch)
    requires BusyOk(entries, launches) && e < |entries| && !entries[e].busy && x.entry == e && Active(x)
    ensures BusyOk(entries[e := entries[e].(busy := true)], launches + [x])
  {
    var after, more := entries[e := entries[e].(busy := true)], launches + [x];
    assert !Edited(launches, e);
    forall d: nat | d < |entries| ensures Edited(more, d) <==> Edited(launches, d) || d == e {
      if Edited(launches, d) {
        var m: nat :| m < |launches| && Active(launches[m]) && launches[m].entry == d;
        assert Active(more[m]) && more[m].entry == d;
      }
      if d == e { assert Active(more[|launches|]); }
      if Edited(more, d) {
        var m: nat :| m < |more| && Active(more[m]) && more[m].entry == d;
        assert m < |launches| ==> Active(launches[m]) && launches[m].entry == d;
      }
    }
    assert forall l: nat :: l < |launches| && Active(launches[l]) ==> launches[l].entry != e;
  }

  lemma BusyOver(entries: seq<Entry>, launches: seq<Launch>, l: LaunchId, x: Launch)
    requires BusyOk(entries, launches) && l < |launches| && Active(launches[l]) && x.entry == launches[l].entry
    requires !Active(x)
    ensures var e := x.entry; BusyOk(entries[e := entries[e].(busy := false, slotted := false)], launches[l := x])
  {
    var e := x.entry;
    var more := launches[l := x];
    forall d: nat | d < |entries| ensures Edited(more, d) <==> Edited(launches, d) && d != e {
      if Edited(launches, d) && d != e {
        var m: nat :| m < |launches| && Active(launches[m]) && launches[m].entry == d;
        assert Active(more[m]) && more[m].entry == d;
      }
      if Edited(more, d) {
        var m: nat :| m < |more| && Active(more[m]) && more[m].entry == d;
        assert Active(launches[m]) && launches[m].entry == d;
      }
    }
  }

  /** An entry's marks other than `busy`. */
  lemma BusyMarked(entries: seq<Entry>, launches: seq<Launch>, e: EntryId, x: Entry)
    requires BusyOk(entries, launches) && e < |entries| && x.busy == entries[e].busy
    ensures BusyOk(entries[e := x], launches)
  {
  }

  lemma BusyAdded(entries: seq<Entry>, launches: seq<Launch>, x: Entry)
    requires BusyOk(entries, launches) && !x.busy
    ensures BusyOk(entries + [x], launches)
  {
    assert !Edited(launches, |entries|);
  }

  // ----- the tick's launches

  lemma NoRepeatsInit(es: seq<nat>)
    requires NoRepeats(es) && es != []
    ensures NoRepeats(es[..|es| - 1]) && es[|es| - 1] !in es[..|es| - 1]
  {
  }

  lemma {:induction false} LaunchedAllIs(c: Config, s: State, es: seq<EntryId>, resolving: set<EntryId>)
    requires SlotsOk(c, s.launches, s.reading, s.readers) && BusyOk(s.entries, s.launches) && NoRepeats(es)
    requires forall i :: 0 <= i < |es| ==> es[i] < |s.entries| && !s.entries[es[i]].busy
    ensures var t := LaunchedAll(c, s, es, resolving);
      && SlotsOk(c, t.launches, t.reading, t.readers) && BusyOk(t.entries, t.launches)
      && |t.launches| == |s.launches| + |es|
      && t == s.(entries := t.entries, launches := t.launches, reading := t.reading, readers := t.readers)
      && forall e: nat | e < |s.entries| ::
           t.entries[e] == if e in es then s.entries[e].(busy := true) else s.entries[e]
  {
    if es != [] {
      var init, e := es[..|es| - 1], es[|es| - 1];
      NoRepeatsInit(es);
      assert forall d: nat :: d in es <==> d in init || d == e;
      LaunchedAllIs(c, s, init, resolving);
      var before := LaunchedAll(c, s, init, resolving);
      var t := Launched(c, before, e, e in resolving);
      hide SlotsOk, BusyOk, NoRepeats, LaunchedAll;
      SlotsLaunched(c, before, e, e in resolving);
      BusyLaunched(before.entries, before.launches, e, t.launches[|before.launches|]);
      assert t.launches == before.launches + [t.launches[|before.launches|]];
    }
  }

  lemma {:induction false} ChosenIs(entries: seq<Entry>, order: seq<EntryId>, choices: map<EntryId, Choice>,
                                    wanted: Choice -> bool)
    requires NoRepeats(order)
    ensures NoRepeats(Chosen(entries, order, choices, wanted))
  {
    if order != [] {
      FirstLeaves(order);
      ChosenIs(entries, order[1..], choices, wanted);
      var rest := Chosen(entries, order[1..], choices, wanted);
      assert forall i :: 0 <= i < |rest| ==> rest[i] in order[1..];
      assert order[0] !in rest;
      NoRepeatsCons(order[0], rest);
      hide NoRepeats;
      var all := Chosen(entries, order, choices, wanted);
      assert all == rest || all == [order[0]] + rest;
    }
  }

  lemma {:induction false} LiveOfIs(s: State, es: seq<EntryId>)
    requires NoRepeats(es)
    ensures NoRepeats(LiveOf(s, es))
  {
    if es != [] {
      var init, e := es[..|es| - 1], es[|es| - 1];
      NoRepeatsInit(es);
      LiveOfIs(s, init);
      assert e !in LiveOf(s, init);
      NoRepeatsCons(e, LiveOf(s, init));
      hide NoRepeats;
      assert LiveOf(s, es) == LiveOf(s, init) || LiveOf(s, es) == LiveOf(s, init) + [e];
    }
  }

  // ----- the map of the users

  lemma {:induction false} OthersIs(entries: seq<Entry>, order: seq<EntryId>, user: nat)
    requires NoRepeats(order)
    ensures NoRepeats(OfOthers(entries, order, user))
  {
    if order != [] {
      FirstLeaves(order);
      OthersIs(entries, order[1..], user);
      var rest := OfOthers(entries, order[1..], user);
      assert order[0] !in rest;
      NoRepeatsCons(order[0], rest);
      hide NoRepeats;
      assert OfOthers(entries, order, user) == rest || OfOthers(entries, order, user) == [order[0]] + rest;
    }
  }

  lemma OrderShrinks(c: Config, entries: seq<Entry>, order: seq<EntryId>, rest: seq<EntryId>)
    requires OrderOk(c, entries, order) && NoRepeats(rest) && |rest| <= |order| && forall e :: e in rest ==> e in order
    ensures OrderOk(c, entries, rest)
  {
  }

  lemma OrderEnded(c: Config, entries: seq<Entry>, order: seq<EntryId>, e: EntryId)
    requires OrderOk(c, entries, order)
    ensures OrderOk(c, entries, Removed(order, e))
  {
    RemovedNoRepeats(order, e);
    RemovedSize(order, e);
    OrderShrinks(c, entries, order, Removed(order, e));
  }

  /** The marks of entries, not their users, may change. */
  lemma OrderMarked(c: Config, entries: seq<Entry>, after: seq<Entry>, order: seq<EntryId>)
    requires OrderOk(c, entries, order) && |after| == |entries|
    requires forall e: nat :: e < |entries| ==> after[e].user == entries[e].user
    ensures OrderOk(c, after, order)
  {
  }

  lemma NewestIs(order: seq<EntryId>, max: nat)
    requires NoRepeats(order)
    ensures NoRepeats(Newest(order, max))
  {
  }

  lemma OrderRegistered(c: Config, entries: seq<Entry>, order: seq<EntryId>, user: nat)
    requires OrderOk(c, entries, order)
    ensures var after := entries + [Entry(user, false, false, false)];
      var all := OfOthers(entries, order, user) + [|entries|];
      OrderOk(c, after, Newest(all, c.maxEntries))
  {
    var others := OfOthers(entries, order, user);
    OthersIs(entries, order, user);
    assert |entries| !in others;
    NoRepeatsCons(|entries|, others);
    NewestIs(others + [|entries|], c.maxEntries);
    var rest, after := Newest(others + [|entries|], c.maxEntries), entries + [Entry(user, false, false, false)];
    assert forall e :: e in rest ==> (e in order && e < |entries| && entries[e].user != user) || e == |entries|;
    hide NoRepeats, Newest, OfOthers;
  }

  // ----- each step keeps the invariant

  lemma RegisterKeeps(c: Config, s: State, user: nat)
    requires Inv(c, s)
    ensures Inv(c, Registered(c, s, user))
  {
    var x := Entry(user, false, false, false);
    BusyAdded(s.entries, s.launches, x);
    OrderRegistered(c, s.entries, s.order, user);
    OrderAdded(c, s.entries, s.order, x);
    if s.timer {
      NewestEmpty(OfOthers(s.entries, s.order, user) + [|s.entries|], c.maxEntries);
    }
    hide SlotsOk, BusyOk, OrderOk, Newest, OfOthers;
  }

  lemma NewestEmpty(order: seq<EntryId>, max: nat)
    requires order != [] && max > 0
    ensures Newest(order, max) != []
  {
  }

  lemma OrderAdded(c: Config, entries: seq<Entry>, order: seq<EntryId>, x: Entry)
    requires OrderOk(c, entries, order)
    ensures OrderOk(c, entries + [x], order)
  {
  }

  lemma EndedKeeps(c: Config, s: State, e: EntryId)
    requires Inv(c, s)
    ensures Inv(c, EndedEntry(s, e))
  {
    OrderEnded(c, s.entries, s.order, e);
    hide SlotsOk, BusyOk, OrderOk, TickOk;
  }

  lemma LeaveKeeps(c: Config, s: State, user: nat)
    requires Inv(c, s)
    ensures Inv(c, Left(s, user))
  {
    OthersIs(s.entries, s.order, user);
    OrderShrinks(c, s.entries, s.order, OfOthers(s.entries, s.order, user));
    hide SlotsOk, BusyOk, OrderOk, TickOk, OfOthers;
  }

  lemma {:induction false} EndedAllKeeps(c: Config, s: State, es: seq<EntryId>)
    requires Inv(c, s)
    ensures var t := EndedAll(s, es); Inv(c, t) && t == s.(order := t.order, timer := t.timer)
  {
    hide Inv;
    if es != [] {
      EndedAllKeeps(c, s, es[..|es| - 1]);
      EndedKeeps(c, EndedAll(s, es[..|es| - 1]), es[|es| - 1]);
    }
  }

  lemma TickDecided(entries: seq<Entry>, after: seq<Entry>, launches: seq<Launch>, from: nat, later: seq<EntryId>,
                    signals: seq<EntryId>)
    requires |after| == |entries| && |launches| == from + |signals| && NoRepeats(later)
    requires forall i :: 0 <= i < |later| ==> later[i] < |entries| && !entries[later[i]].busy && later[i] !in signals
    requires forall e: nat | e < |entries| ::
               after[e] == if e in signals then entries[e].(busy := true) else entries[e]
    ensures TickOk(after, launches, Waiting(later, Ids(from, |signals|)))
  {
  }

  lemma DecidedKeeps(c: Config, s: State, choices: map<EntryId, Choice>)
    requires Inv(c, s)
    ensures Inv(c, Decided(c, s, choices))
  {
    var failing := Chosen(s.entries, s.order, choices, IsFails);
    var signals := Chosen(s.entries, s.order, choices, IsSignal);
    var later := Chosen(s.entries, s.order, choices, IsHousekeeping);
    hide SlotsOk, BusyOk, TickOk, NoRepeats, Chosen, LaunchedAll, EndedAll, Resolving;
    assert NoRepeats(s.order);
    hide OrderOk;
    ChosenIs(s.entries, s.order, choices, IsSignal);
    ChosenIs(s.entries, s.order, choices, IsHousekeeping);
    assert forall i :: 0 <= i < |later| ==> later[i] !in signals;
    EndedAllKeeps(c, s, failing);
    var m := EndedAll(s, failing).(tick := Waiting(later, Ids(|s.launches|, |signals|)));
    LaunchedAllIs(c, m, signals, Resolving(choices));
    var t := LaunchedAll(c, m, signals, Resolving(choices));
    assert t == Decided(c, s, choices);
    OrderMarked(c, m.entries, t.entries, m.order);
    TickDecided(s.entries, t.entries, t.launches, |s.launches|, later, signals);
  }

  lemma ReadsDoneKeeps(c: Config, s: State, captions: seq<EntryId>)
    requires Inv(c, s) && Enabled(c, s, ReadsDone(captions))
    ensures Inv(c, Step(c, s, ReadsDone(captions)))
  {
    hide SlotsOk, BusyOk, NoRepeats, LaunchedAll, OrderOk;
    var live := LiveOf(s, s.tick.later);
    LiveOfIs(s, s.tick.later);
    assert forall i :: 0 <= i < |live| ==> live[i] in s.tick.later;
    hide LiveOf;
    LaunchedAllIs(c, s, live, {});
    var m := LaunchedAll(c, s, live, {});
    LaunchedAllIs(c, m, captions, {});
    var t := LaunchedAll(c, m, captions, {});
    OrderMarked(c, s.entries, m.entries, s.order);
    OrderMarked(c, m.entries, t.entries, s.order);
  }

  /** A launch under way changes its phase, and its entry a mark; no slot is taken or given back. */
  lemma PhaseKeeps(c: Config, s: State, l: LaunchId, phase: Phase, x: Entry)
    requires Inv(c, s) && Runs(s, l, {Holding, Working, Gated, Sending}) && phase != Queued && phase != Over
    requires LaunchOk(s.launches[l].(phase := phase))
    requires var e := s.launches[l].entry; x.user == s.entries[e].user && x.busy == s.entries[e].busy
    ensures Inv(c, InPhase(s, l, phase).(entries := s.entries[s.launches[l].entry := x]))
  {
    var e, y := s.launches[l].entry, s.launches[l].(phase := phase);
    SlotsPut(c, s.launches, s.reading, s.readers, l, y);
    BusyPut(s.entries, s.launches, l, y);
    BusyMarked(s.entries, s.launches[l := y], e, x);
    OrderMarked(c, s.entries, s.entries[e := x], s.order);
    hide SlotsOk, BusyOk, OrderOk;
  }

  lemma ReleasedBusy(entries: seq<Entry>, s: State, l: LaunchId)
    requires BusyOk(entries, s.launches) && l < |s.launches|
    requires forall r :: r in s.readers ==> r < |s.launches| && Active(s.launches[r])
    ensures BusyOk(entries, Released(s, l).launches)
  {
    if !s.launches[l].released {
      var x := s.launches[l].(released := true);
      BusyPut(entries, s.launches, l, x);
      var given := s.launches[l := x];
      if s.launches[l].resolves && s.readers != [] {
        var r := s.readers[0];
        assert r in s.readers;
        BusyPut(entries, given, r, given[r].(phase := Holding));
      }
    }
  }

  /** At its gate or at its end a launch has given its slot back. */
  lemma SlotsGiven(c: Config, s: State, l: LaunchId, phase: Phase)
    requires SlotsOk(c, s.launches, s.reading, s.readers) && l < |s.launches| && s.launches[l].phase != Queued
    requires phase != Queued && phase != Holding
    ensures var t := InPhase(Released(s, l), l, phase); SlotsOk(c, t.launches, t.reading, t.readers)
  {
    SlotsReleased(c, s, l);
    var m := Released(s, l);
    hide Released, SlotsOk, SlotsBut;
    SlotsMoved(c, m.launches, m.reading, m.readers, l, m.launches[l].(phase := phase));
  }

  lemma SlotsMoved(c: Config, launches: seq<Launch>, reading: int, readers: seq<LaunchId>, l: LaunchId, x: Launch)
    requires l < |launches| && SlotsBut(c, launches, reading, readers, l) && LaunchOk(x)
    requires Holds(x) == Holds(launches[l]) && x.phase != Queued && launches[l].phase != Queued
    ensures SlotsOk(c, launches[l := x], reading, readers)
  {
    HoldersPut(launches, l, x);
    assert Holders(launches[l := x]) == Holders(launches);
    hide Holders, NoRepeats;
  }

  lemma ReadersActive(c: Config, launches: seq<Launch>, reading: int, readers: seq<LaunchId>)
    requires SlotsOk(c, launches, reading, readers)
    ensures forall r :: r in readers ==> r < |launches| && Active(launches[r])
  {
  }

  lemma ReleasedRest(s: State, l: LaunchId)
    requires l < |s.launches|
    ensures var t := Released(s, l);
      && t == s.(launches := t.launches, reading := t.reading, readers := t.readers)
      && |t.launches| == |s.launches| && t.launches[l].entry == s.launches[l].entry
      && (s.launches[l].phase != Queued && s.launches[l].phase != Over ==> Active(t.launches[l]))
  {
  }

  lemma GateKeeps(c: Config, s: State, l: LaunchId)
    requires Inv(c, s) && Runs(s, l, {Working})
    ensures Inv(c, InPhase(Released(s, l), l, Gated))
  {
    hide SlotsOk, BusyOk, OrderOk, Released;
    SlotsGiven(c, s, l, Gated);
    ReadersActive(c, s.launches, s.reading, s.readers);
    ReleasedBusy(s.entries, s, l);
    ReleasedRest(s, l);
    var m := Released(s, l);
    BusyPut(s.entries, m.launches, l, m.launches[l].(phase := Gated));
  }

  lemma FinalizedKeeps(c: Config, s: State, l: LaunchId)
    requires Inv(c, s) && Runs(s, l, {Holding, Working, TurnedAway})
    ensures Inv(c, Finalized(s, l))
  {
    hide SlotsOk, BusyOk, OrderOk, Released;
    SlotsGiven(c, s, l, Over);
    ReadersActive(c, s.launches, s.reading, s.readers);
    ReleasedBusy(s.entries, s, l);
    ReleasedRest(s, l);
    var m := Released(s, l);
    var x := m.launches[l].(phase := Over);
    var e := x.entry;
    BusyOver(s.entries, m.launches, l, x);
    OrderMarked(c, s.entries, s.entries[e := s.entries[e].(busy := false, slotted := false)], s.order);
  }

  lemma OpenedKeeps(c: Config, s: State, l: LaunchId, slot: bool)
    requires Inv(c, s) && Runs(s, l, {Gated})
    ensures Inv(c, Opened(s, l, slot))
  {
    var e := s.launches[l].entry;
    assert LaunchOk(s.launches[l]);
    PhaseKeeps(c, s, l, TurnedAway, s.entries[e]);
    PhaseKeeps(c, s, l, Sending, s.entries[e].(slotted := true));
    assert s.entries[e := s.entries[e]] == s.entries;
    hide SlotsOk, BusyOk, OrderOk, TickOk;
  }

  lemma SendEndedKeeps(c: Config, s: State, l: LaunchId, ends: bool, final: bool)
    requires Inv(c, s) && Runs(s, l, {Sending})
    ensures Inv(c, SendEnded(s, l, ends, final))
  {
    var e := s.launches[l].entry;
    assert LaunchOk(s.launches[l]);
    var x := if final then s.entries[e].(final := true) else s.entries[e];
    PhaseKeeps(c, s, l, Working, x);
    assert s.entries[e := s.entries[e]] == s.entries;
    var m := InPhase(s, l, Working).(entries := s.entries[e := x]);
    EndedKeeps(c, m, e);
    hide Inv;
    assert SendEnded(s, l, ends, final) == MaybeEnded(m, e, ends || final);
  }

  lemma WorkEndedKeeps(c: Config, s: State, l: LaunchId, ends: bool)
    requires Inv(c, s) && Runs(s, l, {Working, TurnedAway})
    ensures Inv(c, Finalized(MaybeEnded(s, s.launches[l].entry, ends), l))
  {
    EndedKeeps(c, s, s.launches[l].entry);
    FinalizedKeeps(c, MaybeEnded(s, s.launches[l].entry, ends), l);
    hide Inv;
  }

  lemma StepKeeps(c: Config, s: State, ev: Event)
    requires Inv(c, s) && Enabled(c, s, ev)
    ensures Inv(c, Step(c, s, ev))
  {
    hide SlotsOk, BusyOk, OrderOk, Registered, Left, Decided;
    hide Finalized, Released, Opened, SendEnded, CaptionsFit, AllReleased;
    match ev
    case Register(user) => RegisterKeeps(c, s, user);
    case Leave(user) => LeaveKeeps(c, s, user);
    case TimerFires =>
    case Snapshot(choices) => DecidedKeeps(c, s, choices);
    case SnapshotFails =>
    case ReadsDone(captions) => ReadsDoneKeeps(c, s, captions);
    case Resume(l) =>
      if Live(s, s.launches[l].entry) { ResumeKeeps(c, s, l); } else { FinalizedKeeps(c, s, l); }
    case Gate(l) => GateKeeps(c, s, l);
    case GateOpens(l, slot) => OpenedKeeps(c, s, l, slot);
    case SendEnds(l, ends, final) => SendEndedKeeps(c, s, l, ends, final);
    case WorkEnds(l, ends) => WorkEndedKeeps(c, s, l, ends);
    case Stop => StopKeeps(c, s);
  }

  lemma ResumeKeeps(c: Config, s: State, l: LaunchId)
    requires Inv(c, s) && Runs(s, l, {Holding})
    ensures Inv(c, InPhase(s, l, Working))
  {
    var e := s.launches[l].entry;
    PhaseKeeps(c, s, l, Working, s.entries[e]);
    assert s.entries[e := s.entries[e]] == s.entries;
  }

  lemma StopKeeps(c: Config, s: State)
    requires Inv(c, s)
    ensures Inv(c, if s.stopped then s else s.(stopped := true, timer := false, order := []))
  {
    OrderShrinks(c, s.entries, s.order, []);
    hide SlotsOk, BusyOk, OrderOk, TickOk;
  }

  lemma {:induction false} ExecKeeps(c: Config, states: seq<State>, events: seq<Event>, i: nat)
    requires Exec(c, states, events) && i < |states|
    ensures Inv(c, states[i])
  {
    if i > 0 {
      ExecKeeps(c, states, events, i - 1);
      hide Inv;
      StepKeeps(c, states[i - 1], events[i - 1]);
    } else {
      assert Holders([]) == {};
    }
  }

  // ----- what follows for every run

  /** The reads in flight are those that hold a slot, never more than the slots; one waits only while all are taken. */
  lemma ReadsBounded(c: Config, states: seq<State>, events: seq<Event>, i: nat)
    requires Exec(c, states, events) && i < |states|
    ensures var s := states[i];
      && s.reading == |Holders(s.launches)| <= c.resolveConcurrency
      && (s.readers != [] ==> s.reading == c.resolveConcurrency)
      && forall l: nat :: l in s.readers <==> l < |s.launches| && s.launches[l].phase == Queued
  {
    ExecKeeps(c, states, events, i);
  }

  /** Two edits under way are of two entries: no entry being edited is launched again. */
  lemma OneEditAnEntry(c: Config, states: seq<State>, events: seq<Event>, i: nat, l: LaunchId, m: LaunchId)
    requires Exec(c, states, events) && i < |states|
    requires l < |states[i].launches| && m < |states[i].launches| && l != m
    requires Active(states[i].launches[l]) && Active(states[i].launches[m])
    ensures states[i].launches[l].entry != states[i].launches[m].entry
  {
    ExecKeeps(c, states, events, i);
  }

  /** Every edit the gate let through was of its user's live entry when its slot came. */
  lemma SentWhileLive(c: Config, states: seq<State>, events: seq<Event>, i: nat, k: nat)
    requires Exec(c, states, events) && i < |states| && k < |states[i].sent|
    ensures states[i].sent[k].live
  {
    ExecKeeps(c, states, events, i);
  }

  /** A step sends at most one edit, of an entry that is live then and has no other edit being sent. */
  lemma SendsExactly(c: Config, s: State, ev: Event)
    requires Inv(c, s) && Enabled(c, s, ev)
    ensures var t := Step(c, s, ev);
      t.sent != s.sent ==>
        && ev.GateOpens? && ev.slot && Live(s, s.launches[ev.l].entry)
        && t.sent == s.sent + [Sent(s.launches[ev.l].entry, true)]
        && forall m: nat | m < |s.launches| && s.launches[m].phase == Sending ::
             s.launches[m].entry != s.launches[ev.l].entry
  {
    hide SlotsOk, OrderOk;
    if ev.Snapshot? {
      var failing := Chosen(s.entries, s.order, ev.choices, IsFails);
      var signals := Chosen(s.entries, s.order, ev.choices, IsSignal);
      var later := Chosen(s.entries, s.order, ev.choices, IsHousekeeping);
      EndedAllKeeps(c, s, failing);
      var m := EndedAll(s, failing).(tick := Waiting(later, Ids(|s.launches|, |signals|)));
      LaunchedAllSends(c, m, signals, Resolving(ev.choices));
    } else if ev.ReadsDone? {
      LaunchedAllSends(c, s, LiveOf(s, s.tick.later), {});
      LaunchedAllSends(c, HousekeepingLaunched(c, s), ev.captions, {});
    }
  }

  lemma {:induction false} LaunchedAllSends(c: Config, s: State, es: seq<EntryId>, resolving: set<EntryId>)
    requires forall i :: 0 <= i < |es| ==> es[i] < |s.entries|
    ensures LaunchedAll(c, s, es, resolving).sent == s.sent
  {
    if es != [] { LaunchedAllSends(c, s, es[..|es| - 1], resolving); }
  }

  lemma SomebodyWaits(readers: seq<nat>)
    requires readers != []
    ensures exists l: nat :: l in readers
  {
    assert readers[0] in readers;
  }

  /** Once every launch is over, every slot is free, nobody waits for one and no entry is busy. */
  lemma AllGivenBack(c: Config, s: State)
    requires Inv(c, s) && forall l: nat :: l < |s.launches| ==> s.launches[l].phase == Over
    ensures s.reading == 0 && s.readers == [] && forall e: nat :: e < |s.entries| ==> !s.entries[e].busy
  {
    assert Holders(s.launches) == {};
    if s.readers != [] { SomebodyWaits(s.readers); }
  }

  /** With a slot at all, the tick's wait for its reads ends: some launch not yet done with them can go on. */
  lemma TickNeverStuck(c: Config, s: State) returns (l: LaunchId)
    requires Inv(c, s) && c.resolveConcurrency >= 1 && s.tick.Waiting? && !AllReleased(s, s.tick.awaited)
    ensures l < |s.launches| && !s.launches[l].released
    ensures Enabled(c, s, Resume(l)) || Enabled(c, s, WorkEnds(l, false))
  {
    var i :| 0 <= i < |s.tick.awaited| && !s.launches[s.tick.awaited[i]].released;
    l := s.tick.awaited[i];
    assert LaunchOk(s.launches[l]);
    if s.launches[l].phase == Queued {
      assert l in s.readers;
      assert |Holders(s.launches)| >= 1;
      var h: nat :| h in Holders(s.launches);
      l := h;
      assert LaunchOk(s.launches[l]);
    }
  }

  /** The poll is timed exactly while somebody waits. */
  lemma TimedWhileWaiting(c: Config, states: seq<State>, events: seq<Event>, i: nat)
    requires Exec(c, states, events) && i < |states|
    ensures states[i].timer <==> !states[i].stopped && states[i].order != []
    ensures |states[i].order| <= c.maxEntries
  {
    ExecKeeps(c, states, events, i);
  }

  /** The poll is at the first boundary plus offset after now. */
  lemma NextPollIs(at: int, pollMs: int, pollOffsetMs: int, other: int)
    requires pollMs > 0
    ensures at < NextPoll(at, pollMs, pollOffsetMs) <= at + pollMs
    ensures (NextPoll(at, pollMs, pollOffsetMs) - pollOffsetMs) % pollMs == 0
    ensures at < other && (other - pollOffsetMs) % pollMs == 0 ==> NextPoll(at, pollMs, pollOffsetMs) <= other
  {
    var d := at - pollOffsetMs;
    var q := d / pollMs;
    assert d == q * pollMs + d % pollMs;
    assert NextPoll(at, pollMs, pollOffsetMs) - pollOffsetMs == (q + 1) * pollMs;
    MultipleModulo(q + 1, pollMs);
    if at < other && (other - pollOffsetMs) % pollMs == 0 {
      var r := (other - pollOffsetMs) / pollMs;
      assert other - pollOffsetMs == r * pollMs;
      if r <= q {
        Monotone(r, q, pollMs);
      } else {
        Monotone(q + 1, r, pollMs);
      }
    }
  }

  lemma MultipleModulo(k: int, m: int)
    requires m > 0
    ensures (k * m) % m == 0
  {
    assert k * m == m * ((k * m) / m) + (k * m) % m;
    var q := (k * m) / m;
    var r := (k * m) % m;
    assert r == (k - q) * m;
    if k - q >= 1 { Monotone(1, k - q, m); }
    if k - q <= -1 { Monotone(k - q, -1, m); }
  }

  lemma Monotone(a: int, b: int, m: int)
    requires a <= b && m > 0
    ensures a * m <= b * m
  {
  }
}
