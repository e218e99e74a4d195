/** The signal waits as the code runs them: the closure's variables changed in place. */
module SignalWaitCode {
  import opened MapOrder
  import opened SignalWait
  import opened SignalWaitProofs

  lemma GoesOn(c: Config, trace: seq<State>, events: seq<Event>, e: Event, t: State)
    requires Exec(c, trace, events) && Enabled(c, trace[|events|], e) && t == Step(c, trace[|events|], e)
    ensures Exec(c, trace + [t], events + [e])
  {
    hide Enabled, Step;
  }

  class Waiter {
    const c: Config
    var entries: seq<Entry>
    var order: seq<EntryId>
    var timer: bool
    var stopped: bool
    var tick: Tick
    var launches: seq<Launch>
    var reading: int
    var readers: seq<LaunchId>
    ghost var sent: seq<Sent>
    /** What happened to this waiter so far, and the states it went through. */
    ghost var events: seq<Event>
    ghost var trace: seq<State>

    ghost function Model(): State
      reads this
    {
      State(entries, order, timer, stopped, tick, launches, reading, readers, sent)
    }

    /** The object is where the run of its events is, so whatever holds of every run holds of it. */
    ghost predicate Valid()
      reads this
    {
      Exec(c, trace, events) && Model() == trace[|events|]
    }

    /** What one more event has done. */
    ghost predicate Did(e: Event, was: seq<Event>)
      reads this
    {
      Valid() && events == was + [e]
    }

    constructor (c: Config)
      ensures Valid() && this.c == c && events == []
    {
      this.c := c;
      entries, order, timer, stopped, tick := [], [], false, false, Idle;
      launches, reading, readers, sent := [], 0, [], [];
      events, trace := [], [Start()];
    }

    method Schedule()
      modifies this`timer
      ensures Model() == Scheduled(old(Model()))
    {
      if stopped || timer || |order| == 0 {
        return;
      }
      timer := true;
    }

    /** The oldest go until the rest fit. */
    method Evict()
      modifies this`order
      ensures order == Newest(old(order), c.maxEntries)
    {
      ghost var all := order;
      while |order| > c.maxEntries
        invariant |order| <= |all| && order == all[|all| - |order|..]
        invariant |order| >= c.maxEntries || order == all
      {
        order := order[1..];
      }
    }

    method AddEntry(user: nat)
      requires Valid()
      modifies this
      ensures Did(Register(user), old(events))
    {
      hide Exec;
      hide Newest, OfOthers;
      var n := |entries|;
      if !stopped {
        order := OfOthers(entries, order, user) + [n];
        Evict();
      }
      entries := entries + [Entry(user, false, false, false)];
      Schedule();
      Record(Register(user), old(Model()));
    }

    method End(e: EntryId)
      modifies this`order, this`timer
      ensures Model() == EndedEntry(old(Model()), e)
    {
      order := Removed(order, e);
      if |order| == 0 && timer {
        timer := false;
      }
    }

    method LeaveWait(user: nat)
      requires Valid()
      modifies this
      ensures Did(Leave(user), old(events))
    {
      hide Exec;
      var rest := OfOthers(entries, order, user);
      if rest != order {
        order := rest;
        if |order| == 0 && timer {
          timer := false;
        }
      }
      Record(Leave(user), old(Model()));
    }

    method OnTimer()
      requires Valid() && Enabled(c, Model(), TimerFires)
      modifies this
      ensures Did(TimerFires, old(events))
    {
      hide Exec;
      timer := false;
      if tick == Idle {
        tick := Snapshotting;
      }
      Schedule();
      Record(TimerFires, old(Model()));
    }

    /** `launch` up to its first await, with `readSlot`. */
    method LaunchEdit(e: EntryId, resolves: bool)
      requires e < |entries|
      modifies this`entries, this`launches, this`reading, this`readers
      ensures Model() == Launched(c, old(Model()), e, resolves)
    {
      entries := entries[e := entries[e].(busy := true)];
      var n := |launches|;
      if !resolves {
        launches := launches + [Launch(e, false, false, Working)];
      } else if reading < c.resolveConcurrency {
        reading := reading + 1;
        launches := launches + [Launch(e, true, false, Holding)];
      } else {
        readers := readers + [n];
        launches := launches + [Launch(e, true, false, Queued)];
      }
    }

    method LaunchEdits(es: seq<EntryId>, resolving: set<EntryId>)
      requires forall i :: 0 <= i < |es| ==> es[i] < |entries|
      modifies this`entries, this`launches, this`reading, this`readers
      ensures Model() == LaunchedAll(c, old(Model()), es, resolving)
    {
      for k := 0 to |es|
        invariant Model() == LaunchedAll(c, old(Model()), es[..k], resolving)
      {
        assert es[..k + 1][..k] == es[..k];
        LaunchEdit(es[k], es[k] in resolving);
      }
      assert es[..|es|] == es;
    }

    method EndEntries(es: seq<EntryId>)
      modifies this`order, this`timer
      ensures Model() == EndedAll(old(Model()), es)
    {
      for k := 0 to |es|
        invariant Model() == EndedAll(old(Model()), es[..k])
      {
        assert es[..k + 1][..k] == es[..k];
        End(es[k]);
      }
      assert es[..|es|] == es;
    }

    /** The tick once its snapshot is read, up to the wait for the signal edits' reads. */
    method Decide(choices: map<EntryId, Choice>)
      requires Valid() && Enabled(c, Model(), Snapshot(choices))
      modifies this
      ensures Did(Snapshot(choices), old(events))
    {
      hide Exec;
      var failing := Chosen(entries, order, choices, IsFails);
      var signals := Chosen(entries, order, choices, IsSignal);
      var later := Chosen(entries, order, choices, IsHousekeeping);
      EndEntries(failing);
      tick := Waiting(later, Ids(|launches|, |signals|));
      LaunchEdits(signals, Resolving(choices));
      Record(Snapshot(choices), old(Model()));
    }

    method LiveAmong(es: seq<EntryId>) returns (live: seq<EntryId>)
      ensures live == LiveOf(Model(), es)
    {
      live := [];
      for k := 0 to |es|
        invariant live == LiveOf(Model(), es[..k])
      {
        assert es[..k + 1][..k] == es[..k];
        if es[k] < |entries| && !stopped && es[k] in order {
          live := live + [es[k]];
        }
      }
      assert es[..|es|] == es;
    }

    /** The rest of the tick: the housekeeping edits of the entries still live, then the captions. */
    method AfterReads(captions: seq<EntryId>)
      requires Valid() && Enabled(c, Model(), ReadsDone(captions))
      modifies this
      ensures Did(ReadsDone(captions), old(events))
    {
      hide Exec;
      hide LaunchedAll, LiveOf, AllReleased;
      var live := LiveAmong(tick.later);
      LaunchEdits(live, {});
      LaunchEdits(captions, {});
      tick := Idle;
      Record(ReadsDone(captions), old(Model()));
    }

    /** `release`: the second call does nothing. */
    method Release(l: LaunchId)
      requires l < |launches|
      modifies this`launches, this`reading, this`readers
      ensures Model() == Released(old(Model()), l)
    {
      if launches[l].released {
        return;
      }
      launches := launches[l := launches[l].(released := true)];
      if launches[l].resolves {
        if |readers| == 0 {
          reading := reading - 1;
        } else if readers[0] < |launches| {
          reading := reading - 1;
          launches := launches[readers[0] := launches[readers[0]].(phase := Holding)];
          readers := readers[1..];
          reading := reading + 1;
        }
      }
    }

    method Finalize(l: LaunchId)
      requires l < |launches| && launches[l].entry < |entries|
      modifies this`launches, this`reading, this`readers, this`entries
      ensures Model() == Finalized(old(Model()), l)
    {
      var e := launches[l].entry;
      Release(l);
      entries := entries[e := entries[e].(busy := false, slotted := false)];
      launches := launches[l := launches[l].(phase := Over)];
    }

    method ResumeReader(l: LaunchId)
      requires Valid() && Enabled(c, Model(), Resume(l))
      modifies this
      ensures Did(Resume(l), old(events))
    {
      hide Exec;
      if stopped || launches[l].entry !in order {
        Finalize(l);
      } else {
        launches := launches[l := launches[l].(phase := Working)];
      }
      Record(Resume(l), old(Model()));
    }

    /** `gate` up to its slot. */
    method ReachGate(l: LaunchId)
      requires Valid() && Enabled(c, Model(), Gate(l))
      modifies this
      ensures Did(Gate(l), old(events))
    {
      hide Exec;
      Release(l);
      launches := launches[l := launches[l].(phase := Gated)];
      Record(Gate(l), old(Model()));
    }

    method PassGate(l: LaunchId, slot: bool)
      requires Valid() && Enabled(c, Model(), GateOpens(l, slot))
      modifies this
      ensures Did(GateOpens(l, slot), old(events))
    {
      hide Exec;
      var e := launches[l].entry;
      if !slot || stopped || e !in order {
        launches := launches[l := launches[l].(phase := TurnedAway)];
      } else {
        sent := sent + [Sent(e, Live(Model(), e))];
        entries := entries[e := entries[e].(slotted := true)];
        launches := launches[l := launches[l].(phase := Sending)];
      }
      Record(GateOpens(l, slot), old(Model()));
    }

    method FinishSend(l: LaunchId, ends: bool, final: bool)
      requires Valid() && Enabled(c, Model(), SendEnds(l, ends, final))
      modifies this
      ensures Did(SendEnds(l, ends, final), old(events))
    {
      hide Exec;
      var e := launches[l].entry;
      launches := launches[l := launches[l].(phase := Working)];
      if final {
        entries := entries[e := entries[e].(final := true)];
      }
      if ends || final {
        End(e);
      }
      Record(SendEnds(l, ends, final), old(Model()));
    }

    method FinishWork(l: LaunchId, ends: bool)
      requires Valid() && Enabled(c, Model(), WorkEnds(l, ends))
      modifies this
      ensures Did(WorkEnds(l, ends), old(events))
    {
      hide Exec;
      if ends {
        End(launches[l].entry);
      }
      Finalize(l);
      Record(WorkEnds(l, ends), old(Model()));
    }

    method StopWaits()
      requires Valid()
      modifies this
      ensures Did(Stop, old(events))
    {
      hide Exec;
      if !stopped {
        stopped, timer, order := true, false, [];
      }
      Record(Stop, old(Model()));
    }

    /** The tick's reads failed, or a pause is on. */
    method SkipTick()
      requires Valid() && Enabled(c, Model(), SnapshotFails)
      modifies this
      ensures Did(SnapshotFails, old(events))
    {
      hide Exec;
      tick := Idle;
      Record(SnapshotFails, old(Model()));
    }

    ghost method Record(e: Event, was: State)
      requires Exec(c, trace, events) && was == trace[|events|]
      requires Enabled(c, was, e) && Model() == Step(c, was, e)
      modifies this`events, this`trace
      ensures Did(e, old(events))
    {
      GoesOn(c, trace, events, e, Model());
      events, trace := events + [e], trace + [Model()];
    }

    /** In this object too: the slots in use are those held, no entry has two edits, and all sent were live. */
    lemma Sound()
      requires Valid()
      ensures reading == |Holders(launches)| <= c.resolveConcurrency
      ensures readers != [] ==> reading == c.resolveConcurrency
      ensures BusyOk(entries, launches)
      ensures forall i :: 0 <= i < |sent| ==> sent[i].live
      ensures timer <==> !stopped && order != []
    {
      ExecKeeps(c, trace, events, |events|);
    }
  }
}
