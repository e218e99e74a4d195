/** The polling as the code runs it: the closure's variables changed in place. */
module PollingCode {
  import opened Wrappers
  import opened Polling
  import opened PollingProofs

  lemma GoesOn(c: Config, events: seq<Event>, s: State, e: Event)
    requires Exec(c, events) == Some(s) && Enabled(s, e)
    ensures Exec(c, events + [e]) == Some(Step(c, s, e))
  {
    assert (events + [e])[..|events|] == events;
  }

  class PollingLoop {
    const c: Config
    var running: bool
    var offset: nat
    var inflight: set<nat>
    var chains: map<Key, nat>
    var unkeyed: int
    var wakeUp: bool
    var tasks: seq<Task>
    var loop: Loop
    ghost var arrived: seq<Update>
    var confirmed: nat
    /** What happened to this loop so far. */
    ghost var events: seq<Event>

    ghost function Model(): State
      reads this
    {
      State(running, offset, inflight, chains, unkeyed, wakeUp, tasks, loop, arrived, confirmed)
    }

    /** The object is where the run of its events is, so whatever holds of every run holds of it. */
    ghost predicate Valid()
      reads this
    {
      c.Valid() && Exec(c, events) == Some(Model())
    }

    constructor (c: Config)
      requires c.Valid()
      ensures Valid() && this.c == c && events == []
    {
      this.c := c;
      running, offset, inflight, chains, unkeyed, wakeUp := true, 0, {}, map[], 0, false;
      tasks, loop, arrived, confirmed, events := [], Ready, [], 0, [];
    }

    /** What one more event has done. */
    ghost predicate Did(e: Event, was: seq<Event>)
      reads this
    {
      Valid() && events == was + [e]
    }

    method Wake()
      modifies this`wakeUp, this`loop
      ensures !wakeUp && loop == if old(loop.Waiting? && wakeUp) then Ready else old(loop)
    {
      if wakeUp && loop.Waiting? {
        loop := Ready;
      }
      wakeUp := false;
    }

    method Dispatch(u: Update)
      modifies this`inflight, this`tasks, this`unkeyed, this`chains, this`offset
      ensures Model() == Dispatched(old(Model()), u)
    {
      offset := u.id + 1;
      var task := |tasks|;
      var previous := if u.key.Some? && u.key.value in chains then Some(chains[u.key.value]) else None;
      tasks := tasks + [Task(u, previous, Queued)];
      inflight := inflight + {task};
      if u.key.None? {
        unkeyed := unkeyed + 1;
      } else {
        chains := chains[u.key.value := task];
      }
    }

    /** The end of getUpdates: the updates are dispatched one by one, whichever they are. */
    method Receive(updates: seq<Update>)
      requires Valid() && loop.Fetching?
      modifies this
      ensures Model() == Received(old(Model()), updates)
      ensures old(Answers(Model(), updates)) ==> Did(Answer(updates), old(events))
    {
      var i := 0;
      while i < |updates|
        invariant 0 <= i <= |updates|
        invariant Model() == AllDispatched(old(Model()), updates[..i])
        invariant events == old(events)
      {
        hide Exec;
        assert updates[..i + 1][..i] == updates[..i];
        Dispatch(updates[i]);
        i := i + 1;
      }
      assert updates[..i] == updates;
      loop := Ready;
      if old(Answers(Model(), updates)) {
        GoesOn(c, events, old(Model()), Answer(updates));
        events := events + [Answer(updates)];
      }
    }

    /** One turn of the `while (running)` loop up to its next await. */
    method TakeTurn()
      requires Valid() && loop.Ready?
      modifies this
      ensures Did(Turn, old(events))
    {
      hide Exec;
      if !running {
        loop := Draining(inflight);
      } else {
        var heads := |chains| + unkeyed;
        var waiting := |inflight| - heads;
        var free := if c.concurrency - heads < c.waitingMax - waiting
                    then c.concurrency - heads else c.waitingMax - waiting;
        if free <= 0 {
          wakeUp := true;
          loop := Waiting;
        } else {
          confirmed := Max(confirmed, offset);
          loop := Fetching(offset, free);
        }
      }
      GoesOn(c, events, old(Model()), Turn);
      events := events + [Turn];
    }

    /** The `then` of a task: its handler starts. */
    method TaskStarts(i: nat)
      requires Valid() && Enabled(Model(), Begin(i))
      modifies this
      ensures Did(Begin(i), old(events))
    {
      hide Exec;
      tasks := tasks[i := tasks[i].(phase := Handling)];
      GoesOn(c, events, old(Model()), Begin(i));
      events := events + [Begin(i)];
    }

    /** The `finally` of a task. */
    method TaskEnds(i: nat)
      requires Valid() && Enabled(Model(), End(i))
      modifies this
      ensures Did(End(i), old(events))
    {
      hide Exec, Answers, Pending, Ended;
      EndTask(i);
      GoesOn(c, events, old(Model()), End(i));
      events := events + [End(i)];
    }

    method EndTask(i: nat)
      requires i < |tasks|
      modifies this
      ensures Model() == Ended(old(Model()), i) && events == old(events)
    {
      inflight := inflight - {i};
      var key := tasks[i].update.key;
      tasks := tasks[i := tasks[i].(phase := Done)];
      if key.None? {
        unkeyed := unkeyed - 1;
      } else if key.value in chains && chains[key.value] == i {
        chains := chains - {key.value};
      }
      Wake();
    }

    /** getUpdates fails for good, or is cut short after the stop. */
    method FetchEnds()
      requires Valid() && loop.Fetching?
      modifies this
      ensures Did(if old(running) then Fatal else Abort, old(events))
    {
      hide Exec;
      ghost var e := if running then Fatal else Abort;
      running := false;
      loop := Draining(inflight);
      GoesOn(c, events, old(Model()), e);
      events := events + [e];
    }

    method StopPolling()
      requires Valid()
      modifies this
      ensures Did(Stop, old(events))
    {
      hide Exec;
      if running {
        running := false;
        confirmed := Max(confirmed, offset);
        Wake();
      }
      assert Model() == Stopped(old(Model()));
      hide Stopped;
      GoesOn(c, events, old(Model()), Stop);
      events := events + [Stop];
    }

    /** `start` returns once what was in flight has ended. */
    method Finish()
      requires Valid() && Enabled(Model(), Settle)
      modifies this
      ensures Did(Settle, old(events))
      ensures forall i :: 0 <= i < |tasks| ==> tasks[i].phase.Done?
    {
      loop := Settled;
      GoesOn(c, events, old(Model()), Settle);
      events := events + [Settle];
      SettlesHandled(c, events);
    }

    /** The server gets an update. */
    ghost method ServerGets(u: Update)
      requires Valid() && Enabled(Model(), Arrive(u))
      modifies this`arrived, this`events
      ensures Did(Arrive(u), old(events))
    {
      hide Exec;
      arrived := arrived + [u];
      GoesOn(c, events, old(Model()), Arrive(u));
      events := events + [Arrive(u)];
    }

    /** In this object too: both bounds, and each update in its turn. */
    lemma WithinBounds()
      requires Valid()
      ensures |chains| + unkeyed <= c.concurrency && |inflight| - (|chains| + unkeyed) <= c.waitingMax
      ensures forall i, j :: 0 <= i < j < |tasks| ==> tasks[i].update.id < tasks[j].update.id
    {
      hide Prefix, Chained, OneAtATime, Linked, Counted, Awake;
      ExecKeeps(c, events);
      assert Bounded(c, Model());
      OrderHolds(c, events);
    }
  }
}
