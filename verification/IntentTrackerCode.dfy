/** The intent tracker as the code runs it: fields changed in place. */
module IntentTrackerCode {
  import opened Wrappers
  import opened MapOrder
  import opened IntentTracker
  import opened IntentTrackerProofs

  lemma GoesOn(c: Config, trace: seq<State>, events: seq<Event>, e: Event, t: State)
    requires Exec(c, trace, events) && Enabled(trace[|events|], e) && t == Step(c, trace[|events|], e)
    ensures Exec(c, trace + [t], events + [e])
  {
  }

  lemma Listed(c: Config, trace: seq<State>, events: seq<Event>)
    requires c.Valid() && Exec(c, trace, events)
    ensures var s := trace[|events|];
      (forall i :: 0 <= i < |s.order| ==> s.order[i] < |s.entries|) && forall e :: e in s.order ==> e < |s.entries|
  {
    ExecKeeps(c, trace, events, |events|);
  }

  class Tracker {
    const c: Config
    var entries: seq<Entry>
    var order: seq<EntryId>
    var stopping: bool
    var now: int
    /** What happened to this tracker so far, and the states it went through. */
    ghost var events: seq<Event>
    ghost var trace: seq<State>

    ghost function Model(): State
      reads this
    {
      State(entries, order, stopping, now)
    }

    /** The object is where the run of its events is, so whatever holds of every run holds of it. */
    ghost predicate Valid()
      reads this
    {
      c.Valid() && Exec(c, trace, events) && Model() == trace[|events|]
    }

    /** What one more event has done. */
    ghost predicate Did(e: Event, was: seq<Event>)
      reads this
    {
      Valid() && events == was + [e]
    }

    constructor (c: Config, now: int)
      requires c.Valid()
      ensures Valid() && this.c == c && events == []
    {
      this.c := c;
      entries, order, stopping, this.now := [], [], false, now;
      events, trace := [], [Start(now)];
    }

    method Finish(e: EntryId)
      requires e < |entries|
      modifies this`entries, this`order
      ensures Model() == Finished(old(Model()), e)
    {
      entries := entries[e := entries[e].(timer := None)];
      order := Removed(order, e);
    }

    method Arm(e: EntryId, delay: int, last: bool)
      requires e < |entries|
      modifies this`entries
      ensures Model() == Armed(old(Model()), e, delay, last)
    {
      var timer := Timer(now + delay, last);
      entries := entries[e := entries[e].(timer := Some(timer), attempt := None, steps := entries[e].steps + 1)];
    }

    method BeginFinalEdit(e: EntryId)
      requires e < |entries|
      modifies this`entries
      ensures Model() == FinalEdit(old(Model()), e)
    {
      if stopping || e !in order {
        entries := entries[e := entries[e].(attempt := None)];
        return;
      }
      var stopped := StopStatus(entries[e].view.status);
      var key := if stopped then RenderKey(entries[e].view) else DeadlineKey;
      entries := entries[e := entries[e].(attempt := Some(Editing(OfEnd, key)))];
    }

    method GoOn(e: EntryId, editFailedNow: bool)
      requires e < |entries|
      modifies this`entries
      ensures Model() == Next(c, old(Model()), e, editFailedNow)
    {
      if stopping || e !in order {
        entries := entries[e := entries[e].(attempt := None)];
      } else if now - entries[e].startedAt < c.deadlineMs {
        Arm(e, c.pollMs, false);
      } else if editFailedNow {
        Arm(e, c.pollMs, true);
      } else {
        BeginFinalEdit(e);
      }
    }

    method Judge(e: EntryId, edited: bool)
      requires e < |entries|
      modifies this`entries, this`order
      ensures Model() == Judged(c, old(Model()), e, edited)
    {
      var landed := entries[e].rendered == RenderKey(entries[e].view);
      if StopStatus(entries[e].view.status) && landed {
        entries := entries[e := entries[e].(attempt := None)];
        Finish(e);
      } else {
        GoOn(e, edited && !landed);
      }
    }

    /** A timer's callback. */
    method TimerFires(at: int, e: EntryId)
      requires Valid() && Enabled(Model(), Fire(at, e))
      modifies this
      ensures Did(Fire(at, e), old(events))
    {
      hide Exec, RenderKey, StopStatus;
      now := at;
      var last := entries[e].timer.value.last;
      entries := entries[e := entries[e].(timer := None)];
      if last {
        BeginFinalEdit(e);
      } else {
        entries := entries[e := entries[e].(attempt := Some(Reading))];
      }
      Record(Fire(at, e), old(Model()));
    }

    /** `attempt` once its read has given a view. */
    method ReadGives(at: int, e: EntryId, view: View)
      requires Valid() && Enabled(Model(), ReadGave(at, e, view))
      modifies this
      ensures Did(ReadGave(at, e, view), old(events))
    {
      hide Exec, RenderKey, StopStatus, Judged;
      now := at;
      if !stopping && e !in order {
        entries := entries[e := entries[e].(attempt := None)];
      } else {
        entries := entries[e := entries[e].(view := view)];
        if RenderKey(view) != entries[e].rendered {
          entries := entries[e := entries[e].(attempt := Some(Editing(OfStatus, RenderKey(view))))];
        } else {
          Judge(e, false);
        }
      }
      Record(ReadGave(at, e, view), old(Model()));
    }

    /** `attempt` once its read has failed. */
    method ReadFails(at: int, e: EntryId, failure: ReadFailure)
      requires Valid() && Enabled(Model(), ReadFailed(at, e, failure))
      modifies this
      ensures Did(ReadFailed(at, e, failure), old(events))
    {
      hide Exec, Next;
      now := at;
      if failure == Failure {
        GoOn(e, false);
      } else if failure == NotFound && (stopping || e in order) {
        entries := entries[e := entries[e].(attempt := Some(Editing(OfNotFound, NotFoundKey)))];
      } else {
        entries := entries[e := entries[e].(attempt := None)];
        Finish(e);
      }
      Record(ReadFailed(at, e, failure), old(Model()));
    }

    /** `editTo` once its edit has ended, and the attempt from there. */
    method EditEnds(at: int, e: EntryId, outcome: EditOutcome)
      requires Valid() && Enabled(Model(), EditEnded(at, e, outcome))
      modifies this
      ensures Did(EditEnded(at, e, outcome), old(events))
    {
      hide Exec, Judged;
      now := at;
      var stage := entries[e].attempt.value;
      if outcome == Done || outcome == AlreadyShown {
        entries := entries[e := entries[e].(rendered := stage.key)];
      }
      if outcome == Gone || outcome == Broken || stage.kind != OfStatus {
        entries := entries[e := entries[e].(attempt := None)];
        Finish(e);
      } else {
        Judge(e, true);
      }
      Record(EditEnded(at, e, outcome), old(Model()));
    }

    method TrackIntent(at: int, id: nat, view: View)
      requires Valid() && now <= at
      modifies this
      ensures Did(Track(at, id, view), old(events))
    {
      Listed(c, trace, events);
      hide Exec, RenderKey;
      now := at;
      if stopping || exists i :: 0 <= i < |order| && entries[order[i]].id == id {
        assert stopping || Tracks(Model(), id);
      } else {
        assert !Tracks(Model(), id);
        if |order| >= c.maxEntries && |order| > 0 {
          Finish(order[0]);
        }
        var e := |entries|;
        entries := entries + [Entry(id, now, view, RenderKey(view), None, None, 0)];
        order := order + [e];
        Arm(e, c.firstPollMs, false);
      }
      Record(Track(at, id, view), old(Model()));
    }

    /** `stop` up to its await. */
    method Stop(at: int)
      requires Valid() && now <= at
      modifies this
      ensures Did(StopCalled(at), old(events))
    {
      Listed(c, trace, events);
      hide Exec;
      now := at;
      stopping := true;
      ClearTimers();
      assert entries == Stopped(old(Model())).entries;
      Record(StopCalled(at), old(Model()));
    }

    method ClearTimers()
      requires forall i :: 0 <= i < |order| ==> order[i] < |entries|
      modifies this`entries
      ensures |entries| == |old(entries)|
      ensures forall i :: 0 <= i < |entries| ==>
                entries[i] == if i in order then old(entries)[i].(timer := None) else old(entries)[i]
    {
      ghost var were := entries;
      for k := 0 to |order|
        invariant |entries| == |were|
        invariant forall i :: 0 <= i < |were| ==>
                    entries[i] == if i in order[..k] then were[i].(timer := None) else were[i]
      {
        assert order[..k + 1] == order[..k] + [order[k]];
        entries := entries[order[k] := entries[order[k]].(timer := None)];
      }
      assert order[..|order|] == order;
    }

    /** `stop` once every attempt has ended. */
    method ClearEntries(at: int)
      requires Valid() && Enabled(Model(), Drained(at))
      modifies this
      ensures Did(Drained(at), old(events))
    {
      hide Exec;
      now, order := at, [];
      Record(Drained(at), old(Model()));
    }

    ghost method Record(e: Event, was: State)
      requires c.Valid() && Exec(c, trace, events) && was == trace[|events|]
      requires Enabled(was, e) && Model() == Step(c, was, e)
      modifies this`events, this`trace
      ensures Did(e, old(events))
    {
      GoesOn(c, trace, events, e, Model());
      events, trace := events + [e], trace + [Model()];
    }

    /** In this object too: one thing outstanding of a tracked entry, and a bound to its timers. */
    lemma Served(e: EntryId)
      requires Valid() && e < |entries|
      ensures e in order && !stopping ==> (entries[e].timer.Some? <==> entries[e].attempt.None?)
      ensures entries[e].steps >= 3 ==> c.firstPollMs + (entries[e].steps - 3) * c.pollMs < c.deadlineMs
    {
      hide Paced, StageOk, Floor, OrderOk, Step, Enabled;
      ExecKeeps(c, trace, events, |events|);
      assert EntriesOk(c, Model());
      assert EntryOk(c, entries[e], e in order, stopping, now);
      EveryEntryIsFinite(c, trace, events, e, |events|);
    }
  }
}
