/** The session tracker as the code runs it: fields changed in place, each continuation proved to be its step. */
module SessionTrackerCode {
  import opened Wrappers
  import opened MapOrder
  import opened SessionTracker
  import opened SessionTrackerProofs
  import opened SessionTrackerRuns

  lemma GoesOn(c: Config, events: seq<Event>, s: State, e: Event)
    requires Exec(c, events) == Some(s) && WellFormed(s) && Enabled(s, e)
    ensures Exec(c, events + [e]) == Some(Step(c, s, e))
  {
    assert (events + [e])[..|events|] == events;
  }

  /** One of these sessions' entries has the timer. */
  ghost predicate Clears(entries: seq<Entry>, current: map<SessionId, EntryId>, ids: seq<SessionId>, t: nat) {
    exists id :: id in ids && id in current && current[id] < |entries| && entries[current[id]].timer == Some(t)
  }

  lemma ClearsNone(entries: seq<Entry>, current: map<SessionId, EntryId>, t: nat)
    ensures !Clears(entries, current, [], t)
  {
  }

  lemma ClearsAll(entries: seq<Entry>, current: map<SessionId, EntryId>, ids: seq<SessionId>)
    requires (forall id: nat :: id in ids <==> id in current) && forall id <- current :: current[id] < |entries|
    ensures forall t: nat :: Clears(entries, current, ids, t)
                        <==> exists id :: id in current && entries[current[id]].timer == Some(t)
  {
  }

  lemma ClearsMore(entries: seq<Entry>, current: map<SessionId, EntryId>, ids: seq<SessionId>, id: SessionId, t: nat)
    requires id in current && current[id] < |entries|
    ensures Clears(entries, current, ids + [id], t)
       <==> Clears(entries, current, ids, t) || entries[current[id]].timer == Some(t)
  {
    assert id in ids + [id];
    if Clears(entries, current, ids, t) {
      var x :| x in ids && x in current && current[x] < |entries| && entries[current[x]].timer == Some(t);
      assert x in ids + [id];
    }
  }

  class Tracker {
    const c: Config
    var entries: seq<Entry>
    var current: map<SessionId, EntryId>
    var order: seq<SessionId>
    var drawn: map<SessionId, Memo>
    var drawnOrder: seq<SessionId>
    var nextResumeAt: Option<int>
    var stopping: bool
    var timers: map<nat, Timer>
    var attempts: map<nat, Attempt>
    var nextTimer: nat
    var nextAttempt: nat
    ghost var edits: seq<EditSent>
    ghost var summaries: seq<SummarySent>
    /** What happened to this tracker so far. */
    ghost var events: seq<Event>

    ghost function Model(): State
      reads this
    {
      State(entries, current, order, drawn, drawnOrder, nextResumeAt, stopping,
            timers, attempts, nextTimer, nextAttempt, edits, summaries)
    }

    /** The object is where the run of its events is, so whatever holds of every run holds of it. */
    ghost predicate Valid()
      reads this
    {
      c.Valid() && Exec(c, events) == Some(Model())
    }

    /** What one more event has done. */
    ghost predicate Did(e: Event, was: seq<Event>)
      reads this
    {
      Valid() && events == was + [e]
    }

    constructor (c: Config)
      requires c.Valid()
      ensures Valid() && this.c == c && events == []
    {
      this.c := c;
      entries, current, order, drawn, drawnOrder := [], map[], [], map[], [];
      nextResumeAt, stopping, timers, attempts, nextTimer, nextAttempt := None, false, map[], map[], 0, 0;
      edits, summaries, events := [], [], [];
    }

    method IsCurrent(e: EntryId) returns (yes: bool)
      ensures yes == Current(Model(), e)
    {
      yes := e < |entries| && entries[e].session in current && current[entries[e].session] == e;
    }

    /** `finish`: the timer cleared; a current entry leaves the map, and what is on its message is remembered. */
    method Finish(e: EntryId, remember: bool)
      requires e < |entries|
      modifies this`timers, this`current, this`order, this`drawn, this`drawnOrder
      ensures Model() == Finished(c, old(Model()), e, remember)
    {
      var entry := entries[e];
      var mine := IsCurrent(e);
      if entry.timer.Some? {
        timers := timers - {entry.timer.value};
      }
      if !mine {
        return;
      }
      current := current - {entry.session};
      order := Removed(order, entry.session);
      if !remember || entry.rendered == Nothing {
        return;
      }
      hide Remembered, Removed;
      Remember(entry.session, Memo(entry.message, entry.rendered));
    }

    method Remember(id: SessionId, memo: Memo)
      modifies this`drawn, this`drawnOrder
      ensures Model() == Remembered(c, old(Model()), id, memo)
    {
      drawn := drawn[id := memo];
      drawnOrder := Removed(drawnOrder, id) + [id];
      if |drawn| > c.maxEntries {
        drawn := drawn - {drawnOrder[0]};
        drawnOrder := drawnOrder[1..];
      }
    }

    method Arm(e: EntryId, due: int)
      requires e < |entries|
      modifies this`timers, this`entries, this`nextTimer
      ensures Model() == Armed(old(Model()), e, due)
    {
      timers := timers[nextTimer := Timer(e, due)];
      entries := entries[e := entries[e].(timer := Some(nextTimer))];
      nextTimer := nextTimer + 1;
    }

    method SendEdit(a: nat, stage: Stage, view: Option<View>)
      requires a in attempts && attempts[a].entry < |entries|
      modifies this`attempts, this`edits
      ensures Model() == Sent(old(Model()), a, stage, view)
    {
      var e := attempts[a].entry;
      edits := edits + [EditSent(e, Holder(Model(), entries[e].session), entries[e].rendered, view)];
      attempts := attempts[a := attempts[a].(stage := stage)];
    }

    method CallSummary(a: nat, view: View)
      requires a in attempts && attempts[a].entry < |entries|
      modifies this`attempts, this`summaries
      ensures Model() == Summed(old(Model()), a, view)
    {
      summaries := summaries + [SummarySent(attempts[a].entry, view, entries[attempts[a].entry].rendered)];
      attempts := attempts[a := attempts[a].(stage := Summing)];
    }

    method EndEntry(a: nat)
      requires a in attempts && attempts[a].entry < |entries|
      modifies this`timers, this`current, this`order, this`drawn, this`drawnOrder, this`attempts
      ensures Model() == Ended(c, old(Model()), a)
    {
      Finish(attempts[a].entry, true);
      attempts := attempts - {a};
    }

    method LastEditDone(a: nat, view: View)
      requires a in attempts && attempts[a].entry < |entries|
      modifies this`timers, this`current, this`order, this`drawn, this`drawnOrder, this`attempts, this`summaries
      ensures Model() == LastDone(c, old(Model()), a, view)
    {
      if SummaryDue(entries[attempts[a].entry], view) {
        CallSummary(a, view);
      } else {
        EndEntry(a);
      }
    }

    /** `next`: another poll, unless the deadline has come; then what is left of the entry. */
    method GoOn(a: nat, now: int)
      requires a in attempts && attempts[a].entry < |entries|
      modifies this
      ensures Model() == Next(c, old(Model()), a, now) && events == old(events)
    {
      hide LastDone, Sent, Finished, Ended, MayDraw;
      var e := attempts[a].entry;
      var mine := IsCurrent(e);
      if stopping || !mine {
        attempts := attempts - {a};
        return;
      }
      if now - entries[e].startedAt < c.deadlineMs {
        Arm(e, now + c.pollMs);
        attempts := attempts - {a};
        return;
      }
      var view := entries[e].view;
      if view == None {
        EndEntry(a);
      } else if entries[e].rendered != Drawing(view.value.drawing) && MayDraw(entries[e], view.value) {
        SendEdit(a, Editing(view.value, true), view);
      } else {
        LastEditDone(a, view.value);
      }
    }

    method AfterAnEdit(a: nat, view: View, last: bool, now: int)
      requires a in attempts && attempts[a].entry < |entries|
      modifies this
      ensures Model() == AfterEdit(c, old(Model()), a, view, last, now) && events == old(events)
    {
      if last {
        LastEditDone(a, view);
      } else if SummaryDue(entries[attempts[a].entry], view) {
        CallSummary(a, view);
      } else {
        GoOn(a, now);
      }
    }

    /** `attempt` once its read has ended. */
    method ReadEnds(a: nat, r: ReadResult, now: int)
      requires Valid() && Enabled(Model(), Read(a, r, now))
      modifies this
      ensures Did(Read(a, r, now), old(events))
    {
      hide Exec, Next, Ended, Sent, AfterEdit, Inv;
      Formed();
      var e := attempts[a].entry;
      match r {
        case Unavailable => GoOn(a, now);
        case ReadBroken => EndEntry(a);
        case NotFound =>
          var mine := IsCurrent(e);
          if mine {
            SendEdit(a, EditingNotFound, None);
          } else {
            EndEntry(a);
          }
        case Answered(view) => TakeAnswer(a, view, now);
      }
      GoesOn(c, events, old(Model()), Read(a, r, now));
      events := events + [Read(a, r, now)];
    }

    method TakeAnswer(a: nat, view: View, now: int)
      requires a in attempts && attempts[a].entry < |entries|
      modifies this
      ensures Model() == ReadDone(c, old(Model()), a, Answered(view), now) && events == old(events)
    {
      hide Sent, AfterEdit;
      var e := attempts[a].entry;
      entries := entries[e := entries[e].(record := false)];
      var mine := IsCurrent(e);
      if !mine {
        attempts := attempts - {a};
        return;
      }
      entries := entries[e := entries[e].(view := Some(view))];
      if Drawing(view.drawing) != entries[e].rendered && MayDraw(entries[e], view) {
        SendEdit(a, Editing(view, false), Some(view));
      } else {
        AfterAnEdit(a, view, false, now);
      }
    }

    /** `editTo` once its edit has ended, and the attempt from there. */
    method EditEnds(a: nat, r: EditResult, now: int)
      requires Valid() && Enabled(Model(), Edit(a, r, now))
      modifies this
      ensures Did(Edit(a, r, now), old(events))
    {
      hide Exec, Finished, AfterEdit, LastDone, Inv;
      Formed();
      var stage := attempts[a].stage;
      if stage.EditingNotFound? {
        NotFoundEnds(a, r);
      } else {
        ViewEnds(a, r, now);
      }
      GoesOn(c, events, old(Model()), Edit(a, r, now));
      events := events + [Edit(a, r, now)];
    }

    method NotFoundEnds(a: nat, r: EditResult)
      requires a in attempts && attempts[a].entry < |entries|
      modifies this
      ensures Model() == NotFoundDone(c, old(Model()), a, r) && events == old(events)
    {
      hide Finished, Current;
      var e := attempts[a].entry;
      if r == Landed {
        entries := entries[e := entries[e].(rendered := NotFoundText)];
      }
      Finish(e, r != Lost);
      attempts := attempts - {a};
    }

    method ViewEnds(a: nat, r: EditResult, now: int)
      requires a in attempts && attempts[a].entry < |entries| && attempts[a].stage.Editing?
      modifies this
      ensures Model() == EditDone(c, old(Model()), a, r, now) && events == old(events)
    {
      hide Finished, AfterEdit, LastDone;
      var e, stage := attempts[a].entry, attempts[a].stage;
      match r {
        case Landed =>
          entries := entries[e := entries[e].(rendered := Drawing(stage.view.drawing))];
          AfterAnEdit(a, stage.view, stage.last, now);
        case Refused => AfterAnEdit(a, stage.view, stage.last, now);
        case Lost =>
          Finish(e, false);
          attempts := attempts[a := attempts[a].(stage := Reporting(stage.view, stage.last))];
        case EditBroken =>
          Finish(e, true);
          if stage.last {
            LastEditDone(a, stage.view);
          } else {
            attempts := attempts - {a};
          }
      }
    }

    /** The report of a lost message has ended. */
    method ReportEnds(a: nat)
      requires Valid() && Enabled(Model(), Report(a))
      modifies this
      ensures Did(Report(a), old(events))
    {
      hide Exec, LastDone, Inv;
      Formed();
      var stage := attempts[a].stage;
      if stage.last {
        LastEditDone(a, stage.view);
      } else {
        attempts := attempts - {a};
      }
      GoesOn(c, events, old(Model()), Report(a));
      events := events + [Report(a)];
    }

    method SummaryEnds(a: nat)
      requires Valid() && Enabled(Model(), Summary(a))
      modifies this
      ensures Did(Summary(a), old(events))
    {
      hide Exec, Ended, Inv;
      Formed();
      EndEntry(a);
      GoesOn(c, events, old(Model()), Summary(a));
      events := events + [Summary(a)];
    }

    /** A timer's callback, up to the attempt's read. */
    method TimerFires(t: nat, now: int)
      requires Valid() && Enabled(Model(), Fire(t, now))
      modifies this
      ensures Did(Fire(t, now), old(events))
    {
      hide Exec, Inv, Current, Fired;
      Formed();
      FireFromHere(t);
      GoesOn(c, events, old(Model()), Fire(t, now));
      events := events + [Fire(t, now)];
    }

    method FireFromHere(t: nat)
      requires t in timers && timers[t].entry < |entries|
      modifies this`timers, this`entries, this`attempts, this`nextAttempt
      ensures Model() == Fired(old(Model()), t)
    {
      var e := timers[t].entry;
      timers := timers - {t};
      entries := entries[e := entries[e].(timer := None)];
      attempts := attempts[nextAttempt := Attempt(e, Reading)];
      nextAttempt := nextAttempt + 1;
    }

    lemma Formed()
      requires Valid()
      ensures WellFormed(Model())
      ensures forall id: nat :: id in order <==> id in current
    {
      hide Exec;
      ExecKeeps(c, events);
      InvWellFormed(c, Model());
    }

    /** The session's entry, or the oldest of a full map, makes room. */
    method MakeRoom(session: SessionId)
      requires forall id <- current :: current[id] < |entries|
      modifies this`timers, this`current, this`order, this`drawn, this`drawnOrder
      ensures Model() == MadeRoom(c, old(Model()), session)
    {
      if session in current {
        Finish(current[session], true);
      } else if |current| >= c.maxEntries && |order| > 0 && order[0] in current {
        Finish(current[order[0]], true);
      }
    }

    method TrackSession(r: Request, now: int)
      requires Valid()
      modifies this
      ensures Did(Track(r, now), old(events))
    {
      hide Exec, Tracked, Inv;
      Formed();
      TrackFromHere(r, now);
      GoesOn(c, events, old(Model()), Track(r, now));
      events := events + [Track(r, now)];
    }

    method TrackFromHere(r: Request, now: int)
      requires forall id <- current :: current[id] < |entries|
      modifies this
      ensures Model() == Tracked(c, old(Model()), r, now) && events == old(events)
    {
      hide Added, Scheduled, MadeRoom;
      if stopping {
        return;
      }
      var startedAt := if r.startedAt.Some? then r.startedAt.value else now;
      if r.session in current {
        startedAt := entries[current[r.session]].startedAt;
      }
      MakeRoom(r.session);
      AddEntry(r, startedAt);
      ScheduleFirst(|entries| - 1, r, now);
    }

    method RenderedAtFirst(r: Request) returns (rendered: Shown)
      ensures rendered == FirstShown(Model(), r)
    {
      if r.view.Some? {
        return Drawing(r.view.value.drawing);
      } else if r.session in drawn && drawn[r.session].message == r.message {
        return drawn[r.session].rendered;
      }
      return Nothing;
    }

    method AddEntry(r: Request, startedAt: int)
      modifies this`entries, this`current, this`order, this`drawn, this`drawnOrder
      ensures Model() == Added(old(Model()), r, startedAt) && |entries| == |old(entries)| + 1
    {
      hide Removed, FirstShown;
      var rendered := RenderedAtFirst(r);
      current := current[r.session := |entries|];
      entries := entries + [Entry(r.session, r.message, startedAt, r.view, r.record, rendered, None)];
      order := Removed(order, r.session) + [r.session];
      drawn := drawn - {r.session};
      drawnOrder := Removed(drawnOrder, r.session);
    }

    /** `resumeSlot` for an entry with no view, and the timer of the first poll. */
    method ScheduleFirst(e: EntryId, r: Request, now: int)
      requires e < |entries|
      modifies this`timers, this`entries, this`nextTimer, this`nextResumeAt
      ensures Model() == Scheduled(c, old(Model()), e, r, now)
    {
      if r.view == None {
        var due := now + c.firstPollMs;
        if nextResumeAt.Some? && nextResumeAt.value > due {
          due := nextResumeAt.value;
        }
        nextResumeAt := Some(due + c.resumeGapMs);
        Arm(e, due);
      } else {
        Arm(e, if r.record then now else now + c.firstPollMs);
      }
    }

    method ClearTimers()
      requires forall id: nat :: id in order ==> id in current && current[id] < |entries|
      modifies this`timers
      ensures forall t: nat :: t in timers <==> t in old(timers) && !Clears(entries, current, order, t)
      ensures forall t: nat :: t in timers ==> timers[t] == old(timers)[t]
    {
      hide Clears;
      assert forall t: nat :: !Clears(entries, current, order[..0], t) by {
        forall t: nat { ClearsNone(entries, current, t); }
      }
      for k := 0 to |order|
        invariant forall t: nat :: t in timers <==> t in old(timers) && !Clears(entries, current, order[..k], t)
        invariant forall t: nat :: t in timers ==> timers[t] == old(timers)[t]
      {
        var timer := entries[current[order[k]]].timer;
        assert order[..k + 1] == order[..k] + [order[k]];
        forall t: nat { ClearsMore(entries, current, order[..k], order[k], t); }
        if timer.Some? {
          timers := timers - {timer.value};
        }
      }
      assert order[..|order|] == order;
    }

    /** `stop` up to its await. */
    method StopTracking()
      requires Valid()
      modifies this
      ensures Did(Stop, old(events)) && timers == map[]
    {
      hide Exec, Inv, Clears;
      Formed();
      stopping := true;
      ClearTimers();
      assert timers == StopAsked(old(Model())).timers by { ClearsAll(entries, current, order); }
      GoesOn(c, events, old(Model()), Stop);
      events := events + [Stop];
      OneOutstanding(c, events);
    }

    /** `stop` once every attempt has ended. */
    method ClearEntries()
      requires Valid() && Enabled(Model(), Drained)
      modifies this
      ensures Did(Drained, old(events))
    {
      hide Exec, Inv;
      Formed();
      current, order := map[], [];
      GoesOn(c, events, old(Model()), Drained);
      events := events + [Drained];
    }

    /** In this object too: a tracked entry has a timer or an attempt, never both. */
    lemma Served(id: SessionId)
      requires Valid() && !stopping && id in current
      ensures HasTimer(timers, current[id]) <==> Idle(attempts, current[id])
      ensures |current| <= c.maxEntries && |drawn| <= c.maxEntries
    {
      hide Exec, HasTimer, Idle;
      ExactlyOneOutstanding(c, events, id);
      Bookkeeping(c, events);
    }
  }
}
