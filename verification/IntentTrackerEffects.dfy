/**
 What each event of the intent tracker comes to, exactly: which edit begins, what is on the message, and when
 the next poll is.
 */
module IntentTrackerEffects {
  import opened Wrappers
  import opened MapOrder
  import opened IntentTracker
  import opened IntentTrackerProofs

  // ----- statuses and keys

  /** How far a status is on its way. */
  function Rank(status: Status): nat {
    match status
    case Planned => 0
    case Reserved => 1
    case Queued => 2
    case Submitting => 3
    case Unknown => 4
    case Reconciling => 5
    case ManualReview => 6
    case Accepted => 6
    case Settled => 7
    case Rejected => 7
  }

  /** No way leads back; only a sent order can become unknown, and an accepted one only settles. The tracker
      stops at what has no way out and at an accepted order. */
  lemma StatusGraph(status: Status)
    ensures forall next <- Transitions(status) :: Rank(status) < Rank(next)
    ensures Transitions(status) == {} <==> status in {Settled, Rejected}
    ensures Unknown in Transitions(status) <==> status == Submitting
    ensures status == Accepted ==> Transitions(status) == {Settled}
    ensures StopStatus(status) <==> status in {Settled, Rejected, Accepted}
  {
    assert Reserved in Transitions(Planned) && Queued in Transitions(Reserved) && Submitting in Transitions(Queued);
    assert Reconciling in Transitions(Unknown) && Rejected in Transitions(ManualReview);
  }

  ghost predicate Path(path: seq<Status>) {
    forall i | 0 <= i < |path| - 1 :: path[i + 1] in Transitions(path[i])
  }

  /** Every status can conclude: rejected, unless the order was accepted. */
  lemma {:induction false} Concludes(status: Status) returns (path: seq<Status>)
    ensures path != [] && path[0] == status && Path(path)
    ensures path[|path| - 1] == if status in {Accepted, Settled} then Settled else Rejected
  {
    match status
    case Accepted => path := [Accepted, Settled];
    case Settled => path := [Settled];
    case Rejected => path := [Rejected];
    case Unknown => path := [Unknown, Reconciling, Rejected];
    case _ => path := [status, Rejected];
  }

  /** Two views are drawn alike exactly when they have one status, and one reason if it is a rejection; no view
      is drawn like the text of a missing intent or of the deadline. */
  lemma KeysTell(v: View, w: View)
    ensures RenderKey(v) == RenderKey(w) <==>
            v.status == w.status && (v.status == Rejected ==> v.lastError == w.lastError)
    ensures RenderKey(v) !in {NotFoundKey, DeadlineKey}
  {
  }

  // ----- what an event of an entry comes to

  predicate Late(c: Config, entry: Entry, at: int) { at - entry.startedAt >= c.deadlineMs }

  /** A read or an edit of the entry still counts: it is tracked, or a stop waits for it. */
  predicate Followed(s: State, e: EntryId) { Live(s, e) || s.stopping }

  /** The read tells something that is not on the message. */
  predicate DrawsStatus(s: State, ev: Event)
    requires Enabled(s, ev)
  {
    ev.ReadGave? && Followed(s, ev.e) && RenderKey(ev.view) != s.entries[ev.e].rendered
  }

  predicate DrawsMissing(s: State, ev: Event) {
    ev.ReadFailed? && ev.failure == NotFound && Followed(s, ev.e)
  }

  /** The event leaves the message as the last read had it, or that read's edit landed. */
  predicate UpToDate(s: State, ev: Event)
    requires Enabled(s, ev)
  {
    match ev
    case ReadGave(_, e, view) => RenderKey(view) == s.entries[e].rendered
    case EditEnded(_, e, outcome) => s.entries[e].attempt.value.kind == OfStatus && Landed(outcome)
    case _ => false
  }

  predicate StatusNow(s: State, ev: Event, stop: bool)
    requires Enabled(s, ev)
  {
    match ev
    case ReadGave(_, _, view) => StopStatus(view.status) == stop
    case EditEnded(_, e, _) => StopStatus(s.entries[e].view.status) == stop
    case _ => false
  }

  /** Nothing ends the entry: the status can still move, or it could not be read, or its edit was refused. */
  predicate GoesOn(s: State, ev: Event)
    requires Enabled(s, ev)
  {
    || (UpToDate(s, ev) && StatusNow(s, ev, false))
    || (ev.ReadFailed? && ev.failure == Failure)
    || RefusedStatus(s, ev)
  }

  predicate RefusedStatus(s: State, ev: Event)
    requires Enabled(s, ev)
  {
    ev.EditEnded? && s.entries[ev.e].attempt.value.kind == OfStatus && ev.outcome == Refused
  }

  /** The deadline's edit: at once past the deadline, but a poll later where an edit was just refused. */
  predicate DrawsLast(c: Config, s: State, ev: Event)
    requires OfEntry(ev) && Enabled(s, ev)
  {
    && Live(s, ev.e)
    && ((ev.Fire? && s.entries[ev.e].timer.value.last)
        || (GoesOn(s, ev) && Late(c, s.entries[ev.e], ev.at) && !RefusedStatus(s, ev)))
  }

  predicate PollsAgain(c: Config, s: State, ev: Event)
    requires OfEntry(ev) && Enabled(s, ev)
  {
    Live(s, ev.e) && GoesOn(s, ev) && (Late(c, s.entries[ev.e], ev.at) ==> RefusedStatus(s, ev))
  }

  predicate Reads(s: State, ev: Event)
    requires Enabled(s, ev)
  {
    ev.Fire? && !s.entries[ev.e].timer.value.last
  }

  function LastKey(view: View): Key { if StopStatus(view.status) then RenderKey(view) else DeadlineKey }

  /** The entry after its event. */
  ghost predicate Becomes(c: Config, s: State, ev: Event, y: Entry)
    requires OfEntry(ev) && Enabled(s, ev)
  {
    var x := s.entries[ev.e];
    && (y.attempt == Some(Reading) <==> Reads(s, ev))
    && (DrawsStatus(s, ev) <==> y.attempt == Some(Editing(OfStatus, RenderKey(y.view))))
    && (DrawsMissing(s, ev) <==> y.attempt == Some(Editing(OfNotFound, NotFoundKey)))
    && (DrawsLast(c, s, ev) <==> y.attempt == Some(Editing(OfEnd, LastKey(y.view))))
    && (y.attempt.Some? ==> Reads(s, ev) || DrawsStatus(s, ev) || DrawsMissing(s, ev) || DrawsLast(c, s, ev))
    && y.timer == (if PollsAgain(c, s, ev) then Some(Timer(ev.at + c.pollMs, Late(c, x, ev.at))) else None)
    && y.view == (if ev.ReadGave? && Followed(s, ev.e) then ev.view else x.view)
    && y.rendered == (if ev.EditEnded? && Landed(ev.outcome) then x.attempt.value.key else x.rendered)
    && y.id == x.id && y.startedAt == x.startedAt
  }

  /**
   In every run the event of an entry begins the edit of the status it read exactly when that is not on the
   message, the edit of a missing intent exactly for a missing one, and the deadline's exactly when it is due;
   what is on the message changes exactly as edits land; and the entry is polled again, pollMs later, exactly
   when nothing ended it.
   */
  lemma EventComesTo(c: Config, states: seq<State>, events: seq<Event>, i: nat)
    requires StepOf(c, states, events, i) && OfEntry(events[i])
    ensures var s, t, e := states[i], states[i + 1], events[i].e;
      && e < |s.entries| == |t.entries|
      && Becomes(c, s, events[i], t.entries[e])
      && t.entries == s.entries[e := t.entries[e]] && t.stopping == s.stopping
  {
    hide Becomes, Exec, Inv, EntryOk, Step, Continues, Enabled;
    StepIs(c, states, events, i);
    var s, ev := states[i], events[i];
    EntryStepContinues(c, s, ev);
    EntryIs(c, s, ev.e, ev);
    ContinuesIs(c, s.(now := ev.at), states[i + 1], ev.e);
    ComesTo(c, s, ev);
  }

  lemma StepIs(c: Config, states: seq<State>, events: seq<Event>, i: nat)
    requires StepOf(c, states, events, i)
    ensures i + 1 < |states| && Inv(c, states[i]) && Enabled(states[i], events[i])
    ensures states[i + 1] == Step(c, states[i], events[i])
  {
    ExecKeeps(c, states, events, i);
  }

  lemma ContinuesIs(c: Config, s: State, t: State, e: EntryId)
    requires Continues(c, s, t, e)
    ensures |t.entries| == |s.entries| && e < |s.entries| && t.stopping == s.stopping
    ensures t.entries == s.entries[e := t.entries[e]]
  {
  }

  lemma EntryIs(c: Config, s: State, e: EntryId, ev: Event)
    requires Inv(c, s) && OfEntry(ev) && Enabled(s, ev) && e == ev.e
    ensures e < |s.entries| && EntryOk(c, s.entries[e], e in s.order, s.stopping, s.now)
  {
  }

  lemma ComesTo(c: Config, s: State, ev: Event)
    requires OfEntry(ev) && Enabled(s, ev) && EntryOk(c, s.entries[ev.e], ev.e in s.order, s.stopping, s.now)
    requires ev.e < |Step(c, s, ev).entries|
    ensures Becomes(c, s, ev, Step(c, s, ev).entries[ev.e])
  {
    hide Paced, Transitions, Removed;
    match ev
    case Fire(_, _) => FireComesTo(c, s, ev);
    case ReadGave(_, _, _) => ReadComesTo(c, s, ev);
    case ReadFailed(_, _, _) => ReadFailureComesTo(c, s, ev);
    case EditEnded(_, _, _) => EditComesTo(c, s, ev);
  }

  lemma FireComesTo(c: Config, s: State, ev: Event)
    requires ev.Fire? && Enabled(s, ev) && Outstanding(s.entries[ev.e], ev.e in s.order, s.stopping)
    ensures Becomes(c, s, ev, Fired(s.(now := ev.at), ev.e).entries[ev.e])
  {
    hide StopStatus;
    KeysTell(s.entries[ev.e].view, s.entries[ev.e].view);
  }

  lemma ReadComesTo(c: Config, s: State, ev: Event)
    requires ev.ReadGave? && Enabled(s, ev) && Outstanding(s.entries[ev.e], ev.e in s.order, s.stopping)
    ensures Becomes(c, s, ev, AfterRead(c, s.(now := ev.at), ev.e, ev.view).entries[ev.e])
  {
    hide StopStatus, RenderKey, Removed;
  }

  lemma ReadFailureComesTo(c: Config, s: State, ev: Event)
    requires ev.ReadFailed? && Enabled(s, ev) && Outstanding(s.entries[ev.e], ev.e in s.order, s.stopping)
    ensures Becomes(c, s, ev, AfterReadFailure(c, s.(now := ev.at), ev.e, ev.failure).entries[ev.e])
  {
    hide StopStatus, RenderKey, Removed;
  }

  lemma EditComesTo(c: Config, s: State, ev: Event)
    requires ev.EditEnded? && Enabled(s, ev) && Outstanding(s.entries[ev.e], ev.e in s.order, s.stopping)
    requires StageOk(c, s.entries[ev.e], s.now)
    ensures Becomes(c, s, ev, AfterEdit(c, s.(now := ev.at), ev.e, ev.outcome).entries[ev.e])
  {
    hide StopStatus, RenderKey, Removed;
  }

  // ----- what a message handed over, and a stop, come to

  lemma RemovedFirst(order: seq<EntryId>)
    requires NoRepeats(order) && order != []
    ensures Removed(order, order[0]) == order[1..]
  {
    assert order[0] !in order[1..];
    RemovedSize(order[1..], order[0]) by { assert NoRepeats(order[1..]); }
  }

  /** The intent is tracked already, by an entry of this map. */
  ghost predicate Known(s: State, id: nat) {
    exists i | 0 <= i < |s.order| :: s.order[i] < |s.entries| && s.entries[s.order[i]].id == id
  }

  /** The map after a new entry: last, the first one gone if there was no room. */
  function OrderWith(c: Config, order: seq<EntryId>, n: EntryId): seq<EntryId> {
    (if |order| >= c.maxEntries && order != [] then order[1..] else order) + [n]
  }

  /**
   In every run a message handed over is followed exactly if its intent is not and the tracker is open: by one
   new entry, first read after firstPollMs, the oldest going for it when there is no room. No other entry
   changes, but that the one that went has no timer.
   */
  lemma TrackComesTo(c: Config, states: seq<State>, events: seq<Event>, i: nat)
    requires StepOf(c, states, events, i) && events[i].Track?
    ensures var s, t, ev, n := states[i], states[i + 1], events[i], |states[i].entries|;
      if s.stopping || Known(s, ev.id) then t == s.(now := ev.at)
      else
        && t.order == OrderWith(c, s.order, n) && t.stopping == s.stopping && |t.entries| == n + 1
        && t.entries[n] == Entry(ev.id, ev.at, ev.view, RenderKey(ev.view),
                                 Some(Timer(ev.at + c.firstPollMs, false)), None, 1)
        && forall e: nat :: e < n ==>
             t.entries[e] == if e in s.order && e !in t.order then s.entries[e].(timer := None) else s.entries[e]
  {
    hide Exec, EntriesOk, Enabled, RenderKey;
    StepIs(c, states, events, i);
    var s, ev := states[i].(now := events[i].at), events[i];
    assert Tracks(s, ev.id) <==> Known(states[i], ev.id) by {
      if Tracks(s, ev.id) {
        var e :| e in s.order && e < |s.entries| && s.entries[e].id == ev.id;
        var k :| 0 <= k < |s.order| && s.order[k] == e;
      }
    }
    if s.order != [] { RemovedFirst(s.order); }
    hide NoRepeats, Removed;
    TrackedIs(c, s, ev.id, ev.view);
  }

  lemma TrackedIs(c: Config, s: State, id: nat, view: View)
    requires !s.stopping && !Tracks(s, id) ==> OrderOk(c, s.entries, s.order)
    requires s.order != [] ==> Removed(s.order, s.order[0]) == s.order[1..]
    ensures var t, n := Tracked(c, s, id, view), |s.entries|;
      if s.stopping || Tracks(s, id) then t == s
      else
        && t.order == OrderWith(c, s.order, n) && t.stopping == s.stopping && |t.entries| == n + 1
        && t.entries[n] == Entry(id, s.now, view, RenderKey(view),
                                 Some(Timer(s.now + c.firstPollMs, false)), None, 1)
        && forall e: nat :: e < n ==>
             t.entries[e] == if e in s.order && e !in t.order then s.entries[e].(timer := None) else s.entries[e]
  {
    hide RenderKey, Removed;
  }

  /** A stop clears every timer and leaves the rest; once drained the map is empty. */
  lemma StopComesTo(c: Config, states: seq<State>, events: seq<Event>, i: nat)
    requires StepOf(c, states, events, i) && (events[i].StopCalled? || events[i].Drained?)
    ensures var s, t := states[i], states[i + 1];
      && |t.entries| == |s.entries| && t.stopping
      && (forall e: nat :: e < |s.entries| ==> t.entries[e] == s.entries[e].(timer := None))
      && t.order == if events[i].StopCalled? then s.order else []
  {
    hide Exec, Paced, StageOk, OrderOk;
    StepIs(c, states, events, i);
    var s := states[i];
    forall e: nat | e < |s.entries| ensures states[i + 1].entries[e] == s.entries[e].(timer := None) {
      assert EntryOk(c, s.entries[e], e in s.order, s.stopping, s.now);
    }
  }

  // ----- the message follows the reads

  /** No edit of the entry is under way: its message shows what was read last. */
  ghost predicate Shown(s: State) {
    forall e :: e in s.order && e < |s.entries|
                && (s.entries[e].attempt.Some? ==> s.entries[e].attempt.value == Reading)
      ==> s.entries[e].rendered == RenderKey(s.entries[e].view)
  }

  lemma ShownKeeps(c: Config, states: seq<State>, events: seq<Event>, i: nat)
    requires StepOf(c, states, events, i) && Shown(states[i])
    requires events[i].EditEnded? ==> Landed(events[i].outcome)
    ensures i + 1 < |states| && Shown(states[i + 1])
  {
    hide Exec, Inv, EntryOk, RenderKey, StopStatus, Becomes, Step;
    StepIs(c, states, events, i);
    var s, t, ev := states[i], states[i + 1], events[i];
    if OfEntry(ev) {
      hide Shown, Enabled;
      EventComesTo(c, states, events, i);
      EntryIs(c, s, ev.e, ev);
      OneShown(c, s, t, ev);
    } else if ev.Track? {
      TrackComesTo(c, states, events, i);
    } else {
      StopComesTo(c, states, events, i);
    }
  }

  lemma OneShown(c: Config, s: State, t: State, ev: Event)
    requires OfEntry(ev) && Enabled(s, ev) && Shown(s) && (ev.EditEnded? ==> Landed(ev.outcome))
    requires EntryOk(c, s.entries[ev.e], ev.e in s.order, s.stopping, s.now)
    requires |t.entries| == |s.entries| && t.entries == s.entries[ev.e := t.entries[ev.e]]
    requires Becomes(c, s, ev, t.entries[ev.e]) && t == Step(c, s, ev)
    ensures Shown(t)
  {
    hide RenderKey, StopStatus, Paced;
    EndsOnly(c, s, ev);
    hide Step;
  }

  lemma NothingShown(s: State)
    requires s.order == []
    ensures Shown(s)
  {
  }

  lemma EndsOnly(c: Config, s: State, ev: Event)
    requires OfEntry(ev) && Enabled(s, ev) && EntryOk(c, s.entries[ev.e], ev.e in s.order, s.stopping, s.now)
    ensures var t := Step(c, s, ev);
      && (forall e :: e in t.order ==> e in s.order)
      && (ev.e in t.order ==> !Ends(c, s, ev, ev.e))
  {
    if ev.e in s.order { EndsIff(c, s, ev, ev.e); }
    hide RenderKey, StopStatus, Paced, Ends;
  }

  /**
   As long as every edit lands, whenever no edit of a tracked entry is under way its message shows what was
   read of the intent last.
   */
  lemma {:induction false} MessageFollows(c: Config, states: seq<State>, events: seq<Event>, i: nat)
    requires c.Valid() && Exec(c, states, events) && i < |states|
    requires forall k | 0 <= k < i && events[k].EditEnded? :: Landed(events[k].outcome)
    ensures Shown(states[i])
  {
    hide Shown;
    if i == 0 {
      NothingShown(states[0]);
    } else {
      MessageFollows(c, states, events, i - 1);
      ShownKeeps(c, states, events, i - 1);
    }
  }
}
