/** What every run of the intent tracker keeps, when an entry ends, and why none goes on for ever. */
module IntentTrackerProofs {
  import opened Wrappers
  import opened MapOrder
  import opened IntentTracker

  // ----- the invariant

  /** The least time from an entry's start to its k-th poll after the first. */
  ghost function Floor(c: Config, k: int): int { c.firstPollMs + k * c.pollMs }

  lemma FloorStep(c: Config, k: int)
    ensures Floor(c, k + 1) == Floor(c, k) + c.pollMs
  {
  }

  /** The entry is at its last edit, or waits for it. */
  ghost predicate AtTheEnd(entry: Entry) {
    || (entry.timer.Some? && entry.timer.value.last)
    || (entry.attempt.Some? && entry.attempt.value.Editing? && entry.attempt.value.kind == OfEnd)
  }

  ghost predicate Paced(c: Config, entry: Entry, now: int) {
    && entry.startedAt <= now && entry.steps >= 1
    && (entry.timer.Some? ==> entry.timer.value.due >= entry.startedAt + Floor(c, entry.steps - 1))
    && (entry.attempt.Some? ==> now >= entry.startedAt + Floor(c, entry.steps - 1))
    && (entry.steps >= 3 ==> Floor(c, entry.steps - 3) < c.deadlineMs)
    && ((entry.timer.Some? || entry.attempt.Some?) && !AtTheEnd(entry) && entry.steps >= 2 ==>
          Floor(c, entry.steps - 2) < c.deadlineMs)
  }

  ghost predicate StageOk(c: Config, entry: Entry, now: int) {
    && (AtTheEnd(entry) ==> now - entry.startedAt >= c.deadlineMs)
    && match entry.attempt
       case None => true
       case Some(Reading) => true
       case Some(Editing(OfStatus, key)) => key == RenderKey(entry.view) && key != entry.rendered
       case Some(Editing(OfNotFound, key)) => key == NotFoundKey
       case Some(Editing(OfEnd, key)) =>
         key == if StopStatus(entry.view.status) then RenderKey(entry.view) else DeadlineKey
  }

  /** One thing at a time, and always one while the entry is tracked. */
  ghost predicate Outstanding(entry: Entry, current: bool, stopping: bool) {
    && (entry.timer.None? || entry.attempt.None?)
    && (!current || stopping ==> entry.timer.None?)
    && (current && !stopping ==> entry.timer.Some? || entry.attempt.Some?)
  }

  ghost predicate EntryOk(c: Config, entry: Entry, current: bool, stopping: bool, now: int) {
    Paced(c, entry, now) && StageOk(c, entry, now) && Outstanding(entry, current, stopping)
  }

  ghost predicate EntriesOk(c: Config, s: State) {
    forall e: nat :: e < |s.entries| ==> EntryOk(c, s.entries[e], e in s.order, s.stopping, s.now)
  }

  /** The map: one entry per intent, no more than there is room for. */
  ghost predicate OrderOk(c: Config, entries: seq<Entry>, order: seq<EntryId>) {
    && (forall i :: 0 <= i < |order| ==> order[i] < |entries|)
    && NoRepeats(order)
    && (forall d, e | d in order && e in order && d < |entries| && e < |entries| && d != e ::
          entries[d].id != entries[e].id)
    && |order| <= if c.maxEntries >= 1 then c.maxEntries else 1
  }

  ghost predicate Inv(c: Config, s: State) {
    EntriesOk(c, s) && OrderOk(c, s.entries, s.order)
  }

  // ----- one entry changes

  lemma OrderKept(c: Config, entries: seq<Entry>, order: seq<EntryId>, e: EntryId, x: Entry)
    requires OrderOk(c, entries, order) && e < |entries| && x.id == entries[e].id
    ensures OrderOk(c, entries[e := x], order) && OrderOk(c, entries[e := x], Removed(order, e))
  {
    RemovedNoRepeats(order, e);
    RemovedSize(order, e);
    hide NoRepeats;
    var rest := Removed(order, e);
    assert forall i :: 0 <= i < |rest| ==> rest[i] in rest;
    assert forall d :: d in order ==> d < |entries|;
  }

  /** An entry's own step keeps all when it leaves that entry in order. */
  lemma OneChanged(c: Config, s: State, t: State, e: EntryId)
    requires Inv(c, s) && e < |s.entries| && |t.entries| == |s.entries| && t.stopping == s.stopping && t.now == s.now
    requires t.entries == s.entries[e := t.entries[e]] && t.entries[e].id == s.entries[e].id
    requires t.order == s.order || t.order == Removed(s.order, e)
    requires EntryOk(c, t.entries[e], e in t.order, t.stopping, t.now)
    ensures Inv(c, t)
  {
    hide EntryOk;
    OrderKept(c, s.entries, s.order, e, t.entries[e]);
    forall d: nat | d < |t.entries| ensures EntryOk(c, t.entries[d], d in t.order, t.stopping, t.now) {
      if d != e {
        assert t.entries[d] == s.entries[d] && (d in t.order <==> d in s.order);
      }
    }
  }

  lemma TickKeeps(c: Config, s: State, at: int)
    requires Inv(c, s) && s.now <= at
    ensures Inv(c, s.(now := at))
  {
  }

  // ----- each step keeps the invariant

  /** What a step of an entry's attempt leaves: nothing outstanding, a timer, or the next edit. */
  ghost predicate Continues(c: Config, s: State, t: State, e: EntryId) {
    && e < |s.entries| && |t.entries| == |s.entries| && t.stopping == s.stopping && t.now == s.now
    && t.entries == s.entries[e := t.entries[e]] && t.entries[e].id == s.entries[e].id
    && (t.order == s.order || t.order == Removed(s.order, e))
    && EntryOk(c, t.entries[e], e in t.order, t.stopping, t.now)
  }

  /** In the middle of an attempt that is not the last edit's. */
  ghost predicate Underway(c: Config, s: State, e: EntryId) {
    && e < |s.entries| && s.entries[e].timer.None? && s.entries[e].attempt.Some?
    && Paced(c, s.entries[e], s.now) && !AtTheEnd(s.entries[e])
  }

  lemma NextContinues(c: Config, s: State, e: EntryId, failed: bool)
    requires c.Valid() && Underway(c, s, e)
    ensures Continues(c, s, Next(c, s, e, failed), e)
  {
    var entry := s.entries[e];
    FloorStep(c, entry.steps - 1);
    FloorStep(c, entry.steps - 2);
    FloorStep(c, entry.steps - 3);
    hide Floor, StopStatus, RenderKey;
  }

  lemma FinishContinues(c: Config, s: State, e: EntryId)
    requires e < |s.entries| && s.entries[e].timer.None? && s.entries[e].attempt.Some? && Paced(c, s.entries[e], s.now)
    ensures Continues(c, s, Finished(Over(s, e), e), e)
  {
    hide Floor;
    assert s.entries[e := s.entries[e].(attempt := None)][e := s.entries[e].(attempt := None)]
        == s.entries[e := s.entries[e].(attempt := None)];
  }

  lemma JudgedContinues(c: Config, s: State, e: EntryId, edited: bool)
    requires c.Valid() && Underway(c, s, e)
    ensures Continues(c, s, Judged(c, s, e, edited), e)
  {
    hide StopStatus, RenderKey, Continues, Next, Finished, Over;
    FinishContinues(c, s, e);
    NextContinues(c, s, e, edited && s.entries[e].rendered != RenderKey(s.entries[e].view));
  }

  lemma ContinuesVia(c: Config, s: State, m: State, t: State, e: EntryId)
    requires e < |s.entries| && |m.entries| == |s.entries| && m == With(s, e, m.entries[e])
    requires m.entries[e].id == s.entries[e].id && Continues(c, m, t, e)
    ensures Continues(c, s, t, e)
  {
  }

  lemma ReadContinues(c: Config, s: State, e: EntryId, view: View)
    requires c.Valid() && Underway(c, s, e) && s.entries[e].attempt == Some(Reading)
    ensures Continues(c, s, AfterRead(c, s, e, view), e)
  {
    hide StopStatus, RenderKey, Floor, Judged;
    if Live(s, e) || s.stopping {
      var seen := With(s, e, s.entries[e].(view := view));
      JudgedContinues(c, seen, e, false);
      if RenderKey(view) == s.entries[e].rendered {
        ContinuesVia(c, s, seen, Judged(c, seen, e, false), e);
      }
    }
  }

  lemma ReadFailureContinues(c: Config, s: State, e: EntryId, failure: ReadFailure)
    requires c.Valid() && Underway(c, s, e) && s.entries[e].attempt == Some(Reading)
    ensures Continues(c, s, AfterReadFailure(c, s, e, failure), e)
  {
    hide StopStatus, RenderKey, Floor, Next, Finished, Over;
    FinishContinues(c, s, e);
    NextContinues(c, s, e, false);
  }

  lemma EditContinues(c: Config, s: State, e: EntryId, outcome: EditOutcome)
    requires c.Valid() && e < |s.entries| && s.entries[e].timer.None? && Paced(c, s.entries[e], s.now)
    requires s.entries[e].attempt.Some? && s.entries[e].attempt.value.Editing?
    ensures Continues(c, s, AfterEdit(c, s, e, outcome), e)
  {
    hide StopStatus, RenderKey, Floor, Judged, Continues, Finished;
    var Editing(kind, key) := s.entries[e].attempt.value;
    var landed := outcome == Done || outcome == AlreadyShown;
    var seen := if landed then With(s, e, s.entries[e].(rendered := key)) else s;
    assert seen == With(s, e, seen.entries[e]);
    if outcome == Gone || outcome == Broken || kind != OfStatus {
      FinishContinues(c, seen, e);
      ContinuesVia(c, s, seen, Finished(Over(seen, e), e), e);
    } else {
      JudgedContinues(c, seen, e, true);
      ContinuesVia(c, s, seen, Judged(c, seen, e, true), e);
    }
  }

  lemma FireContinues(c: Config, s: State, e: EntryId)
    requires c.Valid() && e < |s.entries| && EntryOk(c, s.entries[e], e in s.order, s.stopping, s.now)
    requires s.entries[e].timer.Some? && s.entries[e].timer.value.due <= s.now
    ensures Continues(c, s, Fired(s, e), e)
  {
    hide StopStatus, RenderKey, Floor;
  }

  lemma EvictedKeeps(c: Config, s: State)
    requires Inv(c, s)
    ensures Inv(c, Evicted(c, s)) && Evicted(c, s).stopping == s.stopping && Evicted(c, s).now == s.now
    ensures c.maxEntries >= 1 ==> |Evicted(c, s).order| < c.maxEntries
    ensures c.maxEntries == 0 ==> Evicted(c, s).order == []
    ensures forall e :: e in Evicted(c, s).order ==> e in s.order && Evicted(c, s).entries[e].id == s.entries[e].id
  {
    RemovedSize(s.order, if s.order == [] then 0 else s.order[0]);
    if |s.order| >= c.maxEntries && s.order != [] {
      assert s.order[0] < |s.entries|;
      OneChanged(c, s, Evicted(c, s), s.order[0]) by { hide Floor, RenderKey, StopStatus; }
    }
  }

  lemma OrderGrows(c: Config, entries: seq<Entry>, order: seq<EntryId>, x: Entry)
    requires OrderOk(c, entries, order)
    requires c.maxEntries >= 1 ==> |order| < c.maxEntries
    requires c.maxEntries == 0 ==> order == []
    requires forall d :: d in order && d < |entries| ==> entries[d].id != x.id
    ensures OrderOk(c, entries + [x], order + [|entries|])
  {
    NoRepeatsCons(|entries|, order);
    hide NoRepeats;
    var more := order + [|entries|];
    assert forall d :: d in order ==> d < |entries|;
    assert forall d :: d in more <==> d in order || d == |entries|;
  }

  lemma FreshOk(c: Config, id: nat, now: int, view: View)
    requires c.Valid()
    ensures var timer := Timer(now + c.firstPollMs, false);
      EntryOk(c, Entry(id, now, view, RenderKey(view), Some(timer), None, 1), true, false, now)
  {
    hide RenderKey, StopStatus;
  }

  lemma TrackKeeps(c: Config, s: State, id: nat, view: View)
    requires c.Valid() && Inv(c, s)
    ensures Inv(c, Tracked(c, s, id, view))
  {
    if !s.stopping && !Tracks(s, id) {
      hide RenderKey, StopStatus, Evicted, EntryOk;
      EvictedKeeps(c, s);
      var room := Evicted(c, s);
      var t := Tracked(c, s, id, view);
      var n := |room.entries|;
      assert forall d :: d in room.order ==> d < n && room.entries[d].id != id;
      OrderGrows(c, room.entries, room.order, t.entries[n]);
      hide OrderOk;
      assert t.order == room.order + [n] && t.entries == room.entries + [t.entries[n]];
      FreshOk(c, id, s.now, view);
      forall d: nat | d < |t.entries| ensures EntryOk(c, t.entries[d], d in t.order, t.stopping, t.now) {
        if d != n { assert d in t.order <==> d in room.order; }
      }
    }
  }

  lemma StopKeeps(c: Config, s: State)
    requires Inv(c, s)
    ensures Inv(c, Stopped(s))
  {
    hide Floor, RenderKey, StopStatus;
    var t := Stopped(s);
    forall d: nat | d < |t.entries| ensures EntryOk(c, t.entries[d], d in t.order, t.stopping, t.now) {
      assert EntryOk(c, s.entries[d], d in s.order, s.stopping, s.now);
    }
    assert forall d :: d in s.order ==> d < |s.entries| && t.entries[d].id == s.entries[d].id;
  }

  lemma DrainKeeps(c: Config, s: State)
    requires Inv(c, s) && s.stopping
    ensures Inv(c, s.(order := []))
  {
    hide Floor, RenderKey, StopStatus;
    var t := s.(order := []);
    forall d: nat | d < |t.entries| ensures EntryOk(c, t.entries[d], d in t.order, t.stopping, t.now) {
      assert EntryOk(c, s.entries[d], d in s.order, s.stopping, s.now);
    }
  }

  /** The entry an event is about. */
  predicate OfEntry(ev: Event) { ev.Fire? || ev.ReadGave? || ev.ReadFailed? || ev.EditEnded? }

  lemma EntryStepContinues(c: Config, was: State, ev: Event)
    requires c.Valid() && Inv(c, was) && Enabled(was, ev) && OfEntry(ev)
    ensures Inv(c, was.(now := ev.at)) && Continues(c, was.(now := ev.at), Step(c, was, ev), ev.e)
  {
    var s := was.(now := ev.at);
    TickKeeps(c, was, ev.at);
    assert EntryOk(c, s.entries[ev.e], ev.e in s.order, s.stopping, s.now);
    hide EntriesOk, OrderOk, Continues, Fired, AfterRead, AfterReadFailure, AfterEdit, Floor;
    match ev
    case Fire(_, e) => FireContinues(c, s, e);
    case ReadGave(_, e, view) => ReadContinues(c, s, e, view);
    case ReadFailed(_, e, failure) => ReadFailureContinues(c, s, e, failure);
    case EditEnded(_, e, outcome) => EditContinues(c, s, e, outcome);
  }

  lemma StepKeeps(c: Config, was: State, ev: Event)
    requires c.Valid() && Inv(c, was) && Enabled(was, ev)
    ensures Inv(c, Step(c, was, ev))
  {
    var s := was.(now := ev.at);
    hide EntriesOk, OrderOk, Tracked, Stopped, EntryOk;
    if OfEntry(ev) {
      EntryStepContinues(c, was, ev);
      hide Fired, AfterRead, AfterReadFailure, AfterEdit;
      OneChanged(c, s, Step(c, was, ev), ev.e);
    } else {
      TickKeeps(c, was, ev.at);
      match ev
      case Track(_, id, view) => TrackKeeps(c, s, id, view);
      case StopCalled(_) => StopKeeps(c, s);
      case Drained(_) => DrainKeeps(c, s);
      case _ =>
    }
  }

  lemma {:induction false} ExecKeeps(c: Config, states: seq<State>, events: seq<Event>, i: nat)
    requires c.Valid() && Exec(c, states, events) && i < |states|
    ensures Inv(c, states[i])
  {
    if i > 0 {
      ExecKeeps(c, states, events, i - 1);
      StepKeeps(c, states[i - 1], events[i - 1]);
    }
  }

  // ----- when an entry ends

  predicate Landed(outcome: EditOutcome) { outcome == Done || outcome == AlreadyShown }

  /** Why the event takes a tracked entry off. */
  ghost predicate Ends(c: Config, s: State, ev: Event, e: EntryId)
    requires Enabled(s, ev) && e < |s.entries|
  {
    match ev
    case Track(_, id, _) =>
      !s.stopping && !Tracks(s, id) && |s.order| >= c.maxEntries && s.order != [] && e == s.order[0]
    case Fire(_, _) => false
    case ReadGave(_, d, view) => d == e && StopStatus(view.status) && s.entries[e].rendered == RenderKey(view)
    case ReadFailed(_, d, failure) => d == e && failure == Thrown
    case EditEnded(_, d, outcome) =>
      d == e && (s.entries[e].attempt.value.kind != OfStatus || outcome == Gone || outcome == Broken
                 || (StopStatus(s.entries[e].view.status) && Landed(outcome)))
    case StopCalled(_) => false
    case Drained(_) => true
  }

  /** The i-th step of a run, in a state every run keeps. */
  ghost predicate StepOf(c: Config, states: seq<State>, events: seq<Event>, i: nat) {
    c.Valid() && Exec(c, states, events) && i < |events|
  }

  /**
   In every run a tracked entry ends exactly for room, at a drained stop, with a stop status on its
   message, with its message gone, by something thrown, or by the one edit of a missing intent or of the
   deadline.
   */
  lemma EndsExactly(c: Config, states: seq<State>, events: seq<Event>, i: nat, e: EntryId)
    requires StepOf(c, states, events, i) && e in states[i].order
    ensures e < |states[i].entries| && (e !in states[i + 1].order <==> Ends(c, states[i], events[i], e))
  {
    hide RenderKey, StopStatus, Floor;
    ExecKeeps(c, states, events, i);
    var s, ev := states[i], events[i];
    assert states[i + 1] == Step(c, s, ev);
    hide Exec;
    assert EntryOk(c, s.entries[e], true, s.stopping, s.now);
    hide Inv;
    EndsIff(c, s, ev, e);
  }

  lemma EndsIff(c: Config, s: State, ev: Event, e: EntryId)
    requires Enabled(s, ev) && e in s.order && e < |s.entries| && EntryOk(c, s.entries[e], true, s.stopping, s.now)
    ensures e !in Step(c, s, ev).order <==> Ends(c, s, ev, e)
  {
    hide RenderKey, StopStatus, Floor, Paced;
    if ev.Track? {
      assert Tracks(s.(now := ev.at), ev.id) <==> Tracks(s, ev.id);
    }
  }

  /** The last edit is the deadline's: a stop status whose edit did not land ends its entry no earlier. */
  lemma LastEditIsLate(c: Config, states: seq<State>, events: seq<Event>, i: nat, e: EntryId)
    requires c.Valid() && Exec(c, states, events) && i < |states|
    requires e < |states[i].entries| && AtTheEnd(states[i].entries[e])
    ensures states[i].now - states[i].entries[e].startedAt >= c.deadlineMs
  {
    ExecKeeps(c, states, events, i);
    assert EntryOk(c, states[i].entries[e], e in states[i].order, states[i].stopping, states[i].now);
  }

  /** An attempt whose edit did not land makes no second one. */
  lemma FailedEditIsLast(c: Config, states: seq<State>, events: seq<Event>, i: nat)
    requires StepOf(c, states, events, i) && events[i].EditEnded? && !Landed(events[i].outcome)
    ensures events[i].e < |states[i + 1].entries| && states[i + 1].entries[events[i].e].attempt == None
  {
    ExecKeeps(c, states, events, i);
    var s, ev := states[i], events[i];
    assert states[i + 1] == Step(c, s, ev);
    assert EntryOk(c, s.entries[ev.e], ev.e in s.order, s.stopping, s.now);
    hide Floor, StopStatus, Exec;
  }

  /**
   An edit begins only while the entry is tracked, or in an attempt a stop waits for; a status is drawn only
   when it is news.
   */
  lemma EditsBegin(c: Config, states: seq<State>, events: seq<Event>, i: nat)
    requires StepOf(c, states, events, i) && OfEntry(events[i])
    ensures var s, e := states[i], events[i].e;
      && e < |s.entries| && e < |states[i + 1].entries|
      && var x, y := s.entries[e], states[i + 1].entries[e];
        y.attempt.Some? && y.attempt.value.Editing? ==>
          && (Live(s, e) || (s.stopping && x.attempt == Some(Reading)))
          && (y.attempt.value.kind == OfStatus ==> y.attempt.value.key == RenderKey(y.view) != x.rendered)
  {
    hide Floor, StopStatus, RenderKey, OrderOk, Paced, NoRepeats, Removed;
    ExecKeeps(c, states, events, i);
    var s, ev := states[i], events[i];
    assert states[i + 1] == Step(c, s, ev);
    assert EntryOk(c, s.entries[ev.e], ev.e in s.order, s.stopping, s.now);
    hide Exec;
  }

  // ----- why none goes on for ever

  /** What an entry has outstanding, by how much of a round is left. */
  function Left(entry: Entry): nat {
    match entry.attempt
    case Some(Reading) => 3
    case Some(Editing(OfEnd, _)) => 1
    case Some(Editing(_, _)) => 2
    case None => if entry.timer.Some? then 4 else 0
  }

  /** How far an entry has come: four events a timer. */
  function Progress(entry: Entry): int { 4 * entry.steps - Left(entry) }

  /**
   An event of an entry takes it further, and no event takes any entry back or gives a finished one anything
   to do.
   */
  lemma StepProgresses(c: Config, s: State, ev: Event, e: EntryId)
    requires c.Valid() && Inv(c, s) && Enabled(s, ev) && e < |s.entries|
    ensures var t := Step(c, s, ev);
      && |t.entries| >= |s.entries|
      && Progress(t.entries[e]) >= Progress(s.entries[e]) + (if OfEntry(ev) && ev.e == e then 1 else 0)
      && (AtTheEnd(s.entries[e]) || Left(s.entries[e]) == 0 ==>
            t.entries[e].steps == s.entries[e].steps && (AtTheEnd(t.entries[e]) || Left(t.entries[e]) == 0))
  {
    if OfEntry(ev) {
      EntryStepContinues(c, s, ev);
      OwnStepProgresses(c, s, ev);
      hide Step, Progress, AtTheEnd, Left, Inv, EntryOk, Enabled;
    } else if ev.Track? {
      TrackLeaves(c, s.(now := ev.at), ev.id, ev.view, e);
      assert EntryOk(c, s.entries[e], e in s.order, s.stopping, s.now);
      hide Floor, Tracked, StopStatus, RenderKey;
    } else {
      assert EntryOk(c, s.entries[e], e in s.order, s.stopping, s.now);
      hide Floor, StopStatus, RenderKey, Removed;
    }
  }

  lemma OwnStepProgresses(c: Config, s: State, ev: Event)
    requires Inv(c, s) && Enabled(s, ev) && OfEntry(ev)
    ensures var x, y := s.entries[ev.e], Step(c, s, ev).entries[ev.e];
      && Progress(y) > Progress(x)
      && (AtTheEnd(x) ==> y.steps == x.steps && (AtTheEnd(y) || Left(y) == 0))
      && Left(x) > 0
  {
    hide Floor, StopStatus, RenderKey, Removed, OrderOk, AfterRead, AfterReadFailure, AfterEdit, Fired;
    assert EntryOk(c, s.entries[ev.e], ev.e in s.order, s.stopping, s.now);
    hide EntriesOk, Inv;
    match ev
    case Fire(at, e) => FireProgresses(s.(now := at), e);
    case ReadGave(at, e, view) => ReadProgresses(c, s.(now := at), e, view);
    case ReadFailed(at, e, failure) => ReadFailureProgresses(c, s.(now := at), e, failure);
    case EditEnded(at, e, outcome) => EditProgresses(c, s.(now := at), e, outcome);
  }

  lemma FireProgresses(s: State, e: EntryId)
    requires e < |s.entries| && s.entries[e].timer.Some? && s.entries[e].attempt.None?
    ensures var x, y := s.entries[e], Fired(s, e).entries[e];
      && Progress(y) > Progress(x)
      && (AtTheEnd(x) ==> y.steps == x.steps && (AtTheEnd(y) || Left(y) == 0))
  {
    hide StopStatus, RenderKey;
  }

  lemma ReadProgresses(c: Config, s: State, e: EntryId, view: View)
    requires e < |s.entries| && s.entries[e].timer.None? && s.entries[e].attempt == Some(Reading)
    ensures Progress(AfterRead(c, s, e, view).entries[e]) > Progress(s.entries[e])
  {
    hide StopStatus, RenderKey, Removed;
  }

  lemma ReadFailureProgresses(c: Config, s: State, e: EntryId, failure: ReadFailure)
    requires e < |s.entries| && s.entries[e].timer.None? && s.entries[e].attempt == Some(Reading)
    ensures Progress(AfterReadFailure(c, s, e, failure).entries[e]) > Progress(s.entries[e])
  {
    hide StopStatus, RenderKey, Removed;
  }

  lemma EditProgresses(c: Config, s: State, e: EntryId, outcome: EditOutcome)
    requires e < |s.entries| && s.entries[e].timer.None? && s.entries[e].attempt.Some?
    requires s.entries[e].attempt.value.Editing?
    ensures var x, y := s.entries[e], AfterEdit(c, s, e, outcome).entries[e];
      && Progress(y) > Progress(x)
      && (AtTheEnd(x) ==> y.steps == x.steps && (AtTheEnd(y) || Left(y) == 0))
  {
    hide StopStatus, RenderKey, Removed;
  }

  lemma TrackLeaves(c: Config, s: State, id: nat, view: View, e: EntryId)
    requires e < |s.entries|
    ensures var t := Tracked(c, s, id, view);
      |t.entries| >= |s.entries| && (t.entries[e] == s.entries[e] || t.entries[e] == s.entries[e].(timer := None))
  {
    hide RenderKey;
  }

  /** The events of one entry among the first n. */
  function EventsOf(events: seq<Event>, e: EntryId, n: nat): nat
    requires n <= |events|
  {
    if n == 0 then 0 else EventsOf(events, e, n - 1) + if OfEntry(events[n - 1]) && events[n - 1].e == e then 1 else 0
  }

  lemma NewEntry(c: Config, s: State, ev: Event, e: EntryId)
    requires Inv(c, s) && Enabled(s, ev) && |s.entries| <= e < |Step(c, s, ev).entries|
    ensures ev.Track? && Progress(Step(c, s, ev).entries[e]) == 0
  {
    hide RenderKey, StopStatus;
  }

  lemma {:induction false} EventsBounded(c: Config, states: seq<State>, events: seq<Event>, e: EntryId, n: nat)
    requires c.Valid() && Exec(c, states, events) && n < |states|
    ensures if e < |states[n].entries| then EventsOf(events, e, n) <= Progress(states[n].entries[e])
            else EventsOf(events, e, n) == 0
  {
    if n > 0 {
      EventsBounded(c, states, events, e, n - 1);
      ExecKeeps(c, states, events, n - 1);
      var s, ev := states[n - 1], events[n - 1];
      hide Inv, Progress, Step;
      if e < |s.entries| {
        StepProgresses(c, s, ev, e);
      } else if e < |states[n].entries| {
        NewEntry(c, s, ev, e);
      }
    }
  }

  /** In every run an entry has at most four events a timer, and the deadline bounds its timers. */
  lemma EveryEntryIsFinite(c: Config, states: seq<State>, events: seq<Event>, e: EntryId, n: nat)
    requires c.Valid() && Exec(c, states, events) && n < |states| && e < |states[n].entries|
    ensures EventsOf(events, e, n) <= 4 * states[n].entries[e].steps
    ensures var steps := states[n].entries[e].steps;
      steps >= 3 ==> c.firstPollMs + (steps - 3) * c.pollMs < c.deadlineMs
  {
    EventsBounded(c, states, events, e, n);
    ExecKeeps(c, states, events, n);
    assert EntryOk(c, states[n].entries[e], e in states[n].order, states[n].stopping, states[n].now);
  }

  lemma StopDrains(c: Config, s: State, ev: Event, e: EntryId)
    requires Inv(c, s) && Enabled(s, ev) && s.stopping && e < |s.entries|
    ensures var t := Step(c, s, ev);
      && t.stopping && |t.entries| == |s.entries| && t.entries[e].timer == None && !ev.Fire?
      && (if OfEntry(ev) && ev.e == e then Left(t.entries[e]) < Left(s.entries[e]) else t.entries[e] == s.entries[e])
  {
    hide Floor, StopStatus, RenderKey, OrderOk, Paced, NoRepeats, Removed;
    assert EntryOk(c, s.entries[e], e in s.order, s.stopping, s.now);
    if OfEntry(ev) {
      assert EntryOk(c, s.entries[ev.e], ev.e in s.order, s.stopping, s.now);
    }
  }

  /**
   After a stop no entry has a timer, and an attempt under way has at most the events left that it had then:
   three.
   */
  lemma {:induction false} StopIsFinite(c: Config, states: seq<State>, events: seq<Event>, e: EntryId, i: nat, j: nat)
    requires c.Valid() && Exec(c, states, events) && i <= j < |states| && states[i].stopping && e < |states[i].entries|
    ensures states[j].stopping && |states[j].entries| == |states[i].entries| && states[j].entries[e].timer == None
    ensures EventsOf(events, e, j) - EventsOf(events, e, i) + Left(states[j].entries[e])
            <= Left(states[i].entries[e]) <= 3
    decreases j
  {
    hide Inv, Left, Step, Enabled;
    ExecKeeps(c, states, events, i);
    StoppedLeft(c, states[i], e);
    if i < j {
      StopIsFinite(c, states, events, e, i, j - 1);
      ExecKeeps(c, states, events, j - 1);
      StopDrains(c, states[j - 1], events[j - 1], e);
    }
  }

  lemma StoppedLeft(c: Config, s: State, e: EntryId)
    requires Inv(c, s) && s.stopping && e < |s.entries|
    ensures s.entries[e].timer == None && Left(s.entries[e]) <= 3
  {
    hide Paced, StageOk, OrderOk;
    assert EntryOk(c, s.entries[e], e in s.order, s.stopping, s.now);
  }
}
