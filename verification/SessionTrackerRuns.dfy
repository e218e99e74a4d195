/**
 What the session tracker promises over whole runs: an attempt touches its own entry only, a tracked entry
 always has its next poll or an attempt under way and none past its deadline, first polls of recovered
 entries are spread, and a session followed without a break keeps its deadline.
 */
module SessionTrackerRuns {
  import opened Wrappers
  import opened MapOrder
  import opened SessionTracker
  import opened SessionTrackerProofs

  // ----- an attempt touches its own entry

  ghost predicate OthersTracked(was: map<SessionId, EntryId>, now: map<SessionId, EntryId>, x: EntryId) {
    && (forall id <- now :: id in was && now[id] == was[id])
    && (forall id <- was :: was[id] != x ==> id in now)
  }

  ghost predicate OthersTimed(was: map<nat, Timer>, now: map<nat, Timer>, x: EntryId) {
    && (forall u <- was :: was[u].entry != x ==> u in now && now[u] == was[u])
    && (forall u <- now :: now[u].entry != x ==> u in was && was[u] == now[u])
  }

  /** No attempt begins, and those of others stay as they are. */
  ghost predicate OthersAttempt(was: map<nat, Attempt>, now: map<nat, Attempt>, x: EntryId) {
    && (forall u <- was :: was[u].entry != x ==> u in now && now[u] == was[u])
    && (forall u <- now :: u in was && now[u].entry == was[u].entry)
  }

  ghost predicate OthersAlike(was: seq<Entry>, now: seq<Entry>, x: EntryId) {
    && |now| == |was|
    && (forall e: nat :: e < |was| && e != x ==> now[e] == was[e])
    && (x < |was| ==> now[x].startedAt == was[x].startedAt && now[x].session == was[x].session)
  }

  /** From one state to the other only the entry has been at work. */
  ghost predicate Own(s: State, t: State, x: EntryId) {
    && OthersAlike(s.entries, t.entries, x)
    && OthersTracked(s.current, t.current, x)
    && OthersTimed(s.timers, t.timers, x)
    && OthersAttempt(s.attempts, t.attempts, x)
    && t.stopping == s.stopping && t.nextResumeAt == s.nextResumeAt
  }

  lemma OwnTrans(s: State, t: State, u: State, x: EntryId)
    requires Own(s, t, x) && Own(t, u, x)
    ensures Own(s, u, x)
  {
  }

  ghost predicate Fewer(fewer: map<nat, Timer>, timers: map<nat, Timer>) {
    forall u <- fewer :: u in timers && fewer[u] == timers[u]
  }

  lemma UnlistOwn(s: State, x: EntryId)
    requires TimersOwned(s.entries, s.current, s.timers, s.nextTimer) && x < |s.entries|
    ensures Own(s, Unlisted(s, x), x)
  {
    hide Removed;
    UnlistTimes(s, x);
    hide TimersOwned, OthersTimed;
  }

  lemma UnlistTimes(s: State, x: EntryId)
    requires TimersOwned(s.entries, s.current, s.timers, s.nextTimer) && x < |s.entries|
    ensures OthersTimed(s.timers, Unlisted(s, x).timers, x)
  {
    hide Removed;
  }

  lemma FinishOwn(c: Config, s: State, x: EntryId, remember: bool)
    requires TimersOwned(s.entries, s.current, s.timers, s.nextTimer) && x < |s.entries|
    ensures Own(s, Finished(c, s, x, remember), x)
    ensures Fewer(Finished(c, s, x, remember).timers, s.timers)
  {
    UnlistOwn(s, x);
    hide Remembered, OthersTimed, OthersTracked, OthersAttempt, OthersAlike, TimersOwned;
  }

  lemma ArmOwn(s: State, x: EntryId, due: int)
    requires TimersOwned(s.entries, s.current, s.timers, s.nextTimer) && x < |s.entries|
    ensures Own(s, Armed(s, x, due), x) && s.nextTimer !in s.timers
  {
  }

  lemma OverOwn(s: State, a: nat)
    requires a in s.attempts
    ensures Own(s, Over(s, a), s.attempts[a].entry)
  {
  }

  lemma AtOwn(s: State, a: nat, stage: Stage)
    requires a in s.attempts
    ensures Own(s, At(s, a, stage), s.attempts[a].entry)
  {
  }

  lemma EntryOwn(s: State, x: EntryId, entry: Entry)
    requires x < |s.entries| && entry.startedAt == s.entries[x].startedAt && entry.session == s.entries[x].session
    ensures Own(s, s.(entries := s.entries[x := entry]), x)
  {
  }

  // ----- what an attempt leaves of its entry

  ghost predicate HasTimer(timers: map<nat, Timer>, x: EntryId) { exists u <- timers :: timers[u].entry == x }

  /** The entry's next poll: in time for its deadline and a gap from now. */
  ghost predicate Rearmed(c: Config, s: State, x: EntryId, now: int) {
    && x < |s.entries|
    && exists u <- s.timers :: s.timers[u] == Timer(x, now + c.pollMs) && now - s.entries[x].startedAt < c.deadlineMs
  }

  /** A lost message is reported only once its entry is nobody's. */
  ghost predicate Reported(t: State, a: nat) {
    a in t.attempts && t.attempts[a].stage.Reporting? ==> !Current(t, t.attempts[a].entry)
  }

  /** The attempt goes on, or it is over: with the next poll armed if its entry is live, with none if not. */
  ghost predicate Left(c: Config, t: State, a: nat, x: EntryId, now: int) {
    if a in t.attempts then t.attempts[a].entry == x && !HasTimer(t.timers, x) && Reported(t, a)
    else if Live(t, x) then Rearmed(c, t, x, now)
    else !HasTimer(t.timers, x)
  }

  ghost predicate Handled(c: Config, s: State, t: State, a: nat, now: int)
    requires a in s.attempts
  {
    Own(s, t, s.attempts[a].entry) && Left(c, t, a, s.attempts[a].entry, now)
  }

  /** An attempt that is under way. */
  ghost predicate AtWork(c: Config, s: State, a: nat) {
    && c.Valid() && Inv(c, s) && a in s.attempts && s.attempts[a].entry < |s.entries|
  }

  lemma NoTimer(c: Config, s: State, a: nat)
    requires AtWork(c, s, a)
    ensures !HasTimer(s.timers, s.attempts[a].entry)
    ensures TimersOwned(s.entries, s.current, s.timers, s.nextTimer)
  {
  }

  lemma FewerTimers(timers: map<nat, Timer>, fewer: map<nat, Timer>, x: EntryId)
    requires !HasTimer(timers, x) && Fewer(fewer, timers)
    ensures !HasTimer(fewer, x)
  {
  }

  lemma OverHandled(c: Config, s: State, a: nat, now: int)
    requires AtWork(c, s, a) && !Live(s, s.attempts[a].entry)
    ensures Handled(c, s, Over(s, a), a, now)
  {
    NoTimer(c, s, a);
    OverOwn(s, a);
    hide Inv, Own, HasTimer;
  }

  lemma AtHandled(c: Config, s: State, a: nat, stage: Stage, now: int)
    requires AtWork(c, s, a) && (stage.Reporting? ==> !Current(s, s.attempts[a].entry))
    ensures Handled(c, s, At(s, a, stage), a, now)
  {
    NoTimer(c, s, a);
    AtOwn(s, a, stage);
    hide Inv, Own, HasTimer;
  }

  lemma SentHandled(c: Config, s: State, a: nat, stage: Stage, view: Option<View>, now: int)
    requires AtWork(c, s, a) && !stage.Reporting?
    ensures Handled(c, s, Sent(s, a, stage, view), a, now)
  {
    AtHandled(c, s, a, stage, now);
    hide Inv, OthersTimed, OthersTracked, OthersAttempt, OthersAlike, HasTimer, At;
    assert Sent(s, a, stage, view) == At(s, a, stage).(edits := Sent(s, a, stage, view).edits);
  }

  lemma SummedHandled(c: Config, s: State, a: nat, view: View, now: int)
    requires AtWork(c, s, a)
    ensures Handled(c, s, Summed(s, a, view), a, now)
  {
    AtHandled(c, s, a, Summing, now);
    hide Inv, OthersTimed, OthersTracked, OthersAttempt, OthersAlike, HasTimer, At;
    assert Summed(s, a, view) == At(s, a, Summing).(summaries := Summed(s, a, view).summaries);
  }

  /** `finish(entry)`, whatever follows of the attempt. */
  lemma FinishedAtWork(c: Config, s: State, a: nat, remember: bool)
    requires AtWork(c, s, a)
    ensures var x := s.attempts[a].entry;
            var t := Finished(c, s, x, remember);
            && AtWork(c, t, a) && t.attempts[a] == s.attempts[a] && Own(s, t, x) && !Current(t, x)
  {
    var x := s.attempts[a].entry;
    FinishKeeps(c, s, x, remember);
    NoTimer(c, s, a);
    FinishOwn(c, s, x, remember);
    hide Inv, Own, TimersOwned;
  }

  lemma Via(c: Config, s: State, m: State, t: State, a: nat, now: int)
    requires a in s.attempts && a in m.attempts && m.attempts[a].entry == s.attempts[a].entry
    requires Own(s, m, s.attempts[a].entry) && Handled(c, m, t, a, now)
    ensures Handled(c, s, t, a, now)
  {
    OwnTrans(s, m, t, s.attempts[a].entry);
    hide Own, Left;
  }

  lemma EndedHandled(c: Config, s: State, a: nat, now: int)
    requires AtWork(c, s, a)
    ensures Handled(c, s, Ended(c, s, a), a, now)
  {
    var x := s.attempts[a].entry;
    hide AtWork, Finished, Own, Handled, Over;
    FinishedAtWork(c, s, a, true);
    var f := Finished(c, s, x, true);
    OverHandled(c, f, a, now);
    Via(c, s, f, Over(f, a), a, now);
  }

  lemma LastDoneHandled(c: Config, s: State, a: nat, view: View, now: int)
    requires AtWork(c, s, a)
    ensures Handled(c, s, LastDone(c, s, a, view), a, now)
  {
    hide Inv, Handled, Ended, Summed;
    EndedHandled(c, s, a, now);
    SummedHandled(c, s, a, view, now);
  }

  /** `arm` at the end of an attempt. */
  lemma RearmOwn(c: Config, s: State, a: nat, due: int)
    requires AtWork(c, s, a)
    ensures var x := s.attempts[a].entry;
            var t := Over(Armed(s, x, due), a);
            && Own(s, t, x) && a !in t.attempts && t.current == s.current
            && |t.entries| == |s.entries| && t.entries[x] == s.entries[x].(timer := Some(s.nextTimer))
            && s.nextTimer in t.timers && t.timers[s.nextTimer] == Timer(x, due)
  {
    var x := s.attempts[a].entry;
    var m := Armed(s, x, due);
    NoTimer(c, s, a);
    ArmOwn(s, x, due);
    OverOwn(m, a);
    OwnTrans(s, m, Over(m, a), x);
    hide Inv, Own, TimersOwned;
  }

  lemma LeftRearmed(c: Config, t: State, a: nat, x: EntryId, now: int, u: nat)
    requires a !in t.attempts && Live(t, x) && now - t.entries[x].startedAt < c.deadlineMs
    requires u in t.timers && t.timers[u] == Timer(x, now + c.pollMs)
    ensures Left(c, t, a, x, now)
  {
  }

  lemma RearmHandled(c: Config, s: State, a: nat, now: int)
    requires AtWork(c, s, a) && Live(s, s.attempts[a].entry)
    requires now - s.entries[s.attempts[a].entry].startedAt < c.deadlineMs
    ensures Handled(c, s, Over(Armed(s, s.attempts[a].entry, now + c.pollMs), a), a, now)
  {
    hide Inv, Own, Over, Armed, Left;
    var x := s.attempts[a].entry;
    var t := Over(Armed(s, x, now + c.pollMs), a);
    RearmOwn(c, s, a, now + c.pollMs);
    OwnKept(s, t, x);
    LeftRearmed(c, t, a, x, now, s.nextTimer);
  }

  lemma NextHandled(c: Config, s: State, a: nat, now: int)
    requires AtWork(c, s, a)
    ensures Handled(c, s, Next(c, s, a, now), a, now)
  {
    hide Inv, Handled, Ended, Summed, Sent, LastDone, Over, Armed;
    var x := s.attempts[a].entry;
    var entry := s.entries[x];
    if !Live(s, x) {
      OverHandled(c, s, a, now);
    } else if now - entry.startedAt < c.deadlineMs {
      RearmHandled(c, s, a, now);
    } else if entry.view.None? {
      EndedHandled(c, s, a, now);
    } else {
      SentHandled(c, s, a, Editing(entry.view.value, true), entry.view, now);
      LastDoneHandled(c, s, a, entry.view.value, now);
    }
  }

  lemma AfterEditHandled(c: Config, s: State, a: nat, view: View, last: bool, now: int)
    requires AtWork(c, s, a)
    ensures Handled(c, s, AfterEdit(c, s, a, view, last, now), a, now)
  {
    hide Inv, Handled, Summed, LastDone, Next;
    if last {
      LastDoneHandled(c, s, a, view, now);
    } else if SummaryDue(s.entries[s.attempts[a].entry], view) {
      SummedHandled(c, s, a, view, now);
    } else {
      NextHandled(c, s, a, now);
    }
  }

  lemma MarkedAtWork(c: Config, s: State, a: nat, entry: Entry)
    requires AtWork(c, s, a)
    requires var was := s.entries[s.attempts[a].entry];
             entry.session == was.session && entry.timer == was.timer && entry.startedAt == was.startedAt
    ensures var x := s.attempts[a].entry;
            var t := s.(entries := s.entries[x := entry]); AtWork(c, t, a) && Own(s, t, x)
  {
    var x := s.attempts[a].entry;
    EntryKeeps(c, s, x, entry);
    EntryOwn(s, x, entry);
    hide Inv, Own;
  }

  lemma AnsweredHandled(c: Config, s: State, a: nat, view: View, now: int)
    requires AtWork(c, s, a)
    ensures Handled(c, s, ReadDone(c, s, a, Answered(view), now), a, now)
  {
    hide Inv, Own, Handled, Sent, AfterEdit, Over;
    var x := s.attempts[a].entry;
    var entry := s.entries[x].(record := false);
    var m := s.(entries := s.entries[x := entry]);
    MarkedAtWork(c, s, a, entry);
    if !Current(m, x) {
      OverHandled(c, m, a, now);
      Via(c, s, m, Over(m, a), a, now);
    } else {
      var seen := m.entries[x].(view := Some(view));
      var n := m.(entries := m.entries[x := seen]);
      MarkedAtWork(c, m, a, seen);
      SentHandled(c, n, a, Editing(view, false), Some(view), now);
      AfterEditHandled(c, n, a, view, false, now);
      var t := ReadDone(c, s, a, Answered(view), now);
      Via(c, m, n, t, a, now);
      Via(c, s, m, t, a, now);
    }
  }

  lemma ReadHandled(c: Config, s: State, a: nat, r: ReadResult, now: int)
    requires AtWork(c, s, a)
    ensures Handled(c, s, ReadDone(c, s, a, r, now), a, now)
  {
    hide AtWork, Handled, Next, Ended, Sent;
    match r
    case Unavailable => NextHandled(c, s, a, now);
    case ReadBroken => EndedHandled(c, s, a, now);
    case NotFound =>
      SentHandled(c, s, a, EditingNotFound, None, now);
      EndedHandled(c, s, a, now);
    case Answered(view) => AnsweredHandled(c, s, a, view, now);
  }

  lemma EditHandled(c: Config, s: State, a: nat, r: EditResult, now: int)
    requires AtWork(c, s, a) && s.attempts[a].stage.Editing?
    ensures Handled(c, s, EditDone(c, s, a, r, now), a, now)
  {
    hide Inv, Own, Handled, Finished, AfterEdit, LastDone, Over, At;
    var x := s.attempts[a].entry;
    var view, last := s.attempts[a].stage.view, s.attempts[a].stage.last;
    var t := EditDone(c, s, a, r, now);
    match r
    case Landed =>
      var shown := s.entries[x].(rendered := Drawing(view.drawing));
      var m := s.(entries := s.entries[x := shown]);
      MarkedAtWork(c, s, a, shown);
      AfterEditHandled(c, m, a, view, last, now);
      Via(c, s, m, t, a, now);
    case Refused => AfterEditHandled(c, s, a, view, last, now);
    case Lost =>
      FinishedAtWork(c, s, a, false);
      var m := Finished(c, s, x, false);
      AtHandled(c, m, a, Reporting(view, last), now);
      Via(c, s, m, t, a, now);
    case EditBroken =>
      FinishedAtWork(c, s, a, true);
      var m := Finished(c, s, x, true);
      LastDoneHandled(c, m, a, view, now);
      OverHandled(c, m, a, now);
      Via(c, s, m, t, a, now);
  }

  lemma NotFoundHandled(c: Config, s: State, a: nat, r: EditResult, now: int)
    requires AtWork(c, s, a)
    ensures Handled(c, s, NotFoundDone(c, s, a, r), a, now)
  {
    hide Inv, Own, Handled, Finished, Ended, Over;
    var x := s.attempts[a].entry;
    var t := NotFoundDone(c, s, a, r);
    match r
    case Landed =>
      var shown := s.entries[x].(rendered := NotFoundText);
      var m := s.(entries := s.entries[x := shown]);
      MarkedAtWork(c, s, a, shown);
      EndedHandled(c, m, a, now);
      Via(c, s, m, t, a, now);
    case Lost =>
      FinishedAtWork(c, s, a, false);
      var m := Finished(c, s, x, false);
      OverHandled(c, m, a, now);
      Via(c, s, m, t, a, now);
    case _ => EndedHandled(c, s, a, now);
  }

  lemma ReportHandled(c: Config, s: State, a: nat, now: int)
    requires AtWork(c, s, a) && s.attempts[a].stage.Reporting? && !Current(s, s.attempts[a].entry)
    ensures Handled(c, s, ReportDone(c, s, a), a, now)
  {
    hide Inv, Own, Handled, LastDone, Over;
    LastDoneHandled(c, s, a, s.attempts[a].stage.view, now);
    OverHandled(c, s, a, now);
  }

  // ----- the attempt an event is about

  predicate OfAttempt(e: Event) { e.Read? || e.Edit? || e.Report? || e.Summary? }

  /** A read and an edit end at their time, the others whenever. */
  predicate Ends(e: Event, now: int) { e.Read? || e.Edit? ==> now == e.now }

  lemma AttemptHandled(c: Config, s: State, e: Event, now: int)
    requires c.Valid() && Inv(c, s) && Enabled(s, e) && OfAttempt(e) && Reported(s, e.attempt) && Ends(e, now)
    ensures WellFormed(s) && Handled(c, s, Step(c, s, e), e.attempt, now)
  {
    InvWellFormed(c, s);
    hide Inv, Handled, ReadDone, EditDone, NotFoundDone, ReportDone, Ended;
    match e
    case Read(a, r, _) => ReadHandled(c, s, a, r, now);
    case Edit(a, r, _) =>
      if s.attempts[a].stage.Editing? {
        EditHandled(c, s, a, r, now);
      } else {
        NotFoundHandled(c, s, a, r, now);
      }
    case Report(a) => ReportHandled(c, s, a, now);
    case Summary(a) => EndedHandled(c, s, a, now);
  }

  // ----- a tracked entry always has something outstanding

  ghost predicate Busy(s: State, x: EntryId) { HasTimer(s.timers, x) || !Idle(s.attempts, x) }

  ghost predicate Tended(s: State) {
    && (forall a <- s.attempts :: Reported(s, a))
    && (!s.stopping ==> forall id <- s.current :: Busy(s, s.current[id]))
  }

  lemma OthersBusy(s: State, t: State, x: EntryId, y: EntryId)
    requires Own(s, t, x) && y != x && Busy(s, y)
    ensures Busy(t, y)
  {
    if HasTimer(s.timers, y) {
      var u :| u in s.timers && s.timers[u].entry == y;
      assert u in t.timers && t.timers[u].entry == y;
    } else {
      var b :| b in s.attempts && s.attempts[b].entry == y;
      assert b in t.attempts && t.attempts[b].entry == y;
    }
  }

  lemma OthersReported(s: State, t: State, x: EntryId, b: nat)
    requires Own(s, t, x) && (forall a <- s.attempts :: Reported(s, a)) && b in t.attempts && t.attempts[b].entry != x
    ensures Reported(t, b)
  {
    assert b in s.attempts && Reported(s, b);
  }

  /** The attempt's entry has no other attempt. */
  lemma AttemptAlone(c: Config, s: State, t: State, a: nat)
    requires AtWork(c, s, a) && Own(s, t, s.attempts[a].entry)
    ensures forall b <- t.attempts :: b == a || t.attempts[b].entry != s.attempts[a].entry
  {
  }

  lemma AttemptReports(c: Config, s: State, t: State, a: nat, now: int)
    requires AtWork(c, s, a) && Tended(s) && Handled(c, s, t, a, now)
    ensures forall b <- t.attempts :: Reported(t, b)
  {
    AttemptAlone(c, s, t, a);
    hide Inv, Reported, Own, Busy;
    forall b <- t.attempts
      ensures Reported(t, b)
    {
      if b != a { OthersReported(s, t, s.attempts[a].entry, b); }
    }
  }

  lemma OwnBusy(c: Config, t: State, a: nat, x: EntryId, now: int)
    requires Left(c, t, a, x, now) && Live(t, x)
    ensures Busy(t, x)
  {
    if a !in t.attempts {
      var u :| u in t.timers && t.timers[u] == Timer(x, now + c.pollMs);
    }
  }

  lemma OwnKept(s: State, t: State, x: EntryId)
    requires Own(s, t, x)
    ensures t.stopping == s.stopping && t.nextResumeAt == s.nextResumeAt
    ensures forall id <- t.current :: id in s.current && s.current[id] == t.current[id]
  {
  }

  lemma TrackedHolds(c: Config, t: State, id: SessionId)
    requires Inv(c, t) && id in t.current
    ensures Current(t, t.current[id])
  {
  }

  lemma AttemptTends(c: Config, s: State, t: State, a: nat, now: int)
    requires AtWork(c, s, a) && Inv(c, t) && Tended(s) && Handled(c, s, t, a, now)
    ensures Tended(t)
  {
    hide Inv, Reported, Own, Busy, Left, Current;
    var x := s.attempts[a].entry;
    AttemptReports(c, s, t, a, now);
    OwnKept(s, t, x);
    if !t.stopping {
      forall id <- t.current
        ensures Busy(t, t.current[id])
      {
        if t.current[id] != x {
          OthersBusy(s, t, x, t.current[id]);
        } else {
          TrackedHolds(c, t, id);
          OwnBusy(c, t, a, x, now);
        }
      }
    }
  }

  lemma TrackTends(c: Config, s: State, r: Request, now: int)
    requires c.Valid() && Inv(c, s) && Tended(s)
    ensures WellFormed(s) && Tended(Tracked(c, s, r, now))
  {
    InvWellFormed(c, s);
    if !s.stopping {
      MakeRoomKeeps(c, s, r.session);
      RoomTends(c, s, r.session);
      hide Inv, MadeRoom, Tended, Added, Scheduled;
      var m := MadeRoom(c, s, r.session);
      var startedAt := if Holder(s, r.session).Some? then s.entries[Holder(s, r.session).value].startedAt
                       else if r.startedAt.Some? then r.startedAt.value else now;
      AddedTends(c, m, r, startedAt, now);
    }
  }

  lemma RoomTends(c: Config, s: State, session: SessionId)
    requires c.Valid() && Inv(c, s) && Tended(s) && WellFormed(s)
    ensures Tended(MadeRoom(c, s, session))
  {
    var x := if session in s.current then s.current[session]
             else if s.order != [] && s.order[0] in s.current then s.current[s.order[0]] else 0;
    var t := MadeRoom(c, s, session);
    if t != s {
      FinishTends(c, s, x);
    }
  }

  lemma FinishTends(c: Config, s: State, x: EntryId)
    requires c.Valid() && Inv(c, s) && Tended(s) && x < |s.entries|
    ensures Tended(Finished(c, s, x, true))
  {
    hide Busy, Finished, Own, Current, TimersOwned, Reported;
    assert TimersOwned(s.entries, s.current, s.timers, s.nextTimer);
    hide Inv;
    FinishKeeps(c, s, x, true);
    FinishOwn(c, s, x, true);
    LeavesTended(c, s, Finished(c, s, x, true), x);
  }

  lemma LeavesTended(c: Config, s: State, t: State, x: EntryId)
    requires Inv(c, t) && Tended(s) && Own(s, t, x) && !Current(t, x) && t.attempts == s.attempts
    requires t.entries == s.entries
    ensures Tended(t)
  {
    hide Busy, Own, Current, Reported, Inv;
    OwnKept(s, t, x);
    forall b <- t.attempts
      ensures Reported(t, b)
    {
      FinishReports(s, t, x, b);
    }
    if !t.stopping {
      forall id <- t.current
        ensures Busy(t, t.current[id])
      {
        TrackedHolds(c, t, id);
        OthersBusy(s, t, x, t.current[id]);
      }
    }
  }

  lemma FinishReports(s: State, t: State, x: EntryId, b: nat)
    requires Own(s, t, x) && b in t.attempts && t.attempts == s.attempts && t.entries == s.entries && Reported(s, b)
    ensures Reported(t, b)
  {
  }

  /** A new entry's number, its timer and the rest untouched. */
  ghost predicate Joined(s: State, t: State, session: SessionId) {
    && |t.entries| == |s.entries| + 1
    && (forall x: nat :: x < |s.entries| ==> t.entries[x] == s.entries[x])
    && t.current == s.current[session := |s.entries|]
    && t.attempts == s.attempts && t.stopping == s.stopping
    && s.nextTimer !in s.timers && s.nextTimer in t.timers && t.timers[s.nextTimer].entry == |s.entries|
    && (forall u <- s.timers :: u in t.timers && t.timers[u] == s.timers[u])
    && (forall u <- t.timers :: u in s.timers || u == s.nextTimer)
  }

  lemma AddedJoins(c: Config, s: State, r: Request, startedAt: int, now: int)
    requires TimersOwned(s.entries, s.current, s.timers, s.nextTimer)
    ensures |Added(s, r, startedAt).entries| == |s.entries| + 1
    ensures Joined(s, Scheduled(c, Added(s, r, startedAt), |s.entries|, r, now), r.session)
  {
    hide Removed, SlotAt;
  }

  lemma JoinedReports(c: Config, s: State, t: State, session: SessionId, b: nat)
    requires Inv(c, s) && Joined(s, t, session) && b in s.attempts && Reported(s, b)
    ensures Reported(t, b)
  {
  }

  lemma JoinedBusy(s: State, t: State, session: SessionId, x: EntryId)
    requires Joined(s, t, session) && (Busy(s, x) || x == |s.entries|)
    ensures Busy(t, x)
  {
    if x == |s.entries| {
      assert t.timers[s.nextTimer].entry == x;
    } else if HasTimer(s.timers, x) {
      var u :| u in s.timers && s.timers[u].entry == x;
      assert u in t.timers && t.timers[u].entry == x;
    }
  }

  lemma JoinedKeeps(s: State, t: State, session: SessionId)
    requires Joined(s, t, session)
    ensures t.attempts == s.attempts && t.stopping == s.stopping
    ensures forall id <- t.current ::
              t.current[id] == |s.entries| || (id in s.current && t.current[id] == s.current[id])
  {
  }

  lemma AddedTends(c: Config, s: State, r: Request, startedAt: int, now: int)
    requires c.Valid() && Inv(c, s) && Tended(s)
    ensures |Added(s, r, startedAt).entries| == |s.entries| + 1
    ensures Tended(Scheduled(c, Added(s, r, startedAt), |s.entries|, r, now))
  {
    AddedJoins(c, s, r, startedAt, now);
    var t := Scheduled(c, Added(s, r, startedAt), |s.entries|, r, now);
    hide Inv, Reported, Busy, Added, Scheduled, Joined;
    JoinedKeeps(s, t, r.session);
    forall b <- t.attempts
      ensures Reported(t, b)
    {
      JoinedReports(c, s, t, r.session, b);
    }
    if !t.stopping {
      forall id <- t.current
        ensures Busy(t, t.current[id])
      {
        JoinedBusy(s, t, r.session, t.current[id]);
      }
    }
  }

  lemma FireTends(c: Config, s: State, u: nat)
    requires Inv(c, s) && Tended(s) && u in s.timers && s.timers[u].entry < |s.entries|
    ensures Tended(Fired(s, u))
  {
    var t, x := Fired(s, u), s.timers[u].entry;
    assert s.nextAttempt !in s.attempts;
    forall b <- t.attempts
      ensures Reported(t, b)
    {
      assert b in s.attempts ==> Reported(s, b);
    }
    hide Inv, Reported;
    assert t.attempts[s.nextAttempt].entry == x;
    if !t.stopping {
      forall id <- t.current
        ensures Busy(t, t.current[id])
      {
        FiredBusy(s, u, t.current[id]);
      }
    }
  }

  lemma FiredBusy(s: State, u: nat, y: EntryId)
    requires u in s.timers && s.timers[u].entry < |s.entries| && s.nextAttempt !in s.attempts && Busy(s, y)
    ensures Busy(Fired(s, u), y)
  {
    var t := Fired(s, u);
    if y == s.timers[u].entry {
      assert t.attempts[s.nextAttempt].entry == y;
    } else if HasTimer(s.timers, y) {
      var v :| v in s.timers && s.timers[v].entry == y;
      assert v in t.timers && t.timers[v].entry == y;
    } else {
      var b :| b in s.attempts && s.attempts[b].entry == y;
      assert b in t.attempts && t.attempts[b].entry == y;
    }
  }

  lemma StopTends(s: State)
    requires Tended(s) && forall id <- s.current :: s.current[id] < |s.entries|
    ensures Tended(StopAsked(s))
  {
    hide Busy;
    assert forall b <- s.attempts :: Reported(s, b) ==> Reported(StopAsked(s), b);
  }

  lemma StepTends(c: Config, s: State, e: Event)
    requires c.Valid() && Inv(c, s) && Tended(s) && Enabled(s, e)
    ensures WellFormed(s) && Tended(Step(c, s, e))
  {
    InvWellFormed(c, s);
    if OfAttempt(e) {
      StepKeeps(c, s, e);
      hide Inv, Step, Handled;
      var now := if e.Read? || e.Edit? then e.now else 0;
      AttemptHandled(c, s, e, now);
      AttemptTends(c, s, Step(c, s, e), e.attempt, now);
    } else {
      hide Inv, Tracked, Fired, Busy, StopAsked;
      match e
      case Track(r, now) => TrackTends(c, s, r, now);
      case Fire(u, now) => FireTends(c, s, u);
      case Stop => StopTends(s);
      case Drained =>
    }
  }

  lemma {:induction false} ExecTends(c: Config, events: seq<Event>)
    requires c.Valid() && Exec(c, events).Some?
    ensures Tended(Exec(c, events).value)
    decreases |events|
  {
    if events != [] {
      var init := events[..|events| - 1];
      ExecTends(c, init);
      ExecKeeps(c, init);
      hide Inv, Step, Tended;
      StepTends(c, Exec(c, init).value, events[|events| - 1]);
    }
  }

  /** In every run an entry tracked by an open tracker has either its next poll armed or an attempt under way. */
  lemma ExactlyOneOutstanding(c: Config, events: seq<Event>, id: SessionId)
    requires c.Valid() && Exec(c, events).Some? && id in Exec(c, events).value.current
    requires !Exec(c, events).value.stopping
    ensures var s := Exec(c, events).value; HasTimer(s.timers, s.current[id]) <==> Idle(s.attempts, s.current[id])
  {
    hide Exec, Inv, HasTimer, Idle;
    ExecKeeps(c, events);
    ExecTends(c, events);
    var s := Exec(c, events).value;
    assert Busy(s, s.current[id]);
    if HasTimer(s.timers, s.current[id]) { OneNotBoth(c, s, s.current[id]); }
  }

  lemma OneNotBoth(c: Config, s: State, x: EntryId)
    requires Inv(c, s) && HasTimer(s.timers, x)
    ensures Idle(s.attempts, x)
  {
  }

  // ----- the steps of a run

  /** The i-th event of a run, with the states before and after it. */
  ghost predicate StepOf(c: Config, events: seq<Event>, i: nat) {
    && c.Valid() && i < |events|
    && Exec(c, events[..i]).Some? && Exec(c, events[..i + 1]).Some?
    && WellFormed(Exec(c, events[..i]).value) && Enabled(Exec(c, events[..i]).value, events[i])
    && Exec(c, events[..i + 1]).value == Step(c, Exec(c, events[..i]).value, events[i])
  }

  lemma ExecSteps(c: Config, events: seq<Event>, i: nat)
    requires c.Valid() && i < |events| && Exec(c, events[..i + 1]).Some?
    ensures StepOf(c, events, i)
    ensures Inv(c, Exec(c, events[..i]).value) && Tended(Exec(c, events[..i]).value)
  {
    assert events[..i + 1][..i] == events[..i];
    ExecKeeps(c, events[..i]);
    ExecTends(c, events[..i]);
    hide Inv, Tended;
  }

  /**
   Once an attempt's event is over its entry has a poll armed if and only if the attempt is over and the entry
   is live; and then the poll is pollMs away and the deadline has not come. So past it there is no further poll.
   */
  lemma PollsEndAtDeadline(c: Config, events: seq<Event>, i: nat)
    requires c.Valid() && i < |events| && Exec(c, events[..i + 1]).Some? && OfAttempt(events[i])
    ensures StepOf(c, events, i)
    ensures var s, t, a := Exec(c, events[..i]).value, Exec(c, events[..i + 1]).value, events[i].attempt;
            var x := s.attempts[a].entry;
            && (HasTimer(t.timers, x) <==> a !in t.attempts && Live(t, x))
            && (HasTimer(t.timers, x) ==> (events[i].Read? || events[i].Edit?) && Rearmed(c, t, x, events[i].now))
  {
    ExecSteps(c, events, i);
    var s, t, e := Exec(c, events[..i]).value, Exec(c, events[..i + 1]).value, events[i];
    var x := s.attempts[e.attempt].entry;
    hide Exec;
    assert Reported(s, e.attempt);
    var now := if e.Read? || e.Edit? then e.now else s.entries[x].startedAt + c.deadlineMs;
    hide Inv, Step, Own;
    AttemptHandled(c, s, e, now);
    OwnStarts(s, t, x, x);
  }

  // ----- first polls of recovered entries

  /** The i-th event tracks a session with no view, by a tracker that is open. */
  ghost predicate Resumes(c: Config, events: seq<Event>, i: nat) {
    && c.Valid() && i < |events| && Exec(c, events[..i]).Some? && Exec(c, events[..i + 1]).Some?
    && events[i].Track? && events[i].request.view.None? && !Exec(c, events[..i]).value.stopping
  }

  /** The entry it makes, and the timer. */
  ghost function MadeBy(c: Config, events: seq<Event>, i: nat): EntryId
    requires Resumes(c, events, i)
  {
    |Exec(c, events[..i]).value.entries|
  }

  ghost function FirstTimer(c: Config, events: seq<Event>, i: nat): nat
    requires Resumes(c, events, i)
  {
    Exec(c, events[..i]).value.nextTimer
  }

  /** When the first poll of the entry is due. */
  ghost function FirstDue(c: Config, events: seq<Event>, i: nat): int
    requires Resumes(c, events, i)
  {
    var timers := Exec(c, events[..i + 1]).value.timers;
    if FirstTimer(c, events, i) in timers then timers[FirstTimer(c, events, i)].due else 0
  }

  /** Room was made: some timers may be gone, nothing else that a new entry depends on. */
  ghost predicate RoomOf(s: State, m: State) {
    && m == s.(current := m.current, order := m.order, timers := m.timers, drawn := m.drawn, drawnOrder := m.drawnOrder)
    && Fewer(m.timers, s.timers)
  }

  lemma RoomFrame(c: Config, s: State, session: SessionId)
    requires c.Valid() && Inv(c, s)
    ensures WellFormed(s)
    ensures var m := MadeRoom(c, s, session); RoomOf(s, m) && TimersOwned(m.entries, m.current, m.timers, m.nextTimer)
  {
    MakeRoomKeeps(c, s, session);
    var x := if session in s.current then s.current[session]
             else if s.order != [] && s.order[0] in s.current then s.current[s.order[0]] else 0;
    var m := MadeRoom(c, s, session);
    assert TimersOwned(s.entries, s.current, s.timers, s.nextTimer);
    assert TimersOwned(m.entries, m.current, m.timers, m.nextTimer);
    hide Inv, TimersOwned;
    if m != s {
      FinishOwn(c, s, x, true);
      FinishedFrame(c, s, x);
      hide Finished;
    }
  }

  lemma UnlistedFrame(s: State, x: EntryId)
    requires x < |s.entries|
    ensures var m := Unlisted(s, x); m == s.(current := m.current, order := m.order, timers := m.timers)
  {
    hide Removed;
  }

  lemma FinishedFrame(c: Config, s: State, x: EntryId)
    requires x < |s.entries|
    ensures var m := Finished(c, s, x, true);
            m == s.(current := m.current, order := m.order, timers := m.timers,
                    drawn := m.drawn, drawnOrder := m.drawnOrder)
  {
    UnlistedFrame(s, x);
    hide Unlisted, Remembered;
  }

  ghost function StartOf(s: State, r: Request, now: int): int
    requires forall id <- s.current :: s.current[id] < |s.entries|
  {
    if Holder(s, r.session).Some? then s.entries[Holder(s, r.session).value].startedAt
    else if r.startedAt.Some? then r.startedAt.value else now
  }

  lemma TrackedIs(c: Config, s: State, r: Request, now: int)
    requires WellFormed(s) && !s.stopping
    ensures var m := MadeRoom(c, s, r.session);
            |Added(m, r, StartOf(s, r, now)).entries| == |m.entries| + 1
            && Tracked(c, s, r, now) == Scheduled(c, Added(m, r, StartOf(s, r, now)), |m.entries|, r, now)
  {
    hide MadeRoom, Scheduled;
  }

  /** A track by an open tracker is a new entry with its timer. */
  lemma TrackJoins(c: Config, s: State, r: Request, now: int)
    requires c.Valid() && Inv(c, s) && !s.stopping
    ensures WellFormed(s)
    ensures var m, t := MadeRoom(c, s, r.session), Tracked(c, s, r, now);
            && RoomOf(s, m) && Joined(m, t, r.session)
            && t.nextResumeAt == (if r.view.None? then Some(SlotAt(c, s, now) + c.resumeGapMs) else s.nextResumeAt)
            && (r.view.None? ==> t.timers[s.nextTimer] == Timer(|s.entries|, SlotAt(c, s, now)))
  {
    hide Inv, MadeRoom, Joined, TimersOwned, Added, Scheduled, SlotAt, Tracked, StartOf, Fewer;
    RoomFrame(c, s, r.session);
    TrackedIs(c, s, r, now);
    var m := MadeRoom(c, s, r.session);
    AddedJoins(c, m, r, StartOf(s, r, now), now);
    FirstScheduled(c, m, r, StartOf(s, r, now), now);
    SameSlot(c, s, m, now);
  }

  lemma SameSlot(c: Config, s: State, m: State, now: int)
    requires m.nextResumeAt == s.nextResumeAt
    ensures SlotAt(c, m, now) == SlotAt(c, s, now)
  {
  }

  lemma FirstScheduled(c: Config, m: State, r: Request, startedAt: int, now: int)
    requires |Added(m, r, startedAt).entries| == |m.entries| + 1
    ensures var t := Scheduled(c, Added(m, r, startedAt), |m.entries|, r, now);
            if r.view.Some? then t.nextResumeAt == m.nextResumeAt
            else && t.nextResumeAt == Some(SlotAt(c, m, now) + c.resumeGapMs)
                 && m.nextTimer in t.timers && t.timers[m.nextTimer] == Timer(|m.entries|, SlotAt(c, m, now))
  {
    SameSlot(c, m, Added(m, r, startedAt), now);
    hide SlotAt, Removed;
  }

  lemma TrackWaits(c: Config, s: State, r: Request, now: int)
    requires c.Valid() && Inv(c, s) && !s.stopping && r.view.None?
    ensures WellFormed(s)
    ensures var t, due := Tracked(c, s, r, now), SlotAt(c, s, now);
            && s.nextTimer in t.timers && t.timers[s.nextTimer] == Timer(|s.entries|, due)
            && t.nextResumeAt == Some(due + c.resumeGapMs)
            && Waits(t, |s.entries|, s.nextTimer, due)
  {
    TrackJoins(c, s, r, now);
    OldOnes(c, s);
    hide Inv, Tracked, SlotAt, MadeRoom;
  }

  lemma FirstDueIs(c: Config, events: seq<Event>, i: nat)
    requires Resumes(c, events, i)
    ensures var s, t := Exec(c, events[..i]).value, Exec(c, events[..i + 1]).value;
            && FirstTimer(c, events, i) in t.timers
            && t.timers[FirstTimer(c, events, i)] == Timer(MadeBy(c, events, i), FirstDue(c, events, i))
            && t.nextResumeAt == Some(FirstDue(c, events, i) + c.resumeGapMs)
            && FirstDue(c, events, i) == SlotAt(c, s, events[i].now)
            && Waits(t, MadeBy(c, events, i), FirstTimer(c, events, i), FirstDue(c, events, i))
  {
    hide Exec, Tracked, SlotAt, Inv, Tended, Waits, WellFormed;
    ExecSteps(c, events, i);
    TrackWaits(c, Exec(c, events[..i]).value, events[i].request, events[i].now);
  }

  lemma OldOnes(c: Config, s: State)
    requires Inv(c, s)
    ensures forall u <- s.timers :: s.timers[u].entry < |s.entries|
    ensures Idle(s.attempts, |s.entries|)
  {
  }

  /** The time of the next first poll only grows. */
  lemma ResumeGrows(c: Config, s: State, e: Event)
    requires c.Valid() && Inv(c, s) && Tended(s) && Enabled(s, e) && s.nextResumeAt.Some?
    ensures WellFormed(s)
    ensures var t := Step(c, s, e); t.nextResumeAt.Some? && t.nextResumeAt.value >= s.nextResumeAt.value
  {
    hide Inv, Own, Joined, Fewer, MadeRoom, SlotAt;
    InvWellFormed(c, s);
    if OfAttempt(e) {
      assert Reported(s, e.attempt);
      hide Step, Reported;
      AttemptHandled(c, s, e, if e.Read? || e.Edit? then e.now else 0);
      OwnKept(s, Step(c, s, e), s.attempts[e.attempt].entry);
    } else if e.Track? && !s.stopping {
      hide Tracked;
      TrackJoins(c, s, e.request, e.now);
      SlotLater(c, s, e.now);
    } else {
      hide Tended;
    }
  }

  lemma SlotLater(c: Config, s: State, now: int)
    ensures SlotAt(c, s, now) >= now + c.firstPollMs
    ensures s.nextResumeAt.Some? ==> SlotAt(c, s, now) >= s.nextResumeAt.value
  {
  }

  lemma {:induction false} ResumeTimeGrows(c: Config, events: seq<Event>, i: nat, j: nat)
    requires c.Valid() && i <= j <= |events| && Exec(c, events[..j]).Some?
    ensures Exec(c, events[..i]).Some?
    ensures var s, t := Exec(c, events[..i]).value, Exec(c, events[..j]).value;
            s.nextResumeAt.Some? ==> t.nextResumeAt.Some? && t.nextResumeAt.value >= s.nextResumeAt.value
    decreases j
  {
    hide Exec, Inv, Tended, Step;
    if i < j {
      ExecSteps(c, events, j - 1);
      ResumeTimeGrows(c, events, i, j - 1);
      var m := Exec(c, events[..j - 1]).value;
      if m.nextResumeAt.Some? { ResumeGrows(c, m, events[j - 1]); }
    }
  }

  /** The first polls of recovered entries are due resumeGapMs apart, and each no sooner than firstPollMs. */
  lemma ResumesPaced(c: Config, events: seq<Event>, i: nat, j: nat)
    requires Resumes(c, events, i) && Resumes(c, events, j) && i < j
    ensures FirstDue(c, events, j) - FirstDue(c, events, i) >= c.resumeGapMs
    ensures FirstDue(c, events, i) >= events[i].now + c.firstPollMs
    ensures FirstDue(c, events, j) >= events[j].now + c.firstPollMs
  {
    FirstDueIs(c, events, i);
    FirstDueIs(c, events, j);
    ResumeTimeGrows(c, events, i + 1, j);
    hide Exec, FirstDue, Waits;
  }

  /** Nothing of the entry is outstanding but its first timer. */
  ghost predicate Waits(s: State, x: EntryId, first: nat, due: int) {
    && x < |s.entries| && Idle(s.attempts, x)
    && forall u <- s.timers :: s.timers[u].entry == x ==> u == first && s.timers[u].due == due
  }

  lemma OthersWait(s: State, t: State, y: EntryId, x: EntryId, first: nat, due: int)
    requires Own(s, t, y) && y != x && Waits(s, x, first, due)
    ensures Waits(t, x, first, due)
  {
  }

  lemma JoinedWaits(c: Config, s: State, r: Request, now: int, x: EntryId, first: nat, due: int)
    requires c.Valid() && Inv(c, s) && !s.stopping && Waits(s, x, first, due)
    ensures WellFormed(s) && Waits(Tracked(c, s, r, now), x, first, due)
  {
    TrackJoins(c, s, r, now);
    hide Inv, Tracked, SlotAt, MadeRoom, Idle;
  }

  lemma StepWaits(c: Config, s: State, e: Event, x: EntryId, first: nat, due: int)
    requires c.Valid() && Inv(c, s) && Tended(s) && WellFormed(s) && Enabled(s, e) && Waits(s, x, first, due)
    requires e.Fire? ==> s.timers[e.timer].entry != x
    ensures Waits(Step(c, s, e), x, first, due)
  {
    if OfAttempt(e) {
      assert Reported(s, e.attempt);
      assert s.attempts[e.attempt].entry != x;
      hide Inv, Step, Own, Waits;
      AttemptHandled(c, s, e, if e.Read? || e.Edit? then e.now else 0);
      OthersWait(s, Step(c, s, e), s.attempts[e.attempt].entry, x, first, due);
    } else if e.Track? && !s.stopping {
      hide Tended, Inv, Waits, Tracked, WellFormed;
      JoinedWaits(c, s, e.request, e.now, x, first, due);
    } else if e.Fire? {
      hide Tended, Inv, Waits, WellFormed, Fired;
      FiredWaits(s, e.timer, x, first, due);
    } else {
      hide Inv, Tended, WellFormed, Idle;
    }
  }

  lemma FiredWaits(s: State, u: nat, x: EntryId, first: nat, due: int)
    requires u in s.timers && s.timers[u].entry < |s.entries| && s.timers[u].entry != x && Waits(s, x, first, due)
    ensures Waits(Fired(s, u), x, first, due)
  {
  }

  /** No poll of the entry the i-th event made is among the events up to the k-th. */
  ghost predicate NotPolled(c: Config, events: seq<Event>, i: nat, k: nat)
    requires Resumes(c, events, i)
  {
    forall m: nat :: i < m < k ==> !Polls(c, events, m, MadeBy(c, events, i))
  }

  /** The m-th event is a poll of the entry. */
  ghost predicate Polls(c: Config, events: seq<Event>, m: nat, x: EntryId) {
    && m < |events| && events[m].Fire? && Exec(c, events[..m]).Some?
    && var timers := Exec(c, events[..m]).value.timers;
      events[m].timer in timers && timers[events[m].timer].entry == x
  }

  lemma {:induction false} WaitsForFirst(c: Config, events: seq<Event>, i: nat, k: nat)
    requires Resumes(c, events, i) && i < k <= |events| && Exec(c, events[..k]).Some? && NotPolled(c, events, i, k)
    ensures Waits(Exec(c, events[..k]).value, MadeBy(c, events, i), FirstTimer(c, events, i), FirstDue(c, events, i))
    decreases k
  {
    hide Exec, Inv, Tended, Step, Waits, FirstDue;
    if k == i + 1 {
      FirstDueIs(c, events, i);
    } else {
      ExecSteps(c, events, k - 1);
      WaitsForFirst(c, events, i, k - 1);
      var s, e, x := Exec(c, events[..k - 1]).value, events[k - 1], MadeBy(c, events, i);
      assert !Polls(c, events, k - 1, x);
      hide MadeBy, FirstTimer, Resumes;
      StepWaits(c, s, e, x, FirstTimer(c, events, i), FirstDue(c, events, i));
    }
  }

  /** The first poll of a recovered entry fires at its slot or later: never before firstPollMs from its track. */
  lemma FirstPollInItsSlot(c: Config, events: seq<Event>, i: nat, k: nat)
    requires Resumes(c, events, i) && i < k < |events| && Exec(c, events[..k + 1]).Some?
    requires NotPolled(c, events, i, k) && Polls(c, events, k, MadeBy(c, events, i))
    ensures events[k].timer == FirstTimer(c, events, i)
    ensures events[k].now >= FirstDue(c, events, i) >= events[i].now + c.firstPollMs
  {
    ExecSteps(c, events, k);
    WaitsForFirst(c, events, i, k);
    FirstDueIs(c, events, i);
    hide Exec, FirstDue, MadeBy, FirstTimer, Inv, Tended, Step;
  }

  // ----- the deadline of a session followed without a break

  /** Every event but `track` only lets entries go; `track` of another session can evict one. */
  lemma StepKeepsStart(c: Config, s: State, e: Event, id: SessionId)
    requires c.Valid() && Inv(c, s) && Tended(s) && WellFormed(s) && Enabled(s, e)
    requires id in s.current && id in Step(c, s, e).current
    ensures var t := Step(c, s, e);
            t.current[id] < |t.entries| && t.entries[t.current[id]].startedAt == s.entries[s.current[id]].startedAt
  {
    hide Own, Inv;
    if OfAttempt(e) {
      assert Reported(s, e.attempt);
      hide Step, Tended, WellFormed;
      var t := Step(c, s, e);
      AttemptHandled(c, s, e, if e.Read? || e.Edit? then e.now else 0);
      OwnKept(s, t, s.attempts[e.attempt].entry);
      OwnStarts(s, t, s.attempts[e.attempt].entry, s.current[id]);
    } else if e.Track? {
      hide Tended, Tracked;
      TrackKeepsStart(c, s, e.request, e.now, id);
    } else {
      hide Tended, Fired, StopAsked;
      OthersStart(s, e);
    }
  }

  lemma OthersStart(s: State, e: Event)
    requires WellFormed(s) && Enabled(s, e) && (e.Fire? || e.Stop? || e.Drained?)
    ensures var t := if e.Fire? then Fired(s, e.timer)
                     else if e.Stop? then StopAsked(s)
                     else s.(current := map[], order := []);
            && |t.entries| == |s.entries|
            && (forall x: nat :: x < |s.entries| ==> t.entries[x].startedAt == s.entries[x].startedAt)
            && forall id <- t.current :: id in s.current && t.current[id] == s.current[id]
  {
  }

  lemma OwnStarts(s: State, t: State, x: EntryId, y: EntryId)
    requires Own(s, t, x) && y < |s.entries|
    ensures y < |t.entries| && t.entries[y].startedAt == s.entries[y].startedAt
  {
  }

  lemma TrackKeepsStart(c: Config, s: State, r: Request, now: int, id: SessionId)
    requires WellFormed(s) && id in s.current && id in Tracked(c, s, r, now).current
    ensures var t := Tracked(c, s, r, now);
            t.current[id] < |t.entries| && t.entries[t.current[id]].startedAt == s.entries[s.current[id]].startedAt
  {
    hide Removed, SlotAt;
    if !s.stopping {
      RoomKeepsOthers(c, s, r.session);
      hide MadeRoom, Remembered;
    }
  }

  lemma RoomKeepsOthers(c: Config, s: State, session: SessionId)
    requires WellFormed(s)
    ensures var m := MadeRoom(c, s, session);
            m.entries == s.entries && forall id <- m.current :: id in s.current && m.current[id] == s.current[id]
  {
    hide Finished;
    var x := if session in s.current then s.current[session]
             else if s.order != [] && s.order[0] in s.current then s.current[s.order[0]] else 0;
    if x < |s.entries| { FinishKeepsOthers(c, s, x); }
  }

  lemma FinishKeepsOthers(c: Config, s: State, x: EntryId)
    requires x < |s.entries|
    ensures var m := Finished(c, s, x, true);
            forall id <- m.current :: id in s.current && m.current[id] == s.current[id]
  {
    hide Removed, Remembered;
  }

  /** The session had an entry after each of the events from the `from`-th on. */
  ghost predicate Followed(c: Config, events: seq<Event>, from: nat, id: SessionId) {
    && from <= |events|
    && Exec(c, events).Some?
    && id in Exec(c, events).value.current
    && (from < |events| ==> Followed(c, events[..|events| - 1], from, id))
  }

  ghost function DeadlineStart(s: State, id: SessionId): Option<int> {
    if id in s.current && s.current[id] < |s.entries| then Some(s.entries[s.current[id]].startedAt) else None
  }

  /** While a session is followed without a break, however often it moves to a new message, its
      deadline keeps counting from its first track. */
  lemma {:induction false} DeadlineKept(c: Config, events: seq<Event>, from: nat, id: SessionId)
    requires c.Valid() && Followed(c, events, from, id)
    ensures Exec(c, events[..from]).Some? && DeadlineStart(Exec(c, events[..from]).value, id).Some?
    ensures DeadlineStart(Exec(c, events).value, id) == DeadlineStart(Exec(c, events[..from]).value, id)
    decreases |events|
  {
    hide Inv, Step;
    ExecKeeps(c, events);
    InvWellFormed(c, Exec(c, events).value);
    if from == |events| {
      assert events[..from] == events;
    } else {
      var init, e := events[..|events| - 1], events[|events| - 1];
      DeadlineKept(c, init, from, id);
      assert init[..from] == events[..from];
      ExecKeeps(c, init);
      ExecTends(c, init);
      hide Inv, Tended, Step;
      StepKeepsStart(c, Exec(c, init).value, e, id);
    }
  }
}
