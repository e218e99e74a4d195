/** What the session tracker keeps over every run, and its promises. */
module SessionTrackerProofs {
  import opened Wrappers
  import opened MapOrder
  import opened SessionTracker

  // ----- the invariant, part by part

  ghost predicate Indexed(entries: seq<Entry>, current: map<SessionId, EntryId>, order: seq<SessionId>) {
    && (forall id <- current :: current[id] < |entries| && entries[current[id]].session == id)
    && (forall id :: id in order <==> id in current)
  }

  /** Each timer is the one its entry knows, and its entry is still its session's. */
  ghost predicate TimersOwned(entries: seq<Entry>, current: map<SessionId, EntryId>, timers: map<nat, Timer>,
                              next: nat) {
    && (forall t <- timers :: Holds(entries, current, timers[t].entry) && entries[timers[t].entry].timer == Some(t))
    && (forall e | 0 <= e < |entries| && entries[e].timer.Some? ::
          var t := entries[e].timer.value;
          t < next && (t in timers ==> timers[t].entry == e))
  }

  /** At most one timer or attempt of an entry is outstanding. */
  ghost predicate OneAtATime(n: nat, timers: map<nat, Timer>, attempts: map<nat, Attempt>, next: nat) {
    && (forall t, u | t in timers && u in timers && timers[t].entry == timers[u].entry :: t == u)
    && (forall a, b | a in attempts && b in attempts && attempts[a].entry == attempts[b].entry :: a == b)
    && (forall t, a | t in timers && a in attempts :: timers[t].entry != attempts[a].entry)
    && (forall a <- attempts :: a < next && attempts[a].entry < n)
  }

  ghost predicate Idle(attempts: map<nat, Attempt>, e: EntryId) {
    forall a <- attempts :: attempts[a].entry != e
  }

  /** Once its summary was sent an entry only waits for it to end, and then it is nobody's. */
  ghost predicate Retired(entries: seq<Entry>, current: map<SessionId, EntryId>, attempts: map<nat, Attempt>,
                          e: EntryId) {
    && e < |entries|
    && (forall a <- attempts :: attempts[a].entry == e ==> attempts[a].stage.Summing?)
    && (Idle(attempts, e) ==> !Holds(entries, current, e))
  }

  ghost predicate SummedOnce(entries: seq<Entry>, current: map<SessionId, EntryId>, attempts: map<nat, Attempt>,
                             summaries: seq<SummarySent>) {
    && (forall i | 0 <= i < |summaries| :: Retired(entries, current, attempts, summaries[i].entry))
    && (forall i, j | 0 <= i < j < |summaries| :: summaries[i].entry != summaries[j].entry)
  }

  ghost predicate SummaryJustified(m: SummarySent) {
    m.view.finished && m.view.noticesDone && m.rendered == Drawing(m.view.drawing)
  }

  /** An edit goes out only for the session's own entry, only for a change, and on a message nothing is
      known of only once the session stopped. */
  ghost predicate EditJustified(m: EditSent) {
    && m.holder == Some(m.entry)
    && (m.view.Some? ==>
          && m.before != Drawing(m.view.value.drawing)
          && (m.before != Nothing || m.view.value.stopped))
  }

  ghost predicate Justified(summaries: seq<SummarySent>, edits: seq<EditSent>) {
    && (forall i | 0 <= i < |summaries| :: SummaryJustified(summaries[i]))
    && (forall i | 0 <= i < |edits| :: EditJustified(edits[i]))
  }

  /** The memory of what was drawn: of other sessions than the tracked ones, bounded like them. */
  ghost predicate MemoryBounded(max: nat, current: map<SessionId, EntryId>, drawn: map<SessionId, Memo>,
                                order: seq<SessionId>) {
    && |current| <= max
    && |drawn| <= max
    && Apart(current, drawn)
    && Listed(drawn, order)
  }

  ghost predicate Apart(current: map<SessionId, EntryId>, drawn: map<SessionId, Memo>) {
    forall id <- drawn :: id !in current && drawn[id].rendered != Nothing
  }

  ghost predicate Listed(drawn: map<SessionId, Memo>, order: seq<SessionId>) {
    (forall id :: id in order <==> id in drawn) && NoRepeats(order)
  }

  ghost predicate Inv(c: Config, s: State) {
    && Indexed(s.entries, s.current, s.order)
    && TimersOwned(s.entries, s.current, s.timers, s.nextTimer)
    && (s.stopping ==> s.timers == map[])
    && OneAtATime(|s.entries|, s.timers, s.attempts, s.nextAttempt)
    && SummedOnce(s.entries, s.current, s.attempts, s.summaries)
    && Justified(s.summaries, s.edits)
    && MemoryBounded(c.maxEntries, s.current, s.drawn, s.drawnOrder)
  }

  lemma InvWellFormed(c: Config, s: State)
    requires Inv(c, s)
    ensures WellFormed(s)
  {
  }

  // ----- the pieces the events are made of

  predicate SameIdentity(a: seq<Entry>, b: seq<Entry>) {
    |a| == |b| && forall e | 0 <= e < |a| :: a[e].session == b[e].session && a[e].timer == b[e].timer
  }

  lemma RetiredFrame(entries: seq<Entry>, entries': seq<Entry>, current: map<SessionId, EntryId>,
                     attempts: map<nat, Attempt>, summaries: seq<SummarySent>)
    requires |entries| <= |entries'| && forall e | 0 <= e < |entries| :: entries'[e].session == entries[e].session
    requires SummedOnce(entries, current, attempts, summaries)
    ensures SummedOnce(entries', current, attempts, summaries)
  {
    hide Idle;
    assert forall e | 0 <= e < |entries| :: Holds(entries', current, e) == Holds(entries, current, e);
  }

  /** An entry's fields other than its session and timer. */
  lemma EntryKeeps(c: Config, s: State, e: EntryId, entry: Entry)
    requires Inv(c, s) && e < |s.entries|
    requires entry.session == s.entries[e].session && entry.timer == s.entries[e].timer
    ensures Inv(c, s.(entries := s.entries[e := entry]))
  {
    hide Indexed, TimersOwned, OneAtATime, SummedOnce, Justified, MemoryBounded;
    var entries := s.entries[e := entry];
    assert SameIdentity(s.entries, entries);
    RetiredFrame(s.entries, entries, s.current, s.attempts, s.summaries);
    IndexFrame(s.entries, entries, s.current, s.order);
    OwnedFrame(s.entries, entries, s.current, s.timers, s.nextTimer);
  }

  lemma OwnedFrame(entries: seq<Entry>, entries': seq<Entry>, current: map<SessionId, EntryId>,
                   timers: map<nat, Timer>, next: nat)
    requires SameIdentity(entries, entries') && TimersOwned(entries, current, timers, next)
    ensures TimersOwned(entries', current, timers, next)
  {
    assert forall x | 0 <= x < |entries| :: Holds(entries', current, x) == Holds(entries, current, x);
  }

  lemma OverRetires(entries: seq<Entry>, current: map<SessionId, EntryId>, attempts: map<nat, Attempt>,
                    summaries: seq<SummarySent>, a: nat)
    requires SummedOnce(entries, current, attempts, summaries) && a in attempts
    requires attempts[a].stage.Summing? ==> !Holds(entries, current, attempts[a].entry)
    ensures SummedOnce(entries, current, attempts - {a}, summaries)
  {
    forall i | 0 <= i < |summaries|
      ensures Retired(entries, current, attempts - {a}, summaries[i].entry)
    {
      var x := summaries[i].entry;
      assert Retired(entries, current, attempts, x);
      if x != attempts[a].entry && Idle(attempts - {a}, x) {
        assert Idle(attempts, x) by {
          forall b <- attempts
            ensures attempts[b].entry != x
          {
            assert b == a || b in attempts - {a};
          }
        }
      }
    }
  }

  /** An attempt's end. */
  lemma OverKeeps(c: Config, s: State, a: nat)
    requires Inv(c, s) && a in s.attempts
    requires s.attempts[a].stage.Summing? ==> !Current(s, s.attempts[a].entry)
    ensures Inv(c, Over(s, a))
  {
    OverRetires(s.entries, s.current, s.attempts, s.summaries, a);
    hide Indexed, TimersOwned, SummedOnce, Justified, MemoryBounded;
  }

  lemma AtRetires(entries: seq<Entry>, current: map<SessionId, EntryId>, attempts: map<nat, Attempt>,
                  summaries: seq<SummarySent>, a: nat, stage: Stage)
    requires SummedOnce(entries, current, attempts, summaries) && a in attempts && !attempts[a].stage.Summing?
    ensures SummedOnce(entries, current, attempts[a := attempts[a].(stage := stage)], summaries)
    ensures forall i | 0 <= i < |summaries| :: summaries[i].entry != attempts[a].entry
  {
    var attempts' := attempts[a := attempts[a].(stage := stage)];
    forall i | 0 <= i < |summaries|
      ensures Retired(entries, current, attempts', summaries[i].entry) && summaries[i].entry != attempts[a].entry
    {
      var x := summaries[i].entry;
      assert Retired(entries, current, attempts, x);
      assert x != attempts[a].entry;
      if Idle(attempts', x) {
        assert forall b <- attempts :: b in attempts' && attempts'[b].entry == attempts[b].entry;
        assert Idle(attempts, x);
      }
    }
  }

  /** An attempt goes on to its next await. */
  lemma AtKeeps(c: Config, s: State, a: nat, stage: Stage)
    requires Inv(c, s) && a in s.attempts && !s.attempts[a].stage.Summing?
    ensures Inv(c, At(s, a, stage))
  {
    AtRetires(s.entries, s.current, s.attempts, s.summaries, a, stage);
    hide Indexed, TimersOwned, SummedOnce, Justified, MemoryBounded;
    var t := At(s, a, stage);
    assert forall b <- s.attempts :: t.attempts[b].entry == s.attempts[b].entry;
  }

  lemma SentKeeps(c: Config, s: State, a: nat, stage: Stage, view: Option<View>)
    requires Inv(c, s) && a in s.attempts && s.attempts[a].entry < |s.entries| && !s.attempts[a].stage.Summing?
    requires Current(s, s.attempts[a].entry)
    requires view.Some? ==> var entry := s.entries[s.attempts[a].entry];
                            entry.rendered != Drawing(view.value.drawing) && MayDraw(entry, view.value)
    ensures Inv(c, Sent(s, a, stage, view))
  {
    AtKeeps(c, s, a, stage);
    hide Indexed, TimersOwned, OneAtATime, SummedOnce, MemoryBounded;
  }

  lemma SummedKeeps(c: Config, s: State, a: nat, view: View)
    requires Inv(c, s) && a in s.attempts && s.attempts[a].entry < |s.entries| && !s.attempts[a].stage.Summing?
    requires SummaryDue(s.entries[s.attempts[a].entry], view)
    ensures Inv(c, Summed(s, a, view))
  {
    hide Indexed, TimersOwned, MemoryBounded;
    AtKeeps(c, s, a, Summing);
    AtRetires(s.entries, s.current, s.attempts, s.summaries, a, Summing);
    var t := Summed(s, a, view);
    SummingRetires(s, a);
    hide OneAtATime, Retired;
  }

  lemma SummingRetires(s: State, a: nat)
    requires OneAtATime(|s.entries|, s.timers, s.attempts, s.nextAttempt) && a in s.attempts
    ensures Retired(s.entries, s.current, At(s, a, Summing).attempts, s.attempts[a].entry)
  {
    var t := At(s, a, Summing);
    assert forall b <- t.attempts :: b in s.attempts && t.attempts[b].entry == s.attempts[b].entry;
    assert a in t.attempts;
  }

  // ----- `finish`

  lemma MemoryDrops(max: nat, current: map<SessionId, EntryId>, drawn: map<SessionId, Memo>, order: seq<SessionId>,
                    id: SessionId)
    requires MemoryBounded(max, current, drawn, order)
    ensures MemoryBounded(max, current - {id}, drawn, order)
    ensures id in current ==> |current - {id}| == |current| - 1
  {
    hide NoRepeats;
    assert (current - {id}).Keys == current.Keys - {id};
  }

  lemma MemoryEvicts(max: nat, current: map<SessionId, EntryId>, drawn: map<SessionId, Memo>, order: seq<SessionId>)
    requires MemoryBounded(max + 1, current, drawn, order) && |current| <= max && order != []
    ensures MemoryBounded(max, current, drawn - {order[0]}, order[1..])
  {
    var oldest := order[0];
    assert oldest in order;
    assert (drawn - {oldest}).Keys == drawn.Keys - {oldest};
    assert forall x :: x in order[1..] <==> x in order && x != oldest;
  }

  lemma MemoryAdds(max: nat, current: map<SessionId, EntryId>, drawn: map<SessionId, Memo>, order: seq<SessionId>,
                   id: SessionId, memo: Memo)
    requires MemoryBounded(max, current, drawn, order) && id !in current && memo.rendered != Nothing
    ensures var drawn', order' := drawn[id := memo], Removed(order, id) + [id];
            MemoryBounded(if |drawn'| > max then max + 1 else max, current, drawn', order')
  {
    hide Removed, NoRepeats;
    RemovedNoRepeats(order, id);
    NoRepeatsCons(id, Removed(order, id));
    var drawn', order' := drawn[id := memo], Removed(order, id) + [id];
    assert |drawn'| <= |drawn| + 1 by {
      hide MemoryBounded;
      assert drawn'.Keys == drawn.Keys + {id};
    }
    assert Apart(current, drawn') by { hide Listed; }
    assert Listed(drawn', order') by { hide Apart; }
    hide Apart, Listed;
  }

  lemma MemoryGrows(c: Config, s: State, id: SessionId, memo: Memo)
    requires c.Valid() && MemoryBounded(c.maxEntries, s.current, s.drawn, s.drawnOrder)
    requires id !in s.current && memo.rendered != Nothing
    ensures var t := Remembered(c, s, id, memo); MemoryBounded(c.maxEntries, t.current, t.drawn, t.drawnOrder)
  {
    assert |s.current| <= c.maxEntries;
    MemoryAdds(c.maxEntries, s.current, s.drawn, s.drawnOrder, id, memo);
    hide MemoryBounded;
    var drawn, order := s.drawn[id := memo], Removed(s.drawnOrder, id) + [id];
    if |drawn| > c.maxEntries {
      MemoryEvicts(c.maxEntries, s.current, drawn, order);
    }
  }

  lemma FinishOwned(entries: seq<Entry>, current: map<SessionId, EntryId>, timers: map<nat, Timer>, next: nat,
                    e: EntryId)
    requires TimersOwned(entries, current, timers, next) && e < |entries|
    ensures var timers' := if entries[e].timer.Some? then timers - {entries[e].timer.value} else timers;
            && TimersOwned(entries, current, timers', next)
            && (Holds(entries, current, e) ==> TimersOwned(entries, current - {entries[e].session}, timers', next))
  {
    var timers' := if entries[e].timer.Some? then timers - {entries[e].timer.value} else timers;
    var current' := current - {entries[e].session};
    if Holds(entries, current, e) {
      forall t <- timers'
        ensures Holds(entries, current', timers'[t].entry)
      {
        assert t in timers;
        assert timers[t].entry != e;
      }
    }
  }

  lemma FinishRetires(entries: seq<Entry>, current: map<SessionId, EntryId>, attempts: map<nat, Attempt>,
                      summaries: seq<SummarySent>, id: SessionId)
    requires SummedOnce(entries, current, attempts, summaries)
    ensures SummedOnce(entries, current - {id}, attempts, summaries)
  {
    hide Idle;
    forall i | 0 <= i < |summaries|
      ensures Retired(entries, current - {id}, attempts, summaries[i].entry)
    {
      assert Retired(entries, current, attempts, summaries[i].entry);
    }
  }

  lemma TimersDrop(n: nat, timers: map<nat, Timer>, attempts: map<nat, Attempt>, next: nat, t: nat)
    requires OneAtATime(n, timers, attempts, next)
    ensures OneAtATime(n, timers - {t}, attempts, next)
  {
  }

  lemma IndexDrops(entries: seq<Entry>, current: map<SessionId, EntryId>, order: seq<SessionId>, id: SessionId)
    requires Indexed(entries, current, order)
    ensures Indexed(entries, current - {id}, Removed(order, id))
  {
    hide Removed;
  }

  lemma UnlistKeeps(c: Config, s: State, e: EntryId)
    requires Inv(c, s) && e < |s.entries|
    ensures Inv(c, Unlisted(s, e)) && !Current(Unlisted(s, e), e)
  {
    hide Indexed, TimersOwned, OneAtATime, SummedOnce, Justified, MemoryBounded, Removed;
    var id := s.entries[e].session;
    FinishOwned(s.entries, s.current, s.timers, s.nextTimer, e);
    if s.entries[e].timer.Some? {
      TimersDrop(|s.entries|, s.timers, s.attempts, s.nextAttempt, s.entries[e].timer.value);
      assert s.stopping ==> s.timers - {s.entries[e].timer.value} == map[];
    }
    if Current(s, e) {
      FinishRetires(s.entries, s.current, s.attempts, s.summaries, id);
      MemoryDrops(c.maxEntries, s.current, s.drawn, s.drawnOrder, id);
      IndexDrops(s.entries, s.current, s.order, id);
    }
  }

  lemma FinishKeeps(c: Config, s: State, e: EntryId, remember: bool)
    requires c.Valid() && Inv(c, s) && e < |s.entries|
    ensures Inv(c, Finished(c, s, e, remember)) && !Current(Finished(c, s, e, remember), e)
  {
    hide Indexed, TimersOwned, OneAtATime, SummedOnce, Justified, MemoryBounded, Removed, Remembered;
    UnlistKeeps(c, s, e);
    var entry := s.entries[e];
    if Current(s, e) && remember && entry.rendered != Nothing {
      MemoryGrows(c, Unlisted(s, e), entry.session, Memo(entry.message, entry.rendered));
    }
  }

  // ----- `arm` and the timers

  lemma ArmOwned(entries: seq<Entry>, current: map<SessionId, EntryId>, timers: map<nat, Timer>, next: nat,
                 e: EntryId, due: int)
    requires TimersOwned(entries, current, timers, next) && Holds(entries, current, e)
    requires forall t <- timers :: timers[t].entry != e
    ensures var entries' := entries[e := entries[e].(timer := Some(next))];
            TimersOwned(entries', current, timers[next := Timer(e, due)], next + 1)
  {
    var entries' := entries[e := entries[e].(timer := Some(next))];
    assert forall x | 0 <= x < |entries| :: Holds(entries', current, x) == Holds(entries, current, x);
  }

  /** The entry's next timer, set by an attempt that ends with it or by `track`. */
  lemma ArmKeeps(c: Config, s: State, e: EntryId, due: int)
    requires Inv(c, s) && Live(s, e) && Idle(s.attempts, e)
    requires forall t <- s.timers :: s.timers[t].entry != e
    ensures Inv(c, Armed(s, e, due))
  {
    hide Indexed, TimersOwned, OneAtATime, SummedOnce, Justified, MemoryBounded, Idle;
    var t := Armed(s, e, due);
    ArmOwned(s.entries, s.current, s.timers, s.nextTimer, e, due);
    ArmOne(|s.entries|, s.timers, s.attempts, s.nextAttempt, s.nextTimer, Timer(e, due));
    assert forall x | 0 <= x < |s.entries| :: t.entries[x].session == s.entries[x].session;
    RetiredFrame(s.entries, t.entries, s.current, s.attempts, s.summaries);
    IndexFrame(s.entries, t.entries, s.current, s.order);
  }

  lemma ArmOne(n: nat, timers: map<nat, Timer>, attempts: map<nat, Attempt>, next: nat, t: nat, timer: Timer)
    requires OneAtATime(n, timers, attempts, next) && Idle(attempts, timer.entry)
    requires forall u <- timers :: timers[u].entry != timer.entry
    ensures OneAtATime(n, timers[t := timer], attempts, next)
  {
  }

  lemma IndexFrame(entries: seq<Entry>, entries': seq<Entry>, current: map<SessionId, EntryId>, order: seq<SessionId>)
    requires |entries| == |entries'| && forall e | 0 <= e < |entries| :: entries'[e].session == entries[e].session
    requires Indexed(entries, current, order)
    ensures Indexed(entries', current, order)
  {
  }

  lemma FireOwned(entries: seq<Entry>, current: map<SessionId, EntryId>, timers: map<nat, Timer>, next: nat, t: nat)
    requires TimersOwned(entries, current, timers, next) && t in timers
    ensures var e := timers[t].entry;
            TimersOwned(entries[e := entries[e].(timer := None)], current, timers - {t}, next)
  {
    var e := timers[t].entry;
    var entries' := entries[e := entries[e].(timer := None)];
    assert forall x | 0 <= x < |entries| :: Holds(entries', current, x) == Holds(entries, current, x);
  }

  lemma FireRetires(entries: seq<Entry>, current: map<SessionId, EntryId>, attempts: map<nat, Attempt>,
                    summaries: seq<SummarySent>, a: nat, e: EntryId)
    requires SummedOnce(entries, current, attempts, summaries) && a !in attempts
    requires Holds(entries, current, e) && Idle(attempts, e)
    ensures SummedOnce(entries, current, attempts[a := Attempt(e, Reading)], summaries)
  {
    var attempts' := attempts[a := Attempt(e, Reading)];
    forall i | 0 <= i < |summaries|
      ensures Retired(entries, current, attempts', summaries[i].entry)
    {
      var x := summaries[i].entry;
      assert Retired(entries, current, attempts, x) && x != e;
      if Idle(attempts', x) {
        assert Idle(attempts, x) by {
          assert forall b <- attempts :: b in attempts' && attempts'[b] == attempts[b];
        }
      }
    }
  }

  lemma FireKeeps(c: Config, s: State, t: nat)
    requires Inv(c, s) && t in s.timers
    ensures s.timers[t].entry < |s.entries|
    ensures Inv(c, Fired(s, t))
  {
    assert s.timers != map[];
    hide Indexed, TimersOwned, OneAtATime, SummedOnce, Justified, MemoryBounded, Idle, Holds;
    FireReady(s, t);
    FiredParts(s, t);
  }

  lemma FiredParts(s: State, t: nat)
    requires t in s.timers && s.timers[t].entry < |s.entries|
    requires Indexed(s.entries, s.current, s.order) && TimersOwned(s.entries, s.current, s.timers, s.nextTimer)
    requires OneAtATime(|s.entries|, s.timers, s.attempts, s.nextAttempt)
    requires SummedOnce(s.entries, s.current, s.attempts, s.summaries)
    requires Holds(s.entries, s.current, s.timers[t].entry) && Idle(s.attempts, s.timers[t].entry)
    requires s.nextAttempt !in s.attempts
    ensures var u := Fired(s, t);
            && Indexed(u.entries, u.current, u.order) && TimersOwned(u.entries, u.current, u.timers, u.nextTimer)
            && OneAtATime(|u.entries|, u.timers, u.attempts, u.nextAttempt)
            && SummedOnce(u.entries, u.current, u.attempts, u.summaries)
  {
    hide Indexed, TimersOwned, OneAtATime, SummedOnce, Idle, Holds;
    var u := Fired(s, t);
    FireOwned(s.entries, s.current, s.timers, s.nextTimer, t);
    FireRetires(s.entries, s.current, s.attempts, s.summaries, s.nextAttempt, s.timers[t].entry);
    FiredSessions(s, t);
    RetiredFrame(s.entries, u.entries, s.current, u.attempts, s.summaries);
    FireOne(|s.entries|, s.timers, s.attempts, s.nextAttempt, t);
    IndexFrame(s.entries, u.entries, s.current, s.order);
  }

  lemma FiredSessions(s: State, t: nat)
    requires t in s.timers && s.timers[t].entry < |s.entries|
    ensures var u := Fired(s, t);
            && |u.entries| == |s.entries|
            && forall x | 0 <= x < |s.entries| :: u.entries[x].session == s.entries[x].session
  {
  }

  lemma FireReady(s: State, t: nat)
    requires TimersOwned(s.entries, s.current, s.timers, s.nextTimer) && t in s.timers
    requires OneAtATime(|s.entries|, s.timers, s.attempts, s.nextAttempt)
    ensures var e := s.timers[t].entry;
            Holds(s.entries, s.current, e) && Idle(s.attempts, e) && s.nextAttempt !in s.attempts
  {
  }

  lemma FireOne(n: nat, timers: map<nat, Timer>, attempts: map<nat, Attempt>, next: nat, t: nat)
    requires OneAtATime(n, timers, attempts, next) && t in timers && timers[t].entry < n
    ensures OneAtATime(n, timers - {t}, attempts[next := Attempt(timers[t].entry, Reading)], next + 1)
  {
  }

  // ----- `track`

  lemma MakeRoomKeeps(c: Config, s: State, session: SessionId)
    requires c.Valid() && Inv(c, s)
    ensures WellFormed(s)
    ensures var t := MadeRoom(c, s, session);
            && Inv(c, t) && session !in t.current && |t.current| < c.maxEntries
            && t.entries == s.entries && t.stopping == s.stopping && t.attempts == s.attempts
  {
    InvWellFormed(c, s);
    assert |s.current| <= c.maxEntries;
    if session in s.current {
      var e := s.current[session];
      assert Current(s, e);
      RoomMade(c, s, e);
    } else if |s.current| >= c.maxEntries {
      SomeoneIsOldest(s);
      var e := s.current[s.order[0]];
      assert Current(s, e);
      RoomMade(c, s, e);
    }
  }

  lemma SomeoneIsOldest(s: State)
    requires Indexed(s.entries, s.current, s.order) && |s.current| > 0
    ensures s.order != [] && s.order[0] in s.current
  {
    assert |s.current.Keys| > 0;
    var id :| id in s.current.Keys;
    assert id in s.order;
    assert s.order[0] in s.order;
  }

  lemma RoomMade(c: Config, s: State, e: EntryId)
    requires c.Valid() && Inv(c, s) && Current(s, e)
    ensures var t := Finished(c, s, e, true);
            && Inv(c, t) && t.stopping == s.stopping
            && t.current == s.current - {s.entries[e].session} && |t.current| == |s.current| - 1
  {
    hide Indexed, TimersOwned, OneAtATime, SummedOnce, Justified, MemoryBounded, Finished;
    MemoryDrops(c.maxEntries, s.current, s.drawn, s.drawnOrder, s.entries[e].session);
    FinishKeeps(c, s, e, true);
    FinishFrame(c, s, e);
  }

  lemma FinishFrame(c: Config, s: State, e: EntryId)
    requires Current(s, e)
    ensures var t := Finished(c, s, e, true);
            t.stopping == s.stopping && t.current == s.current - {s.entries[e].session}
  {
    hide Removed, Remembered;
  }

  lemma AddedIndexed(s: State, r: Request, startedAt: int)
    requires Indexed(s.entries, s.current, s.order)
    ensures var t := Added(s, r, startedAt); Indexed(t.entries, t.current, t.order)
  {
    hide Removed;
  }

  lemma AddedOwned(s: State, r: Request, startedAt: int)
    requires TimersOwned(s.entries, s.current, s.timers, s.nextTimer) && r.session !in s.current
    ensures var t := Added(s, r, startedAt); TimersOwned(t.entries, t.current, t.timers, t.nextTimer)
  {
    var t := Added(s, r, startedAt);
    assert forall e | 0 <= e < |s.entries| :: t.entries[e] == s.entries[e];
  }

  lemma AddedRetires(s: State, r: Request, startedAt: int)
    requires SummedOnce(s.entries, s.current, s.attempts, s.summaries)
    ensures var t := Added(s, r, startedAt); SummedOnce(t.entries, t.current, t.attempts, t.summaries)
  {
    hide Idle;
    var t := Added(s, r, startedAt);
    forall i | 0 <= i < |s.summaries|
      ensures Retired(t.entries, t.current, t.attempts, s.summaries[i].entry)
    {
      assert Retired(s.entries, s.current, s.attempts, s.summaries[i].entry);
    }
  }

  lemma MemoryForgets(max: nat, current: map<SessionId, EntryId>, drawn: map<SessionId, Memo>, order: seq<SessionId>,
                      id: SessionId, e: EntryId)
    requires MemoryBounded(max, current, drawn, order) && |current| < max
    ensures MemoryBounded(max, current[id := e], drawn - {id}, Removed(order, id))
  {
    PutSize(current, id, e);
    if id in drawn { DropSize(drawn, id); }
    assert id !in drawn ==> drawn - {id} == drawn;
    RemovedNoRepeats(order, id);
    hide Removed, NoRepeats;
    assert Apart(current[id := e], drawn - {id}) by { hide Listed; }
    assert Listed(drawn - {id}, Removed(order, id)) by { hide Apart; }
    hide Apart, Listed;
  }

  lemma AddedAlone(s: State)
    requires OneAtATime(|s.entries|, s.timers, s.attempts, s.nextAttempt)
    requires TimersOwned(s.entries, s.current, s.timers, s.nextTimer)
    ensures OneAtATime(|s.entries| + 1, s.timers, s.attempts, s.nextAttempt)
    ensures Idle(s.attempts, |s.entries|) && forall u <- s.timers :: s.timers[u].entry != |s.entries|
  {
  }

  lemma AddKeeps(c: Config, s: State, r: Request, startedAt: int)
    requires c.Valid() && Inv(c, s) && r.session !in s.current && |s.current| < c.maxEntries && !s.stopping
    ensures var t := Added(s, r, startedAt);
            var e := |s.entries|;
            && Inv(c, t) && Live(t, e) && Idle(t.attempts, e) && (forall u <- t.timers :: t.timers[u].entry != e)
  {
    hide Indexed, TimersOwned, OneAtATime, SummedOnce, Justified, MemoryBounded, Removed;
    AddedAlone(s);
    AddedIndexed(s, r, startedAt);
    AddedOwned(s, r, startedAt);
    AddedRetires(s, r, startedAt);
    MemoryForgets(c.maxEntries, s.current, s.drawn, s.drawnOrder, r.session, |s.entries|);
  }

  lemma ScheduleKeeps(c: Config, s: State, e: EntryId, r: Request, now: int)
    requires c.Valid() && Inv(c, s) && Live(s, e) && Idle(s.attempts, e)
    requires forall u <- s.timers :: s.timers[u].entry != e
    ensures Inv(c, Scheduled(c, s, e, r, now))
  {
    hide Indexed, TimersOwned, OneAtATime, SummedOnce, Justified, MemoryBounded, SlotAt;
    if r.view.None? {
      ArmKeeps(c, s, e, SlotAt(c, s, now));
    } else {
      ArmKeeps(c, s, e, if r.record then now else now + c.firstPollMs);
    }
  }

  lemma TrackKeeps(c: Config, s: State, r: Request, now: int)
    requires c.Valid() && Inv(c, s)
    ensures WellFormed(s) && Inv(c, Tracked(c, s, r, now))
  {
    MakeRoomKeeps(c, s, r.session);
    hide Inv, Added, Scheduled, MadeRoom;
    if !s.stopping {
      var previous := Holder(s, r.session);
      var startedAt := if previous.Some? then s.entries[previous.value].startedAt
                       else if r.startedAt.Some? then r.startedAt.value else now;
      var m := MadeRoom(c, s, r.session);
      AddKeeps(c, m, r, startedAt);
      AddedLength(m, r, startedAt);
      ScheduleKeeps(c, Added(m, r, startedAt), |m.entries|, r, now);
    }
  }

  lemma AddedLength(s: State, r: Request, startedAt: int)
    ensures |Added(s, r, startedAt).entries| == |s.entries| + 1
  {
  }

  // ----- the attempt

  lemma EndedKeeps(c: Config, s: State, a: nat)
    requires c.Valid() && Inv(c, s) && a in s.attempts && s.attempts[a].entry < |s.entries|
    ensures Inv(c, Ended(c, s, a))
  {
    FinishKeeps(c, s, s.attempts[a].entry, true);
    hide Inv, Finished;
    OverKeeps(c, Finished(c, s, s.attempts[a].entry, true), a);
  }

  lemma LastDoneKeeps(c: Config, s: State, a: nat, view: View)
    requires c.Valid() && Inv(c, s) && a in s.attempts && s.attempts[a].entry < |s.entries|
    requires !s.attempts[a].stage.Summing?
    ensures Inv(c, LastDone(c, s, a, view))
  {
    hide Inv, Summed, Ended;
    if SummaryDue(s.entries[s.attempts[a].entry], view) {
      SummedKeeps(c, s, a, view);
    } else {
      EndedKeeps(c, s, a);
    }
  }

  lemma LastAttempt(n: nat, timers: map<nat, Timer>, attempts: map<nat, Attempt>, next: nat, a: nat)
    requires OneAtATime(n, timers, attempts, next) && a in attempts
    ensures Idle(attempts - {a}, attempts[a].entry) && forall t <- timers :: timers[t].entry != attempts[a].entry
  {
  }

  /** `arm` at the end of an attempt. */
  lemma RearmKeeps(c: Config, s: State, a: nat, due: int)
    requires Inv(c, s) && a in s.attempts && !s.attempts[a].stage.Summing? && Live(s, s.attempts[a].entry)
    ensures Inv(c, Over(Armed(s, s.attempts[a].entry, due), a))
  {
    hide Indexed, TimersOwned, SummedOnce, Justified, MemoryBounded;
    var e := s.attempts[a].entry;
    OverKeeps(c, s, a);
    LastAttempt(|s.entries|, s.timers, s.attempts, s.nextAttempt, a);
    hide Inv;
    ArmKeeps(c, Over(s, a), e, due);
    assert Over(Armed(s, e, due), a) == Armed(Over(s, a), e, due);
  }

  lemma NextKeeps(c: Config, s: State, a: nat, now: int)
    requires c.Valid() && Inv(c, s) && a in s.attempts && s.attempts[a].entry < |s.entries|
    requires !s.attempts[a].stage.Summing?
    ensures Inv(c, Next(c, s, a, now))
  {
    hide Inv, Over, Armed, Ended, Sent, LastDone;
    var e := s.attempts[a].entry;
    var entry := s.entries[e];
    if !Live(s, e) {
      OverKeeps(c, s, a);
    } else if now - entry.startedAt < c.deadlineMs {
      RearmKeeps(c, s, a, now + c.pollMs);
    } else if entry.view.None? {
      EndedKeeps(c, s, a);
    } else if entry.rendered != Drawing(entry.view.value.drawing) && MayDraw(entry, entry.view.value) {
      SentKeeps(c, s, a, Editing(entry.view.value, true), entry.view);
    } else {
      LastDoneKeeps(c, s, a, entry.view.value);
    }
  }

  lemma PollDoneKeeps(c: Config, s: State, a: nat, view: View, now: int)
    requires c.Valid() && Inv(c, s) && a in s.attempts && s.attempts[a].entry < |s.entries|
    requires !s.attempts[a].stage.Summing?
    ensures Inv(c, PollDone(c, s, a, view, now))
  {
    hide Inv, Summed, Next;
    if SummaryDue(s.entries[s.attempts[a].entry], view) {
      SummedKeeps(c, s, a, view);
    } else {
      NextKeeps(c, s, a, now);
    }
  }

  lemma AfterEditKeeps(c: Config, s: State, a: nat, view: View, last: bool, now: int)
    requires c.Valid() && Inv(c, s) && a in s.attempts && s.attempts[a].entry < |s.entries|
    requires !s.attempts[a].stage.Summing?
    ensures Inv(c, AfterEdit(c, s, a, view, last, now))
  {
    hide Inv, LastDone, PollDone;
    if last {
      LastDoneKeeps(c, s, a, view);
    } else {
      PollDoneKeeps(c, s, a, view, now);
    }
  }

  lemma AnsweredKeeps(c: Config, s: State, a: nat, view: View, now: int)
    requires c.Valid() && Inv(c, s) && a in s.attempts && s.attempts[a].entry < |s.entries|
    requires s.attempts[a].stage.Reading?
    ensures Inv(c, ReadDone(c, s, a, Answered(view), now))
  {
    hide Inv, Over, Sent, AfterEdit;
    var e := s.attempts[a].entry;
    var s1 := s.(entries := s.entries[e := s.entries[e].(record := false)]);
    EntryKeeps(c, s, e, s.entries[e].(record := false));
    if !Current(s1, e) {
      OverKeeps(c, s1, a);
    } else {
      var s2 := s1.(entries := s1.entries[e := s1.entries[e].(view := Some(view))]);
      EntryKeeps(c, s1, e, s1.entries[e].(view := Some(view)));
      var entry := s2.entries[e];
      if Drawing(view.drawing) != entry.rendered && MayDraw(entry, view) {
        SentKeeps(c, s2, a, Editing(view, false), Some(view));
      } else {
        AfterEditKeeps(c, s2, a, view, false, now);
      }
    }
  }

  lemma ReadKeeps(c: Config, s: State, a: nat, r: ReadResult, now: int)
    requires c.Valid() && Inv(c, s) && a in s.attempts && s.attempts[a].entry < |s.entries|
    requires s.attempts[a].stage.Reading?
    ensures Inv(c, ReadDone(c, s, a, r, now))
  {
    hide Inv, Next, Ended, Sent;
    match r
    case Unavailable => NextKeeps(c, s, a, now);
    case ReadBroken => EndedKeeps(c, s, a);
    case NotFound =>
      if Current(s, s.attempts[a].entry) {
        SentKeeps(c, s, a, EditingNotFound, None);
      } else {
        EndedKeeps(c, s, a);
      }
    case Answered(view) => AnsweredKeeps(c, s, a, view, now);
  }

  lemma EditKeeps(c: Config, s: State, a: nat, r: EditResult, now: int)
    requires c.Valid() && Inv(c, s) && a in s.attempts && s.attempts[a].entry < |s.entries|
    requires s.attempts[a].stage.Editing?
    ensures Inv(c, EditDone(c, s, a, r, now))
  {
    hide Inv, Finished, AfterEdit, LastDone, Over;
    var e := s.attempts[a].entry;
    var view, last := s.attempts[a].stage.view, s.attempts[a].stage.last;
    match r
    case Landed =>
      EntryKeeps(c, s, e, s.entries[e].(rendered := Drawing(view.drawing)));
      AfterEditKeeps(c, Rendered(s, e, Drawing(view.drawing)), a, view, last, now);
    case Refused =>
      AfterEditKeeps(c, s, a, view, last, now);
    case Lost =>
      FinishKeeps(c, s, e, false);
      AtKeeps(c, Finished(c, s, e, false), a, Reporting(view, last));
    case EditBroken =>
      FinishKeeps(c, s, e, true);
      var f := Finished(c, s, e, true);
      if last {
        LastDoneKeeps(c, f, a, view);
      } else {
        OverKeeps(c, f, a);
      }
  }

  lemma NotFoundKeeps(c: Config, s: State, a: nat, r: EditResult)
    requires c.Valid() && Inv(c, s) && a in s.attempts && s.attempts[a].entry < |s.entries|
    requires !s.attempts[a].stage.Summing?
    ensures Inv(c, NotFoundDone(c, s, a, r))
  {
    hide Inv, Finished, Ended, Over;
    var e := s.attempts[a].entry;
    match r
    case Landed =>
      EntryKeeps(c, s, e, s.entries[e].(rendered := NotFoundText));
      EndedKeeps(c, Rendered(s, e, NotFoundText), a);
    case Lost =>
      FinishKeeps(c, s, e, false);
      OverKeeps(c, Finished(c, s, e, false), a);
    case _ =>
      EndedKeeps(c, s, a);
  }

  // ----- `stop`

  lemma StopKeeps(c: Config, s: State)
    requires Inv(c, s)
    ensures WellFormed(s) && Inv(c, StopAsked(s))
  {
    hide Indexed, TimersOwned, OneAtATime, SummedOnce, Justified, MemoryBounded;
    InvWellFormed(c, s);
    StopClears(s);
    NoneOwned(s);
  }

  lemma NoneOwned(s: State)
    requires TimersOwned(s.entries, s.current, s.timers, s.nextTimer)
    requires OneAtATime(|s.entries|, s.timers, s.attempts, s.nextAttempt)
    ensures TimersOwned(s.entries, s.current, map[], s.nextTimer)
    ensures OneAtATime(|s.entries|, map[], s.attempts, s.nextAttempt)
  {
  }

  /** `stop` misses no timer, since every timer's entry is in the map. */
  lemma StopClears(s: State)
    requires WellFormed(s) && TimersOwned(s.entries, s.current, s.timers, s.nextTimer)
    ensures StopAsked(s).timers == map[]
  {
    forall u <- s.timers
      ensures exists id :: id in s.current && s.entries[s.current[id]].timer == Some(u)
    {
      var id := s.entries[s.timers[u].entry].session;
      assert id in s.current && s.entries[s.current[id]].timer == Some(u);
    }
  }

  lemma DrainedKeeps(c: Config, s: State)
    requires Inv(c, s) && s.stopping && s.attempts == map[]
    ensures Inv(c, s.(current := map[], order := []))
  {
    assert s.timers == map[];
    assert forall e :: !Holds(s.entries, map[], e);
  }

  lemma StepKeeps(c: Config, s: State, e: Event)
    requires c.Valid() && Inv(c, s) && Enabled(s, e)
    ensures WellFormed(s) && Inv(c, Step(c, s, e))
  {
    InvWellFormed(c, s);
    hide Inv, Tracked, Fired, ReadDone, EditDone, NotFoundDone, LastDone, Over, Ended, StopAsked;
    match e
    case Track(r, now) => TrackKeeps(c, s, r, now);
    case Fire(t, now) => FireKeeps(c, s, t);
    case Read(a, r, now) => ReadKeeps(c, s, a, r, now);
    case Edit(a, r, now) =>
      if s.attempts[a].stage.Editing? {
        EditKeeps(c, s, a, r, now);
      } else {
        NotFoundKeeps(c, s, a, r);
      }
    case Report(a) =>
      if s.attempts[a].stage.last {
        LastDoneKeeps(c, s, a, s.attempts[a].stage.view);
      } else {
        OverKeeps(c, s, a);
      }
    case Summary(a) => EndedKeeps(c, s, a);
    case Stop => StopKeeps(c, s);
    case Drained => DrainedKeeps(c, s);
  }

  lemma {:induction false} ExecKeeps(c: Config, events: seq<Event>)
    requires c.Valid() && Exec(c, events).Some?
    ensures Inv(c, Exec(c, events).value)
    decreases |events|
  {
    if events == [] {
      assert Inv(c, Start());
    } else {
      var init := events[..|events| - 1];
      ExecKeeps(c, init);
      hide Inv, Step;
      StepKeeps(c, Exec(c, init).value, events[|events| - 1]);
    }
  }

  // ----- the promises

  /** At most one timer or attempt of an entry is outstanding; nothing is set once the tracker stops. */
  lemma OneOutstanding(c: Config, events: seq<Event>)
    requires c.Valid() && Exec(c, events).Some?
    ensures var s := Exec(c, events).value;
            && OneAtATime(|s.entries|, s.timers, s.attempts, s.nextAttempt)
            && (forall t <- s.timers :: Current(s, s.timers[t].entry))
            && (s.stopping ==> s.timers == map[])
  {
    ExecKeeps(c, events);
  }

  /** Every edit was of the session's own entry at that moment, changed the message, and on a message
      this process knows nothing of drew a stopped session's view only. */
  lemma EditsOfTheCurrentEntry(c: Config, events: seq<Event>, i: nat)
    requires c.Valid() && Exec(c, events).Some? && i < |Exec(c, events).value.edits|
    ensures EditJustified(Exec(c, events).value.edits[i])
  {
    ExecKeeps(c, events);
  }

  /** An entry sends its summary at most once, and only of a finished view with its notices closed and
      its drawing on the message. */
  lemma SummaryOnce(c: Config, events: seq<Event>, i: nat)
    requires c.Valid() && Exec(c, events).Some? && i < |Exec(c, events).value.summaries|
    ensures var s := Exec(c, events).value;
            && SummaryJustified(s.summaries[i])
            && (forall j | 0 <= j < |s.summaries| && j != i :: s.summaries[j].entry != s.summaries[i].entry)
  {
    ExecKeeps(c, events);
  }

  /** The tracked sessions and the remembered ones are different and each at most maxEntries. */
  lemma Bookkeeping(c: Config, events: seq<Event>)
    requires c.Valid() && Exec(c, events).Some?
    ensures var s := Exec(c, events).value;
            && |s.current| <= c.maxEntries && |s.drawn| <= c.maxEntries
            && s.current.Keys !! s.drawn.Keys
            && (forall id <- s.current :: s.current[id] < |s.entries| && s.entries[s.current[id]].session == id)
  {
    ExecKeeps(c, events);
  }
}
