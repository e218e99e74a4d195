/**
 What each event of the session tracker comes to, exactly: which edit, summary or report it begins, what is on
 the message, whether the entry ends, what is remembered of it, and what a message handed over changes.
 */
module SessionTrackerEffects {
  import opened Wrappers
  import opened MapOrder
  import opened SessionTracker
  import opened SessionTrackerProofs
  import opened SessionTrackerRuns

  // ----- what the message needs

  /** The view is news to the message, and may be drawn on it: something known is there, or the session stopped. */
  predicate Draws(entry: Entry, view: View) {
    entry.rendered != Drawing(view.drawing) && (entry.rendered != Nothing || view.stopped)
  }

  predicate Late(c: Config, entry: Entry, now: int) { now - entry.startedAt >= c.deadlineMs }

  /** The summary can go: the session is over, its notices are closed, and the message shows it. */
  predicate Concluded(shown: Shown, view: View) {
    shown == Drawing(view.drawing) && view.finished && view.noticesDone
  }

  /** The attempt of an edit draws the last view read, which is news to the message until it lands. */
  ghost predicate Aimed(s: State) {
    forall a <- s.attempts ::
      s.attempts[a].entry < |s.entries| && AimedAt(s.entries[s.attempts[a].entry], s.attempts[a].stage)
  }

  predicate AimedAt(entry: Entry, stage: Stage) {
    stage.Editing? || stage.Reporting? ==> entry.view == Some(stage.view) && Draws(entry, stage.view)
  }

  // ----- what an attempt's event begins

  predicate ByAttempt(s: State, e: Event) {
    OfAttempt(e) && Enabled(s, e) && s.attempts[e.attempt].entry < |s.entries|
  }

  function EntryOf(s: State, e: Event): EntryId
    requires ByAttempt(s, e)
  {
    s.attempts[e.attempt].entry
  }

  /** An edit of a view was under way, of a poll or of the deadline. */
  predicate Drew(s: State, e: Event, last: bool)
    requires ByAttempt(s, e)
  {
    e.Edit? && s.attempts[e.attempt].stage.Editing? && s.attempts[e.attempt].stage.last == last
  }

  /** The answer is news to the message of the session's own entry. */
  predicate DrawsAnswer(s: State, e: Event)
    requires ByAttempt(s, e)
  {
    e.Read? && e.read.Answered? && Current(s, EntryOf(s, e)) && Draws(s.entries[EntryOf(s, e)], e.read.view)
  }

  /** Past the deadline, no view could be read or its edit was refused, and the last one read is not shown. */
  predicate DrawsLast(c: Config, s: State, e: Event)
    requires ByAttempt(s, e)
  {
    var entry := s.entries[EntryOf(s, e)];
    && ((e.Read? && e.read.Unavailable?) || (Drew(s, e, false) && e.edit.Refused?))
    && Live(s, EntryOf(s, e)) && Late(c, entry, e.now) && entry.view.Some? && Draws(entry, entry.view.value)
  }

  predicate DrawsNotFound(s: State, e: Event)
    requires ByAttempt(s, e)
  {
    e.Read? && e.read.NotFound? && Current(s, EntryOf(s, e))
  }

  /** The edit the event begins. */
  function EditBegun(c: Config, s: State, e: Event): Option<Stage>
    requires ByAttempt(s, e)
  {
    if DrawsAnswer(s, e) then Some(Editing(e.read.view, false))
    else if DrawsLast(c, s, e) then Some(Editing(s.entries[EntryOf(s, e)].view.value, true))
    else if DrawsNotFound(s, e) then Some(EditingNotFound)
    else None
  }

  /** The view the message shows is the last one there will be of this event: read, or read before the deadline
      passed, or landed. */
  predicate Shows(c: Config, s: State, e: Event, view: View)
    requires ByAttempt(s, e)
  {
    var x := EntryOf(s, e);
    || (e.Read? && e.read == Answered(view) && Current(s, x))
    || (e.Read? && e.read.Unavailable? && Live(s, x) && Late(c, s.entries[x], e.now) && s.entries[x].view == Some(view))
    || (e.Edit? && e.edit.Landed? && s.attempts[e.attempt].stage.Editing? && s.attempts[e.attempt].stage.view == view)
  }

  /** What is on the message after the event: an edit that landed, or what was there. */
  function ShownAfter(s: State, e: Event): Shown
    requires ByAttempt(s, e)
  {
    if e.Edit? && e.edit.Landed? then
      if s.attempts[e.attempt].stage.Editing? then Drawing(s.attempts[e.attempt].stage.view.drawing) else NotFoundText
    else s.entries[EntryOf(s, e)].rendered
  }

  ghost predicate Sums(c: Config, s: State, e: Event, view: View)
    requires ByAttempt(s, e)
  {
    Shows(c, s, e, view) && Concluded(ShownAfter(s, e), view)
  }

  /** The message is lost: the backend is told to forget it. */
  predicate Reports(s: State, e: Event)
    requires ByAttempt(s, e)
  {
    e.Edit? && e.edit.Lost? && s.attempts[e.attempt].stage.Editing?
  }

  /** What the event has sent, and what its attempt awaits now. */
  ghost predicate Sending(c: Config, s: State, e: Event, t: State)
    requires ByAttempt(s, e)
  {
    var a, x := e.attempt, EntryOf(s, e);
    var entry, begun := s.entries[x], EditBegun(c, s, e);
    && t.edits == s.edits + (match begun
                             case None => []
                             case Some(Editing(view, _)) => [EditSent(x, Some(x), entry.rendered, Some(view))]
                             case Some(_) => [EditSent(x, Some(x), entry.rendered, None)])
    && (forall view | Sums(c, s, e, view) :: t.summaries == s.summaries + [SummarySent(x, view, Drawing(view.drawing))])
    && ((forall view :: !Sums(c, s, e, view)) ==> t.summaries == s.summaries)
    && (begun.Some? ==> a in t.attempts && t.attempts[a] == Attempt(x, begun.value))
    && (forall view | Sums(c, s, e, view) :: begun == None && a in t.attempts && t.attempts[a] == Attempt(x, Summing))
    && (Reports(s, e) ==>
          var stage := s.attempts[a].stage;
          a in t.attempts && t.attempts[a] == Attempt(x, Reporting(stage.view, stage.last)))
    && (a in t.attempts ==> begun.Some? || Reports(s, e) || exists view :: Sums(c, s, e, view))
  }

  /** The entry after its event, but for its timer. */
  ghost predicate Showing(s: State, e: Event, t: State)
    requires ByAttempt(s, e)
  {
    var x := EntryOf(s, e);
    var entry, answered := s.entries[x], e.Read? && e.read.Answered?;
    && x < |t.entries|
    && t.entries[x].rendered == ShownAfter(s, e)
    && t.entries[x].view == (if answered && Current(s, x) then Some(e.read.view) else entry.view)
    && t.entries[x].record == (entry.record && !answered)
    && t.entries[x].session == entry.session && t.entries[x].message == entry.message
    && t.entries[x].startedAt == entry.startedAt
  }

  /** Why the event ends its entry, if it was its session's. */
  ghost predicate EndsEntry(c: Config, s: State, e: Event)
    requires ByAttempt(s, e)
  {
    var x := EntryOf(s, e);
    var idle := EditBegun(c, s, e).None? && forall view :: !Sums(c, s, e, view);
    match e
    case Read(_, r, now) => r.ReadBroken? || (!r.NotFound? && Live(s, x) && Late(c, s.entries[x], now) && idle)
    case Edit(_, r, now) =>
      || r.Lost? || r.EditBroken? || s.attempts[e.attempt].stage.EditingNotFound?
      || (Drew(s, e, true) && idle)
      || (r.Landed? && Live(s, x) && Late(c, s.entries[x], now) && idle)
    case Report(_) => false
    case Summary(_) => true
  }

  ghost predicate Ending(c: Config, s: State, e: Event, t: State)
    requires ByAttempt(s, e)
  {
    var x := EntryOf(s, e);
    var id := s.entries[x].session;
    if Current(s, x) && EndsEntry(c, s, e) then t.current == s.current - {id} && t.order == Removed(s.order, id)
    else t.current == s.current && t.order == s.order
  }

  /** The memory of one more session: the last in its order, the first one gone if there was no room. */
  ghost predicate Memorised(c: Config, drawn: map<SessionId, Memo>, order: seq<SessionId>, id: SessionId, memo: Memo,
                            drawn': map<SessionId, Memo>, order': seq<SessionId>) {
    && order' == (if |drawn| >= c.maxEntries && order != [] then order[1..] else order) + [id]
    && (forall k :: k in drawn' <==> k in order')
    && (forall k <- drawn' :: drawn'[k] == if k == id then memo else if k in drawn then drawn[k] else memo)
  }

  /** An entry that ends is remembered with what is on its message, but a lost message is not. */
  ghost predicate Remembering(c: Config, s: State, e: Event, t: State)
    requires ByAttempt(s, e)
  {
    var x := EntryOf(s, e);
    var shown := ShownAfter(s, e);
    if Current(s, x) && EndsEntry(c, s, e) && shown != Nothing && !(e.Edit? && e.edit.Lost?) then
      Memorised(c, s.drawn, s.drawnOrder, s.entries[x].session, Memo(s.entries[x].message, shown),
                t.drawn, t.drawnOrder)
    else t.drawn == s.drawn && t.drawnOrder == s.drawnOrder
  }

  ghost predicate Comes(c: Config, s: State, e: Event, t: State)
    requires ByAttempt(s, e)
  {
    Sending(c, s, e, t) && Showing(s, e, t) && Ending(c, s, e, t) && Remembering(c, s, e, t)
  }

  // ----- `finish`

  lemma NotListed(order: seq<SessionId>, id: SessionId)
    requires NoRepeats(order) && id !in order
    ensures Removed(order, id) == order
  {
    RemovedSize(order, id);
  }

  lemma EmptyMemory(drawn: map<SessionId, Memo>, order: seq<SessionId>)
    requires Listed(drawn, order)
    ensures order == [] ==> |drawn| == 0
  {
    if order == [] {
      assert drawn.Keys == {};
    }
  }

  /** Room for one more. */
  lemma MemoryGrowsBy(c: Config, drawn: map<SessionId, Memo>, order: seq<SessionId>, id: SessionId, memo: Memo)
    requires |drawn| < c.maxEntries && Listed(drawn, order)
    ensures Memorised(c, drawn, order, id, memo, drawn[id := memo], order + [id])
  {
    hide NoRepeats;
  }

  /** No room: the first one goes. */
  lemma MemoryTurns(c: Config, drawn: map<SessionId, Memo>, order: seq<SessionId>, id: SessionId, memo: Memo)
    requires |drawn| >= c.maxEntries && Listed(drawn, order) && order != [] && id !in drawn
    ensures Memorised(c, drawn, order, id, memo, drawn[id := memo] - {order[0]}, order[1..] + [id])
  {
    FirstOut(order);
    hide NoRepeats;
  }

  lemma RememberedIs(c: Config, s: State, id: SessionId, memo: Memo)
    requires c.Valid() && Listed(s.drawn, s.drawnOrder) && id !in s.drawn
    ensures var t := Remembered(c, s, id, memo); Memorised(c, s.drawn, s.drawnOrder, id, memo, t.drawn, t.drawnOrder)
  {
    hide Removed, Memorised, NoRepeats;
    var order := s.drawnOrder;
    NotListed(order, id);
    EmptyMemory(s.drawn, order);
    PutSize(s.drawn, id, memo);
    hide Listed;
    if |s.drawn| >= c.maxEntries {
      MemoryTurns(c, s.drawn, order, id, memo);
      var grown := order + [id];
      assert grown[1..] == order[1..] + [id] && grown[0] == order[0];
    } else {
      MemoryGrowsBy(c, s.drawn, order, id, memo);
    }
  }

  lemma FirstOut(order: seq<SessionId>)
    requires NoRepeats(order) && order != []
    ensures forall k :: k in order[1..] <==> k in order && k != order[0]
  {
  }

  lemma FinishMemorises(c: Config, s: State, x: EntryId)
    requires c.Valid() && MemoryBounded(c.maxEntries, s.current, s.drawn, s.drawnOrder)
    requires Current(s, x) && s.entries[x].rendered != Nothing
    ensures var t, entry := Finished(c, s, x, true), s.entries[x];
            Memorised(c, s.drawn, s.drawnOrder, entry.session, Memo(entry.message, entry.rendered),
                      t.drawn, t.drawnOrder)
  {
    hide Listed, Memorised, Removed, Remembered;
    RememberedIs(c, Unlisted(s, x), s.entries[x].session, Memo(s.entries[x].message, s.entries[x].rendered));
  }

  /** What `finish` leaves, whatever it remembers. */
  lemma FinishIs(c: Config, s: State, x: EntryId, remember: bool)
    requires x < |s.entries|
    ensures var t, id := Finished(c, s, x, remember), s.entries[x].session;
      && t.entries == s.entries && t.attempts == s.attempts && t.edits == s.edits && t.summaries == s.summaries
      && t.stopping == s.stopping
      && (if Current(s, x) then t.current == s.current - {id} && t.order == Removed(s.order, id)
          else t.current == s.current && t.order == s.order)
      && (!Current(s, x) || !remember || s.entries[x].rendered == Nothing ==>
            t.drawn == s.drawn && t.drawnOrder == s.drawnOrder)
  {
    hide Removed;
  }

  /** `finish` as the last thing of an attempt. */
  ghost predicate Finishes(c: Config, s: State, t: State, x: EntryId, remember: bool)
    requires x < |s.entries|
  {
    var id, entry := s.entries[x].session, s.entries[x];
    && t.entries == s.entries && t.edits == s.edits && t.summaries == s.summaries && t.stopping == s.stopping
    && (if Current(s, x) then t.current == s.current - {id} && t.order == Removed(s.order, id)
        else t.current == s.current && t.order == s.order)
    && (if Current(s, x) && remember && entry.rendered != Nothing then
          Memorised(c, s.drawn, s.drawnOrder, id, Memo(entry.message, entry.rendered), t.drawn, t.drawnOrder)
        else t.drawn == s.drawn && t.drawnOrder == s.drawnOrder)
  }

  lemma FinishFinishes(c: Config, s: State, x: EntryId, remember: bool)
    requires c.Valid() && MemoryBounded(c.maxEntries, s.current, s.drawn, s.drawnOrder) && x < |s.entries|
    ensures Finishes(c, s, Finished(c, s, x, remember), x, remember)
    ensures Finished(c, s, x, remember).attempts == s.attempts
  {
    hide MemoryBounded, Memorised, Finished, Current, Removed;
    FinishIs(c, s, x, remember);
    if Current(s, x) && remember && s.entries[x].rendered != Nothing {
      FinishMemorises(c, s, x);
    }
  }

  // ----- the events of an attempt

  ghost predicate Ready(c: Config, s: State, e: Event) {
    && c.Valid() && MemoryBounded(c.maxEntries, s.current, s.drawn, s.drawnOrder) && ByAttempt(s, e)
    && AimedAt(s.entries[EntryOf(s, e)], s.attempts[e.attempt].stage)
    && Reported(s, e.attempt)
  }

  /** The entry once an answer of its own session came. */
  function Seen(s: State, x: EntryId, view: View): State
    requires x < |s.entries|
  {
    s.(entries := s.entries[x := s.entries[x].(record := false, view := Some(view))])
  }

  /** An answer, by cases. */
  lemma AnswerIs(c: Config, s: State, a: nat, view: View, now: int)
    requires a in s.attempts && s.attempts[a].entry < |s.entries|
    ensures var x, t := s.attempts[a].entry, ReadDone(c, s, a, Answered(view), now);
      var seen := Seen(s, x, view);
      var entry := s.entries[x];
      if !Current(s, x) then t == Over(s.(entries := s.entries[x := entry.(record := false)]), a)
      else if Draws(entry, view) then t == Sent(seen, a, Editing(view, false), Some(view))
      else if Concluded(entry.rendered, view) then t == Summed(seen, a, view)
      else if !Live(s, x) then t == Over(seen, a)
      else if Late(c, entry, now) then t == Ended(c, seen, a)
      else t == Over(Armed(seen, x, now + c.pollMs), a)
  {
    hide Finished;
    var x := s.attempts[a].entry;
    var noted := s.(entries := s.entries[x := s.entries[x].(record := false)]);
    assert noted.(entries := noted.entries[x := noted.entries[x].(view := Some(view))]) == Seen(s, x, view);
  }

  lemma AnswerSums(c: Config, s: State, e: Event)
    requires ByAttempt(s, e) && e.Read? && e.read.Answered?
    ensures var x, view := EntryOf(s, e), e.read.view;
      forall v :: Sums(c, s, e, v) <==> v == view && Current(s, x) && Concluded(s.entries[x].rendered, view)
  {
  }

  lemma AnswerSends(c: Config, s: State, e: Event)
    requires Ready(c, s, e) && e.Read? && e.read.Answered?
    ensures Sending(c, s, e, ReadDone(c, s, e.attempt, e.read, e.now))
  {
    hide MemoryBounded, Finished, ReadDone, Sums;
    var x, view := EntryOf(s, e), e.read.view;
    AnswerIs(c, s, e.attempt, view, e.now);
    AnswerSums(c, s, e);
    FinishIs(c, Seen(s, x, view), x, true);
    assert Sums(c, s, e, view) <==> Current(s, x) && Concluded(s.entries[x].rendered, view);
  }

  lemma AnswerComes(c: Config, s: State, e: Event)
    requires Ready(c, s, e) && e.Read? && e.read.Answered?
    ensures Comes(c, s, e, ReadDone(c, s, e.attempt, e.read, e.now))
  {
    hide MemoryBounded, Memorised, Finished, Removed, ReadDone, Sums, Concluded, Sending;
    var x, view := EntryOf(s, e), e.read.view;
    AnswerIs(c, s, e.attempt, view, e.now);
    AnswerSums(c, s, e);
    AnswerSends(c, s, e);
    FinishFinishes(c, Seen(s, x, view), x, true);
    assert Sums(c, s, e, view) <==> Current(s, x) && Concluded(s.entries[x].rendered, view);
  }

  lemma UnreadSums(c: Config, s: State, e: Event)
    requires ByAttempt(s, e) && e.Read? && e.read.Unavailable?
    ensures var x := EntryOf(s, e);
      forall v :: Sums(c, s, e, v) <==>
        && Live(s, x) && Late(c, s.entries[x], e.now)
        && s.entries[x].view == Some(v) && Concluded(s.entries[x].rendered, v)
  {
  }

  lemma UnreadSends(c: Config, s: State, e: Event)
    requires Ready(c, s, e) && e.Read? && e.read.Unavailable?
    ensures Sending(c, s, e, ReadDone(c, s, e.attempt, e.read, e.now))
  {
    hide MemoryBounded, Finished, Sums;
    var x := EntryOf(s, e);
    UnreadSums(c, s, e);
    FinishIs(c, s, x, true);
    if s.entries[x].view.Some? {
      var view := s.entries[x].view.value;
      assert Sums(c, s, e, view) <==>
          Live(s, x) && Late(c, s.entries[x], e.now) && Concluded(s.entries[x].rendered, view);
    }
  }

  lemma UnreadComes(c: Config, s: State, e: Event)
    requires Ready(c, s, e) && e.Read? && e.read.Unavailable?
    ensures Comes(c, s, e, ReadDone(c, s, e.attempt, e.read, e.now))
  {
    hide MemoryBounded, Memorised, Finished, Removed, Sums, Concluded, Sending, SummaryDue;
    var x := EntryOf(s, e);
    UnreadSums(c, s, e);
    UnreadSends(c, s, e);
    FinishFinishes(c, s, x, true);
    if s.entries[x].view.Some? {
      var view := s.entries[x].view.value;
      assert Sums(c, s, e, view) <==>
          Live(s, x) && Late(c, s.entries[x], e.now) && Concluded(s.entries[x].rendered, view);
      DueIs(s.entries[x], view);
    }
  }

  lemma DueIs(entry: Entry, view: View)
    ensures SummaryDue(entry, view) <==> Concluded(entry.rendered, view)
  {
  }

  lemma FailedReadComes(c: Config, s: State, e: Event)
    requires Ready(c, s, e) && e.Read? && (e.read.NotFound? || e.read.ReadBroken?)
    ensures Comes(c, s, e, ReadDone(c, s, e.attempt, e.read, e.now))
  {
    hide MemoryBounded, Memorised, Finished, Removed;
    var x := EntryOf(s, e);
    assert forall v :: !Sums(c, s, e, v);
    hide Sums;
    FinishFinishes(c, s, x, true);
  }

  lemma EditSums(c: Config, s: State, e: Event)
    requires ByAttempt(s, e) && e.Edit?
    ensures var stage := s.attempts[e.attempt].stage;
      forall v :: Sums(c, s, e, v) <==>
        e.edit.Landed? && stage.Editing? && v == stage.view && Concluded(Drawing(v.drawing), v)
  {
  }

  lemma LandedSends(c: Config, s: State, e: Event)
    requires Ready(c, s, e) && e.Edit? && s.attempts[e.attempt].stage.Editing? && e.edit.Landed?
    ensures Sending(c, s, e, EditDone(c, s, e.attempt, e.edit, e.now))
  {
    hide MemoryBounded, Finished, Sums, Concluded, SummaryDue;
    var x, view := EntryOf(s, e), s.attempts[e.attempt].stage.view;
    var r := Rendered(s, x, Drawing(view.drawing));
    EditSums(c, s, e);
    DueIs(r.entries[x], view);
    FinishIs(c, r, x, true);
    assert Sums(c, s, e, view) <==> Concluded(Drawing(view.drawing), view);
  }

  lemma LandedComes(c: Config, s: State, e: Event)
    requires Ready(c, s, e) && e.Edit? && s.attempts[e.attempt].stage.Editing? && e.edit.Landed?
    ensures Comes(c, s, e, EditDone(c, s, e.attempt, e.edit, e.now))
  {
    hide MemoryBounded, Memorised, Finished, Removed, Sums, Concluded, SummaryDue, Sending;
    var x, view := EntryOf(s, e), s.attempts[e.attempt].stage.view;
    var r := Rendered(s, x, Drawing(view.drawing));
    EditSums(c, s, e);
    LandedSends(c, s, e);
    DueIs(r.entries[x], view);
    FinishFinishes(c, r, x, true);
    assert Sums(c, s, e, view) <==> Concluded(Drawing(view.drawing), view);
  }

  lemma RefusedComes(c: Config, s: State, e: Event)
    requires Ready(c, s, e) && e.Edit? && s.attempts[e.attempt].stage.Editing? && e.edit.Refused?
    ensures Comes(c, s, e, EditDone(c, s, e.attempt, e.edit, e.now))
  {
    hide MemoryBounded, Memorised, Finished, Removed, Sums, Concluded;
    var x := EntryOf(s, e);
    EditSums(c, s, e);
    FinishFinishes(c, s, x, true);
  }

  lemma LostComes(c: Config, s: State, e: Event)
    requires Ready(c, s, e) && e.Edit? && s.attempts[e.attempt].stage.Editing?
    requires e.edit.Lost? || e.edit.EditBroken?
    ensures Comes(c, s, e, EditDone(c, s, e.attempt, e.edit, e.now))
  {
    hide MemoryBounded, Memorised, Finished, Removed, Sums, Concluded;
    var x := EntryOf(s, e);
    EditSums(c, s, e);
    FinishFinishes(c, s, x, !e.edit.Lost?);
    var f := Finished(c, s, x, true);
    FinishIs(c, f, x, true);
    assert e.edit.EditBroken? ==> !Current(f, x);
  }

  lemma NotFoundComes(c: Config, s: State, e: Event)
    requires Ready(c, s, e) && e.Edit? && s.attempts[e.attempt].stage.EditingNotFound?
    ensures Comes(c, s, e, NotFoundDone(c, s, e.attempt, e.edit))
  {
    hide MemoryBounded, Memorised, Finished, Removed, Sums, Concluded;
    var x := EntryOf(s, e);
    EditSums(c, s, e);
    FinishFinishes(c, s, x, !e.edit.Lost?);
    FinishFinishes(c, Rendered(s, x, NotFoundText), x, true);
  }

  lemma OverComes(c: Config, s: State, e: Event)
    requires Ready(c, s, e) && (e.Report? || e.Summary?)
    ensures Comes(c, s, e, if e.Report? then ReportDone(c, s, e.attempt) else Ended(c, s, e.attempt))
  {
    hide MemoryBounded, Memorised, Finished, Removed;
    var x := EntryOf(s, e);
    assert forall v :: !Sums(c, s, e, v);
    hide Sums, Concluded;
    FinishFinishes(c, s, x, true);
  }

  lemma AttemptComes(c: Config, s: State, e: Event)
    requires Ready(c, s, e) && WellFormed(s)
    ensures Comes(c, s, e, Step(c, s, e))
  {
    hide Comes, WellFormed, ReadDone, EditDone, NotFoundDone, ReportDone, Ended;
    match e
    case Read(_, r, _) =>
      if r.Answered? { AnswerComes(c, s, e); }
      else if r.Unavailable? { UnreadComes(c, s, e); }
      else { FailedReadComes(c, s, e); }
    case Edit(a, r, _) =>
      if s.attempts[a].stage.EditingNotFound? { NotFoundComes(c, s, e); }
      else if r.Landed? { LandedComes(c, s, e); }
      else if r.Refused? { RefusedComes(c, s, e); }
      else { LostComes(c, s, e); }
    case _ => OverComes(c, s, e);
  }

  // ----- a message handed over

  /** The entry that goes for a new one: its session's own, or the oldest when there is no room. */
  function Gone(c: Config, s: State, id: SessionId): Option<EntryId> {
    if id in s.current then Some(s.current[id])
    else if |s.current| >= c.maxEntries && s.order != [] && s.order[0] in s.current then Some(s.current[s.order[0]])
    else None
  }

  function TimersBut(timers: map<nat, Timer>, gone: Option<EntryId>): map<nat, Timer> {
    map u | u in timers && Some(timers[u].entry) != gone :: timers[u]
  }

  /** The memory once the entry that goes has gone. */
  ghost predicate MemoryAfter(c: Config, s: State, gone: Option<EntryId>, drawn: map<SessionId, Memo>,
                              order: seq<SessionId>)
    requires gone.Some? ==> gone.value < |s.entries|
  {
    if gone.Some? && s.entries[gone.value].rendered != Nothing then
      var entry := s.entries[gone.value];
      Memorised(c, s.drawn, s.drawnOrder, entry.session, Memo(entry.message, entry.rendered), drawn, order)
    else drawn == s.drawn && order == s.drawnOrder
  }

  /** What is known to be on the new entry's message: its view's drawing, or what is remembered of that message. */
  function KnownShown(drawn: map<SessionId, Memo>, r: Request): Shown {
    if r.view.Some? then Drawing(r.view.value.drawing)
    else if r.session in drawn && drawn[r.session].message == r.message then drawn[r.session].rendered
    else Nothing
  }

  function StartOf(s: State, r: Request, now: int): int
    requires r.session in s.current ==> s.current[r.session] < |s.entries|
  {
    if r.session in s.current then s.entries[s.current[r.session]].startedAt
    else if r.startedAt.Some? then r.startedAt.value
    else now
  }

  /** The first poll: of a recovered entry in its slot, of a message to be recorded at once. */
  function FirstPoll(c: Config, s: State, r: Request, now: int): int {
    if r.view.None? then
      if s.nextResumeAt.Some? && s.nextResumeAt.value > now + c.firstPollMs then s.nextResumeAt.value
      else now + c.firstPollMs
    else if r.record then now
    else now + c.firstPollMs
  }

  ghost predicate Joins(c: Config, s: State, r: Request, now: int, t: State)
    requires forall id <- s.current :: s.current[id] < |s.entries|
  {
    var n, gone, due := |s.entries|, Gone(c, s, r.session), FirstPoll(c, s, r, now);
    && (exists drawn, order ::
          && MemoryAfter(c, s, gone, drawn, order)
          && t.drawn == drawn - {r.session} && t.drawnOrder == Removed(order, r.session)
          && t.entries == s.entries + [Entry(r.session, r.message, StartOf(s, r, now), r.view, r.record,
                                             KnownShown(drawn, r), Some(s.nextTimer))])
    && t.timers == TimersBut(s.timers, gone)[s.nextTimer := Timer(n, due)]
    && (forall id :: id in t.current <==> id == r.session || (id in s.current && gone != Some(s.current[id])))
    && (forall id <- t.current :: t.current[id] == if id == r.session then n else s.current[id])
    && t.order == Removed(if gone.Some? then Removed(s.order, s.entries[gone.value].session) else s.order, r.session)
                  + [r.session]
    && t.nextResumeAt == (if r.view.None? then Some(due + c.resumeGapMs) else s.nextResumeAt)
    && t.attempts == s.attempts && t.edits == s.edits && t.summaries == s.summaries && t.stopping == s.stopping
  }

  lemma ClearedTimers(s: State, x: EntryId)
    requires TimersOwned(s.entries, s.current, s.timers, s.nextTimer) && x < |s.entries|
    ensures TimerCleared(s, x).timers == TimersBut(s.timers, Some(x))
  {
    hide Holds;
  }

  lemma FinishTimers(c: Config, s: State, x: EntryId, remember: bool)
    requires TimersOwned(s.entries, s.current, s.timers, s.nextTimer) && x < |s.entries|
    ensures var t := Finished(c, s, x, remember);
      t.timers == TimersBut(s.timers, Some(x)) && t.nextTimer == s.nextTimer && t.nextResumeAt == s.nextResumeAt
  {
    ClearedTimers(s, x);
    hide TimersOwned, Removed, Remembered, TimersBut;
  }

  /** Room is made by at most one `finish`. */
  lemma RoomMade(c: Config, s: State, id: SessionId)
    requires c.Valid() && Inv(c, s)
    ensures WellFormed(s)
    ensures var gone := Gone(c, s, id);
      && (gone.Some? ==> Current(s, gone.value))
      && MadeRoom(c, s, id) == if gone.Some? then Finished(c, s, gone.value, true) else s
  {
    InvWellFormed(c, s);
    hide MemoryBounded, OneAtATime, SummedOnce, Justified, Finished, TimersOwned;
  }

  lemma InvParts(c: Config, s: State)
    requires Inv(c, s)
    ensures TimersOwned(s.entries, s.current, s.timers, s.nextTimer)
    ensures MemoryBounded(c.maxEntries, s.current, s.drawn, s.drawnOrder)
    ensures forall k <- s.current :: s.current[k] < |s.entries| && s.entries[s.current[k]].session == k
  {
  }

  lemma RoomIs(c: Config, s: State, id: SessionId)
    requires c.Valid() && Inv(c, s)
    ensures WellFormed(s)
    ensures var m, gone := MadeRoom(c, s, id), Gone(c, s, id);
      && (gone.Some? ==> gone.value < |s.entries|)
      && m.entries == s.entries && m.attempts == s.attempts && m.edits == s.edits && m.summaries == s.summaries
      && m.stopping == s.stopping && m.nextTimer == s.nextTimer && m.nextResumeAt == s.nextResumeAt
      && m.timers == TimersBut(s.timers, gone)
      && MemoryAfter(c, s, gone, m.drawn, m.drawnOrder)
      && m.current == (map k | k in s.current && Some(s.current[k]) != gone :: s.current[k])
      && m.order == if gone.Some? then Removed(s.order, s.entries[gone.value].session) else s.order
  {
    hide Inv, Gone, Memorised, Removed, Finished, TimersOwned, MemoryBounded, MadeRoom, Finishes, MemoryAfter;
    RoomMade(c, s, id);
    InvParts(c, s);
    var gone := Gone(c, s, id);
    if gone.Some? {
      FinishFinishes(c, s, gone.value, true);
      FinishTimers(c, s, gone.value, true);
      FinishGone(c, s, Finished(c, s, gone.value, true), gone.value);
    } else {
      NobodyGone(c, s);
    }
  }

  lemma NobodyGone(c: Config, s: State)
    ensures MemoryAfter(c, s, None, s.drawn, s.drawnOrder) && TimersBut(s.timers, None) == s.timers
    ensures s.current == map k | k in s.current && Some(s.current[k]) != None :: s.current[k]
  {
  }

  lemma FinishGone(c: Config, s: State, m: State, x: EntryId)
    requires Current(s, x) && Finishes(c, s, m, x, true)
    requires forall k <- s.current :: s.current[k] < |s.entries| && s.entries[s.current[k]].session == k
    ensures MemoryAfter(c, s, Some(x), m.drawn, m.drawnOrder)
    ensures m.current == map k | k in s.current && Some(s.current[k]) != Some(x) :: s.current[k]
    ensures m.entries == s.entries && m.edits == s.edits && m.summaries == s.summaries && m.stopping == s.stopping
    ensures m.order == Removed(s.order, s.entries[x].session)
  {
    hide Memorised, Removed;
  }

  lemma AddedIs(c: Config, m: State, r: Request, startedAt: int, now: int)
    ensures |Added(m, r, startedAt).entries| == |m.entries| + 1
    ensures var n, due := |m.entries|, FirstPoll(c, m, r, now);
      var t := Scheduled(c, Added(m, r, startedAt), n, r, now);
      && t.entries == m.entries + [Entry(r.session, r.message, startedAt, r.view, r.record,
                                         KnownShown(m.drawn, r), Some(m.nextTimer))]
      && t.timers == m.timers[m.nextTimer := Timer(n, due)]
      && t.current == m.current[r.session := n] && t.order == Removed(m.order, r.session) + [r.session]
      && t.drawn == m.drawn - {r.session} && t.drawnOrder == Removed(m.drawnOrder, r.session)
      && t.nextResumeAt == (if r.view.None? then Some(due + c.resumeGapMs) else m.nextResumeAt)
      && t.attempts == m.attempts && t.edits == m.edits && t.summaries == m.summaries && t.stopping == m.stopping
  {
    hide Removed;
  }

  lemma TrackJoins(c: Config, s: State, r: Request, now: int)
    requires c.Valid() && Inv(c, s) && !s.stopping
    ensures WellFormed(s) && Joins(c, s, r, now, Tracked(c, s, r, now))
  {
    hide Inv, MadeRoom, Memorised, Removed, MemoryAfter, TimersBut, Added, Scheduled, KnownShown, FirstPoll;
    RoomIs(c, s, r.session);
    var m := MadeRoom(c, s, r.session);
    AddedIs(c, m, r, StartOf(s, r, now), now);
    assert FirstPoll(c, m, r, now) == FirstPoll(c, s, r, now) by { SamePoll(c, m, s, r, now); }
    assert MemoryAfter(c, s, Gone(c, s, r.session), m.drawn, m.drawnOrder);
  }

  lemma SamePoll(c: Config, m: State, s: State, r: Request, now: int)
    requires m.nextResumeAt == s.nextResumeAt
    ensures FirstPoll(c, m, r, now) == FirstPoll(c, s, r, now)
  {
  }

  // ----- the events of a run

  lemma CopiesAim(s: State, t: State, a: nat)
    requires Aimed(s) && a in s.attempts && a in t.attempts && t.attempts[a] == s.attempts[a]
    requires s.attempts[a].entry < |t.entries|
    requires s.attempts[a].entry < |s.entries| ==>
      t.entries[s.attempts[a].entry] == s.entries[s.attempts[a].entry].(timer := t.entries[s.attempts[a].entry].timer)
    ensures AimedAt(t.entries[t.attempts[a].entry], t.attempts[a].stage)
  {
    assert AimedAt(s.entries[s.attempts[a].entry], s.attempts[a].stage);
  }

  lemma AttemptAims(c: Config, s: State, e: Event)
    requires c.Valid() && Inv(c, s) && Tended(s) && Aimed(s) && ByAttempt(s, e)
    ensures WellFormed(s) && Aimed(Step(c, s, e))
  {
    InvWellFormed(c, s);
    var now := if e.Read? || e.Edit? then e.now else 0;
    var x, t := EntryOf(s, e), Step(c, s, e);
    AttemptReady(c, s, e);
    hide Step, Inv, WellFormed;
    AttemptComes(c, s, e);
    assert Reported(s, e.attempt);
    AttemptHandled(c, s, e, now);
    AttemptAlone(c, s, t, e.attempt);
    hide Ready;
    OwnAims(c, s, e, t);
    forall b <- t.attempts
      ensures t.attempts[b].entry < |t.entries| && AimedAt(t.entries[t.attempts[b].entry], t.attempts[b].stage)
    {
      if b != e.attempt {
        CopiesAim(s, t, b);
      }
    }
  }

  lemma OwnAims(c: Config, s: State, e: Event, t: State)
    requires ByAttempt(s, e) && Comes(c, s, e, t) && AimedAt(s.entries[EntryOf(s, e)], s.attempts[e.attempt].stage)
    ensures e.attempt in t.attempts ==>
      t.attempts[e.attempt].entry == EntryOf(s, e) < |t.entries|
      && AimedAt(t.entries[EntryOf(s, e)], t.attempts[e.attempt].stage)
  {
    hide Ending, Remembering, Concluded, Shows;
  }

  lemma AttemptReady(c: Config, s: State, e: Event)
    requires c.Valid() && Inv(c, s) && Tended(s) && Aimed(s) && ByAttempt(s, e)
    ensures Ready(c, s, e)
  {
    assert Reported(s, e.attempt);
  }

  lemma TrackAims(c: Config, s: State, r: Request, now: int)
    requires c.Valid() && Inv(c, s) && Aimed(s)
    ensures WellFormed(s) && Aimed(Tracked(c, s, r, now))
  {
    hide Inv, Tracked, KnownShown, MemoryAfter, FirstPoll, TimersBut, Removed, StartOf, AimedAt;
    InvWellFormed(c, s);
    if s.stopping {
      StoppedTracks(c, s, r, now);
    } else {
      TrackJoins(c, s, r, now);
      var t := Tracked(c, s, r, now);
      forall a <- t.attempts
        ensures t.attempts[a].entry < |t.entries| && AimedAt(t.entries[t.attempts[a].entry], t.attempts[a].stage)
      {
        CopiesAim(s, t, a);
      }
    }
  }

  lemma StoppedTracks(c: Config, s: State, r: Request, now: int)
    requires s.stopping && forall id <- s.current :: s.current[id] < |s.entries|
    ensures Tracked(c, s, r, now) == s
  {
  }

  lemma FireAims(s: State, u: nat)
    requires Aimed(s) && u in s.timers && s.timers[u].entry < |s.entries|
    ensures Aimed(Fired(s, u))
  {
    var t := Fired(s, u);
    forall a <- t.attempts
      ensures t.attempts[a].entry < |t.entries| && AimedAt(t.entries[t.attempts[a].entry], t.attempts[a].stage)
    {
      if a != s.nextAttempt {
        CopiesAim(s, t, a);
      }
    }
  }

  lemma StopAims(s: State)
    requires Aimed(s) && forall id <- s.current :: s.current[id] < |s.entries|
    ensures Aimed(StopAsked(s)) && Aimed(s.(current := map[], order := []))
  {
    hide AimedAt;
  }

  lemma StepAims(c: Config, s: State, e: Event)
    requires c.Valid() && Inv(c, s) && Tended(s) && Aimed(s) && Enabled(s, e)
    ensures WellFormed(s) && Aimed(Step(c, s, e))
  {
    hide Inv, Tended, Aimed, Tracked, Fired, StopAsked, ReadDone, EditDone, NotFoundDone, ReportDone, Ended;
    InvWellFormed(c, s);
    if OfAttempt(e) {
      hide Step;
      AttemptThere(c, s, e);
      AttemptAims(c, s, e);
    } else {
      StopAims(s);
      match e
      case Track(r, now) => TrackAims(c, s, r, now);
      case Fire(u, now) => FireAims(s, u);
      case Stop =>
      case Drained =>
    }
  }

  lemma AttemptThere(c: Config, s: State, e: Event)
    requires WellFormed(s) && Enabled(s, e) && OfAttempt(e)
    ensures ByAttempt(s, e)
  {
  }

  lemma {:induction false} ExecAims(c: Config, events: seq<Event>)
    requires c.Valid() && Exec(c, events).Some?
    ensures Aimed(Exec(c, events).value)
    decreases |events|
  {
    if events != [] {
      var init := events[..|events| - 1];
      ExecAims(c, init);
      ExecKeeps(c, init);
      ExecTends(c, init);
      hide Inv, Step, Tended, Aimed;
      StepAims(c, Exec(c, init).value, events[|events| - 1]);
    }
  }

  /**
   In every run an answered read of a session's own entry begins the edit of that view exactly when it is news
   to the message; past the deadline the last edit, the summary, the report of a lost message and the edit of a
   session not found begin exactly when they should; what is on the message changes exactly as edits land; and
   the entry ends, and is remembered, exactly when nothing is left to do.
   */
  lemma AttemptComesTo(c: Config, events: seq<Event>, i: nat)
    requires c.Valid() && i < |events| && Exec(c, events[..i + 1]).Some? && OfAttempt(events[i])
    ensures StepOf(c, events, i) && ByAttempt(Exec(c, events[..i]).value, events[i])
    ensures Comes(c, Exec(c, events[..i]).value, events[i], Exec(c, events[..i + 1]).value)
  {
    hide Exec, Inv, Step, Tended, Aimed, Comes, Ready;
    ExecSteps(c, events, i);
    assert WellFormed(Exec(c, events[..i]).value);
    ExecAims(c, events[..i]);
    AttemptReady(c, Exec(c, events[..i]).value, events[i]);
    AttemptComes(c, Exec(c, events[..i]).value, events[i]);
  }

  /** A message handed over to an open tracker gets its entry, its first poll and the place it needs. */
  lemma TrackComesTo(c: Config, events: seq<Event>, i: nat)
    requires c.Valid() && i < |events| && Exec(c, events[..i + 1]).Some? && events[i].Track?
    ensures StepOf(c, events, i)
    ensures var s, t := Exec(c, events[..i]).value, Exec(c, events[..i + 1]).value;
      if s.stopping then t == s else Joins(c, s, events[i].request, events[i].now, t)
  {
    hide Exec, Inv, Tended, Joins, Tracked;
    ExecSteps(c, events, i);
    var s := Exec(c, events[..i]).value;
    if s.stopping {
      StoppedTracks(c, s, events[i].request, events[i].now);
    } else {
      TrackJoins(c, s, events[i].request, events[i].now);
    }
  }

  /** A timer that fires is spent on one read of its entry, which is its session's own. */
  lemma FireComesTo(c: Config, events: seq<Event>, i: nat)
    requires c.Valid() && i < |events| && Exec(c, events[..i + 1]).Some? && events[i].Fire?
    ensures StepOf(c, events, i)
    ensures var s, t, u := Exec(c, events[..i]).value, Exec(c, events[..i + 1]).value, events[i].timer;
      && Live(s, s.timers[u].entry) && s.timers[u].due <= events[i].now
      && (exists a: nat :: a !in s.attempts && t.attempts == s.attempts[a := Attempt(s.timers[u].entry, Reading)])
      && t.timers == s.timers - {u} && t.edits == s.edits && t.summaries == s.summaries
      && t.current == s.current && t.order == s.order && t.drawn == s.drawn && t.drawnOrder == s.drawnOrder
      && !t.stopping
  {
    hide Exec, Tended, SummedOnce, Justified, MemoryBounded, Indexed;
    ExecSteps(c, events, i);
    var s := Exec(c, events[..i]).value;
    assert s.nextAttempt !in s.attempts;
  }

  /** A stop clears every timer and lets attempts end; then the map is emptied. */
  lemma StopComesTo(c: Config, events: seq<Event>, i: nat)
    requires c.Valid() && i < |events| && Exec(c, events[..i + 1]).Some? && (events[i].Stop? || events[i].Drained?)
    ensures StepOf(c, events, i)
    ensures var s, t := Exec(c, events[..i]).value, Exec(c, events[..i + 1]).value;
      t == if events[i].Stop? then s.(stopping := true, timers := map[]) else s.(current := map[], order := [])
  {
    hide Exec, Tended, SummedOnce, Justified, MemoryBounded;
    ExecSteps(c, events, i);
    var s := Exec(c, events[..i]).value;
    if events[i].Stop? {
      assert forall u <- s.timers :: Current(s, s.timers[u].entry) && s.entries[s.timers[u].entry].timer == Some(u);
      assert StopAsked(s).timers == map[];
    }
  }

  // ----- the message follows the reads

  /** No edit of the entry is under way. */
  predicate AtRest(attempts: map<nat, Attempt>, x: EntryId) {
    forall a <- attempts :: attempts[a].entry == x ==> attempts[a].stage.Reading?
  }

  ghost predicate Followed(s: State) {
    forall x: nat :: x < |s.entries| && Current(s, x) && AtRest(s.attempts, x) && s.entries[x].view.Some? ==>
      !Draws(s.entries[x], s.entries[x].view.value)
  }

  predicate Lands(e: Event) { e.Edit? ==> e.edit.Landed? }

  lemma OthersFollow(c: Config, s: State, t: State, a: nat, y: EntryId)
    requires a in s.attempts && Own(s, t, s.attempts[a].entry) && y != s.attempts[a].entry
    requires y < |t.entries| && Current(t, y) && AtRest(t.attempts, y)
    ensures y < |s.entries| && Current(s, y) && AtRest(s.attempts, y) && t.entries[y] == s.entries[y]
  {
  }

  lemma OwnFollows(c: Config, s: State, e: Event, t: State)
    requires Ready(c, s, e) && Comes(c, s, e, t) && Lands(e) && Followed(s)
    requires forall b <- s.attempts :: b == e.attempt || s.attempts[b].entry != EntryOf(s, e)
    requires EntryOf(s, e) < |t.entries| && Current(t, EntryOf(s, e)) && AtRest(t.attempts, EntryOf(s, e))
    requires t.entries[EntryOf(s, e)].view.Some?
    ensures !Draws(t.entries[EntryOf(s, e)], t.entries[EntryOf(s, e)].view.value)
  {
    hide Remembering, Concluded, MemoryBounded, Removed;
    var x := EntryOf(s, e);
    assert Current(s, x) && !EndsEntry(c, s, e);
    assert e.attempt !in t.attempts || t.attempts[e.attempt].entry != x || t.attempts[e.attempt].stage.Reading?;
    if e.Read? && !e.read.Answered? {
      assert AtRest(s.attempts, x);
    }
  }

  lemma AttemptFollows(c: Config, s: State, e: Event)
    requires c.Valid() && Inv(c, s) && Tended(s) && Aimed(s) && Followed(s) && ByAttempt(s, e) && Lands(e)
    ensures WellFormed(s) && Followed(Step(c, s, e))
  {
    InvWellFormed(c, s);
    AttemptReady(c, s, e);
    var now := if e.Read? || e.Edit? then e.now else 0;
    var x, t := EntryOf(s, e), Step(c, s, e);
    hide Step, Inv, WellFormed, Draws, Comes, Ready, Aimed;
    AttemptComes(c, s, e);
    assert Reported(s, e.attempt);
    AttemptHandled(c, s, e, now);
    AttemptAlone(c, s, s, e.attempt) by { OwnSelf(s, x); }
    hide Current, AtRest, Tended, Own, Left;
    forall y: nat | y < |t.entries| && Current(t, y) && AtRest(t.attempts, y) && t.entries[y].view.Some?
      ensures !Draws(t.entries[y], t.entries[y].view.value)
    {
      if y == x {
        OwnFollows(c, s, e, t);
      } else {
        OthersFollow(c, s, t, e.attempt, y);
      }
    }
  }

  lemma OwnSelf(s: State, x: EntryId)
    ensures Own(s, s, x)
  {
  }

  lemma TrackFollows(c: Config, s: State, r: Request, now: int)
    requires c.Valid() && Inv(c, s) && Followed(s)
    ensures WellFormed(s) && Followed(Tracked(c, s, r, now))
  {
    hide Inv, Tracked, AtRest, MemoryAfter, FirstPoll, TimersBut, Removed, StartOf, TimersOwned, MemoryBounded;
    InvWellFormed(c, s);
    InvParts(c, s);
    if s.stopping {
      StoppedTracks(c, s, r, now);
    } else {
      TrackJoins(c, s, r, now);
    }
  }

  lemma FireFollows(s: State, u: nat)
    requires Followed(s) && u in s.timers && s.timers[u].entry < |s.entries| && s.nextAttempt !in s.attempts
    ensures Followed(Fired(s, u))
  {
    var t := Fired(s, u);
    assert forall a <- s.attempts :: t.attempts[a] == s.attempts[a];
    forall y: nat | y < |t.entries| && Current(t, y) && AtRest(t.attempts, y) && t.entries[y].view.Some?
      ensures !Draws(t.entries[y], t.entries[y].view.value)
    {
      assert Current(s, y) && AtRest(s.attempts, y);
    }
  }

  lemma StopFollows(s: State)
    requires Followed(s) && forall id <- s.current :: s.current[id] < |s.entries|
    ensures Followed(StopAsked(s)) && Followed(s.(current := map[], order := []))
  {
    hide Draws, AtRest;
  }

  lemma StepFollows(c: Config, s: State, e: Event)
    requires c.Valid() && Inv(c, s) && Tended(s) && Aimed(s) && Followed(s) && Enabled(s, e) && Lands(e)
    ensures WellFormed(s) && Followed(Step(c, s, e))
  {
    hide Inv, Tended, Aimed, Tracked, Fired, Followed, StopAsked, ReadDone, EditDone, NotFoundDone, ReportDone, Ended;
    InvWellFormed(c, s);
    if OfAttempt(e) {
      hide Step;
      AttemptThere(c, s, e);
      AttemptFollows(c, s, e);
    } else {
      FreshAttempt(c, s);
      StopFollows(s);
      match e
      case Track(r, now) => TrackFollows(c, s, r, now);
      case Fire(u, now) => FireFollows(s, u);
      case Stop =>
      case Drained =>
    }
  }

  lemma FreshAttempt(c: Config, s: State)
    requires Inv(c, s)
    ensures s.nextAttempt !in s.attempts
  {
  }

  /**
   As long as every edit lands, whenever no edit of a session's own entry is under way the view read last is
   on its message, or may not be drawn there: nothing on it is known, and the session is running.
   */
  lemma {:induction false} MessageFollows(c: Config, events: seq<Event>)
    requires c.Valid() && Exec(c, events).Some? && forall i | 0 <= i < |events| :: Lands(events[i])
    ensures Followed(Exec(c, events).value)
    decreases |events|
  {
    if events != [] {
      var init := events[..|events| - 1];
      MessageFollows(c, init);
      ExecAims(c, init);
      ExecKeeps(c, init);
      ExecTends(c, init);
      hide Inv, Step, Tended, Aimed, Followed, Lands;
      StepFollows(c, Exec(c, init).value, events[|events| - 1]);
    }
  }
}
