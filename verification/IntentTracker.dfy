/**
 The tracker of the demo trade's status message (`apps/bot/src/intent-tracker.ts`). A step is what runs
 between two awaits: a timer fires, a read or an edit ends, a message is handed over, the tracker is
 stopped. `entries` holds every entry ever made, `order` those in the source's map, oldest first.
 */
module IntentTracker {
  import opened Wrappers
  import opened MapOrder

  type EntryId = nat

  datatype Status =
    | Planned | Reserved | Queued | Submitting | Accepted | Settled | Rejected | Unknown | Reconciling | ManualReview

  /** The graph of `packages/shared/src/trading.ts`. */
  function Transitions(status: Status): set<Status> {
    match status
    case Planned => {Reserved, Rejected}
    case Reserved => {Queued, Rejected}
    case Queued => {Submitting, Rejected}
    case Submitting => {Accepted, Rejected, Unknown}
    case Accepted => {Settled}
    case Settled => {}
    case Rejected => {}
    case Unknown => {Reconciling}
    case Reconciling => {Accepted, Rejected, ManualReview}
    case ManualReview => {Settled, Rejected}
  }

  predicate StopStatus(status: Status) { Transitions(status) == {} || status == Accepted }

  datatype View = View(status: Status, lastError: Option<nat>)

  /** What an entry takes to be on its message. */
  datatype Key = StatusKey(status: Status) | RejectedKey(lastError: Option<nat>) | NotFoundKey | DeadlineKey

  function RenderKey(view: View): Key {
    if view.status == Rejected then RejectedKey(view.lastError) else StatusKey(view.status)
  }

  datatype EditKind = OfStatus | OfNotFound | OfEnd
  datatype Stage = Reading | Editing(kind: EditKind, key: Key)
  datatype Timer = Timer(due: int, last: bool)

  /** `steps` counts the timers the entry was given. */
  datatype Entry = Entry(id: nat, startedAt: int, view: View, rendered: Key,
                         timer: Option<Timer>, attempt: Option<Stage>, steps: nat)

  datatype Config = Config(firstPollMs: int, pollMs: int, deadlineMs: int, maxEntries: nat) {
    predicate Valid() { firstPollMs >= 0 && pollMs > 0 }
  }

  datatype State = State(entries: seq<Entry>, order: seq<EntryId>, stopping: bool, now: int)

  /** A missing or foreign id, another failure of the backend, or anything else thrown. */
  datatype ReadFailure = NotFound | Failure | Thrown
  datatype EditOutcome = Done | AlreadyShown | Gone | Refused | Broken

  datatype Event =
    | Track(at: int, id: nat, view: View)
    | Fire(at: int, e: EntryId)
    | ReadGave(at: int, e: EntryId, view: View)
    | ReadFailed(at: int, e: EntryId, failure: ReadFailure)
    | EditEnded(at: int, e: EntryId, outcome: EditOutcome)
    | StopCalled(at: int)
    | Drained(at: int)

  function Start(now: int): State { State([], [], false, now) }

  predicate Live(s: State, e: EntryId) { !s.stopping && e in s.order }

  function With(s: State, e: EntryId, entry: Entry): State
    requires e < |s.entries|
  {
    s.(entries := s.entries[e := entry])
  }

  function Finished(s: State, e: EntryId): State
    requires e < |s.entries|
  {
    With(s, e, s.entries[e].(timer := None)).(order := Removed(s.order, e))
  }

  function Armed(s: State, e: EntryId, delay: int, last: bool): State
    requires e < |s.entries|
  {
    var entry := s.entries[e];
    With(s, e, entry.(timer := Some(Timer(s.now + delay, last)), attempt := None, steps := entry.steps + 1))
  }

  /** The attempt is over. */
  function Over(s: State, e: EntryId): State
    requires e < |s.entries|
  {
    With(s, e, s.entries[e].(attempt := None))
  }

  function Sending(s: State, e: EntryId, kind: EditKind, key: Key): State
    requires e < |s.entries|
  {
    With(s, e, s.entries[e].(attempt := Some(Editing(kind, key))))
  }

  function FinalEdit(s: State, e: EntryId): State
    requires e < |s.entries|
  {
    var view := s.entries[e].view;
    if !Live(s, e) then Over(s, e)
    else Sending(s, e, OfEnd, if StopStatus(view.status) then RenderKey(view) else DeadlineKey)
  }

  function Next(c: Config, s: State, e: EntryId, editFailedNow: bool): State
    requires e < |s.entries|
  {
    if !Live(s, e) then Over(s, e)
    else if s.now - s.entries[e].startedAt < c.deadlineMs then Armed(s, e, c.pollMs, false)
    else if editFailedNow then Armed(s, e, c.pollMs, true)
    else FinalEdit(s, e)
  }

  /** The end of an attempt whose status is known, its edit made or not needed. */
  function Judged(c: Config, s: State, e: EntryId, edited: bool): State
    requires e < |s.entries|
  {
    var entry := s.entries[e];
    var landed := entry.rendered == RenderKey(entry.view);
    if StopStatus(entry.view.status) && landed then Finished(Over(s, e), e) else Next(c, s, e, edited && !landed)
  }

  function AfterRead(c: Config, s: State, e: EntryId, view: View): State
    requires e < |s.entries|
  {
    if !Live(s, e) && !s.stopping then Over(s, e)
    else
      var seen := With(s, e, s.entries[e].(view := view));
      if RenderKey(view) != s.entries[e].rendered then Sending(seen, e, OfStatus, RenderKey(view))
      else Judged(c, seen, e, false)
  }

  function AfterReadFailure(c: Config, s: State, e: EntryId, failure: ReadFailure): State
    requires e < |s.entries|
  {
    match failure
    case Thrown => Finished(Over(s, e), e)
    case NotFound =>
      if Live(s, e) || s.stopping then Sending(s, e, OfNotFound, NotFoundKey) else Finished(Over(s, e), e)
    case Failure => Next(c, s, e, false)
  }

  function AfterEdit(c: Config, s: State, e: EntryId, outcome: EditOutcome): State
    requires e < |s.entries| && s.entries[e].attempt.Some? && s.entries[e].attempt.value.Editing?
  {
    var Editing(kind, key) := s.entries[e].attempt.value;
    var landed := outcome == Done || outcome == AlreadyShown;
    var seen := if landed then With(s, e, s.entries[e].(rendered := key)) else s;
    if outcome == Gone || outcome == Broken || kind != OfStatus then Finished(Over(seen, e), e)
    else Judged(c, seen, e, true)
  }

  function Fired(s: State, e: EntryId): State
    requires e < |s.entries| && s.entries[e].timer.Some?
  {
    var last := s.entries[e].timer.value.last;
    var begun := With(s, e, s.entries[e].(timer := None));
    if last then FinalEdit(begun, e) else With(begun, e, begun.entries[e].(attempt := Some(Reading)))
  }

  predicate Tracks(s: State, id: nat) {
    exists e :: e in s.order && e < |s.entries| && s.entries[e].id == id
  }

  function Evicted(c: Config, s: State): State {
    if |s.order| >= c.maxEntries && s.order != [] && s.order[0] < |s.entries| then Finished(s, s.order[0]) else s
  }

  function Tracked(c: Config, s: State, id: nat, view: View): State {
    if s.stopping || Tracks(s, id) then s
    else
      var room := Evicted(c, s);
      var entry := Entry(id, s.now, view, RenderKey(view), None, None, 0);
      Armed(room.(entries := room.entries + [entry], order := room.order + [|room.entries|]),
            |room.entries|, c.firstPollMs, false)
  }

  function Stopped(s: State): State {
    s.(stopping := true,
       entries := seq(|s.entries|, i requires 0 <= i < |s.entries| =>
         if i in s.order then s.entries[i].(timer := None) else s.entries[i]))
  }

  predicate Enabled(s: State, ev: Event) {
    s.now <= ev.at && match ev
    case Track(_, _, _) => true
    case Fire(at, e) => e < |s.entries| && s.entries[e].timer.Some? && s.entries[e].timer.value.due <= at
    case ReadGave(_, e, _) => e < |s.entries| && s.entries[e].attempt == Some(Reading)
    case ReadFailed(_, e, _) => e < |s.entries| && s.entries[e].attempt == Some(Reading)
    case EditEnded(_, e, _) => e < |s.entries| && s.entries[e].attempt.Some? && s.entries[e].attempt.value.Editing?
    case StopCalled(_) => true
    case Drained(_) => s.stopping && forall i :: 0 <= i < |s.entries| ==> s.entries[i].attempt.None?
  }

  function Step(c: Config, was: State, ev: Event): State
    requires Enabled(was, ev)
  {
    var s := was.(now := ev.at);
    match ev
    case Track(_, id, view) => Tracked(c, s, id, view)
    case Fire(_, e) => Fired(s, e)
    case ReadGave(_, e, view) => AfterRead(c, s, e, view)
    case ReadFailed(_, e, failure) => AfterReadFailure(c, s, e, failure)
    case EditEnded(_, e, outcome) => AfterEdit(c, s, e, outcome)
    case StopCalled(_) => Stopped(s)
    case Drained(_) => s.(order := [])
  }

  ghost predicate Exec(c: Config, states: seq<State>, events: seq<Event>) {
    && |states| == |events| + 1 && states[0].entries == [] && states[0].order == [] && !states[0].stopping
    && forall i :: 0 <= i < |events| ==> Enabled(states[i], events[i]) && states[i + 1] == Step(c, states[i], events[i])
  }
}
