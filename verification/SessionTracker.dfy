/**
 The tracker of the session messages (`apps/bot/src/session-tracker.ts`). An event is what runs
 between two awaits. `entries` holds every entry object ever made; `current` is the source's map from
 a session to its entry. Timers and attempts are the event loop's, each with its own identity, so
 that having at most one of them per entry is something to prove. `edits` and `summaries` record what
 the tracker sent.
 */
module SessionTracker {
  import opened Wrappers
  import opened MapOrder

  type SessionId = nat
  type EntryId = nat

  /** A session's view as far as the tracker reads it; `drawing` stands for the text and the picture. */
  datatype View = View(stopped: bool, finished: bool, noticesDone: bool, drawing: nat)

  /** What an entry knows to be on its message. */
  datatype Shown = Nothing | NotFoundText | Drawing(drawing: nat)

  datatype Entry = Entry(session: SessionId, message: nat, startedAt: int, view: Option<View>, record: bool,
                         rendered: Shown, timer: Option<nat>)

  datatype Memo = Memo(message: nat, rendered: Shown)

  /** Where an attempt awaits: the read, an edit, the report of a lost message or the summary. */
  datatype Stage =
    | Reading
    | Editing(view: View, last: bool)
    | EditingNotFound
    | Reporting(view: View, last: bool)
    | Summing

  datatype Timer = Timer(entry: EntryId, due: int)
  datatype Attempt = Attempt(entry: EntryId, stage: Stage)

  /** An edit sent: the session's entry at that moment, what was on the message, and the view drawn
      (none for the text of a session not found). */
  datatype EditSent = EditSent(entry: EntryId, holder: Option<EntryId>, before: Shown, view: Option<View>)
  datatype SummarySent = SummarySent(entry: EntryId, view: View, rendered: Shown)

  datatype Config = Config(firstPollMs: int, pollMs: int, deadlineMs: int, resumeGapMs: int, maxEntries: nat) {
    predicate Valid() { maxEntries >= 1 && resumeGapMs >= 0 && firstPollMs >= 0 }
  }

  datatype State = State(
    entries: seq<Entry>,
    current: map<SessionId, EntryId>, order: seq<SessionId>,
    drawn: map<SessionId, Memo>, drawnOrder: seq<SessionId>,
    nextResumeAt: Option<int>, stopping: bool,
    timers: map<nat, Timer>, attempts: map<nat, Attempt>, nextTimer: nat, nextAttempt: nat,
    edits: seq<EditSent>, summaries: seq<SummarySent>)

  function Start(): State {
    State([], map[], [], map[], [], None, false, map[], map[], 0, 0, [], [])
  }

  predicate Holds(entries: seq<Entry>, current: map<SessionId, EntryId>, e: EntryId) {
    e < |entries| && entries[e].session in current && current[entries[e].session] == e
  }

  /** Still the entry of its session: not replaced, evicted or finished. */
  predicate Current(s: State, e: EntryId) {
    Holds(s.entries, s.current, e)
  }

  predicate Live(s: State, e: EntryId) {
    !s.stopping && Current(s, e)
  }

  predicate SummaryDue(entry: Entry, view: View) {
    view.finished && entry.rendered == Drawing(view.drawing) && view.noticesDone
  }

  predicate MayDraw(entry: Entry, view: View) {
    entry.rendered != Nothing || view.stopped
  }

  // ----- `finish` and `arm`

  /** `clearTimeout(entry.timer)` */
  function TimerCleared(s: State, e: EntryId): State
    requires e < |s.entries|
  {
    if s.entries[e].timer.Some? then s.(timers := s.timers - {s.entries[e].timer.value}) else s
  }

  function Remembered(c: Config, s: State, id: SessionId, memo: Memo): (t: State)
    ensures t == s.(drawn := t.drawn, drawnOrder := t.drawnOrder)
  {
    var drawn, order := s.drawn[id := memo], Removed(s.drawnOrder, id) + [id];
    if |drawn| > c.maxEntries then s.(drawn := drawn - {order[0]}, drawnOrder := order[1..])
    else s.(drawn := drawn, drawnOrder := order)
  }

  /** The entry's timer cleared, and its session free of it. */
  function Unlisted(s: State, e: EntryId): (t: State)
    requires e < |s.entries|
    ensures t.entries == s.entries && t.attempts == s.attempts
  {
    if Current(s, e) then
      var id := s.entries[e].session;
      TimerCleared(s, e).(current := s.current - {id}, order := Removed(s.order, id))
    else TimerCleared(s, e)
  }

  function Finished(c: Config, s: State, e: EntryId, remember: bool): (t: State)
    requires e < |s.entries|
    ensures t.entries == s.entries && t.attempts == s.attempts
  {
    var entry := s.entries[e];
    if Current(s, e) && remember && entry.rendered != Nothing then
      Remembered(c, Unlisted(s, e), entry.session, Memo(entry.message, entry.rendered))
    else Unlisted(s, e)
  }

  function Armed(s: State, e: EntryId, due: int): State
    requires e < |s.entries|
  {
    s.(timers := s.timers[s.nextTimer := Timer(e, due)],
       entries := s.entries[e := s.entries[e].(timer := Some(s.nextTimer))],
       nextTimer := s.nextTimer + 1)
  }

  // ----- the attempt, continuation by continuation

  function Over(s: State, a: nat): State { s.(attempts := s.attempts - {a}) }

  function At(s: State, a: nat, stage: Stage): State
    requires a in s.attempts
  {
    s.(attempts := s.attempts[a := s.attempts[a].(stage := stage)])
  }

  function Holder(s: State, id: SessionId): Option<EntryId> {
    if id in s.current then Some(s.current[id]) else None
  }

  /** An edit is sent and awaited. */
  function Sent(s: State, a: nat, stage: Stage, view: Option<View>): State
    requires a in s.attempts && s.attempts[a].entry < |s.entries|
  {
    var e := s.attempts[a].entry;
    var entry := s.entries[e];
    At(s, a, stage).(edits := s.edits + [EditSent(e, Holder(s, entry.session), entry.rendered, view)])
  }

  function Summed(s: State, a: nat, view: View): State
    requires a in s.attempts && s.attempts[a].entry < |s.entries|
  {
    var e := s.attempts[a].entry;
    At(s, a, Summing).(summaries := s.summaries + [SummarySent(e, view, s.entries[e].rendered)])
  }

  /** `finish(entry)` and the attempt's end. */
  function Ended(c: Config, s: State, a: nat): State
    requires a in s.attempts && s.attempts[a].entry < |s.entries|
  {
    Over(Finished(c, s, s.attempts[a].entry, true), a)
  }

  /** Past the deadline, its last edit made or not needed: the summary if it is due, and the end. */
  function LastDone(c: Config, s: State, a: nat, view: View): State
    requires a in s.attempts && s.attempts[a].entry < |s.entries|
  {
    if SummaryDue(s.entries[s.attempts[a].entry], view) then Summed(s, a, view) else Ended(c, s, a)
  }

  /** `next` */
  function Next(c: Config, s: State, a: nat, now: int): State
    requires a in s.attempts && s.attempts[a].entry < |s.entries|
  {
    var e := s.attempts[a].entry;
    var entry := s.entries[e];
    if !Live(s, e) then Over(s, a)
    else if now - entry.startedAt < c.deadlineMs then Over(Armed(s, e, now + c.pollMs), a)
    else if entry.view.None? then Ended(c, s, a)
    else if entry.rendered != Drawing(entry.view.value.drawing) && MayDraw(entry, entry.view.value) then
      Sent(s, a, Editing(entry.view.value, true), entry.view)
    else LastDone(c, s, a, entry.view.value)
  }

  /** A poll's edit made or not needed: the summary if it is due, or the next poll. */
  function PollDone(c: Config, s: State, a: nat, view: View, now: int): State
    requires a in s.attempts && s.attempts[a].entry < |s.entries|
  {
    if SummaryDue(s.entries[s.attempts[a].entry], view) then Summed(s, a, view) else Next(c, s, a, now)
  }

  function AfterEdit(c: Config, s: State, a: nat, view: View, last: bool, now: int): State
    requires a in s.attempts && s.attempts[a].entry < |s.entries|
  {
    if last then LastDone(c, s, a, view) else PollDone(c, s, a, view, now)
  }

  datatype ReadResult = Answered(view: View) | NotFound | Unavailable | ReadBroken

  function ReadDone(c: Config, s: State, a: nat, r: ReadResult, now: int): State
    requires a in s.attempts && s.attempts[a].entry < |s.entries|
  {
    var e := s.attempts[a].entry;
    match r
    case Unavailable => Next(c, s, a, now)
    case ReadBroken => Ended(c, s, a)
    case NotFound =>
      if Current(s, e) then Sent(s, a, EditingNotFound, None) else Ended(c, s, a)
    case Answered(view) =>
      var s := s.(entries := s.entries[e := s.entries[e].(record := false)]);
      if !Current(s, e) then Over(s, a)
      else
        var s := s.(entries := s.entries[e := s.entries[e].(view := Some(view))]);
        var entry := s.entries[e];
        if Drawing(view.drawing) != entry.rendered && MayDraw(entry, view) then
          Sent(s, a, Editing(view, false), Some(view))
        else AfterEdit(c, s, a, view, false, now)
  }

  /** How an edit ends: on screen (drawn or shown already), refused for now, the message lost for good,
      or a bug. */
  datatype EditResult = Landed | Refused | Lost | EditBroken

  function Rendered(s: State, e: EntryId, shown: Shown): State
    requires e < |s.entries|
  {
    s.(entries := s.entries[e := s.entries[e].(rendered := shown)])
  }

  /** `editTo` of a view's drawing, and what the attempt does with its answer. */
  function EditDone(c: Config, s: State, a: nat, r: EditResult, now: int): State
    requires a in s.attempts && s.attempts[a].entry < |s.entries| && s.attempts[a].stage.Editing?
  {
    var e := s.attempts[a].entry;
    var view, last := s.attempts[a].stage.view, s.attempts[a].stage.last;
    match r
    case Landed => AfterEdit(c, Rendered(s, e, Drawing(view.drawing)), a, view, last, now)
    case Refused => AfterEdit(c, s, a, view, last, now)
    case Lost => At(Finished(c, s, e, false), a, Reporting(view, last))
    case EditBroken =>
      var s := Finished(c, s, e, true);
      if last then LastDone(c, s, a, view) else Over(s, a)
  }

  /** The report of the lost message ended: a poll's attempt is over, a last edit's goes on. */
  function ReportDone(c: Config, s: State, a: nat): State
    requires a in s.attempts && s.attempts[a].entry < |s.entries| && s.attempts[a].stage.Reporting?
  {
    var view, last := s.attempts[a].stage.view, s.attempts[a].stage.last;
    if last then LastDone(c, s, a, view) else Over(s, a)
  }

  /** The edit of a session not found: whatever came of it, the entry ends. */
  function NotFoundDone(c: Config, s: State, a: nat, r: EditResult): State
    requires a in s.attempts && s.attempts[a].entry < |s.entries|
  {
    var e := s.attempts[a].entry;
    match r
    case Landed => Ended(c, Rendered(s, e, NotFoundText), a)
    case Lost => Over(Finished(c, s, e, false), a)
    case _ => Ended(c, s, a)
  }

  // ----- `track`, the timers, `stop`

  datatype Request = Request(session: SessionId, message: nat, view: Option<View>, record: bool, startedAt: Option<int>)

  /** `resumeSlot`: the time of the first poll of an entry with no view */
  function SlotAt(c: Config, s: State, now: int): int {
    if s.nextResumeAt.Some? && s.nextResumeAt.value > now + c.firstPollMs then s.nextResumeAt.value
    else now + c.firstPollMs
  }

  function MadeRoom(c: Config, s: State, session: SessionId): State
    requires forall id <- s.current :: s.current[id] < |s.entries|
  {
    if session in s.current then Finished(c, s, s.current[session], true)
    else if |s.current| >= c.maxEntries && s.order != [] && s.order[0] in s.current then
      Finished(c, s, s.current[s.order[0]], true)
    else s
  }

  /** What a new entry knows to be on its message. */
  function FirstShown(s: State, r: Request): Shown {
    if r.view.Some? then Drawing(r.view.value.drawing)
    else if r.session in s.drawn && s.drawn[r.session].message == r.message then s.drawn[r.session].rendered
    else Nothing
  }

  function Added(s: State, r: Request, startedAt: int): State {
    s.(entries := s.entries + [Entry(r.session, r.message, startedAt, r.view, r.record, FirstShown(s, r), None)],
       current := s.current[r.session := |s.entries|],
       order := Removed(s.order, r.session) + [r.session],
       drawn := s.drawn - {r.session},
       drawnOrder := Removed(s.drawnOrder, r.session))
  }

  /** The timer of an entry's first poll. */
  function Scheduled(c: Config, s: State, e: EntryId, r: Request, now: int): State
    requires e < |s.entries|
  {
    if r.view.None? then
      var due := SlotAt(c, s, now);
      Armed(s, e, due).(nextResumeAt := Some(due + c.resumeGapMs))
    else Armed(s, e, if r.record then now else now + c.firstPollMs)
  }

  function Tracked(c: Config, s: State, r: Request, now: int): State
    requires forall id <- s.current :: s.current[id] < |s.entries|
  {
    if s.stopping then s
    else
      var previous := Holder(s, r.session);
      var startedAt := if previous.Some? then s.entries[previous.value].startedAt
                       else if r.startedAt.Some? then r.startedAt.value else now;
      var s := Added(MadeRoom(c, s, r.session), r, startedAt);
      Scheduled(c, s, |s.entries| - 1, r, now)
  }

  function Fired(s: State, t: nat): State
    requires t in s.timers && s.timers[t].entry < |s.entries|
  {
    var e := s.timers[t].entry;
    s.(timers := s.timers - {t},
       entries := s.entries[e := s.entries[e].(timer := None)],
       attempts := s.attempts[s.nextAttempt := Attempt(e, Reading)],
       nextAttempt := s.nextAttempt + 1)
  }

  /** `stop` up to its await: every timer of the map's entries is cleared. */
  function StopAsked(s: State): State
    requires forall id <- s.current :: s.current[id] < |s.entries|
  {
    s.(stopping := true,
       timers := map t | t in s.timers && !(exists id :: id in s.current && s.entries[s.current[id]].timer == Some(t))
                       :: s.timers[t])
  }

  datatype Event =
    | Track(request: Request, now: int)
    | Fire(timer: nat, now: int)
    | Read(attempt: nat, read: ReadResult, now: int)
    | Edit(attempt: nat, edit: EditResult, now: int)
    | Report(attempt: nat)
    | Summary(attempt: nat)
    | Stop
    | Drained

  ghost predicate WellFormed(s: State) {
    && (forall id <- s.current :: s.current[id] < |s.entries|)
    && (forall t <- s.timers :: s.timers[t].entry < |s.entries|)
    && (forall a <- s.attempts :: s.attempts[a].entry < |s.entries|)
  }

  predicate Enabled(s: State, e: Event) {
    match e
    case Track(_, _) => true
    case Fire(t, now) => t in s.timers && s.timers[t].due <= now
    case Read(a, _, _) => a in s.attempts && s.attempts[a].stage.Reading?
    case Edit(a, _, _) => a in s.attempts && (s.attempts[a].stage.Editing? || s.attempts[a].stage.EditingNotFound?)
    case Report(a) => a in s.attempts && s.attempts[a].stage.Reporting?
    case Summary(a) => a in s.attempts && s.attempts[a].stage.Summing?
    case Stop => true
    case Drained => s.stopping && s.attempts == map[]
  }

  function Step(c: Config, s: State, e: Event): State
    requires WellFormed(s) && Enabled(s, e)
  {
    match e
    case Track(r, now) => Tracked(c, s, r, now)
    case Fire(t, now) => Fired(s, t)
    case Read(a, r, now) => ReadDone(c, s, a, r, now)
    case Edit(a, r, now) =>
      if s.attempts[a].stage.Editing? then EditDone(c, s, a, r, now) else NotFoundDone(c, s, a, r)
    case Report(a) => ReportDone(c, s, a)
    case Summary(a) => Ended(c, s, a)
    case Stop => StopAsked(s)
    case Drained => s.(current := map[], order := [])
  }

  /** The state after a run, if each of its events could happen. */
  ghost function Exec(c: Config, events: seq<Event>): Option<State> {
    if events == [] then Some(Start())
    else
      match Exec(c, events[..|events| - 1])
      case None => None
      case Some(s) =>
        var e := events[|events| - 1];
        if WellFormed(s) && Enabled(s, e) then Some(Step(c, s, e)) else None
  }
}
