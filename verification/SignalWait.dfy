/**
 The waits of the signals screens (`apps/bot/src/signal-wait.ts`): the entries of the users, the tick that
 launches their edits, the slots of the signal edits' reads and the gate before every edit. A step is what
 runs between two awaits. What an edit's work reads and draws is left open: a work is any sequence of
 gates, sends and endings.
 */
module SignalWait {
  import opened MapOrder

  type EntryId = nat
  type LaunchId = nat

  datatype Entry = Entry(user: nat, busy: bool, slotted: bool, final: bool)

  /**
   Queued for a read slot, holding one and not yet resumed, at work, waiting at the gate, sending,
   turned away at the gate, or over.
   */
  datatype Phase = Queued | Holding | Working | Gated | Sending | TurnedAway | Over

  datatype Launch = Launch(entry: EntryId, resolves: bool, released: bool, phase: Phase)

  /** A tick reads its snapshot, or waits for the reads of the signal edits before the housekeeping ones. */
  datatype Tick = Idle | Snapshotting | Waiting(later: seq<EntryId>, awaited: seq<LaunchId>)

  /** An edit sent: whether its entry was its user's live one. */
  datatype Sent = Sent(entry: EntryId, live: bool)

  datatype Config = Config(resolveConcurrency: nat, maxEntries: nat, captionEditsPerTick: nat)

  datatype State = State(entries: seq<Entry>, order: seq<EntryId>, timer: bool, stopped: bool, tick: Tick,
                         launches: seq<Launch>, reading: int, readers: seq<LaunchId>, sent: seq<Sent>)

  /** What the tick decides about an entry; `Fails` is a screen that throws. */
  datatype Choice = Kept | Fails | Signal(resolves: bool) | Housekeeping

  datatype Event =
    | Register(user: nat)
    | Leave(user: nat)
    | TimerFires
    | Snapshot(choices: map<EntryId, Choice>)
    | SnapshotFails
    | ReadsDone(captions: seq<EntryId>)
    | Resume(l: LaunchId)
    | Gate(l: LaunchId)
    | GateOpens(l: LaunchId, slot: bool)
    | SendEnds(l: LaunchId, ends: bool, final: bool)
    | WorkEnds(l: LaunchId, ends: bool)
    | Stop

  function Start(): State { State([], [], false, false, Idle, [], 0, [], []) }

  predicate Live(s: State, e: EntryId) { !s.stopped && e in s.order }

  /** The next candle's boundary plus the offset. */
  function NextPoll(at: int, pollMs: int, pollOffsetMs: int): int
    requires pollMs > 0
  {
    ((at - pollOffsetMs) / pollMs + 1) * pollMs + pollOffsetMs
  }

  function Scheduled(s: State): State {
    if s.stopped || s.order == [] then s else s.(timer := true)
  }

  // ----- entries

  function OfOthers(entries: seq<Entry>, order: seq<EntryId>, user: nat): (rest: seq<EntryId>)
    ensures forall e :: e in rest <==> e in order && (e < |entries| ==> entries[e].user != user)
    ensures |rest| <= |order|
  {
    if order == [] then []
    else (if order[0] < |entries| && entries[order[0]].user == user then [] else [order[0]])
         + OfOthers(entries, order[1..], user)
  }

  /** The newest that fit. */
  function Newest(order: seq<EntryId>, max: nat): (rest: seq<EntryId>)
    ensures forall e :: e in rest ==> e in order
    ensures |rest| <= max
  {
    if |order| > max then order[|order| - max..] else order
  }

  function Registered(c: Config, s: State, user: nat): State {
    var n := |s.entries|;
    var made := s.(entries := s.entries + [Entry(user, false, false, false)]);
    if s.stopped then made
    else Scheduled(made.(order := Newest(OfOthers(s.entries, s.order, user) + [n], c.maxEntries)))
  }

  function EndedEntry(s: State, e: EntryId): State {
    var order := Removed(s.order, e);
    s.(order := order, timer := s.timer && order != [])
  }

  function Left(s: State, user: nat): State {
    var order := OfOthers(s.entries, s.order, user);
    if order == s.order then s else s.(order := order, timer := s.timer && order != [])
  }

  // ----- launches and read slots

  function Launched(c: Config, s: State, e: EntryId, resolves: bool): (t: State)
    requires e < |s.entries|
    ensures |t.entries| == |s.entries|
  {
    var n := |s.launches|;
    var busy := s.(entries := s.entries[e := s.entries[e].(busy := true)]);
    if !resolves then busy.(launches := s.launches + [Launch(e, false, false, Working)])
    else if s.reading < c.resolveConcurrency then
      busy.(launches := s.launches + [Launch(e, true, false, Holding)], reading := s.reading + 1)
    else busy.(launches := s.launches + [Launch(e, true, false, Queued)], readers := s.readers + [n])
  }

  function LaunchedAll(c: Config, s: State, es: seq<EntryId>, resolving: set<EntryId>): (t: State)
    requires forall i :: 0 <= i < |es| ==> es[i] < |s.entries|
    ensures |t.entries| == |s.entries|
  {
    if es == [] then s
    else
      var e := es[|es| - 1];
      Launched(c, LaunchedAll(c, s, es[..|es| - 1], resolving), e, e in resolving)
  }

  /** The read slot goes back once, to the first that waits for one. */
  function Released(s: State, l: LaunchId): State
    requires l < |s.launches|
  {
    var launch := s.launches[l];
    if launch.released then s
    else
      var given := s.(launches := s.launches[l := launch.(released := true)]);
      if !launch.resolves then given
      else if s.readers == [] then given.(reading := s.reading - 1)
      else
        var r := s.readers[0];
        if r < |s.launches| then
          given.(launches := given.launches[r := given.launches[r].(phase := Holding)], readers := s.readers[1..])
        else given
  }

  function InPhase(s: State, l: LaunchId, phase: Phase): State
    requires l < |s.launches|
  {
    s.(launches := s.launches[l := s.launches[l].(phase := phase)])
  }

  /** The launch's end, however it came. */
  function Finalized(s: State, l: LaunchId): State
    requires l < |s.launches| && s.launches[l].entry < |s.entries|
  {
    var e := s.launches[l].entry;
    InPhase(Released(s, l).(entries := s.entries[e := s.entries[e].(busy := false, slotted := false)]), l, Over)
  }

  function Opened(s: State, l: LaunchId, slot: bool): State
    requires l < |s.launches| && s.launches[l].entry < |s.entries|
  {
    var e := s.launches[l].entry;
    if !slot || !Live(s, e) then InPhase(s, l, TurnedAway)
    else InPhase(s, l, Sending).(entries := s.entries[e := s.entries[e].(slotted := true)],
                                 sent := s.sent + [Sent(e, Live(s, e))])
  }

  // ----- the tick

  /** The entries a tick may touch: live and not being edited, with the decision asked for. */
  function Chosen(entries: seq<Entry>, order: seq<EntryId>, choices: map<EntryId, Choice>,
                  wanted: Choice -> bool): (es: seq<EntryId>)
    ensures forall i :: 0 <= i < |es| ==> es[i] in order && es[i] < |entries| && !entries[es[i]].busy
                                          && es[i] in choices && wanted(choices[es[i]])
  {
    if order == [] then []
    else
      var e := order[0];
      (if e < |entries| && !entries[e].busy && e in choices && wanted(choices[e]) then [e] else [])
      + Chosen(entries, order[1..], choices, wanted)
  }

  function EndedAll(s: State, es: seq<EntryId>): (t: State)
    ensures t.entries == s.entries && t.launches == s.launches
  {
    if es == [] then s else EndedEntry(EndedAll(s, es[..|es| - 1]), es[|es| - 1])
  }

  function Ids(from: nat, n: nat): seq<LaunchId> { seq(n, i => from + i) }

  predicate IsFails(choice: Choice) { choice == Fails }
  predicate IsSignal(choice: Choice) { choice.Signal? }
  predicate IsHousekeeping(choice: Choice) { choice == Housekeeping }

  /** Those whose edit reads the backend first. */
  function Resolving(choices: map<EntryId, Choice>): set<EntryId> {
    set e | e in choices && choices[e] == Signal(true)
  }

  function Decided(c: Config, s: State, choices: map<EntryId, Choice>): State {
    var failing := Chosen(s.entries, s.order, choices, IsFails);
    var signals := Chosen(s.entries, s.order, choices, IsSignal);
    var later := Chosen(s.entries, s.order, choices, IsHousekeeping);
    var kept := EndedAll(s, failing);
    LaunchedAll(c, kept.(tick := Waiting(later, Ids(|s.launches|, |signals|))), signals, Resolving(choices))
  }

  function LiveOf(s: State, es: seq<EntryId>): (live: seq<EntryId>)
    ensures forall i :: 0 <= i < |live| ==> live[i] in es && live[i] < |s.entries| && Live(s, live[i])
  {
    if es == [] then []
    else
      var e := es[|es| - 1];
      LiveOf(s, es[..|es| - 1]) + if e < |s.entries| && Live(s, e) then [e] else []
  }

  function HousekeepingLaunched(c: Config, s: State): State
    requires s.tick.Waiting?
  {
    LaunchedAll(c, s, LiveOf(s, s.tick.later), {})
  }

  /** The captions a tick may refresh: live, not being edited, no more than its share. */
  ghost predicate CaptionsFit(c: Config, s: State, captions: seq<EntryId>) {
    && |captions| <= c.captionEditsPerTick && NoRepeats(captions)
    && forall i :: 0 <= i < |captions| ==>
         captions[i] < |s.entries| && Live(s, captions[i]) && !s.entries[captions[i]].busy
  }

  // ----- all steps

  predicate AllReleased(s: State, ls: seq<LaunchId>) {
    forall i :: 0 <= i < |ls| ==> ls[i] < |s.launches| && s.launches[ls[i]].released
  }

  predicate Runs(s: State, l: LaunchId, phases: set<Phase>) {
    l < |s.launches| && s.launches[l].entry < |s.entries| && s.launches[l].phase in phases
  }

  ghost predicate Enabled(c: Config, s: State, ev: Event) {
    match ev
    case Register(_) => true
    case Leave(_) => true
    case TimerFires => s.timer
    case Snapshot(_) => s.tick == Snapshotting
    case SnapshotFails => s.tick == Snapshotting
    case ReadsDone(captions) =>
      s.tick.Waiting? && AllReleased(s, s.tick.awaited) && CaptionsFit(c, HousekeepingLaunched(c, s), captions)
    case Resume(l) => Runs(s, l, {Holding})
    case Gate(l) => Runs(s, l, {Working})
    case GateOpens(l, _) => Runs(s, l, {Gated})
    case SendEnds(l, _, _) => Runs(s, l, {Sending})
    case WorkEnds(l, _) => Runs(s, l, {Working, TurnedAway})
    case Stop => true
  }

  function MaybeEnded(s: State, e: EntryId, ends: bool): State { if ends then EndedEntry(s, e) else s }

  function SendEnded(s: State, l: LaunchId, ends: bool, final: bool): State
    requires l < |s.launches| && s.launches[l].entry < |s.entries|
  {
    var e := s.launches[l].entry;
    var marked := if final then s.(entries := s.entries[e := s.entries[e].(final := true)]) else s;
    MaybeEnded(InPhase(marked, l, Working), e, ends || final)
  }

  ghost function Step(c: Config, s: State, ev: Event): State
    requires Enabled(c, s, ev)
  {
    match ev
    case Register(user) => Registered(c, s, user)
    case Leave(user) => Left(s, user)
    case TimerFires => Scheduled(s.(timer := false, tick := if s.tick == Idle then Snapshotting else s.tick))
    case Snapshot(choices) => Decided(c, s, choices)
    case SnapshotFails => s.(tick := Idle)
    case ReadsDone(captions) => LaunchedAll(c, HousekeepingLaunched(c, s), captions, {}).(tick := Idle)
    case Resume(l) => if Live(s, s.launches[l].entry) then InPhase(s, l, Working) else Finalized(s, l)
    case Gate(l) => InPhase(Released(s, l), l, Gated)
    case GateOpens(l, slot) => Opened(s, l, slot)
    case SendEnds(l, ends, final) => SendEnded(s, l, ends, final)
    case WorkEnds(l, ends) => Finalized(MaybeEnded(s, s.launches[l].entry, ends), l)
    case Stop => if s.stopped then s else s.(stopped := true, timer := false, order := [])
  }

  ghost predicate Exec(c: Config, states: seq<State>, events: seq<Event>) {
    && |states| == |events| + 1 && states[0] == Start()
    && forall i | 0 <= i < |events| ::
         Enabled(c, states[i], events[i]) && states[i + 1] == Step(c, states[i], events[i])
  }
}
