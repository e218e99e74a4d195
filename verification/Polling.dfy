/**
 The client bot's long polling (`apps/bot/src/polling.ts`). One event is what runs between two
 awaits: a turn of the loop, an answer of getUpdates, a handler starting or ending, the stop. `State`
 holds the closure's variables, every task dispatched so far, where the loop stands, and the
 server's side: the updates that arrived and the highest offset it was sent.
 */
module Polling {
  import opened Wrappers

  /** The keys `updateKey` makes, numbered. */
  type Key = nat

  /** An update: its id and the key its user's updates are ordered by, if it has one. */
  datatype Update = Update(id: nat, key: Option<Key>)

  datatype Phase = Queued | Handling | Done
  /** A dispatched update: the task its handler runs behind, if its key had a chain. */
  datatype Task = Task(update: Update, prev: Option<nat>, phase: Phase)

  datatype Loop =
    | Ready                          // its next turn is scheduled
    | Waiting                        // inside `await freed()`
    | Fetching(sent: nat, limit: nat) // inside `await retrying(getUpdates)`, with the offset it sends
    | Draining(snapshot: set<nat>)   // inside `await Promise.allSettled([...inflight])`
    | Settled

  datatype Config = Config(concurrency: nat, waitingMax: nat) {
    predicate Valid() { concurrency >= 1 && waitingMax >= 1 }
  }

  datatype State = State(
    running: bool, offset: nat, inflight: set<nat>, chains: map<Key, nat>, unkeyed: int, wakeUp: bool,
    tasks: seq<Task>, loop: Loop, arrived: seq<Update>, confirmed: nat)

  function Start(): State {
    State(true, 0, {}, map[], 0, false, [], Ready, [], 0)
  }

  function Max(a: nat, b: nat): nat { if a < b then b else a }

  // ----- `dispatch`

  function Dispatched(s: State, u: Update): State {
    var i := |s.tasks|;
    var prev := if u.key.Some? && u.key.value in s.chains then Some(s.chains[u.key.value]) else None;
    s.(offset := u.id + 1,
       inflight := s.inflight + {i},
       tasks := s.tasks + [Task(u, prev, Queued)],
       unkeyed := if u.key.None? then s.unkeyed + 1 else s.unkeyed,
       chains := if u.key.None? then s.chains else s.chains[u.key.value := i])
  }

  function AllDispatched(s: State, updates: seq<Update>): State {
    if updates == [] then s
    else Dispatched(AllDispatched(s, updates[..|updates| - 1]), updates[|updates| - 1])
  }

  // ----- a handler's end: the `finally` of its task

  function Woken(s: State): State {
    s.(wakeUp := false, loop := if s.loop.Waiting? && s.wakeUp then Ready else s.loop)
  }

  function Ended(s: State, i: nat): State
    requires i < |s.tasks|
  {
    var key := s.tasks[i].update.key;
    Woken(s.(inflight := s.inflight - {i},
             tasks := s.tasks[i := s.tasks[i].(phase := Done)],
             unkeyed := if key.None? then s.unkeyed - 1 else s.unkeyed,
             chains := if key.Some? && key.value in s.chains && s.chains[key.value] == i
                       then s.chains - {key.value} else s.chains))
  }

  // ----- the loop

  function Heads(s: State): int { |s.chains| + s.unkeyed }

  function Behind(s: State): int { |s.inflight| - Heads(s) }

  function Free(c: Config, s: State): int {
    var a, b := c.concurrency - Heads(s), c.waitingMax - Behind(s);
    if a < b then a else b
  }

  /** The loop is over: `running` goes down and what is in flight is waited for. */
  function Broken(s: State): State {
    s.(running := false, loop := Draining(s.inflight))
  }

  function Turned(c: Config, s: State): State {
    if !s.running then Broken(s)
    else if Free(c, s) <= 0 then s.(wakeUp := true, loop := Waiting)
    else s.(loop := Fetching(s.offset, Free(c, s)), confirmed := Max(s.confirmed, s.offset))
  }

  // ----- the server

  /** What the server still has from an offset on; its updates stand in the order of their ids. */
  function Pending(arrived: seq<Update>, offset: nat): seq<Update> {
    if arrived == [] then []
    else (if arrived[0].id >= offset then [arrived[0]] else []) + Pending(arrived[1..], offset)
  }

  /** An answer of the server to the getUpdates in flight: the lowest ids from the offset sent on. */
  predicate Answers(s: State, updates: seq<Update>) {
    s.loop.Fetching? && |updates| <= s.loop.limit && updates <= Pending(s.arrived, s.loop.sent)
  }

  function Received(s: State, updates: seq<Update>): State {
    AllDispatched(s, updates).(loop := Ready)
  }

  function Stopped(s: State): State {
    if !s.running then s
    else Woken(s.(running := false, confirmed := Max(s.confirmed, s.offset)))
  }

  datatype Event =
    | Arrive(update: Update)   // the server gets an update
    | Turn                     // the loop's next turn
    | Answer(updates: seq<Update>) // getUpdates answers
    | Abort                    // getUpdates fails or is cut short after the stop
    | Fatal                    // getUpdates answers 401 or 409
    | Begin(task: nat)         // a handler starts
    | End(task: nat)           // a handler ends
    | Stop
    | Settle

  /** What can happen next. A getUpdates that fails any other way while running is sent again with the
      same offset, which changes nothing here; one answered just before the stop still answers. */
  predicate Enabled(s: State, e: Event) {
    match e
    case Arrive(u) => forall v <- s.arrived :: v.id < u.id
    case Turn => s.loop.Ready?
    case Answer(updates) => Answers(s, updates)
    case Abort => s.loop.Fetching? && !s.running
    case Fatal => s.loop.Fetching? && s.running
    case Begin(i) =>
      && i < |s.tasks| && s.tasks[i].phase.Queued?
      && (s.tasks[i].prev.Some? ==> s.tasks[i].prev.value < |s.tasks| && s.tasks[s.tasks[i].prev.value].phase.Done?)
    case End(i) => i < |s.tasks| && s.tasks[i].phase.Handling?
    case Stop => true
    case Settle => s.loop.Draining? && s.loop.snapshot !! s.inflight
  }

  function Step(c: Config, s: State, e: Event): State
    requires Enabled(s, e)
  {
    match e
    case Arrive(u) => s.(arrived := s.arrived + [u])
    case Turn => Turned(c, s)
    case Answer(updates) => Received(s, updates)
    case Abort => Broken(s)
    case Fatal => Broken(s)
    case Begin(i) => s.(tasks := s.tasks[i := s.tasks[i].(phase := Handling)])
    case End(i) => Ended(s, i)
    case Stop => Stopped(s)
    case Settle => s.(loop := Settled)
  }

  /** The state after a run, if each of its events could happen. */
  function Exec(c: Config, events: seq<Event>): Option<State> {
    if events == [] then Some(Start())
    else
      match Exec(c, events[..|events| - 1])
      case None => None
      case Some(s) =>
        if Enabled(s, events[|events| - 1]) then Some(Step(c, s, events[|events| - 1])) else None
  }
}
