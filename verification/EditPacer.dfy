/**
 The pace of the bot's edits (`apps/bot/src/edit-pacer.ts`): a token bucket with a gap per chat, two
 priorities, pauses and a close. Times are whole milliseconds of a clock that never steps back;
 tokens are exact reals. `State` is everything the closure holds, together with the history of the
 slots granted and of the promises answered; the class `Pacer` is the code, in the source's form.
 */
module EditPacer {
  import opened Wrappers

  datatype Priority = Signal | Housekeeping
  datatype Waiter = Waiter(id: nat, chat: int)
  datatype Answer = Slot | Dropped | Closed
  datatype Reply = Reply(id: nat, answer: Answer)

  /** A slot given: `passedOver` are the chats of the signal edits waiting at that moment. */
  datatype Grant = Grant(id: nat, chat: int, priority: Priority, at: int, passedOver: seq<int>)

  datatype Config = Config(editsPerSecond: real, burst: real, chatGapMs: int) {
    predicate Valid() {
      editsPerSecond > 0.0 && burst >= 1.0 && chatGapMs >= 0
    }
  }

  datatype State = State(
    signal: seq<Waiter>, housekeeping: seq<Waiter>,
    lastEditAt: map<int, int>, tokens: real, refilledAt: int, paused: int, closed: bool,
    timer: Option<int>,                              // when it fires
    grants: seq<Grant>, replies: seq<Reply>, nextId: nat)
  {
    function Waiting(): seq<Waiter> { signal + housekeeping }
  }

  function Start(c: Config, now: int): State {
    State([], [], map[], c.burst, now, 0, false, None, [], [], 0)
  }

  /** The tokens that `ms` milliseconds earn. */
  function Credit(c: Config, ms: int): real {
    ms as real * c.editsPerSecond / 1000.0
  }

  function Ceil(x: real): int { -(-x).Floor }

  /** The whole milliseconds until a token is there. */
  function TokenWait(c: Config, tokens: real): int
    requires c.Valid()
  {
    Ceil((1.0 - tokens) * 1000.0 / c.editsPerSecond)
  }

  function Min(a: real, b: real): real { if a <= b then a else b }

  predicate ChatFree(c: Config, s: State, chat: int, at: int) {
    chat in s.lastEditAt ==> s.lastEditAt[chat] + c.chatGapMs <= at
  }

  // ----- `refill` and the pruning of `lastEditAt`

  function Refreshed(c: Config, s: State, at: int): State {
    s.(tokens := Min(c.burst, s.tokens + Credit(c, at - s.refilledAt)),
       refilledAt := at,
       lastEditAt := map chat | chat in s.lastEditAt && at - s.lastEditAt[chat] < c.chatGapMs :: s.lastEditAt[chat])
  }

  // ----- the waiters no longer wanted

  function Kept(queue: seq<Waiter>, unwanted: set<nat>): (kept: seq<Waiter>)
    ensures |kept| <= |queue|
  {
    if queue == [] then []
    else (if queue[0].id in unwanted then [] else [queue[0]]) + Kept(queue[1..], unwanted)
  }

  function DropReplies(queue: seq<Waiter>, unwanted: set<nat>): seq<Reply> {
    if queue == [] then []
    else (if queue[0].id in unwanted then [Reply(queue[0].id, Dropped)] else []) + DropReplies(queue[1..], unwanted)
  }

  function Filtered(s: State, unwanted: set<nat>): (s': State)
    ensures |s'.signal| <= |s.signal| && |s'.housekeeping| <= |s.housekeeping|
  {
    s.(signal := Kept(s.signal, unwanted),
       housekeeping := Kept(s.housekeeping, unwanted),
       replies := s.replies + DropReplies(s.signal, unwanted) + DropReplies(s.housekeeping, unwanted))
  }

  // ----- one slot

  /** The first waiter whose chat is free, or the number of waiters. */
  function FirstFree(c: Config, s: State, waiting: seq<Waiter>, at: int): (k: nat)
    ensures k <= |waiting|
    ensures k < |waiting| ==> ChatFree(c, s, waiting[k].chat, at)
    ensures forall i | 0 <= i < k :: !ChatFree(c, s, waiting[i].chat, at)
  {
    if waiting == [] then 0
    else if ChatFree(c, s, waiting[0].chat, at) then 0
    else 1 + FirstFree(c, s, waiting[1..], at)
  }

  function Without(queue: seq<Waiter>, k: nat): (rest: seq<Waiter>)
    requires k < |queue|
    ensures |rest| == |queue| - 1
  {
    queue[..k] + queue[k + 1..]
  }

  function Chats(queue: seq<Waiter>): seq<int> {
    seq(|queue|, i requires 0 <= i < |queue| => queue[i].chat)
  }

  function Granted(s: State, k: nat, at: int): (s': State)
    requires k < |s.Waiting()|
    ensures |s'.signal| + |s'.housekeeping| == |s.signal| + |s.housekeeping| - 1
  {
    var w := s.Waiting()[k];
    var bySignal := k < |s.signal|;
    s.(signal := if bySignal then Without(s.signal, k) else s.signal,
       housekeeping := if bySignal then s.housekeeping else Without(s.housekeeping, k - |s.signal|),
       tokens := s.tokens - 1.0,
       lastEditAt := s.lastEditAt[w.chat := at],
       grants := s.grants + [Grant(w.id, w.chat, if bySignal then Signal else Housekeeping, at, Chats(s.signal))],
       replies := s.replies + [Reply(w.id, Slot)])
  }

  /** When the first of the waiting chats is free again. */
  function EarliestFree(c: Config, s: State, waiting: seq<Waiter>): (t: int)
    requires waiting != [] && forall i | 0 <= i < |waiting| :: waiting[i].chat in s.lastEditAt
    ensures forall i | 0 <= i < |waiting| :: t <= s.lastEditAt[waiting[i].chat] + c.chatGapMs
    ensures exists i | 0 <= i < |waiting| :: t == s.lastEditAt[waiting[i].chat] + c.chatGapMs
  {
    var first := s.lastEditAt[waiting[0].chat] + c.chatGapMs;
    if |waiting| == 1 then first
    else
      var rest := EarliestFree(c, s, waiting[1..]);
      if first <= rest then first else rest
  }

  /** The loop of `pump`: slots as long as there is a token and a waiter whose chat is free, then the
      timer of whichever is missing. */
  function Served(c: Config, s: State, at: int, unwanted: set<nat>): State
    requires c.Valid()
    decreases |s.signal| + |s.housekeeping|
  {
    var s := Filtered(s, unwanted);
    if s.Waiting() == [] then s
    else if s.tokens < 1.0 then
      s.(timer := Some(at + TokenWait(c, s.tokens)))
    else
      var k := FirstFree(c, s, s.Waiting(), at);
      if k == |s.Waiting()| then s.(timer := Some(EarliestFree(c, s, s.Waiting())))
      else Served(c, Granted(s, k, at), at, unwanted)
  }

  function Pumped(c: Config, s: State, at: int, unwanted: set<nat>): State
    requires c.Valid()
  {
    if s.closed then s
    else if at < s.paused then
      s.(refilledAt := if s.refilledAt < at then at else s.refilledAt, timer := Some(s.paused))
    else Served(c, Refreshed(c, s.(timer := None), at), at, unwanted)
  }

  // ----- the steps from outside

  datatype Event =
    | Take(at: int, chat: int, priority: Priority, unwanted: set<nat>)
    | Pause(at: int, until: int, unwanted: set<nat>)
    | Fire(at: int, unwanted: set<nat>)
    | Close(at: int)

  function Pushed(s: State, chat: int, priority: Priority): State {
    var w := Waiter(s.nextId, chat);
    var s := s.(nextId := s.nextId + 1);
    if priority.Signal? then s.(signal := s.signal + [w]) else s.(housekeeping := s.housekeeping + [w])
  }

  function ClosedReplies(queue: seq<Waiter>): seq<Reply> {
    seq(|queue|, i requires 0 <= i < |queue| => Reply(queue[i].id, Closed))
  }

  /** One callback: `take`, `pause`, the timer or `close`. `unwanted` are the waiters whose `wanted()`
      answers false at that moment; a timer not due does nothing. */
  function Step(c: Config, s: State, e: Event): State
    requires c.Valid()
  {
    match e
    case Take(at, chat, priority, unwanted) =>
      if s.closed then s.(replies := s.replies + [Reply(s.nextId, Closed)], nextId := s.nextId + 1)
      else Pumped(c, Pushed(s, chat, priority), at, unwanted)
    case Pause(at, until, unwanted) =>
      if until <= s.paused then s else Pumped(c, s.(paused := until), at, unwanted)
    case Fire(at, unwanted) =>
      if s.timer.Some? && s.timer.value <= at then Pumped(c, s.(timer := None), at, unwanted) else s
    case Close(at) =>
      if s.closed then s
      else s.(closed := true, timer := None, signal := [], housekeeping := [],
              replies := s.replies + ClosedReplies(s.Waiting()))
  }

  /** The state after a run of callbacks. */
  function Run(c: Config, start: int, events: seq<Event>): State
    requires c.Valid()
  {
    if events == [] then Start(c, start)
    else Step(c, Run(c, start, events[..|events| - 1]), events[|events| - 1])
  }

  function Last(start: int, events: seq<Event>): int {
    if events == [] then start else events[|events| - 1].at
  }

  /** The clock never steps back. */
  predicate Monotone(start: int, events: seq<Event>) {
    events == [] ||
    (Monotone(start, events[..|events| - 1]) && Last(start, events[..|events| - 1]) <= events[|events| - 1].at)
  }
}
