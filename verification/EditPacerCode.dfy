/** The pacer as the code runs it: the closure's variables changed in place. */
module EditPacerCode {
  import opened Wrappers
  import opened EditPacer
  import opened EditPacerProofs
  import opened EditPacerTheorems

  lemma GoesOn(c: Config, start: int, events: seq<Event>, e: Event)
    requires c.Valid() && Monotone(start, events) && Last(start, events) <= e.at
    ensures Monotone(start, events + [e]) && Run(c, start, events + [e]) == Step(c, Run(c, start, events), e)
  {
    assert (events + [e])[..|events|] == events;
  }

  class Pacer {
    const c: Config
    const start: int
    var signal: seq<Waiter>
    var housekeeping: seq<Waiter>
    var lastEditAt: map<int, int>
    var tokens: real
    var refilledAt: int
    var paused: int
    var closed: bool
    var timer: Option<int>
    // what the callers have been told
    var grants: seq<Grant>
    var replies: seq<Reply>
    var nextId: nat
    /** The callbacks of this pacer so far. */
    ghost var events: seq<Event>

    function Model(): State
      reads this
    {
      State(signal, housekeeping, lastEditAt, tokens, refilledAt, paused, closed, timer, grants, replies, nextId)
    }

    /** The object is where the run of its callbacks is, so whatever holds of every run holds of it. */
    ghost predicate Valid()
      reads this
    {
      c.Valid() && Monotone(start, events) && Model() == Run(c, start, events)
    }

    /** The clock has come to this time. */
    ghost predicate By(at: int)
      reads this
    {
      Last(start, events) <= at
    }

    /** What one more callback has done. */
    ghost predicate Did(e: Event, was: seq<Event>)
      reads this
    {
      Valid() && events == was + [e]
    }

    constructor (c: Config, now: int)
      requires c.Valid()
      ensures Valid() && By(now) && this.c == c && events == []
    {
      this.c, this.start, events := c, now, [];
      signal, housekeeping, lastEditAt := [], [], map[];
      tokens, refilledAt, paused, closed, timer := c.burst, now, 0, false, None;
      grants, replies, nextId := [], [], 0;
    }

    /** `refill`, and the chats whose gap is over are forgotten */
    method Refresh(at: int)
      modifies this`tokens, this`refilledAt, this`lastEditAt
      ensures Model() == Refreshed(c, old(Model()), at)
    {
      tokens := Min(c.burst, tokens + Credit(c, at - refilledAt));
      refilledAt := at;
      lastEditAt := map chat | chat in lastEditAt && at - lastEditAt[chat] < c.chatGapMs :: lastEditAt[chat];
    }

    /** One queue without the waiters no longer wanted, each of which is told so. */
    method Filter(queue: seq<Waiter>, unwanted: set<nat>) returns (kept: seq<Waiter>)
      modifies this`replies
      ensures kept == Kept(queue, unwanted) && replies == old(replies) + DropReplies(queue, unwanted)
    {
      kept := [];
      var i := 0;
      while i < |queue|
        invariant 0 <= i <= |queue|
        invariant kept + Kept(queue[i..], unwanted) == Kept(queue, unwanted)
        invariant replies + DropReplies(queue[i..], unwanted) == old(replies) + DropReplies(queue, unwanted)
      {
        var w := queue[i];
        assert queue[i..][1..] == queue[i + 1..];
        if w.id in unwanted {
          assert replies + DropReplies(queue[i..], unwanted)
              == (replies + [Reply(w.id, Dropped)]) + DropReplies(queue[i + 1..], unwanted);
          replies := replies + [Reply(w.id, Dropped)];
        } else {
          assert kept + Kept(queue[i..], unwanted) == (kept + [w]) + Kept(queue[i + 1..], unwanted);
          kept := kept + [w];
        }
        i := i + 1;
      }
    }

    method FilterQueues(unwanted: set<nat>)
      modifies this`signal, this`housekeeping, this`replies
      ensures Model() == Filtered(old(Model()), unwanted)
    {
      signal := Filter(signal, unwanted);
      housekeeping := Filter(housekeeping, unwanted);
    }

    /** `waiting.find` */
    method Find(waiting: seq<Waiter>, at: int) returns (k: nat)
      ensures k == FirstFree(c, Model(), waiting, at)
    {
      k := 0;
      while k < |waiting|
        invariant k <= |waiting|
        invariant k + FirstFree(c, Model(), waiting[k..], at) == FirstFree(c, Model(), waiting, at)
      {
        if ChatFree(c, Model(), waiting[k].chat, at) {
          break;
        }
        assert waiting[k..][1..] == waiting[k + 1..];
        k := k + 1;
      }
    }

    /** The least of the waiting chats' free times. */
    method Earliest(waiting: seq<Waiter>) returns (t: int)
      requires waiting != [] && forall i | 0 <= i < |waiting| :: waiting[i].chat in lastEditAt
      ensures t == EarliestFree(c, Model(), waiting)
    {
      var i := |waiting| - 1;
      t := lastEditAt[waiting[i].chat] + c.chatGapMs;
      while i > 0
        invariant 0 <= i < |waiting|
        invariant t == EarliestFree(c, Model(), waiting[i..])
      {
        i := i - 1;
        assert waiting[i..][1..] == waiting[i + 1..];
        var free := lastEditAt[waiting[i].chat] + c.chatGapMs;
        t := if free <= t then free else t;
      }
      assert waiting[0..] == waiting;
    }

    /** `pump` */
    method Pump(at: int, unwanted: set<nat>)
      requires c.Valid()
      modifies this
      ensures Model() == Pumped(c, old(Model()), at, unwanted) && events == old(events)
    {
      hide FirstFree, EarliestFree, Credit, TokenWait, Min, Granted, Filtered, Refreshed;
      if closed {
        return;
      }
      timer := None;
      if at < paused {
        refilledAt := if refilledAt < at then at else refilledAt;
        timer := Some(at + (paused - at));
        return;
      }
      Refresh(at);
      while true
        invariant Served(c, Model(), at, unwanted) == Pumped(c, old(Model()), at, unwanted)
        invariant events == old(events)
        decreases |signal| + |housekeeping|
      {
        FilterQueues(unwanted);
        var waiting := signal + housekeeping;
        if |waiting| == 0 {
          return;
        }
        if tokens < 1.0 {
          timer := Some(at + TokenWait(c, tokens));
          return;
        }
        var k := Find(waiting, at);
        if k == |waiting| {
          var free := Earliest(waiting);
          timer := Some(free);
          return;
        }
        GiveSlot(k, at);
      }
    }

    /** The k-th waiter leaves its queue with a token. */
    method GiveSlot(k: nat, at: int)
      requires k < |Model().Waiting()|
      modifies this
      ensures Model() == Granted(old(Model()), k, at) && events == old(events)
    {
      var next := (signal + housekeeping)[k];
      var priority, passedOver := if k < |signal| then Signal else Housekeeping, Chats(signal);
      if k < |signal| {
        signal := Without(signal, k);
      } else {
        housekeeping := Without(housekeeping, k - |signal|);
      }
      tokens := tokens - 1.0;
      lastEditAt := lastEditAt[next.chat := at];
      grants := grants + [Grant(next.id, next.chat, priority, at, passedOver)];
      replies := replies + [Reply(next.id, Slot)];
    }

    /** `take`, whose promise is number `id`. */
    method TakeSlot(at: int, chat: int, priority: Priority, unwanted: set<nat>) returns (id: nat)
      requires Valid() && By(at)
      modifies this
      ensures Did(Take(at, chat, priority, unwanted), old(events)) && id == Takes(old(events))
    {
      hide Run, Monotone;
      TakesCounted(c, start, events);
      id := nextId;
      nextId := nextId + 1;
      if closed {
        replies := replies + [Reply(id, Closed)];
      } else {
        if priority.Signal? {
          signal := signal + [Waiter(id, chat)];
        } else {
          housekeeping := housekeeping + [Waiter(id, chat)];
        }
        assert Model() == Pushed(old(Model()), chat, priority);
        hide Pumped, Pushed;
        Pump(at, unwanted);
      }
      GoesOn(c, start, events, Take(at, chat, priority, unwanted));
      events := events + [Take(at, chat, priority, unwanted)];
    }

    method PauseUntil(at: int, until: int, unwanted: set<nat>)
      requires Valid() && By(at)
      modifies this
      ensures Did(Pause(at, until, unwanted), old(events))
      ensures paused >= until
    {
      hide Run, Monotone, Pumped;
      if until > paused {
        paused := until;
        Pump(at, unwanted);
      }
      GoesOn(c, start, events, Pause(at, until, unwanted));
      PumpedStaysOpen(c, old(Model()).(paused := until), at, unwanted);
      events := events + [Pause(at, until, unwanted)];
    }

    /** The timer's callback. */
    method TimerFires(at: int, unwanted: set<nat>)
      requires Valid() && By(at) && timer.Some? && timer.value <= at
      modifies this
      ensures Did(Fire(at, unwanted), old(events))
    {
      hide Run, Monotone, Pumped;
      timer := None;
      Pump(at, unwanted);
      GoesOn(c, start, events, Fire(at, unwanted));
      events := events + [Fire(at, unwanted)];
    }

    /** `close`: every take ever made has its answer. */
    method CloseAll(at: int)
      requires Valid() && By(at)
      modifies this
      ensures Did(Close(at), old(events)) && closed
      ensures NoTwice(replies) && forall id: nat :: id < Takes(events) <==> id in RepliedIds(replies)
    {
      hide Run, Monotone;
      if !closed {
        closed := true;
        timer := None;
        replies := replies + ClosedReplies(signal + housekeeping);
        signal := [];
        housekeeping := [];
      }
      GoesOn(c, start, events, Close(at));
      events := events + [Close(at)];
      AnsweredOnceAfterClose(c, start, events);
    }

    /** The slots of this object in any window, and those of one chat. */
    lemma Paced(a: int, b: int)
      requires Valid() && a <= b
      ensures CountIn(grants, a, b) as real <= c.burst + Credit(c, b - a) && 0.0 <= tokens <= c.burst
      ensures forall i, j | 0 <= i < j < |grants| && grants[i].chat == grants[j].chat ::
                grants[j].at - grants[i].at >= c.chatGapMs
      ensures Watchful(c, Model())
    {
      WindowBound(c, start, events, a, b);
      NeverStalls(c, start, events);
      forall i, j | 0 <= i < j < |grants| && grants[i].chat == grants[j].chat
        ensures grants[j].at - grants[i].at >= c.chatGapMs
      {
        ChatGap(c, start, events, i, j);
      }
    }
  }
}
