/** The hand-off as the code runs it: the closure's variables changed in place. */
module DetachedCode {
  import opened Wrappers
  import opened Detached
  import opened DetachedProofs

  lemma GoesOn(trace: seq<State>, events: seq<Event>, e: Event, t: State)
    requires Exec(trace, events) && Enabled(trace[|events|], e) && t == Step(trace[|events|], e)
    ensures Exec(trace + [t], events + [e])
  {
    hide Enabled, Step;
  }

  class DetachedWork {
    var stopping: bool
    var chats: map<ChatId, Chat>
    var inFlight: map<WorkId, ChatId>
    ghost var handed: seq<ChatId>
    ghost var started: seq<Begun>
    /** What happened so far, and the states it went through. */
    ghost var events: seq<Event>
    ghost var trace: seq<State>

    ghost function Model(): State
      reads this
    {
      State(chats, inFlight, stopping, handed, started)
    }

    /** The object is where the run of its events is, so whatever holds of every run holds of it. */
    ghost predicate Valid()
      reads this
    {
      Exec(trace, events) && Model() == trace[|events|]
    }

    /** What one more event has done. */
    ghost predicate Did(e: Event, was: seq<Event>)
      reads this
    {
      Valid() && events == was + [e]
    }

    constructor ()
      ensures Valid() && events == []
    {
      events, trace := [], [Start()];
      stopping, chats, inFlight, handed, started := false, map[], map[], [], [];
    }

    method BeginNext(chat: ChatId)
      requires chat in chats
      modifies this`chats, this`inFlight, this`started
      ensures Model() == Begin(old(Model()), chat, old(chats[chat].next))
    {
      var work := chats[chat].next;
      if work == None {
        chats := chats - {chat};
        return;
      }
      chats := chats[chat := Chat(None, true, false)];
      inFlight := inFlight[work.value := chat];
      started := started + [Begun(work.value, Newest(handed, chat))];
    }

    /** `run`: the work, number `work` of those handed off, waits for its chat. */
    method Run(chat: ChatId, work: WorkId)
      requires Valid() && work == |handed|
      modifies this
      ensures Did(HandOff(chat), old(events))
    {
      hide Exec;
      if !stopping {
        handed := handed + [chat];
        var state := if chat in chats then chats[chat] else Chat(None, false, false);
        state := state.(next := Some(work));
        if !state.running && !state.timer {
          state := state.(timer := true);
        }
        chats := chats[chat := state];
      }
      Record(HandOff(chat), old(Model()));
    }

    /** A chat's timer. */
    method Fire(chat: ChatId)
      requires Valid() && Enabled(Model(), TimerFires(chat))
      modifies this
      ensures Did(TimerFires(chat), old(events))
    {
      hide Exec;
      BeginNext(chat);
      Record(TimerFires(chat), old(Model()));
    }

    /** The `finally` of a work. */
    method Settle(work: WorkId)
      requires Valid() && Enabled(Model(), Settles(work))
      modifies this
      ensures Did(Settles(work), old(events))
    {
      hide Exec;
      var chat := inFlight[work];
      inFlight := inFlight - {work};
      if chat in chats {
        if chats[chat].next != None && !stopping {
          BeginNext(chat);
        } else {
          chats := chats - {chat};
        }
      }
      Record(Settles(work), old(Model()));
    }

    /** `stop` up to its drain. */
    method StopAll()
      requires Valid()
      modifies this
      ensures Did(Stop, old(events))
    {
      hide Exec;
      stopping := true;
      chats := map chat | chat in chats && chats[chat].running :: chats[chat].(timer := false);
      Record(Stop, old(Model()));
    }

    ghost method Record(e: Event, was: State)
      requires Exec(trace, events) && was == trace[|events|]
      requires Enabled(was, e) && Model() == Step(was, e)
      modifies this`events, this`trace
      ensures Did(e, old(events))
    {
      GoesOn(trace, events, e, Model());
      events, trace := events + [e], trace + [Model()];
    }

    /** In this object too: one work a chat runs, and at rest the last one handed off was the last to start. */
    lemma Sound(chat: ChatId)
      requires Valid()
      ensures forall w: nat, v: nat :: w in inFlight && v in inFlight && w != v ==> inFlight[w] != inFlight[v]
      ensures !stopping && inFlight == map[] && (forall c: nat :: c in chats ==> !chats[c].timer) ==>
                LastStarted(handed, started, chat) == Newest(handed, chat)
    {
      OneAtATime(trace, events, |events|);
      if !stopping && inFlight == map[] && (forall c: nat :: c in chats ==> !chats[c].timer) {
        LastIsLast(trace, events, |events|, chat);
      }
    }
  }
}
