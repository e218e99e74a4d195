/**
 Work handed off per chat (`apps/bot/src/detached.ts`): one work of a chat at a time, the newest replacing
 the one that waits. A work is named by its place among those handed off; `started` records the starts.
 */
module Detached {
  import opened Wrappers

  type ChatId = nat
  type WorkId = nat

  /** The source's `ChatWork`: the work that waits, whether one runs, whether a start is timed. */
  datatype Chat = Chat(next: Option<WorkId>, running: bool, timer: bool)

  /** A start, and the newest work of its chat handed off by then. */
  datatype Begun = Begun(work: WorkId, newest: Option<WorkId>)

  datatype State = State(chats: map<ChatId, Chat>, inFlight: map<WorkId, ChatId>, stopping: bool,
                         handed: seq<ChatId>, started: seq<Begun>)

  datatype Event = HandOff(chat: ChatId) | TimerFires(chat: ChatId) | Settles(work: WorkId) | Stop

  function Start(): State { State(map[], map[], false, [], []) }

  /** The newest work of the chat. */
  function Newest(handed: seq<ChatId>, chat: ChatId): (w: Option<WorkId>)
    ensures w.Some? ==> w.value < |handed| && handed[w.value] == chat
  {
    if handed == [] then None
    else if handed[|handed| - 1] == chat then Some(|handed| - 1)
    else Newest(handed[..|handed| - 1], chat)
  }

  function Begin(s: State, chat: ChatId, work: Option<WorkId>): State {
    match work
    case None => s.(chats := s.chats - {chat})
    case Some(w) => s.(chats := s.chats[chat := Chat(None, true, false)], inFlight := s.inFlight[w := chat],
                       started := s.started + [Begun(w, Newest(s.handed, chat))])
  }

  function HandedOff(s: State, chat: ChatId): State {
    if s.stopping then s
    else
      var w := |s.handed|;
      var state := if chat in s.chats then s.chats[chat] else Chat(None, false, false);
      s.(handed := s.handed + [chat],
         chats := s.chats[chat := Chat(Some(w), state.running, state.timer || !state.running)])
  }

  function Settled(s: State, w: WorkId): State
    requires w in s.inFlight
  {
    var chat := s.inFlight[w];
    var ended := s.(inFlight := s.inFlight - {w});
    if chat !in s.chats then ended
    else if s.chats[chat].next.Some? && !s.stopping then Begin(ended, chat, s.chats[chat].next)
    else ended.(chats := s.chats - {chat})
  }

  function Stopped(s: State): State {
    s.(stopping := true, chats := map chat | chat in s.chats && s.chats[chat].running :: s.chats[chat].(timer := false))
  }

  predicate Enabled(s: State, ev: Event) {
    match ev
    case HandOff(_) => true
    case TimerFires(chat) => chat in s.chats && s.chats[chat].timer
    case Settles(w) => w in s.inFlight
    case Stop => true
  }

  function Step(s: State, ev: Event): State
    requires Enabled(s, ev)
  {
    match ev
    case HandOff(chat) => HandedOff(s, chat)
    case TimerFires(chat) => Begin(s, chat, s.chats[chat].next)
    case Settles(w) => Settled(s, w)
    case Stop => Stopped(s)
  }

  ghost predicate Exec(states: seq<State>, events: seq<Event>) {
    && |states| == |events| + 1 && states[0] == Start()
    && forall i :: 0 <= i < |events| ==> Enabled(states[i], events[i]) && states[i + 1] == Step(states[i], events[i])
  }
}
