/**
 One work a chat at a time, always the newest, none after the stop, and the last one handed off is the last
 one started.
 */
module DetachedProofs {
  import opened Wrappers
  import opened Detached

  /** The last start of a work of the chat. */
  function LastStarted(handed: seq<ChatId>, started: seq<Begun>, chat: ChatId): Option<WorkId> {
    if started == [] then None
    else
      var w := started[|started| - 1].work;
      if w < |handed| && handed[w] == chat then Some(w) else LastStarted(handed, started[..|started| - 1], chat)
  }

  /** A chat is kept for a work under way or for a start that is timed, not for both. */
  ghost predicate ChatOk(chat: Chat, stopping: bool) {
    && (chat.running <==> !chat.timer)
    && (chat.timer ==> chat.next.Some? && !stopping)
  }

  ghost predicate RunningOk(chats: map<ChatId, Chat>, inFlight: map<WorkId, ChatId>, handed: seq<ChatId>) {
    && (forall w: nat :: w in inFlight ==> inFlight[w] in chats && chats[inFlight[w]].running)
    && (forall w: nat, v: nat :: w in inFlight && v in inFlight && w != v ==> inFlight[w] != inFlight[v])
    && (forall c: nat :: c in chats && chats[c].running ==> exists w: nat :: w in inFlight && inFlight[w] == c)
    && (forall w: nat :: w in inFlight ==> w < |handed| && handed[w] == inFlight[w])
  }

  /** What waits is the newest; where nothing waits the newest was the last to start. */
  ghost predicate NewestOk(chats: map<ChatId, Chat>, handed: seq<ChatId>, started: seq<Begun>) {
    forall c: nat :: if c in chats && chats[c].next.Some? then chats[c].next == Newest(handed, c)
                     else LastStarted(handed, started, c) == Newest(handed, c)
  }

  ghost predicate StartedOk(handed: seq<ChatId>, started: seq<Begun>) {
    && (forall i :: 0 <= i < |started| ==> started[i].work < |handed| && started[i].newest == Some(started[i].work))
    && (forall i, j :: 0 <= i < j < |started| && handed[started[i].work] == handed[started[j].work] ==>
          started[i].work < started[j].work)
  }

  /** A work that waits has not been started. */
  ghost predicate NotYet(chats: map<ChatId, Chat>, handed: seq<ChatId>, started: seq<Begun>) {
    forall c: nat, i | c in chats && chats[c].next.Some? && 0 <= i < |started| ::
      started[i].work < |handed| && handed[started[i].work] == c ==> started[i].work < chats[c].next.value
  }

  ghost predicate Inv(s: State) {
    && (forall c: nat :: c in s.chats ==> ChatOk(s.chats[c], s.stopping))
    && RunningOk(s.chats, s.inFlight, s.handed)
    && (!s.stopping ==> NewestOk(s.chats, s.handed, s.started))
    && StartedOk(s.handed, s.started)
    && (!s.stopping ==> NotYet(s.chats, s.handed, s.started))
  }

  lemma {:induction false} LastStartedGrows(handed: seq<ChatId>, more: ChatId, started: seq<Begun>, chat: ChatId)
    requires forall i :: 0 <= i < |started| ==> started[i].work < |handed|
    ensures LastStarted(handed + [more], started, chat) == LastStarted(handed, started, chat)
  {
    if started != [] { LastStartedGrows(handed, more, started[..|started| - 1], chat); }
  }

  lemma NewestGrows(handed: seq<ChatId>, more: ChatId, chat: ChatId)
    ensures Newest(handed + [more], chat) == if chat == more then Some(|handed|) else Newest(handed, chat)
  {
    assert (handed + [more])[..|handed|] == handed;
  }

  lemma RunningHanded(chats: map<ChatId, Chat>, inFlight: map<WorkId, ChatId>, handed: seq<ChatId>, chat: ChatId,
                      x: Chat)
    requires RunningOk(chats, inFlight, handed) && x.running == (chat in chats && chats[chat].running)
    ensures RunningOk(chats[chat := x], inFlight, handed + [chat])
  {
    assert forall w: nat :: w < |handed| ==> (handed + [chat])[w] == handed[w];
  }

  lemma StartedGrows(s: State, t: State)
    requires StartedOk(s.handed, s.started) && NotYet(s.chats, s.handed, s.started)
    requires t.started == s.started && s.handed <= t.handed
    requires forall c: nat :: c in t.chats && t.chats[c].next.Some? ==>
               t.chats[c].next.value >= |s.handed| || (c in s.chats && s.chats[c].next == t.chats[c].next)
    ensures StartedOk(t.handed, t.started) && NotYet(t.chats, t.handed, t.started)
  {
  }

  lemma HandOffKeeps(s: State, chat: ChatId)
    requires Inv(s)
    ensures Inv(HandedOff(s, chat))
  {
    if !s.stopping {
      hide Newest, LastStarted, RunningOk, NotYet, NewestOk;
      var t := HandedOff(s, chat);
      RunningHanded(s.chats, s.inFlight, s.handed, chat, t.chats[chat]);
      NewestHanded(s, chat);
      hide StartedOk;
      StartedGrows(s, t);
    }
  }

  lemma NewestHanded(s: State, chat: ChatId)
    requires NewestOk(s.chats, s.handed, s.started) && StartedOk(s.handed, s.started) && !s.stopping
    ensures var t := HandedOff(s, chat); NewestOk(t.chats, t.handed, t.started)
  {
    hide Newest, LastStarted;
    var t := HandedOff(s, chat);
    forall c: nat ensures Newest(t.handed, c) == (if c == chat then Some(|s.handed|) else Newest(s.handed, c))
      ensures LastStarted(t.handed, t.started, c) == LastStarted(s.handed, s.started, c)
    {
      NewestGrows(s.handed, chat, c);
      LastStartedGrows(s.handed, chat, s.started, c);
    }
    hide StartedOk;
  }

  lemma LastStartedNow(handed: seq<ChatId>, started: seq<Begun>, w: WorkId, newest: Option<WorkId>, c: ChatId)
    requires w < |handed|
    ensures LastStarted(handed, started + [Begun(w, newest)], c)
         == if handed[w] == c then Some(w) else LastStarted(handed, started, c)
  {
    assert (started + [Begun(w, newest)])[..|started|] == started;
  }

  /** All of the invariant but that the chat's own work runs: between the end of one and the start of the next. */
  ghost predicate Between(s: State, chat: ChatId) {
    && (forall c: nat :: c in s.chats ==> ChatOk(s.chats[c], s.stopping))
    && RunningOk(s.chats - {chat}, s.inFlight, s.handed)
    && NewestOk(s.chats, s.handed, s.started) && StartedOk(s.handed, s.started) && NotYet(s.chats, s.handed, s.started)
  }

  lemma RunningBegins(chats: map<ChatId, Chat>, inFlight: map<WorkId, ChatId>, handed: seq<ChatId>, chat: ChatId,
                      w: WorkId, x: Chat)
    requires RunningOk(chats - {chat}, inFlight, handed) && w < |handed| && handed[w] == chat && x.running
    ensures RunningOk(chats[chat := x], inFlight[w := chat], handed)
  {
    assert w !in inFlight;
    var after, flying := chats[chat := x], inFlight[w := chat];
    forall c: nat | c in after && after[c].running ensures exists v: nat :: v in flying && flying[v] == c {
      if c == chat {
        assert flying[w] == c;
      } else {
        assert c in chats - {chat};
        var v: nat :| v in inFlight && inFlight[v] == c;
        assert flying[v] == c;
      }
    }
  }

  /** A start is of the newest work, which was not started before. */
  lemma StartsNewest(s: State, chat: ChatId)
    requires chat in s.chats && s.chats[chat].next.Some?
    requires NewestOk(s.chats, s.handed, s.started) && StartedOk(s.handed, s.started)
    requires NotYet(s.chats, s.handed, s.started)
    ensures var t := Begin(s, chat, s.chats[chat].next);
      NewestOk(t.chats, t.handed, t.started) && StartedOk(t.handed, t.started) && NotYet(t.chats, t.handed, t.started)
  {
    var w := s.chats[chat].next.value;
    var t := Begin(s, chat, s.chats[chat].next);
    assert Newest(s.handed, chat) == Some(w);
    forall c: nat
      ensures LastStarted(t.handed, t.started, c) == if c == chat then Some(w) else LastStarted(s.handed, s.started, c)
    {
      LastStartedNow(s.handed, s.started, w, Newest(s.handed, chat), c);
    }
    hide Newest, LastStarted;
    assert t.started == s.started + [Begun(w, Some(w))];
    assert StartedOk(t.handed, t.started) by { hide NewestOk; }
    assert NewestOk(t.chats, t.handed, t.started) by { hide StartedOk, NotYet; }
    assert NotYet(t.chats, t.handed, t.started) by { hide StartedOk, NewestOk; }
  }

  lemma BeginKeeps(s: State, chat: ChatId)
    requires !s.stopping && chat in s.chats && s.chats[chat].next.Some? && Between(s, chat)
    ensures Inv(Begin(s, chat, s.chats[chat].next))
  {
    var w := s.chats[chat].next.value;
    assert Newest(s.handed, chat) == Some(w);
    StartsNewest(s, chat);
    RunningBegins(s.chats, s.inFlight, s.handed, chat, w, Chat(None, true, false));
    hide NewestOk, StartedOk, NotYet, RunningOk, Newest;
  }

  lemma NobodyRuns(chats: map<ChatId, Chat>, inFlight: map<WorkId, ChatId>, handed: seq<ChatId>, chat: ChatId)
    requires RunningOk(chats, inFlight, handed) && chat in chats && !chats[chat].running
    ensures RunningOk(chats - {chat}, inFlight, handed)
  {
  }

  lemma RunningEnds(chats: map<ChatId, Chat>, inFlight: map<WorkId, ChatId>, handed: seq<ChatId>, w: WorkId)
    requires RunningOk(chats, inFlight, handed) && w in inFlight
    ensures RunningOk(chats - {inFlight[w]}, inFlight - {w}, handed)
  {
    var chat, fewer := inFlight[w], inFlight - {w};
    forall c: nat | c in chats && c != chat && chats[c].running ensures exists v: nat :: v in fewer && fewer[v] == c {
      var v: nat :| v in inFlight && inFlight[v] == c;
      assert v in fewer;
    }
  }

  lemma ChatLeaves(s: State, chat: ChatId)
    requires chat in s.chats && !s.stopping && NewestOk(s.chats, s.handed, s.started)
    requires NotYet(s.chats, s.handed, s.started)
    requires s.chats[chat].next.None?
    ensures NewestOk(s.chats - {chat}, s.handed, s.started) && NotYet(s.chats - {chat}, s.handed, s.started)
  {
  }

  lemma SettleKeeps(s: State, w: WorkId)
    requires Inv(s) && w in s.inFlight
    ensures Inv(Settled(s, w))
  {
    var chat := s.inFlight[w];
    assert chat in s.chats && s.chats[chat].running;
    hide RunningOk, StartedOk, NewestOk, NotYet, Newest, LastStarted;
    RunningEnds(s.chats, s.inFlight, s.handed, w);
    if s.chats[chat].next.None? && !s.stopping { ChatLeaves(s, chat); }
    if s.chats[chat].next.Some? && !s.stopping {
      BeginKeeps(s.(inFlight := s.inFlight - {w}), chat);
    }
  }

  lemma StopKeeps(s: State)
    requires Inv(s)
    ensures Inv(Stopped(s))
  {
    var t := Stopped(s);
    forall c: nat | c in t.chats && t.chats[c].running ensures exists w: nat :: w in t.inFlight && t.inFlight[w] == c {
      assert c in s.chats && s.chats[c].running;
    }
  }

  lemma StepKeeps(s: State, ev: Event)
    requires Inv(s) && Enabled(s, ev)
    ensures Inv(Step(s, ev))
  {
    match ev
    case HandOff(chat) => HandOffKeeps(s, chat);
    case TimerFires(chat) =>
      NobodyRuns(s.chats, s.inFlight, s.handed, chat);
      BeginKeeps(s, chat);
    case Settles(w) => SettleKeeps(s, w);
    case Stop => StopKeeps(s);
  }

  lemma {:induction false} ExecKeeps(states: seq<State>, events: seq<Event>, i: nat)
    requires Exec(states, events) && i < |states|
    ensures Inv(states[i])
  {
    if i > 0 {
      ExecKeeps(states, events, i - 1);
      hide Inv;
      StepKeeps(states[i - 1], events[i - 1]);
    }
  }

  /** In every run: one work a chat at a time, each start of the newest work handed off, in the order handed off. */
  lemma OneAtATime(states: seq<State>, events: seq<Event>, i: nat)
    requires Exec(states, events) && i < |states|
    ensures var s := states[i];
      && (forall w: nat, v: nat :: w in s.inFlight && v in s.inFlight && w != v ==> s.inFlight[w] != s.inFlight[v])
      && (forall k :: 0 <= k < |s.started| ==> s.started[k].newest == Some(s.started[k].work))
      && (forall j, k :: 0 <= j < k < |s.started| ==> s.started[j].work != s.started[k].work)
  {
    ExecKeeps(states, events, i);
  }

  /** From the stop on nothing starts. */
  lemma {:induction false} NoneAfterStop(states: seq<State>, events: seq<Event>, i: nat, j: nat)
    requires Exec(states, events) && i <= j < |states| && states[i].stopping
    ensures states[j].stopping && states[j].started == states[i].started
    decreases j
  {
    if i < j {
      NoneAfterStop(states, events, i, j - 1);
      ExecKeeps(states, events, j - 1);
    }
  }

  /** At rest and not stopped, the last work of every chat is the last that started, and no chat keeps an entry. */
  lemma LastIsLast(states: seq<State>, events: seq<Event>, i: nat, chat: ChatId)
    requires Exec(states, events) && i < |states|
    requires !states[i].stopping && states[i].inFlight == map[]
    requires forall c: nat :: c in states[i].chats ==> !states[i].chats[c].timer
    ensures LastStarted(states[i].handed, states[i].started, chat) == Newest(states[i].handed, chat)
    ensures states[i].chats == map[]
  {
    ExecKeeps(states, events, i);
    var s := states[i];
    forall c: nat ensures c !in s.chats {
      assert c in s.chats ==> ChatOk(s.chats[c], s.stopping);
    }
  }
}
