/** What the edit pacer keeps over every run of callbacks. */
module EditPacerProofs {
  import opened Wrappers
  import opened EditPacer

  // ----- the bucket

  lemma CreditAdds(c: Config, a: int, b: int)
    ensures Credit(c, a) + Credit(c, b) == Credit(c, a + b)
  {
    assert (a as real + b as real) * c.editsPerSecond == a as real * c.editsPerSecond + b as real * c.editsPerSecond;
  }

  lemma CreditGrows(c: Config, a: int, b: int)
    requires c.Valid() && a <= b
    ensures Credit(c, a) <= Credit(c, b)
  {
    CreditAdds(c, a, b - a);
    assert (b - a) as real * c.editsPerSecond >= 0.0;
  }

  /** The tokens left and the slots since any earlier one together stay within the burst and what
      the time since then earned. */
  ghost predicate Budgeted(c: Config, s: State) {
    && 0.0 <= s.tokens <= c.burst
    && forall i | 0 <= i < |s.grants| ::
         && s.grants[i].at <= s.refilledAt
         && (|s.grants| - i) as real + s.tokens <= c.burst + Credit(c, s.refilledAt - s.grants[i].at)
  }

  /** From any slot to any later one: no more slots than the burst and the time between allow. */
  ghost predicate Windowed(c: Config, grants: seq<Grant>) {
    && (forall i, j | 0 <= i <= j < |grants| :: grants[i].at <= grants[j].at)
    && (forall i, j | 0 <= i <= j < |grants| ::
         (j - i + 1) as real <= c.burst + Credit(c, grants[j].at - grants[i].at))
  }

  lemma BudgetRefills(c: Config, s: State, at: int)
    requires c.Valid() && Budgeted(c, s) && s.refilledAt <= at
    ensures Budgeted(c, Refreshed(c, s, at))
    ensures Budgeted(c, s.(refilledAt := at))
  {
    CreditGrows(c, 0, at - s.refilledAt);
    forall i | 0 <= i < |s.grants|
      ensures Credit(c, s.refilledAt - s.grants[i].at) + Credit(c, at - s.refilledAt) == Credit(c, at - s.grants[i].at)
    {
      CreditAdds(c, s.refilledAt - s.grants[i].at, at - s.refilledAt);
    }
  }

  lemma BudgetSpends(c: Config, s: State, k: nat)
    requires c.Valid() && Budgeted(c, s) && Windowed(c, s.grants) && k < |s.Waiting()| && s.tokens >= 1.0
    ensures Budgeted(c, Granted(s, k, s.refilledAt)) && Windowed(c, Granted(s, k, s.refilledAt).grants)
  {
    assert Credit(c, 0) == 0.0;
    hide Credit, Without;
    var s' := Granted(s, k, s.refilledAt);
    var n := |s.grants|;
    assert forall i | 0 <= i < n :: s'.grants[i] == s.grants[i];
    assert s'.grants[n].at == s.refilledAt;
  }

  // ----- the gap of a chat

  ghost predicate EditedAt(grants: seq<Grant>, n: int, chat: int, at: int) {
    exists i | 0 <= i < n && i < |grants| :: grants[i].chat == chat && grants[i].at == at
  }

  ghost predicate Gapped(c: Config, grants: seq<Grant>) {
    forall i, j | 0 <= i < j < |grants| && grants[i].chat == grants[j].chat ::
      grants[j].at - grants[i].at >= c.chatGapMs
  }

  /** `lastEditAt` has every chat edited less than a gap ago, with its last slot. */
  ghost predicate Remembered(c: Config, s: State) {
    && (forall i | 0 <= i < |s.grants| ::
          || (s.grants[i].chat in s.lastEditAt && s.grants[i].at <= s.lastEditAt[s.grants[i].chat])
          || s.refilledAt - s.grants[i].at >= c.chatGapMs)
    && (forall chat <- s.lastEditAt :: EditedAt(s.grants, |s.grants|, chat, s.lastEditAt[chat]))
  }

  /** A signal edit passed over by a housekeeping one: its chat had a slot less than a gap before. */
  ghost predicate SignalsFirst(c: Config, grants: seq<Grant>) {
    forall i, n | 0 <= i < |grants| && grants[i].priority.Housekeeping? && 0 <= n < |grants[i].passedOver| ::
      ChatBusy(c, grants, i, grants[i].passedOver[n])
  }

  ghost predicate ChatBusy(c: Config, grants: seq<Grant>, i: int, chat: int)
    requires 0 <= i < |grants|
  {
    exists j | 0 <= j < i :: grants[j].chat == chat && grants[i].at - grants[j].at < c.chatGapMs
  }

  lemma GapRefills(c: Config, s: State, at: int)
    requires Remembered(c, s) && s.refilledAt <= at
    ensures Remembered(c, Refreshed(c, s, at))
  {
    hide EditedAt;
  }

  lemma GapSpends(c: Config, s: State, k: nat)
    requires c.Valid() && Budgeted(c, s) && Gapped(c, s.grants) && Remembered(c, s)
    requires k < |s.Waiting()| && ChatFree(c, s, s.Waiting()[k].chat, s.refilledAt)
    ensures Gapped(c, Granted(s, k, s.refilledAt).grants)
  {
    hide EditedAt;
    var s' := Granted(s, k, s.refilledAt);
    assert forall i | 0 <= i < |s.grants| :: s'.grants[i] == s.grants[i];
  }

  lemma RememberedSpends(c: Config, s: State, k: nat)
    requires Budgeted(c, s) && Remembered(c, s) && k < |s.Waiting()|
    ensures Remembered(c, Granted(s, k, s.refilledAt))
  {
    var at, w, n := s.refilledAt, s.Waiting()[k], |s.grants|;
    var s' := Granted(s, k, at);
    assert forall i | 0 <= i < n :: s'.grants[i] == s.grants[i];
    forall chat <- s'.lastEditAt
      ensures EditedAt(s'.grants, n + 1, chat, s'.lastEditAt[chat])
    {
      if chat == w.chat {
        assert s'.grants[n].chat == chat && s'.grants[n].at == at;
      } else {
        assert EditedAt(s.grants, n, chat, s.lastEditAt[chat]);
        var i :| 0 <= i < n && s.grants[i].chat == chat && s.grants[i].at == s.lastEditAt[chat];
        assert s'.grants[i].chat == chat;
      }
    }
    hide EditedAt;
  }

  lemma SignalsFirstSpends(c: Config, s: State, k: nat)
    requires c.Valid() && Remembered(c, s) && SignalsFirst(c, s.grants)
    requires k < |s.Waiting()| && k == FirstFree(c, s, s.Waiting(), s.refilledAt)
    ensures SignalsFirst(c, Granted(s, k, s.refilledAt).grants)
  {
    var at, n := s.refilledAt, |s.grants|;
    var s' := Granted(s, k, at);
    assert forall i | 0 <= i < n :: s'.grants[i] == s.grants[i];
    forall i, m | 0 <= i <= n && s'.grants[i].priority.Housekeeping? && 0 <= m < |s'.grants[i].passedOver|
      ensures ChatBusy(c, s'.grants, i, s'.grants[i].passedOver[m])
    {
      var chat := s'.grants[i].passedOver[m];
      if i < n {
        assert ChatBusy(c, s.grants, i, chat);
        var j :| 0 <= j < i && s.grants[j].chat == chat && s.grants[i].at - s.grants[j].at < c.chatGapMs;
        assert s'.grants[j].chat == chat;
      } else {
        assert s.Waiting()[m] == s.signal[m] && !ChatFree(c, s, chat, at);
        assert EditedAt(s.grants, n, chat, s.lastEditAt[chat]);
        var j :| 0 <= j < n && s.grants[j].chat == chat && s.grants[j].at == s.lastEditAt[chat];
        assert s'.grants[j].chat == chat;
      }
    }
  }

  // ----- the order of the waiters

  ghost predicate Sorted(queue: seq<Waiter>) {
    forall i, j | 0 <= i < j < |queue| :: queue[i].id < queue[j].id
  }

  /** The slots of one chat and priority went in the order they were asked for. */
  ghost predicate GrantsInOrder(grants: seq<Grant>) {
    forall i, j | 0 <= i < j < |grants|
                  && grants[i].chat == grants[j].chat && grants[i].priority == grants[j].priority ::
      grants[i].id < grants[j].id
  }

  /** No slot went to a waiter that asked later than one of its chat and priority still queued. */
  ghost predicate QueueBehind(grants: seq<Grant>, p: Priority, queue: seq<Waiter>) {
    forall g, w | g in grants && w in queue && g.priority == p && g.chat == w.chat :: g.id < w.id
  }

  ghost predicate IdsBelow(grants: seq<Grant>, n: nat) {
    forall i | 0 <= i < |grants| :: grants[i].id < n
  }

  ghost predicate InOrder(s: State) {
    && IdsBelow(s.grants, s.nextId)
    && GrantsInOrder(s.grants)
    && QueueBehind(s.grants, Signal, s.signal)
    && QueueBehind(s.grants, Housekeeping, s.housekeeping)
  }

  // ----- one answer per take

  ghost function Ids(queue: seq<Waiter>): set<nat> { set w <- queue :: w.id }
  ghost function RepliedIds(replies: seq<Reply>): set<nat> { set r <- replies :: r.id }
  ghost predicate AllBelow(ids: set<nat>, n: nat) { forall id: nat :: id in ids <==> id < n }

  ghost predicate NoTwice(replies: seq<Reply>) {
    forall i, j | 0 <= i < j < |replies| :: replies[i].id != replies[j].id
  }

  /** Every take ever made is either waiting in one queue or answered, once. */
  ghost predicate Accounted(s: State) {
    && Sorted(s.signal) && Sorted(s.housekeeping) && NoTwice(s.replies)
    && Ids(s.signal) !! Ids(s.housekeeping)
    && (Ids(s.signal) + Ids(s.housekeeping)) !! RepliedIds(s.replies)
    && AllBelow(Ids(s.signal) + Ids(s.housekeeping) + RepliedIds(s.replies), s.nextId)
  }

  lemma NoTwiceConcat(a: seq<Reply>, b: seq<Reply>)
    requires NoTwice(a) && NoTwice(b) && RepliedIds(a) !! RepliedIds(b)
    ensures NoTwice(a + b) && RepliedIds(a + b) == RepliedIds(a) + RepliedIds(b)
  {
    assert forall r <- a :: r.id in RepliedIds(a);
    assert forall r <- b :: r.id in RepliedIds(b);
    forall i, j | 0 <= i < j < |a + b|
      ensures (a + b)[i].id != (a + b)[j].id
    {
      if i < |a| <= j {
        assert a[i] in a && b[j - |a|] in b;
      }
    }
  }

  lemma {:induction false} KeptMembers(queue: seq<Waiter>, unwanted: set<nat>)
    ensures forall w :: w in Kept(queue, unwanted) <==> w in queue && w.id !in unwanted
  {
    if queue != [] {
      KeptMembers(queue[1..], unwanted);
    }
  }

  lemma {:induction false} KeptSorted(queue: seq<Waiter>, unwanted: set<nat>)
    requires Sorted(queue)
    ensures Sorted(Kept(queue, unwanted))
  {
    if queue != [] {
      var rest := queue[1..];
      KeptSorted(rest, unwanted);
      KeptMembers(rest, unwanted);
      hide Kept;
      assert forall x <- Kept(rest, unwanted) :: queue[0].id < x.id;
    }
  }

  lemma KeptFacts(queue: seq<Waiter>, unwanted: set<nat>)
    requires Sorted(queue)
    ensures var kept := Kept(queue, unwanted);
            && Sorted(kept)
            && (forall w <- kept :: w in queue)
            && Ids(kept) == Ids(queue) - unwanted
  {
    KeptSorted(queue, unwanted);
    KeptMembers(queue, unwanted);
    hide Kept, Sorted;
  }

  lemma {:induction false} DropFacts(queue: seq<Waiter>, unwanted: set<nat>)
    requires Sorted(queue)
    ensures var told := DropReplies(queue, unwanted);
            NoTwice(told) && RepliedIds(told) == Ids(queue) * unwanted
  {
    if queue != [] {
      var w, rest := queue[0], queue[1..];
      DropFacts(rest, unwanted);
      assert queue == [w] + rest;
      assert Ids(queue) == {w.id} + Ids(rest);
      assert w.id !in Ids(rest);
      var told := DropReplies(rest, unwanted);
      if w.id in unwanted {
        assert RepliedIds([Reply(w.id, Dropped)]) == {w.id};
        NoTwiceConcat([Reply(w.id, Dropped)], told);
      } else {
        assert [] + told == told;
      }
    }
  }

  lemma AccountedFilters(s: State, unwanted: set<nat>)
    requires Accounted(s) && InOrder(s)
    ensures Accounted(Filtered(s, unwanted)) && InOrder(Filtered(s, unwanted))
  {
    KeptFacts(s.signal, unwanted);
    KeptFacts(s.housekeeping, unwanted);
    DropFacts(s.signal, unwanted);
    DropFacts(s.housekeeping, unwanted);
    var told1, told2 := DropReplies(s.signal, unwanted), DropReplies(s.housekeeping, unwanted);
    NoTwiceConcat(s.replies, told1);
    NoTwiceConcat(s.replies + told1, told2);
    hide Kept, DropReplies, Ids, GrantsInOrder;
  }

  lemma WithoutIds(queue: seq<Waiter>, k: nat)
    requires Sorted(queue) && k < |queue|
    ensures Sorted(Without(queue, k)) && Ids(Without(queue, k)) == Ids(queue) - {queue[k].id}
    ensures forall w <- Without(queue, k) :: w in queue
  {
    var rest := Without(queue, k);
    assert forall i | 0 <= i < |rest| :: rest[i] == queue[if i < k then i else i + 1];
    forall id | id in Ids(queue) && id != queue[k].id
      ensures id in Ids(rest)
    {
      var i :| 0 <= i < |queue| && queue[i].id == id;
      assert queue[i] == rest[if i < k then i else i - 1];
    }
  }

  lemma AccountedGrants(s: State, k: nat, at: int)
    requires Accounted(s) && k < |s.Waiting()|
    ensures Accounted(Granted(s, k, at))
  {
    hide Sorted, NoTwice, Without;
    var w := s.Waiting()[k];
    if k < |s.signal| {
      WithoutIds(s.signal, k);
      assert w.id in Ids(s.signal);
    } else {
      WithoutIds(s.housekeeping, k - |s.signal|);
      assert w.id in Ids(s.housekeeping);
    }
    OneReply(s.replies, w.id);
    hide Ids, RepliedIds;
  }

  lemma OneReply(replies: seq<Reply>, id: nat)
    requires NoTwice(replies) && id !in RepliedIds(replies)
    ensures NoTwice(replies + [Reply(id, Slot)])
    ensures RepliedIds(replies + [Reply(id, Slot)]) == RepliedIds(replies) + {id}
  {
    assert RepliedIds([Reply(id, Slot)]) == {id};
    NoTwiceConcat(replies, [Reply(id, Slot)]);
  }

  lemma ChosenBelow(s: State, k: nat)
    requires Accounted(s) && k < |s.Waiting()|
    ensures s.Waiting()[k].id < s.nextId
  {
    hide NoTwice, Sorted;
    var id := s.Waiting()[k].id;
    assert id in (if k < |s.signal| then Ids(s.signal) else Ids(s.housekeeping));
    assert id in Ids(s.signal) + Ids(s.housekeeping) + RepliedIds(s.replies);
  }

  /** The waiter chosen is the first of its chat in its queue. */
  lemma FirstOfItsChat(c: Config, s: State, q: seq<Waiter>, k: nat, at: int)
    requires Sorted(q) && k < |q| && ChatFree(c, s, q[k].chat, at)
    requires forall i | 0 <= i < k :: !ChatFree(c, s, q[i].chat, at)
    ensures forall v <- Without(q, k) :: v in q && (v.chat == q[k].chat ==> q[k].id < v.id)
  {
    var q' := Without(q, k);
    forall v <- q'
      ensures v in q && (v.chat == q[k].chat ==> q[k].id < v.id)
    {
      var m :| 0 <= m < |q'| && q'[m] == v;
      assert v == q[if m < k then m else m + 1];
    }
  }

  lemma QueueServed(grants: seq<Grant>, g: Grant, queue: seq<Waiter>, rest: seq<Waiter>)
    requires GrantsInOrder(grants) && QueueBehind(grants, g.priority, queue) && Waiter(g.id, g.chat) in queue
    requires forall v <- rest :: v in queue && (v.chat == g.chat ==> g.id < v.id)
    ensures GrantsInOrder(grants + [g]) && QueueBehind(grants + [g], g.priority, rest)
  {
    assert forall i | 0 <= i < |grants| :: (grants + [g])[i] == grants[i] && grants[i] in grants;
  }

  lemma OtherQueueServed(grants: seq<Grant>, g: Grant, p: Priority, queue: seq<Waiter>)
    requires QueueBehind(grants, p, queue) && g.priority != p
    ensures QueueBehind(grants + [g], p, queue)
  {
  }

  lemma SignalChosen(c: Config, s: State, k: nat, at: int)
    requires Sorted(s.signal) && k < |s.signal| && k == FirstFree(c, s, s.Waiting(), at)
    ensures forall v <- Without(s.signal, k) :: v in s.signal && (v.chat == s.signal[k].chat ==> s.signal[k].id < v.id)
  {
    hide FirstFree, Without, ChatFree;
    assert forall i | 0 <= i <= k :: s.signal[i] == s.Waiting()[i];
    FirstOfItsChat(c, s, s.signal, k, at);
  }

  lemma HousekeepingChosen(c: Config, s: State, k: nat, at: int)
    requires Sorted(s.housekeeping) && |s.signal| <= k < |s.Waiting()| && k == FirstFree(c, s, s.Waiting(), at)
    ensures var q, m := s.housekeeping, k - |s.signal|;
            forall v <- Without(q, m) :: v in q && (v.chat == q[m].chat ==> q[m].id < v.id)
  {
    hide FirstFree, Without, ChatFree;
    var n := |s.signal|;
    assert forall i | 0 <= i <= k - n :: s.housekeeping[i] == s.Waiting()[n + i];
    FirstOfItsChat(c, s, s.housekeeping, k - n, at);
  }

  lemma OrderGrants(c: Config, s: State, k: nat, at: int)
    requires Accounted(s) && InOrder(s) && k < |s.Waiting()| && k == FirstFree(c, s, s.Waiting(), at)
    ensures InOrder(Granted(s, k, at))
  {
    ChosenBelow(s, k);
    assert Sorted(s.signal) && Sorted(s.housekeeping);
    var s' := Granted(s, k, at);
    var g := s'.grants[|s.grants|];
    assert s'.grants == s.grants + [g];
    hide FirstFree, Without, Accounted, GrantsInOrder, QueueBehind, Chats;
    if k < |s.signal| {
      SignalChosen(c, s, k, at);
      assert Waiter(g.id, g.chat) == s.signal[k];
      QueueServed(s.grants, g, s.signal, s'.signal);
      OtherQueueServed(s.grants, g, Housekeeping, s.housekeeping);
    } else {
      HousekeepingChosen(c, s, k, at);
      assert Waiter(g.id, g.chat) == s.housekeeping[k - |s.signal|];
      QueueServed(s.grants, g, s.housekeeping, s'.housekeeping);
      OtherQueueServed(s.grants, g, Signal, s.signal);
    }
  }

  // ----- every callback keeps all of it

  ghost predicate Inv(c: Config, s: State) {
    && Budgeted(c, s) && Windowed(c, s.grants)
    && Gapped(c, s.grants) && Remembered(c, s) && SignalsFirst(c, s.grants)
    && Accounted(s) && InOrder(s)
  }

  lemma GrantKeeps(c: Config, s: State, k: nat)
    requires c.Valid() && Inv(c, s) && s.tokens >= 1.0
    requires k < |s.Waiting()| && k == FirstFree(c, s, s.Waiting(), s.refilledAt)
    ensures Inv(c, Granted(s, k, s.refilledAt))
  {
    BudgetSpends(c, s, k);
    GapSpends(c, s, k);
    RememberedSpends(c, s, k);
    SignalsFirstSpends(c, s, k);
    AccountedGrants(s, k, s.refilledAt);
    OrderGrants(c, s, k, s.refilledAt);
  }

  lemma FilterKeeps(c: Config, s: State, unwanted: set<nat>)
    requires Inv(c, s)
    ensures Inv(c, Filtered(s, unwanted))
  {
    AccountedFilters(s, unwanted);
  }

  /** The slots `t` adds to those of `s` are all of the time `at`. */
  ghost predicate GrantsAt(s: State, t: State, at: int) {
    |s.grants| <= |t.grants| && t.grants[..|s.grants|] == s.grants
    && forall i | |s.grants| <= i < |t.grants| :: t.grants[i].at == at
  }

  lemma {:induction false} ServedKeeps(c: Config, s: State, at: int, unwanted: set<nat>)
    requires c.Valid() && Inv(c, s) && s.refilledAt == at
    ensures var t := Served(c, s, at, unwanted);
            && Inv(c, t) && GrantsAt(s, t, at)
            && t.refilledAt == at && t.paused == s.paused && t.closed == s.closed
    decreases |s.signal| + |s.housekeeping|
  {
    hide Inv, Kept, DropReplies, FirstFree, EarliestFree, Without;
    FilterKeeps(c, s, unwanted);
    var f := Filtered(s, unwanted);
    var t := Served(c, s, at, unwanted);
    if f.Waiting() == [] || f.tokens < 1.0 || FirstFree(c, f, f.Waiting(), at) == |f.Waiting()| {
      TimerKeeps(c, f, t.timer, f.paused);
      assert t == f.(timer := t.timer);
    } else {
      var k := FirstFree(c, f, f.Waiting(), at);
      GrantKeeps(c, f, k);
      var g := Granted(f, k, at);
      ServedKeeps(c, g, at, unwanted);
      GrantsAtTrans(s, g, t, at);
    }
  }

  lemma TimerKeeps(c: Config, s: State, timer: Option<int>, paused: int)
    requires Inv(c, s)
    ensures Inv(c, s.(timer := timer, paused := paused))
  {
  }

  lemma GrantsAtTrans(s: State, g: State, t: State, at: int)
    requires GrantsAt(g, t, at) && GrantsAt(s, g, at)
    ensures GrantsAt(s, t, at)
  {
    assert t.grants[..|s.grants|] == t.grants[..|g.grants|][..|s.grants|];
    assert forall i | |s.grants| <= i < |g.grants| :: t.grants[i] == t.grants[..|g.grants|][i];
  }

  lemma RefreshKeeps(c: Config, s: State, at: int)
    requires c.Valid() && Inv(c, s) && s.refilledAt <= at
    ensures Inv(c, Refreshed(c, s.(timer := None), at))
  {
    BudgetRefills(c, s, at);
    GapRefills(c, s, at);
    assert Refreshed(c, s.(timer := None), at) == Refreshed(c, s, at).(timer := None);
  }

  lemma PumpedKeeps(c: Config, s: State, at: int, unwanted: set<nat>)
    requires c.Valid() && Inv(c, s) && s.refilledAt <= at
    ensures var t := Pumped(c, s, at, unwanted);
            && Inv(c, t) && t.refilledAt <= at
            && GrantsAt(s, t, at) && t.paused == s.paused && t.closed == s.closed
            && (t.grants != s.grants ==> t.paused <= at)
  {
    if !s.closed {
      if at >= s.paused {
        RefreshKeeps(c, s, at);
        ServedKeeps(c, Refreshed(c, s.(timer := None), at), at, unwanted);
      } else {
        BudgetRefills(c, s, at);
      }
    }
  }

  lemma PushSorted(queue: seq<Waiter>, w: Waiter)
    requires Sorted(queue) && forall v <- queue :: v.id < w.id
    ensures Sorted(queue + [w]) && Ids(queue + [w]) == Ids(queue) + {w.id}
  {
    assert forall i | 0 <= i < |queue| :: queue[i] in queue;
  }

  lemma PushAccounted(s: State, chat: int, priority: Priority)
    requires Accounted(s)
    ensures Accounted(Pushed(s, chat, priority))
  {
    hide RepliedIds, NoTwice, Sorted;
    var w, all := Waiter(s.nextId, chat), Ids(s.signal) + Ids(s.housekeeping) + RepliedIds(s.replies);
    assert s.nextId !in all;
    assert forall v | v in s.signal || v in s.housekeeping :: v.id in all;
    hide Ids;
    PushSorted(s.signal, w);
    PushSorted(s.housekeeping, w);
  }

  lemma PushKeeps(c: Config, s: State, chat: int, priority: Priority)
    requires Inv(c, s)
    ensures Inv(c, Pushed(s, chat, priority))
  {
    hide Accounted, GrantsInOrder, Windowed, Gapped, SignalsFirst, EditedAt;
    PushAccounted(s, chat, priority);
  }

  lemma ClosedTakeKeeps(c: Config, s: State)
    requires Inv(c, s)
    ensures Inv(c, s.(replies := s.replies + [Reply(s.nextId, Closed)], nextId := s.nextId + 1))
  {
    var all := Ids(s.signal) + Ids(s.housekeeping) + RepliedIds(s.replies);
    assert s.nextId !in all;
    assert RepliedIds([Reply(s.nextId, Closed)]) == {s.nextId};
    NoTwiceConcat(s.replies, [Reply(s.nextId, Closed)]);
  }

  lemma CloseKeeps(c: Config, s: State, at: int)
    requires c.Valid() && Inv(c, s)
    ensures Inv(c, Step(c, s, Close(at)))
  {
    if !s.closed {
      var told1, told2 := ClosedReplies(s.signal), ClosedReplies(s.housekeeping);
      assert ClosedReplies(s.Waiting()) == told1 + told2;
      ClosedIds(s.signal);
      ClosedIds(s.housekeeping);
      NoTwiceConcat(s.replies, told1);
      NoTwiceConcat(s.replies + told1, told2);
      assert s.replies + (told1 + told2) == s.replies + told1 + told2;
    }
  }

  lemma ClosedIds(queue: seq<Waiter>)
    requires Sorted(queue)
    ensures NoTwice(ClosedReplies(queue)) && RepliedIds(ClosedReplies(queue)) == Ids(queue)
  {
    var told := ClosedReplies(queue);
    forall id | id in Ids(queue)
      ensures id in RepliedIds(told)
    {
      var i :| 0 <= i < |queue| && queue[i].id == id;
      assert told[i] in told;
    }
    forall r <- told
      ensures r.id in Ids(queue)
    {
      var i :| 0 <= i < |told| && told[i] == r;
      assert queue[i] in queue;
    }
  }

  lemma StepKeeps(c: Config, s: State, e: Event)
    requires c.Valid() && Inv(c, s) && s.refilledAt <= e.at
    ensures var t := Step(c, s, e);
            && Inv(c, t) && t.refilledAt <= e.at
            && GrantsAt(s, t, e.at) && s.paused <= t.paused && (s.closed ==> t.closed)
            && (e.Pause? ==> e.until <= t.paused)
            && (t.grants != s.grants ==> t.paused <= e.at)
  {
    hide Inv, Pumped;
    match e
    case Take(at, chat, priority, unwanted) =>
      if s.closed {
        ClosedTakeKeeps(c, s);
      } else {
        PushKeeps(c, s, chat, priority);
        PumpedKeeps(c, Pushed(s, chat, priority), at, unwanted);
      }
    case Pause(at, until, unwanted) =>
      if until > s.paused {
        TimerKeeps(c, s, s.timer, until);
        PumpedKeeps(c, s.(paused := until), at, unwanted);
      }
    case Fire(at, unwanted) =>
      if s.timer.Some? && s.timer.value <= at {
        TimerKeeps(c, s, None, s.paused);
        PumpedKeeps(c, s.(timer := None), at, unwanted);
      }
    case Close(at) =>
      CloseKeeps(c, s, at);
  }

  lemma {:induction false} RunKeeps(c: Config, start: int, events: seq<Event>)
    requires c.Valid() && Monotone(start, events)
    ensures Inv(c, Run(c, start, events)) && Run(c, start, events).refilledAt <= Last(start, events)
    decreases |events|
  {
    if events != [] {
      var init := events[..|events| - 1];
      RunKeeps(c, start, init);
      StepKeeps(c, Run(c, start, init), events[|events| - 1]);
    }
  }
}
