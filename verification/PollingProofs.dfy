/** What the polling loop keeps over every run, and its promises. */
module PollingProofs {
  import opened Wrappers
  import opened MapOrder
  import opened Polling

  predicate SameKey(tasks: seq<Task>, i: nat, j: nat)
    requires i < |tasks| && j < |tasks|
  {
    tasks[i].update.key.Some? && tasks[i].update.key == tasks[j].update.key
  }

  /** The tasks are the arrived updates in their order, so the offset confirms dispatched ones only. */
  ghost predicate Prefix(s: State) {
    && |s.tasks| <= |s.arrived|
    && (forall i | 0 <= i < |s.tasks| :: s.tasks[i].update == s.arrived[i])
    && (forall i, j | 0 <= i < j < |s.arrived| :: s.arrived[i].id < s.arrived[j].id)
    && s.offset == (if |s.tasks| == 0 then 0 else s.tasks[|s.tasks| - 1].update.id + 1)
    && s.confirmed <= s.offset
  }

  /** The getUpdates in flight sends the offset as it stands. */
  ghost predicate OffsetSent(s: State) { s.loop.Fetching? ==> s.loop.sent == s.offset }

  ghost predicate LastOf(tasks: seq<Task>, k: Key, i: nat) {
    && i < |tasks|
    && tasks[i].update.key == Some(k)
    && forall j | i < j < |tasks| :: tasks[j].update.key != Some(k)
  }

  /** `inflight` is the tasks not done; `chains` has exactly the keys in flight, each with its last task. */
  ghost predicate Chained(s: State) {
    && (forall i :: i in s.inflight <==> 0 <= i < |s.tasks| && !s.tasks[i].phase.Done?)
    && (forall k <- s.chains :: s.chains[k] in s.inflight && LastOf(s.tasks, k, s.chains[k]))
    && (forall i <- s.inflight :: s.tasks[i].update.key.Some? ==> s.tasks[i].update.key.value in s.chains)
  }

  /** A handler starts only once every earlier task of its key is done. */
  ghost predicate OneAtATime(tasks: seq<Task>) {
    forall i, j | 0 <= i < j < |tasks| && SameKey(tasks, i, j) && !tasks[j].phase.Queued? :: tasks[i].phase.Done?
  }

  /** The task a queued one runs behind is the one before it of its key. */
  ghost predicate Linked(tasks: seq<Task>) {
    && (forall j | 0 <= j < |tasks| && tasks[j].prev.Some? :: tasks[j].prev.value < j)
    && (forall i, j | 0 <= i < j < |tasks| && SameKey(tasks, i, j) && tasks[j].phase.Queued? :: RunsBehind(tasks, i, j))
  }

  ghost predicate RunsBehind(tasks: seq<Task>, i: nat, j: nat)
    requires i < j < |tasks|
  {
    match tasks[j].prev
    case None => tasks[i].phase.Done?
    case Some(p) => i <= p < j && SameKey(tasks, p, j)
  }

  ghost function Keyless(tasks: seq<Task>, inflight: set<nat>): set<nat> {
    set i <- inflight | i < |tasks| && tasks[i].update.key.None?
  }

  ghost predicate Counted(s: State) {
    s.unkeyed == |Keyless(s.tasks, s.inflight)|
  }

  /** There is room for the answer of a getUpdates in flight, on top of what is in flight now. */
  ghost predicate Bounded(c: Config, s: State) {
    var room := if s.loop.Fetching? then s.loop.limit else 0;
    Heads(s) + room <= c.concurrency && Behind(s) + room <= c.waitingMax
  }

  ghost predicate Awake(s: State) {
    && (s.loop.Waiting? <==> s.wakeUp)
    && (s.loop.Waiting? ==> s.running && s.inflight != {})
    && (s.loop.Draining? ==> !s.running && s.inflight <= s.loop.snapshot)
    && (s.loop.Settled? ==> !s.running && s.inflight == {})
  }

  ghost predicate Inv(c: Config, s: State) {
    && Prefix(s) && Chained(s) && OneAtATime(s.tasks) && Linked(s.tasks) && Counted(s)
    && OffsetSent(s) && Bounded(c, s) && Awake(s)
  }

  // ----- dispatch

  lemma DispatchChained(s: State, u: Update)
    requires Chained(s)
    ensures Chained(Dispatched(s, u))
  {
    var t := Dispatched(s, u);
    assert forall i | 0 <= i < |s.tasks| :: t.tasks[i] == s.tasks[i];
  }

  lemma DispatchOrdered(s: State, u: Update)
    requires Chained(s) && OneAtATime(s.tasks) && Linked(s.tasks)
    ensures OneAtATime(Dispatched(s, u).tasks) && Linked(Dispatched(s, u).tasks)
  {
    var t, n := Dispatched(s, u), |s.tasks|;
    assert forall i | 0 <= i < n :: t.tasks[i] == s.tasks[i];
    if u.key.Some? {
      var k: Key := u.key.value;
      assert k in s.chains ==> s.chains[k] in s.inflight;
    }
    forall i, j | 0 <= i < j < |t.tasks| && SameKey(t.tasks, i, j) && t.tasks[j].phase.Queued?
      ensures RunsBehind(t.tasks, i, j)
    {
      if j < n {
        assert SameKey(s.tasks, i, j) && RunsBehind(s.tasks, i, j);
      } else {
        var k := u.key.value;
        assert i !in s.inflight || k in s.chains;
        assert k in s.chains ==> LastOf(s.tasks, k, s.chains[k]);
      }
    }
    forall i, j | 0 <= i < j < |t.tasks| && SameKey(t.tasks, i, j) && !t.tasks[j].phase.Queued?
      ensures t.tasks[i].phase.Done?
    {
      assert SameKey(s.tasks, i, j);
    }
  }

  lemma KeylessGrows(tasks: seq<Task>, inflight: set<nat>, task: Task)
    requires forall i <- inflight :: i < |tasks|
    ensures Keyless(tasks + [task], inflight + {|tasks|})
         == Keyless(tasks, inflight) + if task.update.key.None? then {|tasks|} else {}
  {
    assert forall i | 0 <= i < |tasks| :: (tasks + [task])[i] == tasks[i];
  }

  /** A dispatched update is one more head or one more update behind a head, never both. */
  lemma DispatchCounts(s: State, u: Update)
    requires Chained(s) && Counted(s)
    ensures var t := Dispatched(s, u);
            && Counted(t)
            && Heads(s) <= Heads(t) && Behind(s) <= Behind(t)
            && Heads(t) + Behind(t) == Heads(s) + Behind(s) + 1
  {
    var t, n := Dispatched(s, u), |s.tasks|;
    assert n !in s.inflight && forall i <- s.inflight :: i < n;
    hide Chained;
    KeylessGrows(s.tasks, s.inflight, t.tasks[n]);
    assert n !in Keyless(s.tasks, s.inflight);
    hide Keyless;
    if u.key.Some? {
      PutSize(s.chains, u.key.value, n);
    }
  }

  lemma {:induction false} DispatchAllKeeps(s: State, n: nat)
    requires Prefix(s) && Chained(s) && OneAtATime(s.tasks) && Linked(s.tasks) && Counted(s)
    requires |s.tasks| + n <= |s.arrived|
    ensures var t := AllDispatched(s, s.arrived[|s.tasks|..|s.tasks| + n]);
            && Prefix(t) && Chained(t) && OneAtATime(t.tasks) && Linked(t.tasks) && Counted(t)
            && |t.tasks| == |s.tasks| + n
            && t == s.(offset := t.offset, inflight := t.inflight, tasks := t.tasks,
                       unkeyed := t.unkeyed, chains := t.chains)
            && Heads(s) <= Heads(t) && Behind(s) <= Behind(t)
            && Heads(t) + Behind(t) == Heads(s) + Behind(s) + n
    decreases n
  {
    hide Prefix, Chained, OneAtATime, Linked, Counted, Heads, Behind, Dispatched;
    var batch := s.arrived[|s.tasks|..|s.tasks| + n];
    if n > 0 {
      DispatchAllKeeps(s, n - 1);
      var m := AllDispatched(s, batch[..n - 1]);
      assert batch[..n - 1] == s.arrived[|s.tasks|..|s.tasks| + n - 1];
      var u := batch[n - 1];
      DispatchChained(m, u);
      DispatchOrdered(m, u);
      DispatchCounts(m, u);
      assert m.arrived == s.arrived && u == m.arrived[|m.tasks|];
      DispatchPrefix(m, u);
      DispatchFrame(m, u);
    }
  }

  lemma {:induction false} PendingFrom(arrived: seq<Update>, k: nat, offset: nat)
    requires k <= |arrived|
    requires forall i | 0 <= i < k :: arrived[i].id < offset
    requires forall i | k <= i < |arrived| :: arrived[i].id >= offset
    ensures Pending(arrived, offset) == arrived[k..]
  {
    if arrived != [] {
      PendingFrom(arrived[1..], if k > 0 then k - 1 else 0, offset);
    }
  }

  /** What the server has from the offset on is what was not dispatched yet. */
  lemma PendingIsNext(s: State)
    requires Prefix(s)
    ensures Pending(s.arrived, s.offset) == s.arrived[|s.tasks|..]
  {
    PendingFrom(s.arrived, |s.tasks|, s.offset);
  }

  /** So an answer is of the next ones, whatever its length. */
  lemma AnswerIsNext(s: State, updates: seq<Update>)
    requires Prefix(s) && OffsetSent(s) && Answers(s, updates)
    ensures |s.tasks| + |updates| <= |s.arrived|
    ensures updates == s.arrived[|s.tasks|..|s.tasks| + |updates|]
  {
    PendingIsNext(s);
  }

  lemma DispatchFrame(s: State, u: Update)
    ensures var t := Dispatched(s, u);
            && |t.tasks| == |s.tasks| + 1
            && t == s.(offset := t.offset, inflight := t.inflight, tasks := t.tasks,
                       unkeyed := t.unkeyed, chains := t.chains)
  {
  }

  lemma DispatchPrefix(s: State, u: Update)
    requires Prefix(s) && |s.tasks| < |s.arrived| && u == s.arrived[|s.tasks|]
    ensures Prefix(Dispatched(s, u))
  {
    var t := Dispatched(s, u);
    assert forall i | 0 <= i < |s.tasks| :: t.tasks[i] == s.tasks[i];
    if |s.tasks| > 0 {
      assert s.arrived[|s.tasks| - 1].id < u.id;
    }
  }

  // ----- a handler's start and end

  lemma BeginOrdered(s: State, i: nat)
    requires OneAtATime(s.tasks) && Linked(s.tasks) && Enabled(s, Begin(i))
    ensures var tasks := s.tasks[i := s.tasks[i].(phase := Handling)];
            OneAtATime(tasks) && Linked(tasks)
  {
    var tasks := s.tasks[i := s.tasks[i].(phase := Handling)];
    assert forall j | 0 <= j < |tasks| :: tasks[j].update == s.tasks[j].update && tasks[j].prev == s.tasks[j].prev;
    forall a, b | 0 <= a < b < |tasks| && SameKey(tasks, a, b)
      ensures !tasks[b].phase.Queued? ==> tasks[a].phase.Done?
      ensures tasks[b].phase.Queued? ==> RunsBehind(tasks, a, b)
    {
      assert SameKey(s.tasks, a, b) && (s.tasks[b].phase.Queued? ==> RunsBehind(s.tasks, a, b));
      if b == i && s.tasks[i].prev.Some? && a < s.tasks[i].prev.value {
        assert SameKey(s.tasks, a, s.tasks[i].prev.value);
      }
    }
  }

  /** Tasks that differ in having started only. */
  ghost predicate Restarted(a: seq<Task>, b: seq<Task>) {
    && |a| == |b|
    && forall i | 0 <= i < |a| :: a[i].update == b[i].update && a[i].phase.Done? == b[i].phase.Done?
  }

  lemma BeginChained(s: State, t: State)
    requires Chained(s) && Restarted(s.tasks, t.tasks) && t == s.(tasks := t.tasks)
    ensures Chained(t)
  {
    LastOfFrame(s.tasks, t.tasks);
    hide LastOf;
  }

  lemma BeginFrame(s: State, i: nat)
    requires Prefix(s) && Chained(s) && Counted(s) && Enabled(s, Begin(i))
    ensures var t := s.(tasks := s.tasks[i := s.tasks[i].(phase := Handling)]);
            Prefix(t) && Chained(t) && Counted(t)
  {
    var t := s.(tasks := s.tasks[i := s.tasks[i].(phase := Handling)]);
    assert Restarted(s.tasks, t.tasks);
    BeginChained(s, t);
    hide Chained;
    assert Keyless(t.tasks, t.inflight) == Keyless(s.tasks, s.inflight);
    hide Keyless;
  }

  lemma BeginKeeps(c: Config, s: State, i: nat)
    requires Inv(c, s) && Enabled(s, Begin(i))
    ensures Inv(c, Step(c, s, Begin(i)))
  {
    hide Prefix, Chained, OneAtATime, Linked, Counted;
    BeginOrdered(s, i);
    BeginFrame(s, i);
  }

  lemma LastOfFrame(a: seq<Task>, b: seq<Task>)
    requires |a| == |b| && forall i | 0 <= i < |a| :: a[i].update == b[i].update
    ensures forall k, i :: LastOf(a, k, i) <==> LastOf(b, k, i)
  {
  }

  lemma EndChained(s: State, i: nat)
    requires Chained(s) && OneAtATime(s.tasks) && i < |s.tasks| && s.tasks[i].phase.Handling?
    ensures Chained(Ended(s, i))
  {
    var t := Ended(s, i);
    assert forall j | 0 <= j < |s.tasks| && j != i :: t.tasks[j] == s.tasks[j];
    assert forall j | 0 <= j < |s.tasks| :: t.tasks[j].update == s.tasks[j].update;
    forall j <- t.inflight
      ensures t.tasks[j].update.key.Some? ==> t.tasks[j].update.key.value in t.chains
    {
      var key := s.tasks[j].update.key;
      if key.Some? && key == s.tasks[i].update.key && s.chains[key.value] == i {
        assert LastOf(s.tasks, key.value, i);
        assert SameKey(s.tasks, j, i);
      }
    }
  }

  lemma EndOrdered(s: State, i: nat)
    requires OneAtATime(s.tasks) && Linked(s.tasks) && i < |s.tasks| && s.tasks[i].phase.Handling?
    ensures OneAtATime(Ended(s, i).tasks) && Linked(Ended(s, i).tasks)
  {
    var t := Ended(s, i);
    assert forall j | 0 <= j < |s.tasks| && j != i :: t.tasks[j] == s.tasks[j];
    assert forall j | 0 <= j < |s.tasks| ::
        t.tasks[j].update == s.tasks[j].update && t.tasks[j].prev == s.tasks[j].prev;
    forall a, b | 0 <= a < b < |t.tasks| && SameKey(t.tasks, a, b)
      ensures !t.tasks[b].phase.Queued? ==> t.tasks[a].phase.Done?
      ensures t.tasks[b].phase.Queued? ==> RunsBehind(t.tasks, a, b)
    {
      assert SameKey(s.tasks, a, b) && (s.tasks[b].phase.Queued? ==> RunsBehind(s.tasks, a, b));
    }
  }

  lemma KeylessShrinks(tasks: seq<Task>, inflight: set<nat>, i: nat)
    requires i in inflight && i < |tasks|
    ensures var tasks' := tasks[i := tasks[i].(phase := Done)];
            Keyless(tasks', inflight - {i}) == Keyless(tasks, inflight) - if tasks[i].update.key.None? then {i} else {}
  {
  }

  lemma EndedFrame(s: State, i: nat)
    requires i < |s.tasks|
    ensures var t, key := Ended(s, i), s.tasks[i].update.key;
            && t.inflight == s.inflight - {i}
            && t.tasks == s.tasks[i := s.tasks[i].(phase := Done)]
            && t.unkeyed == (if key.None? then s.unkeyed - 1 else s.unkeyed)
            && t.chains == (if key.Some? && key.value in s.chains && s.chains[key.value] == i
                            then s.chains - {key.value} else s.chains)
  {
  }

  lemma LessOne(inflight: set<nat>, i: nat)
    requires i in inflight
    ensures |inflight - {i}| == |inflight| - 1
  {
  }

  /** A handler's end frees a head, or lets the next update of its key become one. */
  lemma EndCounts(s: State, i: nat)
    requires Chained(s) && Counted(s) && i < |s.tasks| && s.tasks[i].phase.Handling?
    ensures var t := Ended(s, i);
            && Counted(t)
            && t.inflight <= s.inflight
            && Heads(t) <= Heads(s) && Behind(t) <= Behind(s)
  {
    assert i in s.inflight;
    hide Chained, Ended;
    EndedFrame(s, i);
    LessOne(s.inflight, i);
    KeylessShrinks(s.tasks, s.inflight, i);
    var key := s.tasks[i].update.key;
    if key.None? {
      assert i in Keyless(s.tasks, s.inflight);
      LessOne(Keyless(s.tasks, s.inflight), i);
    }
    hide Keyless;
    if key.Some? && key.value in s.chains {
      DropSize(s.chains, key.value);
    }
  }

  lemma EndKeeps(c: Config, s: State, i: nat)
    requires Inv(c, s) && Enabled(s, End(i))
    ensures Inv(c, Step(c, s, End(i)))
  {
    hide Prefix, Chained, OneAtATime, Linked, Counted, Heads, Behind, Ended, Awake;
    EndChained(s, i);
    EndOrdered(s, i);
    EndCounts(s, i);
    EndPrefix(s, i);
    EndAwake(s, i);
  }

  lemma EndAwake(s: State, i: nat)
    requires Awake(s) && i < |s.tasks|
    ensures var t := Ended(s, i);
            Awake(t) && t.offset == s.offset && (t.loop.Fetching? ==> s.loop == t.loop)
  {
  }

  lemma EndPrefix(s: State, i: nat)
    requires Prefix(s) && i < |s.tasks|
    ensures Prefix(Ended(s, i))
  {
    var t := Ended(s, i);
    assert forall j | 0 <= j < |s.tasks| :: t.tasks[j].update == s.tasks[j].update;
  }

  /** Steps that leave the tasks and their bookkeeping alone. */
  ghost predicate Frame(s: State, t: State) {
    && t == s.(running := t.running, wakeUp := t.wakeUp, loop := t.loop, confirmed := t.confirmed)
    && (t.confirmed <= s.offset || t.confirmed == s.confirmed)
  }

  lemma FramePrefix(s: State, t: State)
    requires Prefix(s) && Frame(s, t)
    ensures Prefix(t)
  {
  }

  lemma FrameChained(s: State, t: State)
    requires Chained(s) && Frame(s, t)
    ensures Chained(t)
  {
    hide LastOf;
  }

  lemma FrameKeeps(c: Config, s: State, t: State)
    requires Prefix(s) && Chained(s) && Frame(s, t)
    ensures Prefix(t) && Chained(t) && (Counted(s) ==> Counted(t)) && Heads(t) == Heads(s) && Behind(t) == Behind(s)
  {
    FramePrefix(s, t);
    FrameChained(s, t);
    hide Prefix, Chained;
  }

  lemma NobodyInFlight(s: State)
    requires Chained(s) && Counted(s)
    ensures Heads(s) > 0 || Behind(s) > 0 ==> s.inflight != {}
  {
    if k :| k in s.chains {
      assert s.chains[k] in s.inflight;
    } else {
      assert s.chains.Keys == {};
      assert Keyless(s.tasks, s.inflight) <= s.inflight;
    }
  }

  lemma BrokenStops(c: Config, s: State)
    requires Inv(c, s) && s.loop.Ready?
    ensures Inv(c, Broken(s))
  {
    hide Prefix, Chained, OneAtATime, Linked, Counted, Heads, Behind;
    FrameKeeps(c, s, Broken(s));
  }

  lemma PrefixConfirmed(s: State)
    requires Prefix(s)
    ensures s.confirmed <= s.offset
  {
  }

  lemma TurnKeeps(c: Config, s: State)
    requires c.Valid() && Inv(c, s) && s.loop.Ready?
    ensures Inv(c, Turned(c, s))
  {
    hide Prefix, Chained, OneAtATime, Linked, Counted, Heads, Behind, Broken;
    if !s.running {
      BrokenStops(c, s);
    } else {
      assert s.confirmed <= s.offset by {
        PrefixConfirmed(s);
      }
      FrameKeeps(c, s, Turned(c, s));
      NobodyInFlight(s);
    }
  }

  lemma ArrivePrefix(s: State, u: Update)
    requires Prefix(s) && forall v <- s.arrived :: v.id < u.id
    ensures Prefix(s.(arrived := s.arrived + [u]))
  {
    assert forall i | 0 <= i < |s.arrived| :: s.arrived[i] in s.arrived;
  }

  lemma ArriveChained(s: State, u: Update)
    requires Chained(s)
    ensures Chained(s.(arrived := s.arrived + [u]))
  {
    hide LastOf;
  }

  lemma ArriveKeeps(c: Config, s: State, u: Update)
    requires Inv(c, s) && Enabled(s, Arrive(u))
    ensures Inv(c, Step(c, s, Arrive(u)))
  {
    hide Prefix, Chained, OneAtATime, Linked;
    ArrivePrefix(s, u);
    ArriveChained(s, u);
  }

  lemma AnswerKeeps(c: Config, s: State, updates: seq<Update>)
    requires Inv(c, s) && Enabled(s, Answer(updates))
    ensures Inv(c, Step(c, s, Answer(updates)))
  {
    hide Prefix, Chained, OneAtATime, Linked, Counted, AllDispatched, Heads, Behind, Pending;
    AnswerIsNext(s, updates);
    DispatchAllKeeps(s, |updates|);
    var t := AllDispatched(s, updates);
    FrameKeeps(c, t, t.(loop := Ready));
  }

  lemma BrokenKeeps(c: Config, s: State)
    requires Inv(c, s) && s.loop.Fetching?
    ensures Inv(c, Broken(s))
  {
    hide Prefix, Chained, OneAtATime, Linked, Counted, Heads, Behind;
    FrameKeeps(c, s, Broken(s));
  }

  lemma StoppedKeeps(c: Config, s: State)
    requires Inv(c, s)
    ensures Inv(c, Stopped(s))
  {
    assert s.confirmed <= s.offset;
    hide Prefix, Chained, OneAtATime, Linked, Counted, Heads, Behind;
    FrameKeeps(c, s, Stopped(s));
  }

  lemma SettledKeeps(c: Config, s: State)
    requires Inv(c, s) && Enabled(s, Settle)
    ensures Inv(c, s.(loop := Settled))
  {
    hide Prefix, Chained, OneAtATime, Linked, Counted, Heads, Behind;
    FrameKeeps(c, s, s.(loop := Settled));
  }

  lemma StepKeeps(c: Config, s: State, e: Event)
    requires c.Valid() && Inv(c, s) && Enabled(s, e)
    ensures Inv(c, Step(c, s, e))
  {
    hide Inv, Turned, Broken, Stopped, Received, Ended;
    match e
    case Arrive(u) => ArriveKeeps(c, s, u);
    case Turn => TurnKeeps(c, s);
    case Answer(updates) => AnswerKeeps(c, s, updates);
    case Begin(i) => BeginKeeps(c, s, i);
    case End(i) => EndKeeps(c, s, i);
    case Abort => BrokenKeeps(c, s);
    case Fatal => BrokenKeeps(c, s);
    case Stop => StoppedKeeps(c, s);
    case Settle => SettledKeeps(c, s);
  }

  lemma {:induction false} ExecKeeps(c: Config, events: seq<Event>)
    requires c.Valid() && Exec(c, events).Some?
    ensures Inv(c, Exec(c, events).value)
    decreases |events|
  {
    if events != [] {
      var init := events[..|events| - 1];
      ExecKeeps(c, init);
      StepKeeps(c, Exec(c, init).value, events[|events| - 1]);
    }
  }

  // ----- the promises

  /** The heads: the first task in flight of each key, and every keyless one. */
  ghost function HeadTasks(s: State): set<nat>
    requires Chained(s)
  {
    set i <- s.inflight | forall j <- s.inflight :: SameKey(s.tasks, j, i) ==> i <= j
  }

  ghost function KeyOf(s: State, i: nat): Key
    requires i < |s.tasks| && s.tasks[i].update.key.Some?
  {
    s.tasks[i].update.key.value
  }

  /** The first task in flight of a key. */
  lemma FirstOfKey(s: State, k: Key, from: nat) returns (i: nat)
    requires Chained(s) && from in s.inflight && s.tasks[from].update.key == Some(k)
    ensures i in HeadTasks(s) && s.tasks[i].update.key == Some(k)
    decreases from
  {
    if j :| j in s.inflight && j < from && SameKey(s.tasks, j, from) {
      i := FirstOfKey(s, k, j);
    } else {
      i := from;
    }
  }

  lemma {:induction false} InjectiveImage(s: State, tasks: set<nat>, keys: set<Key>)
    requires forall i <- tasks :: i < |s.tasks| && s.tasks[i].update.key.Some?
    requires forall i, j | i in tasks && j in tasks && KeyOf(s, i) == KeyOf(s, j) :: i == j
    requires keys == set i <- tasks :: KeyOf(s, i)
    ensures |tasks| == |keys|
    decreases tasks
  {
    if i :| i in tasks {
      var rest := tasks - {i};
      var k := KeyOf(s, i);
      assert keys - {k} == set j <- rest :: KeyOf(s, j) by {
        forall x | x in keys - {k}
          ensures x in set j <- rest :: KeyOf(s, j)
        {
          var j :| j in tasks && KeyOf(s, j) == x;
          assert j in rest;
        }
      }
      InjectiveImage(s, rest, keys - {k});
    }
  }

  lemma HeadsDiffer(s: State, i: nat, j: nat)
    requires Chained(s) && i in HeadTasks(s) && j in HeadTasks(s) && s.tasks[i].update.key.Some?
    requires s.tasks[i].update.key == s.tasks[j].update.key
    ensures i == j
  {
    assert SameKey(s.tasks, i, j) && SameKey(s.tasks, j, i);
  }

  lemma KeysOfHeads(s: State)
    requires Chained(s)
    ensures var keyed := HeadTasks(s) - Keyless(s.tasks, s.inflight);
            && (forall i <- keyed :: i < |s.tasks| && s.tasks[i].update.key.Some?)
            && s.chains.Keys == set i <- keyed :: KeyOf(s, i)
  {
    var keyed := HeadTasks(s) - Keyless(s.tasks, s.inflight);
    forall k | k in s.chains
      ensures exists i :: i in keyed && KeyOf(s, i) == k
    {
      var i := FirstOfKey(s, k, s.chains[k]);
      assert i in keyed && KeyOf(s, i) == k;
    }
  }

  lemma KeyedHeads(s: State)
    requires Chained(s)
    ensures |HeadTasks(s) - Keyless(s.tasks, s.inflight)| == |s.chains|
  {
    var keyed := HeadTasks(s) - Keyless(s.tasks, s.inflight);
    KeysOfHeads(s);
    hide HeadTasks, Keyless;
    forall i, j | i in keyed && j in keyed && KeyOf(s, i) == KeyOf(s, j)
      ensures i == j
    {
      HeadsDiffer(s, i, j);
    }
    hide Chained;
    InjectiveImage(s, keyed, s.chains.Keys);
    assert |s.chains| == |s.chains.Keys|;
  }

  lemma PartSizes(whole: set<nat>, part: set<nat>)
    requires part <= whole
    ensures |whole - part| == |whole| - |part|
  {
    assert whole == part + (whole - part);
  }

  /** `chains.size + unkeyed` counts the heads: the distinct keys in flight and the keyless updates. */
  lemma HeadsCounted(s: State)
    requires Chained(s) && Counted(s)
    ensures |HeadTasks(s)| == Heads(s)
    ensures |s.inflight - HeadTasks(s)| == Behind(s)
  {
    KeyedHeads(s);
    assert Keyless(s.tasks, s.inflight) <= HeadTasks(s) <= s.inflight;
    hide Chained, Keyless, HeadTasks;
    PartSizes(HeadTasks(s), Keyless(s.tasks, s.inflight));
    PartSizes(s.inflight, HeadTasks(s));
  }

  /** At every moment at most `concurrency` updates are heads and at most `waitingMax` wait behind one,
      whatever users the batches held and whenever handlers ended; a running handler is a head's. */
  lemma BoundsHold(c: Config, events: seq<Event>)
    requires c.Valid() && Exec(c, events).Some?
    ensures var s := Exec(c, events).value;
            && Chained(s)
            && |HeadTasks(s)| == |s.chains| + s.unkeyed <= c.concurrency
            && |s.inflight - HeadTasks(s)| <= c.waitingMax
            && (forall i | 0 <= i < |s.tasks| && s.tasks[i].phase.Handling? :: i in HeadTasks(s))
  {
    ExecKeeps(c, events);
    var s := Exec(c, events).value;
    HeadsCounted(s);
    hide Exec;
    forall i | 0 <= i < |s.tasks| && s.tasks[i].phase.Handling?
      ensures i in HeadTasks(s)
    {
      forall j <- s.inflight | SameKey(s.tasks, j, i)
        ensures i <= j
      {
      }
    }
  }

  /** A user's updates are handled one at a time in the order they arrived; no update is dispatched
      twice and none is skipped; and whatever offset the server was sent confirms dispatched updates only. */
  lemma OrderHolds(c: Config, events: seq<Event>)
    requires c.Valid() && Exec(c, events).Some?
    ensures var s := Exec(c, events).value;
            && OneAtATime(s.tasks)
            && (forall i, j | 0 <= i < j < |s.tasks| :: s.tasks[i].update.id < s.tasks[j].update.id)
            && |s.tasks| <= |s.arrived|
            && (forall i | 0 <= i < |s.tasks| :: s.tasks[i].update == s.arrived[i])
            && (forall i | 0 <= i < |s.arrived| && s.arrived[i].id < s.confirmed ::
                  i < |s.tasks| && s.tasks[i].update == s.arrived[i])
  {
    ExecKeeps(c, events);
    var s := Exec(c, events).value;
    forall i | |s.tasks| <= i < |s.arrived|
      ensures s.arrived[i].id >= s.confirmed
    {
    }
  }

  ghost predicate CanMove(s: State) { exists i :: Enabled(s, Begin(i)) || Enabled(s, End(i)) }

  /** While anything is in flight some handler is running or can start. */
  lemma SomeoneCanMove(c: Config, s: State)
    requires Inv(c, s) && s.inflight != {}
    ensures CanMove(s)
  {
    var i0 :| i0 in s.inflight;
    var i := Least(s.inflight, i0);
    if s.tasks[i].phase.Queued? {
      assert s.tasks[i].prev.Some? ==> s.tasks[i].prev.value !in s.inflight;
      assert Enabled(s, Begin(i));
    } else {
      assert Enabled(s, End(i));
    }
  }

  lemma Least(tasks: set<nat>, from: nat) returns (i: nat)
    requires from in tasks
    ensures i in tasks && forall j <- tasks :: i <= j
    decreases from
  {
    if j :| j in tasks && j < from {
      i := Least(tasks, j);
    } else {
      i := from;
    }
  }

  lemma WaitingIsWoken(c: Config, s: State)
    requires Inv(c, s) && s.loop.Waiting?
    ensures CanMove(s)
    ensures forall i | Enabled(s, End(i)) :: Step(c, s, End(i)).loop == Ready
    ensures Step(c, s, Stop).loop == Ready
  {
    SomeoneCanMove(c, s);
    hide CanMove, Prefix, Chained, OneAtATime, Linked, Counted, Bounded, Ended;
    forall i | Enabled(s, End(i))
      ensures Step(c, s, End(i)).loop == Ready
    {
      EndWakes(s, i);
    }
  }

  /** No deadlock and no lost wake-up: a loop that waits has work in flight that can move, and the end
      of any handler, or the stop, schedules its next turn. */
  lemma NoLostWakeUp(c: Config, events: seq<Event>)
    requires c.Valid() && Exec(c, events).Some? && Exec(c, events).value.loop.Waiting?
    ensures var s := Exec(c, events).value;
            && CanMove(s)
            && (forall i | Enabled(s, End(i)) :: Step(c, s, End(i)).loop == Ready)
            && Step(c, s, Stop).loop == Ready
  {
    ExecKeeps(c, events);
    var s := Exec(c, events).value;
    hide Exec, Inv, Step, CanMove;
    WaitingIsWoken(c, s);
  }

  lemma EndWakes(s: State, i: nat)
    requires i < |s.tasks| && s.loop.Waiting? && s.wakeUp
    ensures Ended(s, i).loop == Ready
  {
  }

  /** Draining never hangs on a task that cannot end, and `start` settles, after a failure too, only
      with every fetched update handled and nothing more to come. */
  lemma SettlesHandled(c: Config, events: seq<Event>)
    requires c.Valid() && Exec(c, events).Some?
    ensures var s := Exec(c, events).value;
            && (s.loop.Draining? ==>
                  Enabled(s, Settle) || CanMove(s))
            && (s.loop.Settled? ==>
                  && (forall i | 0 <= i < |s.tasks| :: s.tasks[i].phase.Done?)
                  && (forall updates :: !Enabled(s, Answer(updates))) && !Enabled(s, Turn))
  {
    ExecKeeps(c, events);
    var s := Exec(c, events).value;
    if s.loop.Draining? && s.inflight != {} {
      SomeoneCanMove(c, s);
    }
  }
}
