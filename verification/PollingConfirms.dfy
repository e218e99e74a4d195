/** What the polling loop asks the server for, and what it confirms by asking. */
module PollingConfirms {
  import opened Wrappers
  import opened Polling
  import opened PollingProofs

  /** The i-th event of a run. */
  ghost predicate StepOf(c: Config, events: seq<Event>, i: nat) {
    c.Valid() && i < |events| && Exec(c, events[..i]).Some? && Exec(c, events[..i + 1]).Some?
  }

  lemma StepIs(c: Config, events: seq<Event>, i: nat)
    requires StepOf(c, events, i)
    ensures var s := Exec(c, events[..i]).value;
            && Inv(c, s) && Enabled(s, events[i])
            && Exec(c, events[..i + 1]).value == Step(c, s, events[i])
  {
    ExecKeeps(c, events[..i]);
    hide Inv, Step, Enabled;
    assert events[..i + 1][..i] == events[..i];
  }

  lemma LastStep(c: Config, events: seq<Event>, n: nat)
    requires 0 < n <= |events| && Exec(c, events[..n]).Some?
    ensures Exec(c, events[..n - 1]).Some?
    ensures var s := Exec(c, events[..n - 1]).value;
            Enabled(s, events[n - 1]) && Exec(c, events[..n]).value == Step(c, s, events[n - 1])
  {
    hide Step, Enabled;
    assert events[..n][..n - 1] == events[..n - 1];
  }

  /** Every task is of an update the server was told to forget. */
  ghost predicate AllConfirmed(s: State) {
    forall j | 0 <= j < |s.tasks| :: s.tasks[j].update.id < s.confirmed
  }

  lemma OffsetConfirms(s: State)
    requires Prefix(s) && s.confirmed == s.offset
    ensures AllConfirmed(s)
  {
  }

  // ----- when the loop asks, and for how much

  /** As many as fit, and one more would not. */
  ghost predicate Fits(c: Config, heads: nat, behind: nat, limit: nat) {
    && heads + limit <= c.concurrency && behind + limit <= c.waitingMax
    && (heads + limit == c.concurrency || behind + limit == c.waitingMax)
  }

  lemma TurnFits(c: Config, s: State, heads: nat, behind: nat)
    requires Prefix(s) && heads == Heads(s) && behind == Behind(s)
    ensures var t := Turned(c, s);
            && (t.loop.Fetching? <==> s.running && heads < c.concurrency && behind < c.waitingMax)
            && (t.loop.Fetching? ==> Fits(c, heads, behind, t.loop.limit) && AllConfirmed(t))
            && (t.loop.Waiting? <==> s.running && !t.loop.Fetching?)
            && (!s.running ==> t.loop == Draining(s.inflight))
            && t.tasks == s.tasks && t.running == s.running
  {
  }

  /**
   A turn of a running loop asks exactly while another head and another update behind one both fit, for as
   many as fit; the asking confirms whatever was dispatched. Without room it waits; stopped, it drains.
   */
  lemma FetchesWhatFits(c: Config, events: seq<Event>, i: nat)
    requires StepOf(c, events, i) && events[i].Turn?
    ensures var s, t := Exec(c, events[..i]).value, Exec(c, events[..i + 1]).value;
            Chained(s) &&
            var heads, behind := |HeadTasks(s)|, |s.inflight - HeadTasks(s)|;
            && (t.loop.Fetching? <==> s.running && heads < c.concurrency && behind < c.waitingMax)
            && (t.loop.Fetching? ==> Fits(c, heads, behind, t.loop.limit) && AllConfirmed(t))
            && (t.loop.Waiting? <==> s.running && !t.loop.Fetching?)
            && (!s.running ==> t.loop == Draining(s.inflight))
            && t.tasks == s.tasks && t.running == s.running
  {
    hide Exec, Turned, HeadTasks, Fits, AllConfirmed, Chained, Counted, Prefix, OneAtATime, Linked;
    StepIs(c, events, i);
    var s := Exec(c, events[..i]).value;
    HeadsCounted(s);
    TurnFits(c, s, |HeadTasks(s)|, |s.inflight - HeadTasks(s)|);
  }

  // ----- what the stop confirms

  /** From a stop on: nothing is asked for any more, and only an answer in flight at the stop adds tasks. */
  ghost predicate Since(was: State, s: State) {
    && !s.running && s.confirmed == was.offset
    && |was.tasks| <= |s.tasks|
    && (s.loop.Fetching? ==> s.loop == was.loop && |s.tasks| == |was.tasks|)
    && |s.tasks| <= |was.tasks| + if was.loop.Fetching? then was.loop.limit else 0
  }

  lemma {:induction false} DispatchedSize(s: State, updates: seq<Update>)
    ensures var t := AllDispatched(s, updates);
            && |t.tasks| == |s.tasks| + |updates| && t.running == s.running && t.confirmed == s.confirmed
            && t.arrived == s.arrived
  {
    if updates != [] {
      DispatchedSize(s, updates[..|updates| - 1]);
    }
  }

  lemma SinceKeeps(c: Config, was: State, s: State, e: Event)
    requires Since(was, s) && Enabled(s, e)
    ensures Since(was, Step(c, s, e))
  {
    if e.Answer? {
      DispatchedSize(s, e.updates);
    }
    hide AllDispatched;
  }

  lemma {:induction false} StopSince(c: Config, events: seq<Event>, i: nat, n: nat)
    requires StepOf(c, events, i) && events[i].Stop? && Exec(c, events[..i]).value.running
    requires i < n <= |events| && Exec(c, events[..n]).Some?
    ensures Since(Exec(c, events[..i]).value, Exec(c, events[..n]).value)
    decreases n
  {
    var was := Exec(c, events[..i]).value;
    if n == i + 1 {
      StepIs(c, events, i);
      assert was.confirmed <= was.offset;
      hide Exec;
    } else {
      hide Exec, Step, Enabled, Since;
      LastStep(c, events, n);
      StopSince(c, events, i, n - 1);
      SinceKeeps(c, was, Exec(c, events[..n - 1]).value, events[n - 1]);
    }
  }

  /** What arrived and what was dispatched stay. */
  ghost predicate Later(was: State, s: State) {
    was.arrived <= s.arrived && |was.tasks| <= |s.tasks|
  }

  lemma LaterKeeps(c: Config, s: State, e: Event)
    requires Enabled(s, e)
    ensures Later(s, Step(c, s, e))
  {
    if e.Answer? {
      DispatchedSize(s, e.updates);
    }
    hide AllDispatched, Pending;
  }

  lemma {:induction false} StaysLater(c: Config, events: seq<Event>, i: nat, n: nat)
    requires c.Valid() && i <= n <= |events| && Exec(c, events[..i]).Some? && Exec(c, events[..n]).Some?
    ensures Later(Exec(c, events[..i]).value, Exec(c, events[..n]).value)
    decreases n
  {
    hide Exec, Step, Enabled, Later;
    if i < n {
      LastStep(c, events, n);
      StaysLater(c, events, i, n - 1);
      var was, s, e := Exec(c, events[..i]).value, Exec(c, events[..n - 1]).value, events[n - 1];
      LaterKeeps(c, s, e);
      LaterStill(was, s, Step(c, s, e));
    } else {
      LaterSelf(Exec(c, events[..i]).value);
    }
  }

  lemma LaterStill(was: State, s: State, t: State)
    requires Later(was, s) && Later(s, t)
    ensures Later(was, t)
  {
  }

  lemma LaterSelf(s: State)
    ensures Later(s, s)
  {
  }

  lemma ConfirmedAre(was: State, s: State)
    requires Prefix(was) && Prefix(s) && Later(was, s) && s.confirmed == was.offset
    ensures forall j | 0 <= j < |s.tasks| :: s.tasks[j].update.id < s.confirmed <==> j < |was.tasks|
  {
    forall j | 0 <= j < |s.tasks| ensures s.tasks[j].update.id < was.offset <==> j < |was.tasks| {
      assert s.tasks[j].update == s.arrived[j];
      if |was.tasks| > 0 {
        assert was.tasks[|was.tasks| - 1].update == was.arrived[|was.tasks| - 1];
        assert s.arrived[|was.tasks| - 1] == was.arrived[|was.tasks| - 1];
      }
    }
  }

  /**
   However the run goes on after the stop of a running loop, the server was told to forget exactly the
   updates dispatched before it: handed over again after a restart is at most the one answer that was in
   flight.
   */
  lemma StopConfirms(c: Config, events: seq<Event>, i: nat)
    requires c.Valid() && Exec(c, events).Some? && StepOf(c, events, i) && events[i].Stop?
    requires Exec(c, events[..i]).value.running
    ensures var was, s := Exec(c, events[..i]).value, Exec(c, events).value;
            && !s.running
            && |was.tasks| <= |s.tasks| <= |was.tasks| + (if was.loop.Fetching? then was.loop.limit else 0)
            && forall j | 0 <= j < |s.tasks| :: s.tasks[j].update.id < s.confirmed <==> j < |was.tasks|
  {
    hide Exec, Chained, OneAtATime, Linked, Counted, Step, Prefix, Bounded, Awake, Enabled, Later;
    assert events[..|events|] == events;
    StopSince(c, events, i, |events|);
    StaysLater(c, events, i, |events|);
    ExecKeeps(c, events);
    StepIs(c, events, i);
    ConfirmedAre(Exec(c, events[..i]).value, Exec(c, events).value);
  }
}
