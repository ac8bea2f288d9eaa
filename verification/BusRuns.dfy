/**
  Two runs of the event bus in which `start` fires while a `stop` call has yet to return, and what
  they break.
 */
module BusRuns {
  import opened Prelude
  import opened EventBus
  import opened BusInvariant
  import opened EventBusLaws
  import opened BusFailures

  /** The step is enabled and leads from `s` to `t`. */
  predicate Moves(s: State, a: Action, t: State) {
    Enabled(s, a) && t == Fire(s, a)
  }

  lemma Move(start: State, s: State, a: Action, t: State)
    requires Reaches(start, s) && Moves(s, a, t)
    ensures Reaches(start, t)
  {
    hide Reaches, Enabled, Fire;
    Onward(start, s, a);
  }

  const TOPICS := map["t" := ["h"]]
  const JOB := Job("h", "t", 7)
  const PUBLISH := Publish(0, "t", 7, true)

  /** A bus with one handler, not yet started. */
  function Bus(workerCount: nat): State {
    Initial(10, workerCount).(topics := TOPICS)
  }

  lemma Subscribed(workerCount: nat)
    ensures Moves(Initial(10, workerCount), Subscribe("t", "h"), Bus(workerCount))
  {
    var s := Initial(10, workerCount);
    assert Handlers(s, "t") == [] && [] + ["h"] == ["h"] && map[]["t" := ["h"]] == TOPICS;
  }

  lemma PublishedDirect(s: State)
    requires s.topics == TOPICS && s.started && s.calls == map[] && s.listed == |s.workers|
    ensures
      var t := |s.jobs|;
      Moves(s, PUBLISH, s.(jobs := s.jobs + [JOB], stage := s.stage[t := Direct], tasks := s.tasks + {t}))
  {
    var t := |s.jobs|;
    assert Handlers(s, "t") == ["h"] && JobsFor(["h"], "t", 7) == [JOB];
    assert Staged(s.stage, t, 0, Direct) == s.stage && Staged(s.stage, t, 1, Direct) == s.stage[t := Direct];
    assert Range(t, 0) == {} && Range(t, 1) == {t};
  }

  // ---- The task set is cleared under a running dispatch ----

  /** Without workers a dispatch is direct; it is under way. */
  function Dispatching(): State {
    Bus(0).(started := true, queues := [NEW_QUEUE], current := Some(0), jobs := [JOB], stage := map[0 := Direct],
            tasks := {0})
  }

  lemma ToDispatching()
    ensures Reaches(Initial(10, 0), Dispatching())
  {
    hide Reaches;
    var s0, s1 := Initial(10, 0), Bus(0);
    Here(s0);
    Subscribed(0);
    hide Moves;
    Move(s0, s0, Subscribe("t", "h"), s1);
    var s2 := s1.(started := true, queues := [NEW_QUEUE], current := Some(0));
    assert Moves(s1, Start, s2) by { Started(); }
    Move(s0, s1, Start, s2);
    PublishedDirect(s2);
    assert map[][0 := Direct] == map[0 := Direct] && {} + {0} == {0} && [] + [JOB] == [JOB];
    Move(s0, s2, PUBLISH, Dispatching());
  }

  lemma Started()
    ensures Moves(Bus(0), Start, Bus(0).(started := true, queues := [NEW_QUEUE], current := Some(0)))
  {
    assert [] + seq(0, _ => Fresh) == [] && [] + [NEW_QUEUE] == [NEW_QUEUE];
  }

  /** The `stop` has let go of the queue and awaits the dispatch. */
  function Awaiting(): State {
    Dispatching().(started := false, current := None, stops := map[0 := Finishing({0})], stopCount := 1)
  }

  lemma Joined(s: State)
    requires s == Dispatching().(started := false, stopCount := 1, stops := map[0 := Joining(0)])
    ensures Moves(s, JoinedOrTimedOut(0), s.(stops := map[0 := Gathering(0, 0)]))
  {
    assert s.stops[0 := Gathering(0, 0)] == map[0 := Gathering(0, 0)] && WithSentinels(NEW_QUEUE, 0, 10) == NEW_QUEUE;
    assert [NEW_QUEUE][0 := NEW_QUEUE] == [NEW_QUEUE];
  }

  lemma ToAwaiting()
    ensures Reaches(Dispatching(), Awaiting())
  {
    hide Reaches;
    var s0 := Dispatching();
    Here(s0);
    var s1 := s0.(started := false, stopCount := 1, stops := map[0 := Joining(0)]);
    assert Moves(s0, BeginStop(0), s1) by { assert map[][0 := Joining(0)] == map[0 := Joining(0)]; }
    var s2 := s1.(stops := map[0 := Gathering(0, 0)]);
    assert Moves(s2, EndGather(0), Awaiting()) by {
      assert s2.stops[0 := Finishing({0})] == map[0 := Finishing({0})];
    }
    hide Moves;
    Joined(s1);
    Move(s0, s0, BeginStop(0), s1);
    Move(s0, s1, JoinedOrTimedOut(0), s2);
    Move(s0, s2, EndGather(0), Awaiting());
  }

  /** `start`, a second dispatch, the first one ends, and the `stop` clears the task set and returns. */
  function Cleared(): State {
    Awaiting().(started := true, queues := [NEW_QUEUE, NEW_QUEUE], current := Some(1), jobs := [JOB, JOB],
                stage := map[0 := Done, 1 := Direct], tasks := {}, stops := map[])
  }

  /** Both dispatches are under way. */
  function Both(): State {
    Cleared().(stage := map[0 := Direct, 1 := Direct], tasks := {0, 1}, stops := map[0 := Finishing({0})])
  }

  lemma ToBoth()
    ensures Reaches(Awaiting(), Both())
  {
    hide Reaches;
    var s0 := Awaiting();
    Here(s0);
    var s1 := s0.(started := true, queues := [NEW_QUEUE, NEW_QUEUE], current := Some(1));
    assert Moves(s0, Start, s1) by {
      assert [] + seq(0, _ => Fresh) == [] && [NEW_QUEUE] + [NEW_QUEUE] == [NEW_QUEUE, NEW_QUEUE];
    }
    hide Moves;
    PublishedDirect(s1);
    assert [JOB] + [JOB] == [JOB, JOB] && {0} + {1} == {0, 1};
    assert map[0 := Direct][1 := Direct] == map[0 := Direct, 1 := Direct];
    Move(s0, s0, Start, s1);
    Move(s0, s1, PUBLISH, Both());
  }

  lemma ToCleared()
    ensures Reaches(Awaiting(), Cleared())
  {
    hide Reaches;
    var s := Both();
    ToBoth();
    var t := s.(stage := map[0 := Done, 1 := Direct], tasks := {1});
    assert Moves(s, FinishDirect(0, false), t) by { assert s.stage[0 := Done] == t.stage && {0, 1} - {0} == {1}; }
    assert Moves(t, EndStop(0), Cleared()) by { assert t.stops - {0} == map[]; }
    hide Moves;
    Move(Awaiting(), s, FinishDirect(0, false), t);
    Move(Awaiting(), t, EndStop(0), Cleared());
  }

  /** A `drain` called then, with no `stop` anywhere, returns while the second dispatch is still running. */
  lemma DrainAfterClear() returns (t: State)
    ensures Reaches(Initial(10, 0), t) && Broken(t, 0) && At(t.stage, 1, Direct)
  {
    hide Reaches, Broken;
    ToDispatching();
    ToAwaiting();
    ToCleared();
    Then(Initial(10, 0), Dispatching(), Awaiting());
    Then(Initial(10, 0), Awaiting(), Cleared());
    t := DrainEarly(Cleared(), 0, 1);
    Then(Initial(10, 0), Cleared(), t);
  }

  // ---- A forgotten worker calls task_done on the next queue ----

  lemma PublishedQueued(s: State, call: nat)
    requires s.topics == TOPICS && s.started && call !in s.calls && s.listed < |s.workers| && s.current.Some?
    ensures
      var t := |s.jobs|;
      Moves(s, Publish(call, "t", 7, true),
            s.(jobs := s.jobs + [JOB], stage := s.stage[t := Waiting], calls := s.calls[call := Call(t, t + 1, None)]))
  {
    var t := |s.jobs|;
    assert Handlers(s, "t") == ["h"] && JobsFor(["h"], "t", 7) == [JOB];
    assert Staged(s.stage, t, 0, Waiting) == s.stage && Staged(s.stage, t, 1, Waiting) == s.stage[t := Waiting];
  }

  /** A queue that has handed out its only ticket. */
  function Handed(t: nat): Queue {
    Queue([], 1, [t], [t], 0, 0)
  }

  /** A call, and the worker that serves its one ticket: put, taken, dispatched. */
  lemma Served(s: State, call: nat, w: nat, q: nat, t: nat)
    requires s.capacity == 10 && s.current == Some(q) && q < |s.queues| && s.queues[q] == NEW_QUEUE
    requires call in s.calls && s.calls[call] == Call(t, t + 1, None) && w < |s.workers| && s.workers[w] == Getting(q)
    ensures
      Reaches(s, s.(queues := s.queues[q := Handed(t)], stage := s.stage[t := Running(q)], log := s.log + [t],
                    calls := s.calls[call := Call(t + 1, t + 1, None)], workers := s.workers[w := Busy(q, t)]))
  {
    hide Reaches;
    var full := Queue([Ticket(t)], 1, [t], [], 0, 0);
    var s1 := s.(queues := s.queues[q := full], stage := s.stage[t := Queued(q)],
                 calls := s.calls[call := Call(t + 1, t + 1, None)]);
    assert Put(NEW_QUEUE, Ticket(t)) == full by { assert [] + [Ticket(t)] == [Ticket(t)] && [] + [t] == [t]; }
    assert Moves(s, PutNext(call), s1);
    var s2 := s1.(queues := s.queues[q := Handed(t)], stage := s.stage[t := Running(q)], log := s.log + [t],
                  workers := s.workers[w := Busy(q, t)]);
    assert Moves(s1, Take(w), s2) by {
      assert full.items[1..] == [] && [] + [t] == [t];
      assert s1.queues[q := Handed(t)] == s2.queues && s1.stage[t := Running(q)] == s2.stage;
    }
    hide Moves;
    Here(s);
    Move(s, s, PutNext(call), s1);
    Move(s, s1, Take(w), s2);
  }

  /** One worker, at work on the first ticket. */
  function Serving(): State {
    Bus(1).(started := true, queues := [Handed(0)], current := Some(0), workers := [Busy(0, 0)], jobs := [JOB],
            stage := map[0 := Running(0)], calls := map[0 := Call(1, 1, None)], log := [0])
  }

  /** Started, with one worker waiting for an item. */
  function Ready(): State {
    Bus(1).(started := true, queues := [NEW_QUEUE], current := Some(0), workers := [Getting(0)])
  }

  lemma ToReady()
    ensures Reaches(Initial(10, 1), Ready())
  {
    hide Reaches;
    var s0, s1 := Initial(10, 1), Bus(1);
    Here(s0);
    Subscribed(1);
    var s2 := Ready().(workers := [Fresh]);
    assert Moves(s1, Start, s2) by { assert [] + seq(1, _ => Fresh) == [Fresh] && [] + [NEW_QUEUE] == [NEW_QUEUE]; }
    assert Moves(s2, Enter(0), Ready()) by { assert [Fresh][0 := Getting(0)] == [Getting(0)]; }
    hide Moves;
    Move(s0, s0, Subscribe("t", "h"), s1);
    Move(s0, s1, Start, s2);
    Move(s0, s2, Enter(0), Ready());
  }

  lemma ToServing()
    ensures Reaches(Initial(10, 1), Serving())
  {
    hide Reaches;
    var s0, s3 := Initial(10, 1), Ready();
    ToReady();
    PublishedQueued(s3, 0);
    var s4 := s3.(jobs := [JOB], stage := map[0 := Waiting], calls := map[0 := Call(0, 1, None)]);
    hide Moves;
    assert [] + [JOB] == [JOB] && map[][0 := Waiting] == map[0 := Waiting];
    assert map[][0 := Call(0, 1, None)] == map[0 := Call(0, 1, None)];
    Move(s0, s3, Publish(0, "t", 7, true), s4);
    Served(s4, 0, 0, 0, 0);
    assert s4.queues[0 := Handed(0)] == [Handed(0)] && s4.stage[0 := Running(0)] == map[0 := Running(0)];
    assert s4.calls[0 := Call(1, 1, None)] == map[0 := Call(1, 1, None)] && [] + [0] == [0];
    assert s4.workers[0 := Busy(0, 0)] == [Busy(0, 0)];
    Then(s0, s4, Serving());
  }

  /** The first queue with the sentinel that the `stop` put. */
  const LEFT := Queue([Sentinel], 2, [0], [0], 0, 0)

  /** `stop`, `start` during its join, and the `stop` has let go: the busy worker is in no list any more. */
  function Forgotten(): State {
    Serving().(queues := [LEFT], current := None, workers := [Busy(0, 0), Gone], listed := 2, stopCount := 1)
  }

  /** The `start` has replaced the list of workers while the `stop` is still at its join. */
  function Replaced(): State {
    Serving().(stopCount := 1, stops := map[0 := Joining(0)], workers := [Busy(0, 0), Fresh], listed := 1)
  }

  lemma ToReplaced()
    ensures Reaches(Serving(), Replaced())
  {
    hide Reaches;
    var s0 := Serving();
    Here(s0);
    var s1 := s0.(started := false, stopCount := 1, stops := map[0 := Joining(0)]);
    assert Moves(s0, BeginStop(0), s1) by { assert map[][0 := Joining(0)] == map[0 := Joining(0)]; }
    assert Moves(s1, Start, Replaced()) by { assert [Busy(0, 0)] + seq(1, _ => Fresh) == [Busy(0, 0), Fresh]; }
    hide Moves;
    Move(s0, s0, BeginStop(0), s1);
    Move(s0, s1, Start, Replaced());
  }

  function Gathered(): State {
    Replaced().(queues := [LEFT], stops := map[0 := Gathering(1, 2)])
  }

  lemma ToGathered()
    ensures Moves(Replaced(), JoinedOrTimedOut(0), Gathered())
  {
    var s := Replaced();
    assert WithSentinels(LEFT, 0, 10) == LEFT && Put(Handed(0), Sentinel) == LEFT;
    assert WithSentinels(Handed(0), 1, 10) == LEFT && [Handed(0)][0 := LEFT] == [LEFT];
    assert s.stops[0 := Gathering(1, 2)] == Gathered().stops;
  }

  lemma ToForgotten()
    ensures Reaches(Serving(), Forgotten())
  {
    hide Reaches;
    var s0, s1 := Serving(), Gathered();
    var s2 := s1.(workers := [Busy(0, 0), Gone]);
    assert Moves(s1, Cancel(1), s2) by { assert s1.stops[0].Gathering? && s1.workers[1 := Gone] == s2.workers; }
    assert Moves(s2, EndGather(0), Forgotten()) by { assert s2.stops - {0} == map[]; }
    hide Moves;
    ToReplaced();
    ToGathered();
    Move(s0, Replaced(), JoinedOrTimedOut(0), s1);
    Move(s0, s1, Cancel(1), s2);
    Move(s0, s2, EndGather(0), Forgotten());
  }

  /** `stop` and `start` once more, and the new worker is at work on a second ticket. */
  function Restarted(): State {
    Forgotten().(queues := [LEFT, Handed(1)], current := Some(1), workers := [Busy(0, 0), Gone, Busy(1, 1)],
                 stopCount := 2, jobs := [JOB, JOB], stage := map[0 := Running(0), 1 := Running(1)],
                 calls := map[0 := Call(1, 1, None), 1 := Call(2, 2, None)], log := [0, 1])
  }

  /** A new queue and a new worker. */
  function Fresher(): State {
    Forgotten().(stopCount := 2, queues := [LEFT, NEW_QUEUE], current := Some(1),
                 workers := [Busy(0, 0), Gone, Getting(1)])
  }

  lemma ToFresher()
    ensures Reaches(Forgotten(), Fresher())
  {
    hide Reaches;
    var s0 := Forgotten();
    Here(s0);
    var s1 := s0.(started := false, stopCount := 2);
    assert Moves(s0, BeginStop(1), s1) by { assert s0.stops - {1} == map[]; }
    var s2 := Fresher().(workers := [Busy(0, 0), Gone, Fresh]);
    assert Moves(s1, Start, s2) by {
      assert [Busy(0, 0), Gone] + seq(1, _ => Fresh) == [Busy(0, 0), Gone, Fresh];
      assert [LEFT] + [NEW_QUEUE] == [LEFT, NEW_QUEUE];
    }
    assert Moves(s2, Enter(2), Fresher()) by { assert s2.workers[2 := Getting(1)] == Fresher().workers; }
    hide Moves;
    Move(s0, s0, BeginStop(1), s1);
    Move(s0, s1, Start, s2);
    Move(s0, s2, Enter(2), Fresher());
  }

  lemma ToRestarted()
    ensures Reaches(Forgotten(), Restarted())
  {
    hide Reaches;
    var s0, s := Forgotten(), Fresher();
    ToFresher();
    PublishedQueued(s, 1);
    hide Moves;
    var t := s.(jobs := [JOB, JOB], stage := map[0 := Running(0), 1 := Waiting],
                calls := map[0 := Call(1, 1, None), 1 := Call(1, 2, None)]);
    assert [JOB] + [JOB] == [JOB, JOB] && s.stage[1 := Waiting] == t.stage;
    assert s.calls[1 := Call(1, 2, None)] == t.calls;
    Move(s0, s, Publish(1, "t", 7, true), t);
    RestartedServed(t);
    Then(s0, t, Restarted());
  }

  lemma RestartedServed(s: State)
    requires s == Restarted().(queues := [LEFT, NEW_QUEUE], workers := [Busy(0, 0), Gone, Getting(1)], log := [0],
                               stage := map[0 := Running(0), 1 := Waiting],
                               calls := map[0 := Call(1, 1, None), 1 := Call(1, 2, None)])
    ensures Reaches(s, Restarted())
  {
    hide Reaches;
    Served(s, 1, 2, 1, 1);
    assert s.queues[1 := Handed(1)] == [LEFT, Handed(1)] && s.stage[1 := Running(1)] == Restarted().stage;
    assert s.calls[1 := Call(2, 2, None)] == Restarted().calls && [0] + [1] == [0, 1];
    assert s.workers[2 := Busy(1, 1)] == Restarted().workers;
  }

  /** The forgotten worker finishes, and its `task_done` counts down the new queue. */
  function Miscounted(): State {
    Restarted().(queues := [LEFT.(stray := 1), Handed(1).(unfinished := 0, foreign := 1)],
                 workers := [Getting(1), Gone, Busy(1, 1)], stage := map[0 := Done, 1 := Running(1)])
  }

  lemma ToMiscounted()
    ensures Reaches(Restarted(), Miscounted())
  {
    hide Reaches;
    var s, t := Restarted(), Miscounted();
    var strayed := [LEFT.(stray := 1), Handed(1)];
    assert s.queues[0 := LEFT.(stray := 1)] == strayed && strayed[1 := t.queues[1]] == t.queues;
    assert DoneAt(s.queues, Some(1), 0) == t.queues;
    assert s.workers[0 := Getting(1)] == t.workers && s.stage[0 := Done] == t.stage;
    assert Moves(s, Finish(0, false), t);
    hide Moves;
    Here(s);
    Move(s, s, Finish(0, false), t);
  }

  /**
    Then a `drain` returns while the second ticket is still at work, with no `stop` anywhere; and when
    the new worker has finished it, its own `task_done` raises and the worker dies.
   */
  lemma ForgottenWorkerMiscounts() returns (t: State)
    ensures Reaches(Initial(10, 1), t) && Broken(t, 0) && At(t.stage, 1, Running(1))
    ensures Reaches(Initial(10, 1), Miscounted()) && Enabled(Miscounted(), Finish(2, false))
    ensures Fire(Miscounted(), Finish(2, false)).workers[2].Crashed?
  {
    hide Reaches, Broken;
    ToServing();
    ToForgotten();
    ToRestarted();
    ToMiscounted();
    Then(Initial(10, 1), Serving(), Forgotten());
    Then(Initial(10, 1), Forgotten(), Restarted());
    Then(Initial(10, 1), Restarted(), Miscounted());
    t := DrainEarly(Miscounted(), 0, 1);
    Then(Initial(10, 1), Miscounted(), t);
  }
}
