/**
  What goes wrong when `start` fires while a `stop` call has yet to return. Two runs show the two
  ways; and from every state a proper run can reach with a `stop` under way, such a `start` can be
  continued to a `drain` that returns, undisturbed, while a dispatch it should have awaited is still
  running. So the condition under which `drain` delivers cannot be relaxed anywhere.
 */
module BusFailures {
  import opened Prelude
  import opened EventBus
  import opened BusInvariant
  import opened EventBusLaws

  // ---- Reaching a state ----

  function After(s: State, acts: seq<Action>): Option<State>
    decreases |acts|
  {
    if acts == [] then Some(s)
    else if Enabled(s, acts[0]) then After(Fire(s, acts[0]), acts[1..])
    else None
  }

  ghost predicate Reaches(s: State, t: State) {
    exists acts :: After(s, acts) == Some(t)
  }

  lemma Here(s: State)
    ensures Reaches(s, s)
  {
    assert After(s, []) == Some(s);
  }

  lemma StepTo(s: State, a: Action)
    requires Enabled(s, a)
    ensures Reaches(s, Fire(s, a))
  {
    hide Fire, Enabled;
    var acts := [a];
    assert acts[1..] == [];
    assert After(Fire(s, a), []) == Some(Fire(s, a));
    assert After(s, acts) == Some(Fire(s, a));
  }

  lemma {:induction false} AfterJoin(s: State, a: seq<Action>, b: seq<Action>)
    ensures After(s, a).Some? ==> After(s, a + b) == After(After(s, a).value, b)
    decreases |a|
  {
    hide Fire, Enabled;
    if a == [] {
      assert a + b == b;
    } else {
      assert (a + b)[1..] == a[1..] + b;
      if Enabled(s, a[0]) {
        AfterJoin(Fire(s, a[0]), a[1..], b);
      }
    }
  }

  lemma Then(s: State, t: State, u: State)
    requires Reaches(s, t) && Reaches(t, u)
    ensures Reaches(s, u)
  {
    hide After;
    var a :| After(s, a) == Some(t);
    var b :| After(t, b) == Some(u);
    AfterJoin(s, a, b);
  }

  /** One more step on the way. */
  lemma Onward(s: State, t: State, a: Action)
    requires Reaches(s, t) && Enabled(t, a)
    ensures Reaches(s, Fire(t, a))
  {
    hide Reaches, Fire, Enabled;
    StepTo(t, a);
    Then(s, t, Fire(t, a));
  }

  /** An undisturbed drain has returned although a ticket it saw is still being dispatched. */
  ghost predicate Broken(s: State, d: nat) {
    && d in s.drains && Undisturbed(s.drains[d], s.stopCount) && s.drains[d].progress.Returned?
    && exists t :: t in s.drains[d].snapshot && t in s.stage && (s.stage[t].Direct? || s.stage[t].Running?)
  }

  // ---- From any stop under way ----

  lemma {:induction false} FreshNumber(used: set<nat>) returns (k: nat)
    ensures forall n :: n in used ==> n < k
  {
    if used == {} {
      k := 0;
    } else {
      var n :| n in used;
      var rest := FreshNumber(used - {n});
      k := if n < rest then rest else n + 1;
      assert forall m :: m in used ==> m == n || m in used - {n};
    }
  }

  /** Direct dispatches finish one by one. */
  lemma {:induction false} FinishAll(s: State, ts: set<nat>) returns (t: State)
    requires Inv(s)
    ensures Reaches(s, t) && t == s.(stage := t.stage, tasks := t.tasks)
    ensures forall x :: x in ts ==> !At(t.stage, x, Direct)
    ensures forall x :: At(t.stage, x, Direct) ==> At(s.stage, x, Direct)
    ensures forall x :: At(s.stage, x, Direct) && x !in ts ==> At(t.stage, x, Direct)
    decreases ts
  {
    hide Reaches, Inv;
    if ts == {} {
      t := s;
      Here(s);
    } else {
      var x :| x in ts;
      var next := s;
      Here(s);
      if At(s.stage, x, Direct) {
        JobExists(s, x);
        next := Fire(s, FinishDirect(x, false));
        StepKeeps(s, FinishDirect(x, false));
        StepTo(s, FinishDirect(x, false));
      }
      t := FinishAll(next, ts - {x});
      Then(s, next, t);
    }
  }

  lemma JobExists(s: State, t: nat)
    requires Inv(s) && t in s.stage
    ensures t < |s.jobs|
  {
  }

  /** All but workers, queues and tickets is as it was. */
  predicate Steady(s: State, t: State) {
    t == s.(workers := t.workers, queues := t.queues, stage := t.stage) && |t.workers| == |s.workers|
  }

  predicate Over(x: Worker) {
    x.Gone? || x.Crashed?
  }

  lemma CancelOne(s: State, k: nat, w: nat) returns (t: State)
    requires Inv(s) && k in s.stops && s.stops[k].Gathering? && s.stops[k].from <= w < s.stops[k].end <= |s.workers|
    ensures Reaches(s, t) && Inv(t) && Steady(s, t) && Over(t.workers[w])
    ensures forall v :: 0 <= v < |s.workers| && v != w ==> t.workers[v] == s.workers[v]
  {
    hide Reaches, Inv, DoneAt, DoneWorks;
    t := s;
    Here(s);
    if s.workers[w].Busy? {
      t := Fire(s, Quit(w));
      StepKeeps(s, Quit(w));
      StepTo(s, Quit(w));
    } else if !Over(s.workers[w]) {
      assert Enabled(s, Cancel(w));
      t := Fire(s, Cancel(w));
      StepKeeps(s, Cancel(w));
      StepTo(s, Cancel(w));
    }
  }

  /** The workers that a `stop` awaits end, from the `w`-th on. */
  lemma {:induction false} CancelAll(s: State, k: nat, w: nat) returns (t: State)
    requires Inv(s) && k in s.stops && s.stops[k].Gathering? && s.stops[k].from <= w <= s.stops[k].end <= |s.workers|
    requires forall v :: s.stops[k].from <= v < w ==> Over(s.workers[v])
    ensures Reaches(s, t) && Inv(t) && Steady(s, t)
    ensures forall v :: s.stops[k].from <= v < s.stops[k].end ==> Over(t.workers[v])
    decreases s.stops[k].end - w
  {
    hide Reaches, Inv, Fire, Enabled;
    if w == s.stops[k].end {
      t := s;
      Here(s);
    } else {
      var next := CancelOne(s, k, w);
      t := CancelAll(next, k, w + 1);
      Then(s, next, t);
    }
  }

  /** A publish from outside the loop of the bus makes direct tickets. */
  lemma PublishDirect(s: State, h: string, topic: string) returns (t: State, u: nat)
    requires Inv(s) && s.started && h in Handlers(s, topic)
    ensures Reaches(s, t) && Inv(t) && t == s.(jobs := t.jobs, stage := t.stage, tasks := t.tasks)
    ensures u == |s.jobs| && u in t.tasks && At(t.stage, u, Direct)
    ensures (forall x :: x in s.tasks ==> x in s.stage) ==> forall x :: x in t.tasks ==> x in t.stage
  {
    hide Reaches;
    var c := FreshNumber(s.calls.Keys);
    var a := Publish(c, topic, 0, false);
    t, u := Fire(s, a), |s.jobs|;
    StepKeeps(s, a);
    StepTo(s, a);
    hide Inv;
    RangeMember(u, |Handlers(s, topic)|, u);
    StagedAt(s.stage, u, |Handlers(s, topic)|, Direct, u);
    forall x | x in t.tasks && (x in s.tasks ==> x in s.stage)
      ensures x in t.stage
    {
      RangeMember(u, |Handlers(s, topic)|, x);
      StagedAt(s.stage, u, |Handlers(s, topic)|, Direct, x);
    }
  }

  /** A started bus on which one `stop` call still awaits direct tasks, with nothing counted as unfinished. */
  ghost predicate Trailing(s: State, k: nat) {
    && Inv(s) && s.started && k in s.stops && s.stops == map[k := s.stops[k]] && s.stops[k].Finishing?
    && (forall t :: t in s.stops[k].tasks ==> t in s.stage)
    && (s.current.Some? ==> QueueAt(s.queues, s.current.value).unfinished == 0)
  }

  /** The `stop` clears the task set under the feet of a new direct dispatch, and `drain` no longer sees it. */
  lemma TrailingBreaks(s: State, k: nat, h: string, topic: string) returns (t: State, d: nat)
    requires Trailing(s, k) && h in Handlers(s, topic)
    ensures Reaches(s, t) && Broken(t, d)
  {
    hide Reaches;
    var ts := s.stops[k].tasks;
    var s1, u := PublishDirect(s, h, topic);
    assert u !in ts by {
      if u in ts {
        JobExists(s, u);
      }
    }
    hide Inv;
    var s2 := FinishAll(s1, ts);
    Then(s, s1, s2);
    assert At(s2.stage, u, Direct) && Enabled(s2, EndStop(k));
    var s3 := Fire(s2, EndStop(k));
    Onward(s, s2, EndStop(k));
    assert s3.stops == map[] && s3.tasks == {};
    d := FreshNumber(s3.drains.Keys);
    t := DrainEarly(s3, d, u);
    Then(s, s3, t);
  }

  lemma DrainEarly(s: State, d: nat, u: nat) returns (t: State)
    requires d !in s.drains && s.stops == map[] && s.tasks == {}
    requires u in s.stage && (s.stage[u].Direct? || s.stage[u].Running?)
    requires s.current.Some? ==> QueueAt(s.queues, s.current.value).unfinished == 0
    ensures Reaches(s, t) && Broken(t, d) && t.stage == s.stage
  {
    hide Reaches, QueueAt;
    var s1 := DrainCalled(s, d, u);
    var s2 := s1;
    if s.current.Some? {
      s2 := WithProgress(s1, d, PastQueue);
      assert Enabled(s1, DrainPastQueue(d)) && s2 == Fire(s1, DrainPastQueue(d));
      Onward(s, s1, DrainPastQueue(d));
    }
    t := WithProgress(s2, d, Returned);
    assert Enabled(s2, DrainTasks(d)) && t == Fire(s2, DrainTasks(d));
    Onward(s, s2, DrainTasks(d));
  }

  lemma DrainCalled(s: State, d: nat, u: nat) returns (t: State)
    requires d !in s.drains && s.stops == map[] && u in s.stage && (s.stage[u].Direct? || s.stage[u].Running?)
    ensures Reaches(s, t) && d in t.drains && t == s.(drains := t.drains) && u in t.drains[d].snapshot
    ensures t.drains[d].calm && t.drains[d].stops == s.stopCount
    ensures t.drains[d].progress == if s.current.Some? then AtQueue(s.current.value) else PastQueue
  {
    hide Reaches;
    t := Fire(s, BeginDrain(d));
    StepTo(s, BeginDrain(d));
  }

  lemma SubscribeOne(s: State) returns (t: State)
    requires Inv(s)
    ensures Reaches(s, t) && Inv(t) && t == s.(topics := t.topics) && "h" in Handlers(t, "t")
  {
    hide Reaches, Inv, FireStart, FirePublish, FirePut, FireTake, Release, FireStop, FireJoined, Tail;
    var a := Subscribe("t", "h");
    t := Fire(s, a);
    StepKeeps(s, a);
    StepTo(s, a);
  }

  /** After the `start`, a `stop` that still holds the queue is driven to its last stage, with a task to await. */
  lemma DriveToTail(s: State, k: nat) returns (t: State)
    requires Inv(s) && s.started && k in s.stops && s.stops == map[k := s.stops[k]] && s.stops[k].Gathering?
    requires s.stops[k].from <= s.stops[k].end <= |s.workers| && "h" in Handlers(s, "t")
    requires forall x :: x in s.tasks ==> x in s.stage
    ensures Reaches(s, t) && Trailing(t, k) && "h" in Handlers(t, "t")
  {
    hide Reaches, Inv, FireStart, FirePublish, FirePut, FireTake, Release, FireStop, FireJoined;
    var s1, u := PublishDirect(s, "h", "t");
    var s2 := CancelAll(s1, k, s.stops[k].from);
    Then(s, s1, s2);
    SameTickets(s1, s2);
    t := s2.(listed := |s2.workers|, current := None, stops := map[k := Finishing(s2.tasks)]);
    assert s2.stops[k := Finishing(s2.tasks)] == t.stops;
    assert Enabled(s2, EndGather(k)) && t == Fire(s2, EndGather(k));
    Onward(s, s2, EndGather(k));
    StepKeeps(s2, EndGather(k));
  }

  lemma SameTickets(s: State, t: State)
    requires Inv(s) && Inv(t) && t.jobs == s.jobs
    ensures forall x :: x in s.stage ==> x in t.stage
  {
  }

  /**
    Wherever a proper run has a `stop` call under way, a `start` at that point has a continuation in
    which an undisturbed `drain` returns too early.
   */
  lemma StartDuringStopBreaksDrain(s: State) returns (t: State, d: nat)
    requires GoodOrder(s) && s.stops != map[]
    ensures Reaches(Fire(s, Start), t) && Broken(t, d)
  {
    hide Reaches, Inv, Orderly, Trailing;
    var k :| k in s.stops;
    var s1 := Fire(s, Start);
    StepKeeps(s, Start);
    var s2 := SubscribeOne(s1);
    StopAlone(s, k);
    var s3 := s2;
    if s.stops[k].Finishing? {
      FinishingTrails(s, k, s2);
    } else {
      s3 := HoldingTrails(s, k, s2);
      Then(s1, s2, s3);
    }
    hide Fire;
    t, d := TrailingBreaks(s3, k, "h", "t");
    Then(s1, s3, t);
  }

  /** A `stop` that still holds the queue lets go of it, and of the workers that the `start` listed. */
  lemma HoldingTrails(s: State, k: nat, s2: State) returns (t: State)
    requires GoodOrder(s) && k in s.stops && !s.stops[k].Finishing? && s.stops == map[k := s.stops[k]] && !s.started
    requires Inv(s2) && s2 == FireStart(s).(topics := s2.topics) && "h" in Handlers(s2, "t")
    ensures Reaches(s2, t) && Trailing(t, k) && "h" in Handlers(t, "t")
  {
    hide Reaches, Inv, Orderly, Trailing, Handlers;
    StopAlone(s, k);
    StartFacts(s);
    hide FireStart;
    if s.stops[k].Joining? {
      var s3 := JoinNow(s2, k);
      t := DriveToTail(s3, k);
      Then(s2, s3, t);
    } else {
      t := DriveToTail(s2, k);
    }
  }

  lemma StartFacts(s: State)
    requires !s.started
    ensures
      var t := FireStart(s);
      && t == s.(started := true, workers := t.workers, listed := |s.workers|, queues := t.queues, current := t.current)
      && |s.workers| <= |t.workers|
  {
  }

  lemma JoinNow(s: State, k: nat) returns (t: State)
    requires Inv(s) && k in s.stops && s.stops[k].Joining? && s.stops == map[k := s.stops[k]]
    ensures Reaches(s, t) && Inv(t)
    ensures t == s.(queues := t.queues, stops := map[k := Gathering(s.listed, |s.workers|)])
    ensures forall topic :: Handlers(t, topic) == Handlers(s, topic)
  {
    hide Reaches, Inv, WithQueue, WithSentinels, QueueAt;
    hide FireStart, FirePublish, FirePut, FireTake, Release, FireStop, Tail;
    var a := JoinedOrTimedOut(k);
    StepKeeps(s, a);
    StepTo(s, a);
    t := FireJoined(s, k);
    assert s.stops[k := Gathering(s.listed, |s.workers|)] == map[k := Gathering(s.listed, |s.workers|)];
  }

  lemma StopAlone(s: State, k: nat)
    requires GoodOrder(s) && k in s.stops
    ensures !s.started && s.stops == map[k := s.stops[k]] && s.listed <= |s.workers|
    ensures s.stops[k].Gathering? ==> s.stops[k].from == s.listed && s.stops[k].end == |s.workers|
    ensures forall x :: x in s.tasks ==> x in s.stage
  {
    hide Inv, Watched, Straight;
    assert Fits(s.stops[k], s.current, s.listed, |s.workers|);
    assert forall j :: j in s.stops ==> j == k;
  }

  /** If all that is left of the `stop` is its wait for tasks, the `start` made a new queue. */
  lemma FinishingTrails(s: State, k: nat, t: State)
    requires GoodOrder(s) && k in s.stops && s.stops[k].Finishing? && s.stops == map[k := s.stops[k]] && !s.started
    requires Inv(t) && t == FireStart(s).(topics := t.topics)
    ensures Trailing(t, k)
  {
    hide Inv, Watched, Straight;
    assert !Active(s.stops) && s.current.None?;
  }
}
