/**
  What the event bus guarantees as long as no `start` fires while a `stop` call has yet to
  return: the count of unfinished items is exact, `task_done` never fails, and `drain` delivers.
  Also what `publish` and `unsubscribe` do in every interleaving.
 */
module EventBusLaws {
  import opened Prelude
  import opened EventBus
  import opened BusInvariant

  // ---- The bus in good order ----

  /** Some `stop` call has not yet let go of the queue. */
  ghost predicate Active(stops: map<nat, Stop>) {
    exists k :: k in stops && !stops[k].Finishing?
  }

  /** What a `stop` call awaits is what the bus has. */
  predicate Fits(stop: Stop, current: Option<nat>, listed: nat, count: nat) {
    match stop
    case Joining(q) => current == Some(q)
    case Gathering(from, end) => from == listed && end == count
    case Finishing(_) => true
  }

  /** A worker that is not gone serves the current queue. */
  predicate Serves(x: Worker, current: Option<nat>) {
    match x
    case Fresh => true
    case Getting(q) => current == Some(q)
    case Busy(q, _) => current == Some(q)
    case Gone => true
    case Crashed => false
  }

  /** One `stop` at a time, none while started; a queue from `start` until `stop` lets go; all workers accounted for. */
  ghost predicate Tame(
    started: bool, stops: map<nat, Stop>, current: Option<nat>, workers: seq<Worker>, listed: nat)
  {
    && (started ==> stops == map[])
    && (forall j, k :: j in stops && k in stops ==> j == k)
    && (current.Some? <==> started || Active(stops))
    && (forall k :: k in stops ==> Fits(stops[k], current, listed, |workers|))
    && listed <= |workers| && (current.None? ==> listed == |workers|)
    && (forall w :: 0 <= w < listed ==> workers[w].Gone?)
    && (forall w :: 0 <= w < |workers| ==> Serves(workers[w], current))
  }

  /** Every call of `task_done` went to the queue its item came from. */
  predicate Straight(queues: seq<Queue>) {
    forall q :: 0 <= q < |queues| ==> queues[q].stray == 0 && queues[q].foreign == 0
  }

  /** The task set holds exactly the direct tickets under way, and a `stop` that awaits tasks awaits all of them. */
  ghost predicate TasksExact(stage: map<nat, Stage>, tasks: set<nat>, stops: map<nat, Stop>) {
    && (forall t :: t in tasks <==> At(stage, t, Direct))
    && (forall k, t :: k in stops && stops[k].Finishing? && At(stage, t, Direct) ==> t in stops[k].tasks)
    && (forall k, t :: k in stops && stops[k].Finishing? && t in stops[k].tasks ==> t in stage)
  }

  /** A dispatch that is over: its handler returned, raised, or was cancelled. */
  predicate Ended(stage: map<nat, Stage>, t: nat) {
    At(stage, t, Done) || At(stage, t, Aborted)
  }

  /** How far a ticket of a drain's snapshot has come, when no `stop` interferes. */
  predicate Drained(stage: map<nat, Stage>, progress: Progress, t: nat) {
    match progress
    case AtQueue(q) => At(stage, t, Queued(q)) || At(stage, t, Running(q)) || At(stage, t, Direct) || Ended(stage, t)
    case PastQueue => At(stage, t, Direct) || Ended(stage, t)
    case AtTasks(tasks) => (At(stage, t, Direct) && t in tasks) || Ended(stage, t)
    case Returned => Ended(stage, t)
  }

  /** No `stop` call was under way when the drain was called, and none has begun since. */
  predicate Undisturbed(d: Drain, stopCount: nat) {
    d.calm && d.stops == stopCount
  }

  ghost predicate Watched(
    stage: map<nat, Stage>, current: Option<nat>, stops: map<nat, Stop>, stopCount: nat, drains: map<nat, Drain>)
  {
    && (forall d :: d in drains ==> drains[d].stops <= stopCount)
    && (forall d :: d in drains && Undisturbed(drains[d], stopCount) ==>
          stops == map[] && (drains[d].progress.AtQueue? ==> current == Some(drains[d].progress.queue)))
    && (forall d, t :: d in drains && Undisturbed(drains[d], stopCount) && t in drains[d].snapshot ==>
          Drained(stage, drains[d].progress, t))
  }

  ghost predicate Orderly(s: State) {
    && Tame(s.started, s.stops, s.current, s.workers, s.listed) && Straight(s.queues)
    && TasksExact(s.stage, s.tasks, s.stops) && Watched(s.stage, s.current, s.stops, s.stopCount, s.drains)
  }

  ghost predicate GoodOrder(s: State) {
    Inv(s) && Orderly(s)
  }

  /** The step is not a `start` during an unfinished `stop`. */
  predicate Proper(s: State, a: Action) {
    a.Start? && !s.started ==> s.stops == map[]
  }

  // ---- task_done in good order ----

  /** An item that a worker holds is counted by the queue the worker serves. */
  lemma BusyCounted(s: State, w: nat)
    requires GoodOrder(s) && w < |s.workers| && s.workers[w].Busy?
    ensures s.current == Some(s.workers[w].queue) && DoneWorks(s.queues, s.current)
  {
    hide Placed, AllInOrder, DispatchedOnce, Held, Owned, TasksExact, Watched;
    assert Serves(s.workers[w], s.current);
    BusyPositive(s.workers, w);
    assert Even(s.queues[s.workers[w].queue], BusyFrom(s.workers, s.workers[w].queue), 0);
  }

  lemma SentinelCounted(s: State, w: nat)
    requires GoodOrder(s) && Enabled(s, Take(w))
    ensures
      var q := s.workers[w].queue;
      var x := QueueAt(s.queues, q);
      s.current == Some(q) && q < |s.queues| && DoneWorks(WithQueue(s.queues, q, x.(items := x.items[1..])), s.current)
  {
    hide Placed, AllInOrder, DispatchedOnce, Held, Owned, TasksExact, Watched;
    assert Serves(s.workers[w], s.current);
    assert Even(s.queues[s.workers[w].queue], BusyFrom(s.workers, s.workers[w].queue), 0);
  }

  lemma DoneStraight(queues: seq<Queue>, current: Option<nat>, q: nat)
    requires Straight(queues) && current == Some(q) && DoneWorks(queues, current)
    ensures Straight(DoneAt(queues, current, q))
  {
  }

  // ---- How one change affects each part ----

  lemma TameWorker(
    started: bool, stops: map<nat, Stop>, current: Option<nat>, workers: seq<Worker>, listed: nat, w: nat, x: Worker)
    requires Tame(started, stops, current, workers, listed) && w < |workers| && !workers[w].Gone? && Serves(x, current)
    ensures Tame(started, stops, current, workers[w := x], listed)
  {
    hide Active;
  }

  lemma TasksMoved(stage: map<nat, Stage>, tasks: set<nat>, stops: map<nat, Stop>, t: nat, x: Stage)
    requires TasksExact(stage, tasks, stops) && !At(stage, t, Direct) && x != Direct
    ensures TasksExact(stage[t := x], tasks, stops)
  {
    forall u
      ensures u in tasks <==> At(stage[t := x], u, Direct)
    {
      assert u in tasks <==> At(stage, u, Direct);
    }
    forall k, u | k in stops && stops[k].Finishing? && At(stage[t := x], u, Direct)
      ensures u in stops[k].tasks
    {
      assert At(stage, u, Direct);
    }
  }

  /** Moving on is never moving back. */
  predicate Forward(a: Stage, b: Stage) {
    match a
    case Waiting => b.Queued?
    case Queued(q) => b == Running(q)
    case Running(_) => b.Done? || b.Aborted?
    case Direct => b.Done? || b.Aborted?
    case _ => false
  }

  lemma WatchedMoved(s: State, t: nat, x: Stage)
    requires Watched(s.stage, s.current, s.stops, s.stopCount, s.drains) && t in s.stage && Forward(s.stage[t], x)
    ensures Watched(s.stage[t := x], s.current, s.stops, s.stopCount, s.drains)
  {
    forall d, u | d in s.drains && Undisturbed(s.drains[d], s.stopCount) && u in s.drains[d].snapshot
      ensures Drained(s.stage[t := x], s.drains[d].progress, u)
    {
      assert Drained(s.stage, s.drains[d].progress, u);
    }
  }

  /** A change of stages that leaves the tickets of every snapshot alone. */
  lemma WatchedElsewhere(s: State, stage: map<nat, Stage>)
    requires Watched(s.stage, s.current, s.stops, s.stopCount, s.drains)
    requires forall t :: t in s.stage && !s.stage[t].Waiting? ==> t in stage && stage[t] == s.stage[t]
    ensures Watched(stage, s.current, s.stops, s.stopCount, s.drains)
  {
    forall d, u | d in s.drains && Undisturbed(s.drains[d], s.stopCount) && u in s.drains[d].snapshot
      ensures Drained(stage, s.drains[d].progress, u)
    {
      assert Drained(s.stage, s.drains[d].progress, u);
    }
  }

  // ---- Every proper step keeps good order ----

  lemma StartOrder(s: State)
    requires GoodOrder(s) && Proper(s, Start)
    ensures Orderly(FireStart(s))
  {
    hide Inv, TasksExact;
    if !s.started {
      assert !Active(s.stops);
      StartTame(s);
      hide Tame;
      assert Watched(s.stage, Some(|s.queues|), s.stops, s.stopCount, s.drains);
    }
  }

  lemma StartTame(s: State)
    requires Orderly(s) && !s.started && s.stops == map[] && s.current.None?
    ensures Tame(true, map[], Some(|s.queues|), s.workers + seq(s.workerCount, _ => Fresh), |s.workers|)
  {
    hide Watched, TasksExact, Straight;
    var workers := s.workers + seq(s.workerCount, _ => Fresh);
    forall w | 0 <= w < |workers|
      ensures if w < |s.workers| then workers[w].Gone? else workers[w].Fresh?
    {
    }
  }

  lemma PublishOrder(s: State, a: Action)
    requires GoodOrder(s) && a.Publish? && Enabled(s, a)
    ensures Orderly(Fire(s, a))
  {
    hide Tame, Straight;
    var first, n := |s.jobs|, |Handlers(s, a.topic)|;
    if n > 0 {
      var x := if s.current.Some? && s.listed < |s.workers| && a.sameLoop then Waiting else Direct;
      var stage := Staged(s.stage, first, n, x);
      PublishStages(s, n, x);
      WatchedElsewhere(s, stage);
      hide Inv, Watched;
      PublishTasks(s, n, x);
      hide TasksExact;
    }
  }

  lemma PublishStages(s: State, n: nat, x: Stage)
    requires Inv(s)
    ensures
      var stage := Staged(s.stage, |s.jobs|, n, x);
      forall t: nat :: if t < |s.jobs| then t in stage && t in s.stage && stage[t] == s.stage[t]
                       else t in stage <==> t < |s.jobs| + n
    ensures forall t :: t in s.stage ==> t < |s.jobs|
    ensures
      var stage := Staged(s.stage, |s.jobs|, n, x);
      forall t: nat :: |s.jobs| <= t < |s.jobs| + n ==> At(stage, t, x)
  {
    hide Sized, AllInOrder, DispatchedOnce, Held, Owned, Balanced;
    forall t: nat
      ensures t in Staged(s.stage, |s.jobs|, n, x) <==> t in s.stage || |s.jobs| <= t < |s.jobs| + n
      ensures t in Staged(s.stage, |s.jobs|, n, x) ==>
                Staged(s.stage, |s.jobs|, n, x)[t] == if |s.jobs| <= t < |s.jobs| + n then x else s.stage[t]
    {
      StagedAt(s.stage, |s.jobs|, n, x, t);
    }
  }

  lemma PublishTasks(s: State, n: nat, x: Stage)
    requires Inv(s) && Orderly(s) && s.started && (x.Waiting? || x.Direct?)
    ensures
      var stage := Staged(s.stage, |s.jobs|, n, x);
      TasksExact(stage, if x.Direct? then s.tasks + Range(|s.jobs|, n) else s.tasks, s.stops)
  {
    PublishStages(s, n, x);
    hide Inv, Watched, Straight;
    assert s.stops == map[];
    hide Tame;
    var stage := Staged(s.stage, |s.jobs|, n, x);
    var tasks := if x.Direct? then s.tasks + Range(|s.jobs|, n) else s.tasks;
    forall t
      ensures t in tasks <==> At(stage, t, Direct)
    {
      RangeMember(|s.jobs|, n, t);
      assert t in s.tasks <==> At(s.stage, t, Direct);
    }
  }

  lemma PutOrder(s: State, call: nat)
    requires GoodOrder(s) && Enabled(s, PutNext(call))
    ensures Orderly(FirePut(s, call))
  {
    var c := s.calls[call];
    var target := if c.blocked.Some? then c.blocked else s.current;
    if target.None? {
      DropOrder(s, call);
    } else if HasRoom(QueueAt(s.queues, target.value).items, s.capacity) {
      QueuedOrder(s, call, target.value);
    } else {
      hide Inv, Tame, TasksExact, Watched, Straight, HasRoom, QueueAt;
    }
  }

  lemma QueuedOrder(s: State, call: nat, q: nat)
    requires GoodOrder(s) && Enabled(s, PutNext(call))
    ensures
      var c := s.calls[call];
      Orderly(s.(queues := WithQueue(s.queues, q, Put(QueueAt(s.queues, q), Ticket(c.next))),
                 stage := s.stage[c.next := Queued(q)], calls := s.calls[call := Call(c.next + 1, c.end, None)]))
  {
    var t := s.calls[call].next;
    assert Awaits(s.calls, call, t) && At(s.stage, t, Waiting);
    hide Inv, Tame;
    TasksMoved(s.stage, s.tasks, s.stops, t, Queued(q));
    WatchedMoved(s, t, Queued(q));
    hide TasksExact, Watched;
    assert Straight(WithQueue(s.queues, q, Put(QueueAt(s.queues, q), Ticket(t))));
    hide Straight;
  }

  lemma DropOrder(s: State, call: nat)
    requires GoodOrder(s) && Enabled(s, PutNext(call)) && s.calls[call].blocked.None? && s.current.None?
    ensures Orderly(FirePut(s, call))
  {
    hide Tame, Straight, Sized, Placed, AllInOrder, DispatchedOnce, Held, Balanced;
    var c := s.calls[call];
    var stage := Staged(s.stage, c.next, c.end - c.next, Dropped);
    forall u: nat
      ensures u in s.stage ==> u in stage
      ensures u in s.stage && !s.stage[u].Waiting? ==> u in stage && stage[u] == s.stage[u]
      ensures At(stage, u, Direct) <==> At(s.stage, u, Direct)
    {
      StagedAt(s.stage, c.next, c.end - c.next, Dropped, u);
      if c.next <= u < c.end {
        assert Awaits(s.calls, call, u);
      }
    }
    WatchedElsewhere(s, stage);
    assert TasksExact(stage, s.tasks, s.stops);
  }

  lemma EnterOrder(s: State, w: nat)
    requires GoodOrder(s) && Enabled(s, Enter(w))
    ensures Orderly(Fire(s, Enter(w)))
  {
    hide Inv, Watched, TasksExact, Straight;
    TameWorker(s.started, s.stops, s.current, s.workers, s.listed, w,
               if s.current.Some? then Getting(s.current.value) else Gone);
    hide Tame;
  }

  lemma CancelOrder(s: State, w: nat)
    requires GoodOrder(s) && Enabled(s, Cancel(w))
    ensures Orderly(Fire(s, Cancel(w)))
  {
    hide Inv, Watched, TasksExact, Straight;
    TameWorker(s.started, s.stops, s.current, s.workers, s.listed, w, Gone);
    hide Tame;
  }

  lemma TakeOrder(s: State, w: nat)
    requires GoodOrder(s) && Enabled(s, Take(w))
    ensures Orderly(FireTake(s, w))
  {
    SentinelCounted(s, w);
    var q := s.workers[w].queue;
    if s.queues[q].items[0].Sentinel? {
      SentinelOrder(s, w, q);
    } else {
      TicketOrder(s, w, q, s.queues[q].items[0].ticket);
    }
  }

  lemma SentinelOrder(s: State, w: nat, q: nat)
    requires GoodOrder(s) && Enabled(s, Take(w)) && s.workers[w] == Getting(q) && q < |s.queues|
    requires s.queues[q].items[0].Sentinel?
    ensures Orderly(FireTake(s, w))
  {
    SentinelCounted(s, w);
    hide Inv, Watched, TasksExact;
    var rest := s.queues[q := s.queues[q].(items := s.queues[q].items[1..])];
    DoneStraight(rest, s.current, q);
    TameWorker(s.started, s.stops, s.current, s.workers, s.listed, w, Gone);
    hide Tame, Straight;
  }

  lemma TicketOrder(s: State, w: nat, q: nat, t: nat)
    requires GoodOrder(s) && Enabled(s, Take(w)) && s.workers[w] == Getting(q) && q < |s.queues|
    requires s.queues[q].items[0] == Ticket(t)
    ensures Orderly(FireTake(s, w))
  {
    SentinelCounted(s, w);
    HeadQueued(s, q, t);
    hide Inv;
    TameWorker(s.started, s.stops, s.current, s.workers, s.listed, w, Busy(q, t));
    hide Tame;
    TasksMoved(s.stage, s.tasks, s.stops, t, Running(q));
    hide TasksExact;
    WatchedMoved(s, t, Running(q));
    hide Watched;
    assert Straight(FireTake(s, w).queues);
  }

  lemma HeadQueued(s: State, q: nat, t: nat)
    requires Inv(s) && q < |s.queues| && s.queues[q].items != [] && s.queues[q].items[0] == Ticket(t)
    ensures At(s.stage, t, Queued(q))
  {
    assert Holds(s.stage, q, Tickets(s.queues[q].items)) && Tickets(s.queues[q].items)[0] == t;
    assert t in Tickets(s.queues[q].items);
  }

  lemma ReleaseOrder(s: State, w: nat, to: Stage, next: Worker)
    requires GoodOrder(s) && w < |s.workers| && s.workers[w].Busy? && (to.Done? || to.Aborted?)
    requires Serves(next, s.current)
    ensures Orderly(Release(s, w, to, next))
  {
    BusyCounted(s, w);
    var q, t := s.workers[w].queue, s.workers[w].ticket;
    assert At(s.stage, t, Running(q));
    hide Inv;
    DoneStraight(s.queues, s.current, q);
    TameWorker(s.started, s.stops, s.current, s.workers, s.listed, w, next);
    TasksMoved(s.stage, s.tasks, s.stops, t, to);
    WatchedMoved(s, t, to);
    hide Tame, TasksExact, Watched, Straight, DoneAt;
  }

  lemma FinishOrder(s: State, w: nat, raised: bool)
    requires GoodOrder(s) && Enabled(s, Finish(w, raised))
    ensures Orderly(Fire(s, Finish(w, raised)))
  {
    BusyCounted(s, w);
    hide Inv, Tame, TasksExact, Watched, Straight;
    ReleaseOrder(s, w, Done, Getting(s.current.value));
  }

  lemma DirectGone(stage: map<nat, Stage>, tasks: set<nat>, stops: map<nat, Stop>, t: nat, x: Stage)
    requires TasksExact(stage, tasks, stops) && x != Direct
    ensures TasksExact(stage[t := x], tasks - {t}, stops)
  {
    forall u
      ensures u in tasks - {t} <==> At(stage[t := x], u, Direct)
    {
      assert u in tasks <==> At(stage, u, Direct);
    }
    forall k, u | k in stops && stops[k].Finishing? && At(stage[t := x], u, Direct)
      ensures u in stops[k].tasks
    {
      assert At(stage, u, Direct);
    }
  }

  lemma DirectOrder(s: State, a: Action)
    requires GoodOrder(s) && (a.FinishDirect? || a.QuitDirect?) && Enabled(s, a)
    ensures Orderly(Fire(s, a))
  {
    hide Inv, Tame, Straight;
    var t := a.ticket;
    var to := if a.FinishDirect? then Done else Aborted;
    WatchedMoved(s, t, to);
    hide Watched;
    DirectGone(s.stage, s.tasks, s.stops, t, to);
  }

  lemma BeginStopOrder(s: State, k: nat)
    requires GoodOrder(s) && Enabled(s, BeginStop(k))
    ensures Orderly(FireStop(s, k))
  {
    hide Inv, Straight;
    if s.started {
      var t := FireStop(s, k);
      assert k in t.stops && !t.stops[k].Finishing? && Active(t.stops);
      assert Tame(t.started, t.stops, t.current, t.workers, t.listed);
      hide Tame;
      assert TasksExact(t.stage, t.tasks, t.stops);
      assert Watched(t.stage, t.current, t.stops, t.stopCount, t.drains);
    }
  }

  lemma JoinedOrder(s: State, k: nat)
    requires GoodOrder(s) && Enabled(s, JoinedOrTimedOut(k))
    ensures Orderly(FireJoined(s, k))
  {
    JoinedStraight(s, k);
    JoinedTame(s, k);
    hide Inv, WithSentinels, Straight, Tame;
    var stops := s.stops[k := Gathering(s.listed, |s.workers|)];
    assert TasksExact(s.stage, s.tasks, stops);
    LoneStop(s, k);
    assert Watched(s.stage, s.current, stops, s.stopCount, s.drains);
    hide TasksExact, Watched;
  }

  lemma JoinedStraight(s: State, k: nat)
    requires GoodOrder(s) && Enabled(s, JoinedOrTimedOut(k))
    ensures Straight(FireJoined(s, k).queues)
  {
    hide Placed, DispatchedOnce, Held, Owned, Balanced, TasksExact, Watched;
    if s.current.Some? {
      SentinelsOnly(s.queues[s.current.value], |s.workers| - s.listed, s.capacity);
    }
  }

  lemma JoinedTame(s: State, k: nat)
    requires Orderly(s) && k in s.stops && s.stops[k].Joining?
    ensures Tame(s.started, s.stops[k := Gathering(s.listed, |s.workers|)], s.current, s.workers, s.listed)
  {
    hide TasksExact, Watched, Straight;
    var stops := s.stops[k := Gathering(s.listed, |s.workers|)];
    assert Active(s.stops) && s.current.Some?;
    assert k in stops && !stops[k].Finishing? && Active(stops);
  }

  lemma EndGatherOrder(s: State, k: nat)
    requires GoodOrder(s) && Enabled(s, EndGather(k))
    ensures Orderly(Tail(s.(listed := |s.workers|, current := None), k))
  {
    AllGone(s, k);
    LoneStop(s, k);
    hide Inv, Straight;
    var stops := if s.tasks == {} then map[] else map[k := Finishing(s.tasks)];
    assert s.stops[k := Finishing(s.tasks)] == map[k := Finishing(s.tasks)];
    LetGo(s, k, stops);
    hide Tame, TasksExact, Watched;
    assert Tail(s.(listed := |s.workers|, current := None), k) ==
           s.(listed := |s.workers|, current := None, stops := stops);
  }

  /** The queue is let go, and the `stop` returns or awaits the tasks there are. */
  lemma LetGo(s: State, k: nat, stops: map<nat, Stop>)
    requires Orderly(s) && !s.started && forall w :: 0 <= w < |s.workers| ==> s.workers[w].Gone?
    requires forall d :: d in s.drains ==> !Undisturbed(s.drains[d], s.stopCount)
    requires stops == map[] || stops == map[k := Finishing(s.tasks)]
    ensures Tame(s.started, stops, None, s.workers, |s.workers|)
    ensures TasksExact(s.stage, s.tasks, stops) && Watched(s.stage, None, stops, s.stopCount, s.drains)
  {
    hide Straight;
  }

  lemma AllGone(s: State, k: nat)
    requires GoodOrder(s) && Enabled(s, EndGather(k))
    ensures forall w :: 0 <= w < |s.workers| ==> s.workers[w].Gone?
  {
    hide Inv, Straight, TasksExact, Watched;
    assert Fits(s.stops[k], s.current, s.listed, |s.workers|);
    forall w | 0 <= w < |s.workers|
      ensures s.workers[w].Gone?
    {
      assert Serves(s.workers[w], s.current);
    }
  }

  lemma LoneStop(s: State, k: nat)
    requires Orderly(s) && k in s.stops
    ensures s.stops - {k} == map[] && !s.started
    ensures forall d :: d in s.drains ==> !Undisturbed(s.drains[d], s.stopCount)
  {
    hide TasksExact, Straight;
  }

  lemma EndStopOrder(s: State, k: nat)
    requires GoodOrder(s) && Enabled(s, EndStop(k))
    ensures Orderly(s.(tasks := {}, stops := s.stops - {k}))
  {
    hide Inv, Straight;
    LoneStop(s, k);
    EndStopTame(s, k);
    hide Tame;
    assert TasksExact(s.stage, {}, map[]);
    assert Watched(s.stage, s.current, map[], s.stopCount, s.drains);
  }

  lemma EndStopTame(s: State, k: nat)
    requires Orderly(s) && k in s.stops && s.stops[k].Finishing? && s.stops - {k} == map[]
    ensures Tame(s.started, map[], s.current, s.workers, s.listed)
  {
    hide Watched, TasksExact, Straight;
    assert forall j :: j in s.stops ==> j == k;
    assert !Active(s.stops);
  }

  /** With nothing unfinished, nothing is queued or running there. */
  lemma Emptied(s: State, q: nat, t: nat)
    requires GoodOrder(s) && q < |s.queues| && s.queues[q].unfinished == 0
    ensures !At(s.stage, t, Queued(q)) && !At(s.stage, t, Running(q))
  {
    hide Tame, TasksExact, Watched, DispatchedOnce, Owned, AllInOrder;
    assert Even(s.queues[q], BusyFrom(s.workers, q), 0) && s.queues[q].stray == 0;
    assert s.queues[q].items == [] && Holds(s.stage, q, Tickets(s.queues[q].items));
    if At(s.stage, t, Running(q)) {
      var w :| 0 <= w < |s.workers| && s.workers[w].Busy? && s.workers[w].ticket == t;
      assert At(s.stage, s.workers[w].ticket, Running(s.workers[w].queue));
      BusyPositive(s.workers, w);
    }
  }

  /** A drain may move on when its snapshot allows it. */
  lemma DrainMoved(s: State, d: nat, progress: Progress)
    requires Orderly(s) && d in s.drains && !progress.AtQueue?
    requires Undisturbed(s.drains[d], s.stopCount) ==>
               forall u :: u in s.drains[d].snapshot ==> Drained(s.stage, progress, u)
    ensures Orderly(WithProgress(s, d, progress))
  {
    hide Tame, TasksExact, Straight;
    var drains := s.drains[d := s.drains[d].(progress := progress)];
    forall e, u | e in drains && Undisturbed(drains[e], s.stopCount) && u in drains[e].snapshot
      ensures Drained(s.stage, drains[e].progress, u)
    {
      if e != d {
        assert Drained(s.stage, s.drains[e].progress, u);
      }
    }
  }

  lemma BeginDrainOrder(s: State, d: nat)
    requires GoodOrder(s) && Enabled(s, BeginDrain(d))
    ensures Orderly(Fire(s, BeginDrain(d)))
  {
    var t := Fire(s, BeginDrain(d));
    forall u | u in Alive(s)
      ensures Drained(s.stage, t.drains[d].progress, u)
    {
      AliveDrained(s, u);
    }
    hide Inv, Tame, TasksExact, Straight, Alive;
    forall e, u | e in t.drains && Undisturbed(t.drains[e], t.stopCount) && u in t.drains[e].snapshot
      ensures Drained(t.stage, t.drains[e].progress, u)
    {
      if e != d {
        assert Drained(s.stage, s.drains[e].progress, u);
      }
    }
  }

  lemma AliveDrained(s: State, u: nat)
    requires GoodOrder(s) && u in Alive(s)
    ensures Drained(s.stage, if s.current.Some? then AtQueue(s.current.value) else PastQueue, u)
  {
    hide TasksExact, Straight, Watched, Placed, AllInOrder, DispatchedOnce, Owned, Balanced;
    if s.stage[u].Running? {
      var w :| 0 <= w < |s.workers| && s.workers[w].Busy? && s.workers[w].ticket == u;
      assert Serves(s.workers[w], s.current);
      assert At(s.stage, s.workers[w].ticket, Running(s.workers[w].queue));
    }
  }

  lemma DrainOrder(s: State, a: Action)
    requires GoodOrder(s) && (a.DrainPastQueue? || a.DrainTasks? || a.DrainReturns?) && Enabled(s, a)
    ensures Orderly(Fire(s, a))
  {
    var d := a.drain;
    var progress := Fire(s, a).drains[d].progress;
    forall u | Undisturbed(s.drains[d], s.stopCount) && u in s.drains[d].snapshot
      ensures Drained(s.stage, progress, u)
    {
      assert Drained(s.stage, s.drains[d].progress, u);
      if a.DrainPastQueue? {
        DrainQueueExists(s, d);
        Emptied(s, s.drains[d].progress.queue, u);
      }
    }
    hide Inv, Orderly;
    DrainMoved(s, d, progress);
  }

  lemma DrainQueueExists(s: State, d: nat)
    requires GoodOrder(s) && d in s.drains && Undisturbed(s.drains[d], s.stopCount) && s.drains[d].progress.AtQueue?
    ensures s.drains[d].progress.queue < |s.queues|
  {
    hide Placed, AllInOrder, DispatchedOnce, Held, Owned, Balanced, Tame, TasksExact, Straight;
  }

  lemma StepOrder(s: State, a: Action)
    requires GoodOrder(s) && Enabled(s, a) && Proper(s, a)
    ensures GoodOrder(Fire(s, a))
  {
    hide Inv, FireStart, FirePublish, FirePut, FireTake, FireStop, FireJoined, Release, Tail, Orderly, Alive;
    hide CountError, Handlers, Minus, TopicPart, QueueAt;
    StepKeeps(s, a);
    match a
    case Start => StartOrder(s);
    case Subscribe(_, _) => TopicOrder(s, a);
    case Unsubscribe(_) => TopicOrder(s, a);
    case Publish(_, _, _, _) => PublishOrder(s, a);
    case PutNext(call) => PutOrder(s, call);
    case Enter(w) => EnterOrder(s, w);
    case Take(w) => TakeOrder(s, w);
    case Finish(w, raised) => FinishOrder(s, w, raised);
    case Quit(w) => ReleaseOrder(s, w, Aborted, Gone);
    case Cancel(w) => CancelOrder(s, w);
    case FinishDirect(_, _) => DirectOrder(s, a);
    case QuitDirect(_) => DirectOrder(s, a);
    case BeginStop(k) => BeginStopOrder(s, k);
    case JoinedOrTimedOut(k) => JoinedOrder(s, k);
    case EndGather(k) => EndGatherOrder(s, k);
    case EndStop(k) => EndStopOrder(s, k);
    case BeginDrain(d) => BeginDrainOrder(s, d);
    case DrainPastQueue(_) => DrainOrder(s, a);
    case DrainTasks(_) => DrainOrder(s, a);
    case DrainReturns(_) => DrainOrder(s, a);
  }

  lemma TopicOrder(s: State, a: Action)
    requires Orderly(s) && (a.Subscribe? || a.Unsubscribe?)
    ensures Orderly(Fire(s, a))
  {
    hide Tame, TasksExact, Straight, Watched, Minus, TopicPart, Handlers;
  }

  // ---- Orderly runs ----

  /** Up to step `n`, no `start` fires while a `stop` call has not returned. */
  ghost predicate ProperRun(trace: seq<State>, acts: seq<Action>, n: nat) {
    IsRun(trace, acts) && n < |trace| && forall i :: 0 <= i < n ==> Proper(trace[i], acts[i])
  }

  lemma {:induction false} RunOrder(trace: seq<State>, acts: seq<Action>, n: nat)
    requires ProperRun(trace, acts, n) && GoodOrder(trace[0])
    ensures GoodOrder(trace[n])
  {
    hide GoodOrder;
    if n > 0 {
      RunOrder(trace, acts, n - 1);
      StepOrder(trace[n - 1], acts[n - 1]);
    }
  }

  lemma InitialOrder(capacity: nat, workerCount: nat)
    ensures GoodOrder(Initial(capacity, workerCount))
  {
    InitialInv(capacity, workerCount);
  }

  /** In a proper run what each queue counts as unfinished is exactly what is queued and in flight. */
  lemma CountExact(trace: seq<State>, acts: seq<Action>, n: nat, q: nat, capacity: nat, workerCount: nat)
    requires ProperRun(trace, acts, n) && trace[0] == Initial(capacity, workerCount) && q < |trace[n].queues|
    ensures trace[n].queues[q].unfinished == |trace[n].queues[q].items| + BusyFrom(trace[n].workers, q)
  {
    InitialOrder(capacity, workerCount);
    RunOrder(trace, acts, n);
    hide Sized, Placed, Held, Owned, BusyFrom;
    assert Even(trace[n].queues[q], BusyFrom(trace[n].workers, q), 0);
  }

  /** In a proper run no call of `task_done` fails, so no worker dies. */
  lemma TaskDoneIsSafe(trace: seq<State>, acts: seq<Action>, n: nat, capacity: nat, workerCount: nat)
    requires ProperRun(trace, acts, n) && trace[0] == Initial(capacity, workerCount)
    ensures forall w :: 0 <= w < |trace[n].workers| ==> !trace[n].workers[w].Crashed?
  {
    InitialOrder(capacity, workerCount);
    RunOrder(trace, acts, n);
    hide Inv;
    forall w | 0 <= w < |trace[n].workers|
      ensures !trace[n].workers[w].Crashed?
    {
      assert Serves(trace[n].workers[w], trace[n].current);
    }
  }

  /**
    The drain guarantee in a proper run: when `drain` has returned and no `stop` was under way
    when it was called or has begun since, the dispatch of every ticket that was queued, running
    or direct at the call is over.
   */
  lemma DrainGuarantee(trace: seq<State>, acts: seq<Action>, n: nat, d: nat, capacity: nat, workerCount: nat)
    requires ProperRun(trace, acts, n) && trace[0] == Initial(capacity, workerCount)
    requires d in trace[n].drains && trace[n].drains[d].progress.Returned?
    requires Undisturbed(trace[n].drains[d], trace[n].stopCount)
    ensures forall t :: t in trace[n].drains[d].snapshot ==> Ended(trace[n].stage, t)
  {
    InitialOrder(capacity, workerCount);
    RunOrder(trace, acts, n);
    hide Inv;
    forall t | t in trace[n].drains[d].snapshot
      ensures Ended(trace[n].stage, t)
    {
      assert Drained(trace[n].stage, trace[n].drains[d].progress, t);
    }
  }

  // ---- Subscriptions ----

  predicate TopicsInv(topics: map<string, seq<string>>) {
    forall topic :: topic in topics ==> Distinct(topics[topic])
  }

  lemma {:induction false} MinusMembers(hs: seq<string>, topic: string, id: string, h: string)
    requires Distinct(hs)
    ensures Distinct(Minus(hs, topic, id))
    ensures h in Minus(hs, topic, id) <==> h in hs && SubscriptionId(topic, h) != id
    ensures forall x :: x in Minus(hs, topic, id) ==> x in hs
  {
    if hs != [] {
      assert hs == [hs[0]] + hs[1..];
      MinusMembers(hs[1..], topic, id, h);
      var rest := Minus(hs[1..], topic, id);
      forall i | 0 <= i < |rest|
        ensures rest[i] != hs[0]
      {
        assert rest[i] in hs[1..];
      }
      if SubscriptionId(topic, hs[0]) == id {
        assert id[|topic| + 1..] == hs[0];
        if SubscriptionId(topic, h) == id {
          assert id[|topic| + 1..] == h;
        }
      }
    }
  }

  lemma JobsFrame(s: State, a: Action)
    requires Enabled(s, a)
    ensures if a.Publish? then s.jobs <= Fire(s, a).jobs else Fire(s, a).jobs == s.jobs
  {
    hide FireStart, FirePublish, FirePut, FireTake, FireStop, FireJoined, Release, Tail;
    hide JobsFor, Handlers, Alive, HasRoom, QueueAt, CountError;
  }

  lemma TopicsStep(s: State, a: Action)
    requires TopicsInv(s.topics) && Enabled(s, a)
    ensures TopicsInv(Fire(s, a).topics)
  {
    if a.Unsubscribe? {
      var topic := TopicPart(a.subscription);
      if topic in s.topics {
        MinusMembers(s.topics[topic], topic, a.subscription, "");
      }
    } else if !a.Subscribe? {
      hide FireStart, FirePublish, FirePut, FireTake, FireStop, FireJoined, Release, Tail;
      hide TopicsInv, CountError, JobsFor, Handlers, Alive, HasRoom, QueueAt;
      assert TopicsInv(Fire(s, a).topics);
    }
  }

  lemma {:induction false} TopicsRun(trace: seq<State>, acts: seq<Action>, n: nat)
    requires IsRun(trace, acts) && n < |trace| && TopicsInv(trace[0].topics)
    ensures TopicsInv(trace[n].topics)
  {
    if n > 0 {
      TopicsRun(trace, acts, n - 1);
      TopicsStep(trace[n - 1], acts[n - 1]);
    }
  }

  lemma {:induction false} TopicPartOf(topic: string, rest: string)
    ensures TopicPart(topic + ":" + rest) == topic <==> ':' !in topic
    ensures |TopicPart(topic + ":" + rest)| <= |topic|
  {
    var id := topic + ":" + rest;
    if topic != [] && topic[0] != ':' {
      TopicPartOf(topic[1..], rest);
      assert id[1..] == topic[1..] + ":" + rest;
      assert topic == [topic[0]] + topic[1..];
    }
  }

  /**
    Unsubscribing with the id that `subscribe` returned removes the handler exactly when
    the topic contains no colon; otherwise the call is silently without effect.
   */
  lemma UnsubscribeExact(s: State, topic: string, h: string)
    requires TopicsInv(s.topics) && h in Handlers(s, topic)
    ensures h !in Handlers(Fire(s, Unsubscribe(SubscriptionId(topic, h))), topic) <==> ':' !in topic
  {
    var id := SubscriptionId(topic, h);
    TopicPartOf(topic, h);
    if TopicPart(id) == topic {
      MinusMembers(s.topics[topic], topic, id, h);
    }
  }

  /** Subscribing adds the handler at the end of its topic unless it is there, and changes no other topic. */
  lemma SubscribeExact(s: State, topic: string, h: string, other: string)
    ensures
      var after := Fire(s, Subscribe(topic, h));
      && h in Handlers(after, topic)
      && (h in Handlers(s, topic) ==> Handlers(after, topic) == Handlers(s, topic))
      && (h !in Handlers(s, topic) ==>
            |Handlers(after, topic)| == |Handlers(s, topic)| + 1 && Handlers(s, topic) <= Handlers(after, topic))
      && (other != topic ==> Handlers(after, other) == Handlers(s, other))
  {
    if h !in Handlers(s, topic) {
      assert (Handlers(s, topic) + [h])[|Handlers(s, topic)|] == h;
    }
  }

  /** Unsubscribing takes away at most the subscription of that id; any other handler of any topic stays. */
  lemma UnsubscribeSparesOthers(s: State, id: string, topic: string, h: string)
    requires TopicsInv(s.topics) && SubscriptionId(topic, h) != id
    ensures h in Handlers(Fire(s, Unsubscribe(id)), topic) <==> h in Handlers(s, topic)
  {
    if TopicPart(id) == topic && topic in s.topics {
      MinusMembers(s.topics[topic], topic, id, h);
    }
  }

  /** The topic "a:b": the handler stays subscribed after `unsubscribe`. */
  lemma ColonKeepsSubscription(s: State)
    requires s.topics == map["a:b" := ["h"]]
    ensures "h" in Handlers(Fire(s, Unsubscribe(SubscriptionId("a:b", "h"))), "a:b")
  {
    assert "a:b"[1] == ':';
    UnsubscribeExact(s, "a:b", "h");
  }

  // ---- One ticket per handler ----

  lemma {:induction false} JobsOnlyGrow(trace: seq<State>, acts: seq<Action>, i: nat, n: nat)
    requires IsRun(trace, acts) && i <= n < |trace|
    ensures trace[i].jobs <= trace[n].jobs
  {
    hide Fire, Enabled;
    if i < n {
      JobsOnlyGrow(trace, acts, i, n - 1);
      JobsFrame(trace[n - 1], acts[n - 1]);
      assert trace[n - 1 + 1] == Fire(trace[n - 1], acts[n - 1]);
    }
  }

  /**
    A publish makes exactly one ticket for each handler subscribed at that moment, and the
    tickets keep their meaning for ever after. `Conservation` and `DrainGuarantee` say
    what becomes of them.
   */
  lemma OneTicketPerHandler(trace: seq<State>, acts: seq<Action>, i: nat, n: nat, h: string)
    requires IsRun(trace, acts) && i < n < |trace| && TopicsInv(trace[0].topics) && acts[i].Publish?
    requires h in Handlers(trace[i], acts[i].topic)
    ensures
      var first, count := |trace[i].jobs|, |Handlers(trace[i], acts[i].topic)|;
      && |trace[i + 1].jobs| == first + count <= |trace[n].jobs|
      && (exists t :: first <= t < first + count && trace[n].jobs[t] == Job(h, acts[i].topic, acts[i].event))
      && (forall t, u :: first <= t < u < first + count ==> trace[n].jobs[t].handler != trace[n].jobs[u].handler)
  {
    TopicsRun(trace, acts, i);
    JobsOnlyGrow(trace, acts, i + 1, n);
    var s, a := trace[i], acts[i];
    var hs, first := Handlers(s, a.topic), |s.jobs|;
    assert trace[i + 1] == Fire(s, a);
    assert Distinct(hs);
    assert trace[i + 1].jobs == s.jobs + JobsFor(hs, a.topic, a.event);
    assert forall t :: first <= t < first + |hs| ==> trace[n].jobs[t] == Job(hs[t - first], a.topic, a.event);
    var k :| 0 <= k < |hs| && hs[k] == h;
    assert trace[n].jobs[first + k] == Job(h, a.topic, a.event);
  }

  // ---- Failures of handlers ----

  function ErrorCount(s: State, topic: string): nat {
    if topic in s.errors then s.errors[topic] else 0
  }

  /** The step ends a dispatch whose handler raised, for an event of this topic. */
  predicate Raises(s: State, a: Action, topic: string)
    requires Enabled(s, a)
  {
    || (a.Finish? && a.raised && s.jobs[s.workers[a.worker].ticket].topic == topic)
    || (a.FinishDirect? && a.raised && s.jobs[a.ticket].topic == topic)
  }

  function RaisedCount(trace: seq<State>, acts: seq<Action>, n: nat, topic: string): nat
    requires IsRun(trace, acts) && n < |trace|
  {
    if n == 0 then 0
    else RaisedCount(trace, acts, n - 1, topic) + if Raises(trace[n - 1], acts[n - 1], topic) then 1 else 0
  }

  lemma ErrorStep(s: State, a: Action, topic: string)
    requires Enabled(s, a)
    ensures ErrorCount(Fire(s, a), topic) == ErrorCount(s, topic) + if Raises(s, a, topic) then 1 else 0
  {
    hide FireStart, FirePublish, FirePut, FireTake, FireStop, FireJoined, Release, Tail;
    hide JobsFor, Handlers, Alive, HasRoom, QueueAt, Minus, TopicPart;
  }

  /** Every handler that raises is counted on its topic; none is missed or counted twice. */
  lemma {:induction false} ErrorsExact(trace: seq<State>, acts: seq<Action>, n: nat, topic: string)
    requires IsRun(trace, acts) && n < |trace| && trace[0].errors == map[]
    ensures ErrorCount(trace[n], topic) == RaisedCount(trace, acts, n, topic)
  {
    hide Fire, Enabled;
    if n > 0 {
      ErrorsExact(trace, acts, n - 1, topic);
      ErrorStep(trace[n - 1], acts[n - 1], topic);
      assert trace[n - 1 + 1] == Fire(trace[n - 1], acts[n - 1]);
    }
  }
}
