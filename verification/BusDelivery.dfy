/**
  What becomes of the tickets of a publish call, and of those a `drain` finds, over whole runs
  of the event bus: every handler's item is put into a queue exactly once and in handler order,
  or the call raised because the bus had no queue left.
 */
module BusDelivery {
  import opened Prelude
  import opened EventBus
  import opened BusInvariant
  import opened EventBusLaws

  // ---- How one step moves one ticket ----

  /** The step is the turn of a publishing loop that finds no queue, and the call still had `t` to put. */
  predicate Raised(s: State, a: Action, t: nat) {
    && a.PutNext? && s.current.None? && Awaits(s.calls, a.call, t) && s.calls[a.call].blocked.None?
  }

  predicate Moves(s: State, a: Action, t: nat, x: Stage)
    requires t in s.stage
  {
    x == s.stage[t] || Forward(s.stage[t], x) || (Raised(s, a, t) && s.stage[t].Waiting? && x.Dropped?)
  }

  predicate MovesAt(s: State, a: Action, t: nat, stage: map<nat, Stage>) {
    t in s.stage ==> t in stage && Moves(s, a, t, stage[t])
  }

  lemma StageStep(s: State, a: Action, t: nat)
    requires Inv(s) && Enabled(s, a)
    ensures MovesAt(s, a, t, Fire(s, a).stage)
  {
    hide Inv, FireStart, FirePublish, FirePut, FireTake, FireStop, FireJoined, Release, Tail, Alive, MovesAt;
    hide SameNews, Aside, CountError, Handlers, Minus, TopicPart, QueueAt, HasRoom;
    match a
    case Publish(_, _, _, _) => PublishStage(s, a, t);
    case PutNext(_) => PutStage(s, a, t);
    case Take(_) => TakeStage(s, a, t);
    case Finish(w, _) => ReleaseMoves(s, a, w, t, Done);
    case Quit(w) => ReleaseMoves(s, a, w, t, Aborted);
    case FinishDirect(_, _) => DirectMoves(s, a, t);
    case QuitDirect(_) => DirectMoves(s, a, t);
    case _ => SameStage(s, a, t);
  }

  lemma SameStage(s: State, a: Action, t: nat)
    requires Enabled(s, a) && Fire(s, a).stage == s.stage
    ensures MovesAt(s, a, t, Fire(s, a).stage)
  {
  }

  lemma PublishStage(s: State, a: Action, t: nat)
    requires Inv(s) && a.Publish? && Enabled(s, a)
    ensures MovesAt(s, a, t, Fire(s, a).stage)
  {
    hide Sized, AllInOrder, DispatchedOnce, Held, Owned, Balanced, SubLogs;
    var n := |Handlers(s, a.topic)|;
    StagedAt(s.stage, |s.jobs|, n, Waiting, t);
    StagedAt(s.stage, |s.jobs|, n, Direct, t);
  }

  lemma PutStage(s: State, a: Action, t: nat)
    requires Inv(s) && a.PutNext? && Enabled(s, a)
    ensures MovesAt(s, a, t, Fire(s, a).stage)
  {
    var c := s.calls[a.call];
    var target := if c.blocked.Some? then c.blocked else s.current;
    hide Inv, HasRoom, QueueAt, WithQueue, Put, SameNews, MovesAt, Staged;
    if target.None? {
      DropMoves(s, a, t, c);
    } else {
      NextWaits(s, a.call);
      WaitingMoves(s, a, t, c.next, target.value);
    }
  }

  lemma WaitingMoves(s: State, a: Action, t: nat, u: nat, q: nat)
    requires At(s.stage, u, Waiting)
    ensures MovesAt(s, a, t, s.stage) && MovesAt(s, a, t, s.stage[u := Queued(q)])
  {
  }

  lemma NextWaits(s: State, call: nat)
    requires Inv(s) && call in s.calls && s.calls[call].next < s.calls[call].end
    ensures Awaits(s.calls, call, s.calls[call].next) && At(s.stage, s.calls[call].next, Waiting)
  {
    hide Sized, AllInOrder, DispatchedOnce, Held, Placed, Balanced, SubLogs;
  }

  lemma DropMoves(s: State, a: Action, t: nat, c: Call)
    requires Inv(s) && a.PutNext? && a.call in s.calls && c == s.calls[a.call] && c.next < c.end
    requires c.blocked.None? && s.current.None?
    ensures MovesAt(s, a, t, Staged(s.stage, c.next, c.end - c.next, Dropped))
  {
    hide Sized, AllInOrder, DispatchedOnce, Held, Placed, Balanced, SubLogs;
    StagedAt(s.stage, c.next, c.end - c.next, Dropped, t);
    assert c.next <= t < c.end ==> Awaits(s.calls, a.call, t);
  }

  lemma TakeStage(s: State, a: Action, t: nat)
    requires Inv(s) && a.Take? && Enabled(s, a)
    ensures MovesAt(s, a, t, Fire(s, a).stage)
  {
    var q := s.workers[a.worker].queue;
    QueueThere(s, a.worker);
    var x := s.queues[q];
    if x.items[0].Ticket? {
      HeadQueued(s, q, x.items[0].ticket);
    }
    hide Inv, DoneAt, WithQueue, AfterDone, SameNews, Aside;
  }

  lemma QueueThere(s: State, w: nat)
    requires Inv(s) && Enabled(s, Take(w))
    ensures s.workers[w].queue < |s.queues|
  {
    hide AllInOrder, DispatchedOnce, Held, Owned, Placed, Balanced, SubLogs;
  }

  lemma ReleaseMoves(s: State, a: Action, w: nat, t: nat, to: Stage)
    requires Inv(s) && w < |s.workers| && s.workers[w].Busy? && (to.Done? || to.Aborted?)
    ensures forall next :: MovesAt(s, a, t, Release(s, w, to, next).stage)
  {
    hide Sized, Placed, AllInOrder, DispatchedOnce, Owned, Balanced, SubLogs;
    assert At(s.stage, s.workers[w].ticket, Running(s.workers[w].queue));
  }

  lemma DirectMoves(s: State, a: Action, t: nat)
    requires (a.FinishDirect? || a.QuitDirect?) && Enabled(s, a)
    ensures MovesAt(s, a, t, Fire(s, a).stage)
  {
  }

  // ---- What queues accept ----

  predicate AcceptedAt(queues: seq<Queue>, q: nat, i: nat, t: nat) {
    q < |queues| && i < |queues[q].accepted| && queues[q].accepted[i] == t
  }

  ghost predicate Accepted(queues: seq<Queue>, t: nat) {
    exists q: nat, i: nat :: AcceptedAt(queues, q, i, t)
  }

  /** No ticket enters a queue twice, nor two queues. */
  ghost predicate AcceptedOnce(queues: seq<Queue>) {
    forall p: nat, i: nat, q: nat, j: nat, t: nat ::
      AcceptedAt(queues, p, i, t) && AcceptedAt(queues, q, j, t) ==> p == q && i == j
  }

  /** What is in a queue is queued, and what has left it has been taken. */
  lemma AcceptedStage(s: State, q: nat, i: nat, t: nat)
    requires Inv(s) && AcceptedAt(s.queues, q, i, t)
    ensures t in s.stage && (s.stage[t].Queued? || Taken(s.stage[t]))
  {
    hide Sized, Held, Owned, Balanced;
    var x := s.queues[q];
    assert InOrder(x, s.capacity);
    if i < |x.log| {
      assert x.log[i] == t && t in x.log;
    } else {
      assert Tickets(x.items)[i - |x.log|] == t;
      assert Holds(s.stage, q, Tickets(x.items)) && t in Tickets(x.items);
    }
  }

  /** The step puts ticket `t` into queue `q`. */
  predicate Puts(s: State, a: Action, q: nat, t: nat) {
    && a.PutNext? && a.call in s.calls && t == s.calls[a.call].next && q < |s.queues|
    && (if s.calls[a.call].blocked.Some? then s.calls[a.call].blocked else s.current) == Some(q)
    && HasRoom(s.queues[q].items, s.capacity)
  }

  /** The queues still have what they had accepted, and new ones are empty. */
  ghost predicate SameAccepted(queues: seq<Queue>, after: seq<Queue>) {
    && |queues| <= |after|
    && (forall q :: 0 <= q < |queues| ==> after[q].accepted == queues[q].accepted)
    && (forall q :: |queues| <= q < |after| ==> after[q].accepted == [])
  }

  ghost predicate OneMore(queues: seq<Queue>, after: seq<Queue>, q: nat, t: nat) {
    && |after| == |queues| && q < |queues| && after[q].accepted == queues[q].accepted + [t]
    && (forall p :: 0 <= p < |queues| && p != q ==> after[p].accepted == queues[p].accepted)
  }

  lemma PutAccepts(s: State, a: Action, q: nat, t: nat)
    requires Inv(s) && Enabled(s, a) && Puts(s, a, q, t)
    ensures OneMore(s.queues, Fire(s, a).queues, q, t)
    ensures Fire(s, a).calls == s.calls[a.call := Call(t + 1, s.calls[a.call].end, None)]
  {
    hide Inv;
  }

  lemma NoPutAccepts(s: State, a: Action)
    requires Inv(s) && Enabled(s, a) && forall q: nat, t: nat :: !Puts(s, a, q, t)
    ensures SameAccepted(s.queues, Fire(s, a).queues)
  {
    hide FireStart, FirePublish, FirePut, FireTake, FireStop, FireJoined, Tail, DoneAt, SameAccepted, Inv, Alive;
    hide SameNews, Aside, CountError, Handlers, Minus, TopicPart, AfterDone, HasRoom;
    match a
    case PutNext(call) =>
      var target := if s.calls[call].blocked.Some? then s.calls[call].blocked else s.current;
      assert target.Some? ==> !Puts(s, a, target.value, s.calls[call].next);
      NoPutQueues(s, call);
    case Take(w) => TakeAccepts(s, w);
    case Finish(w, _) => DoneAccepts(s.queues, s.current, s.workers[w].queue);
    case Quit(w) => DoneAccepts(s.queues, s.current, s.workers[w].queue);
    case JoinedOrTimedOut(k) => JoinedAccepts(s, k);
    case Start => StartAccepts(s);
    case Publish(_, _, _, _) => PublishAccepts(s, a);
    case _ => Unchanged(s.queues);
  }

  lemma Unchanged(queues: seq<Queue>)
    ensures SameAccepted(queues, queues)
  {
  }

  lemma PublishAccepts(s: State, a: Action)
    requires a.Publish? && Enabled(s, a)
    ensures SameAccepted(s.queues, Fire(s, a).queues)
  {
  }

  lemma StartAccepts(s: State)
    ensures SameAccepted(s.queues, FireStart(s).queues)
  {
  }

  lemma NoPutQueues(s: State, call: nat)
    requires Inv(s) && Enabled(s, PutNext(call))
    requires
      var target := if s.calls[call].blocked.Some? then s.calls[call].blocked else s.current;
      target.Some? ==> !Puts(s, PutNext(call), target.value, s.calls[call].next)
    ensures SameAccepted(s.queues, FirePut(s, call).queues)
  {
    hide Placed, AllInOrder, DispatchedOnce, Held, Owned, Balanced, SubLogs, Staged;
  }

  lemma DoneAccepts(queues: seq<Queue>, current: Option<nat>, q: nat)
    ensures SameAccepted(queues, DoneAt(queues, current, q))
  {
    DoneKeeps(queues, current, q);
  }

  lemma TakeAccepts(s: State, w: nat)
    requires Enabled(s, Take(w))
    ensures SameAccepted(s.queues, FireTake(s, w).queues)
  {
    var q := s.workers[w].queue;
    var x := QueueAt(s.queues, q);
    var rest := WithQueue(s.queues, q, x.(items := x.items[1..]));
    if x.items[0].Sentinel? {
      DoneAccepts(rest, s.current, q);
      hide DoneAt, AfterDone, SameNews, Aside;
      assert FireTake(s, w).queues == DoneAt(rest, s.current, q);
    } else {
      hide DoneAt, AfterDone, SameNews, Aside;
      assert FireTake(s, w).queues ==
             WithQueue(s.queues, q, x.(items := x.items[1..], log := x.log + [x.items[0].ticket]));
    }
  }

  lemma JoinedAccepts(s: State, k: nat)
    requires Inv(s)
    ensures SameAccepted(s.queues, FireJoined(s, k).queues)
  {
    if s.current.Some? && s.listed <= |s.workers| {
      hide Placed, DispatchedOnce, Held, Owned, Balanced, SubLogs;
      assert InOrder(s.queues[s.current.value], s.capacity);
      SentinelsOnly(s.queues[s.current.value], |s.workers| - s.listed, s.capacity);
      hide WithSentinels;
    }
  }

  lemma OnceStep(s: State, a: Action)
    requires Inv(s) && Enabled(s, a) && AcceptedOnce(s.queues)
    ensures AcceptedOnce(Fire(s, a).queues)
  {
    var after := Fire(s, a).queues;
    if q: nat, t: nat :| Puts(s, a, q, t) {
      PutAccepts(s, a, q, t);
      PutIsNew(s, a, q, t);
      hide Fire, Inv;
      OnceMore(s.queues, after, q, t);
    } else {
      NoPutAccepts(s, a);
      hide Fire, Inv;
      OnceSame(s.queues, after);
    }
  }

  /** A ticket that is put was waiting, so no queue has accepted it. */
  lemma PutIsNew(s: State, a: Action, q: nat, t: nat)
    requires Inv(s) && Enabled(s, a) && Puts(s, a, q, t)
    ensures !Accepted(s.queues, t)
  {
    assert Awaits(s.calls, a.call, t) && At(s.stage, t, Waiting);
    if Accepted(s.queues, t) {
      var p, i :| AcceptedAt(s.queues, p, i, t);
      AcceptedStage(s, p, i, t);
    }
  }

  lemma OnceSame(queues: seq<Queue>, after: seq<Queue>)
    requires AcceptedOnce(queues) && SameAccepted(queues, after)
    ensures AcceptedOnce(after)
  {
    forall p: nat, i: nat, q: nat, j: nat, t: nat | AcceptedAt(after, p, i, t) && AcceptedAt(after, q, j, t)
      ensures p == q && i == j
    {
      assert AcceptedAt(queues, p, i, t) && AcceptedAt(queues, q, j, t);
    }
  }

  lemma OnceMore(queues: seq<Queue>, after: seq<Queue>, r: nat, u: nat)
    requires AcceptedOnce(queues) && OneMore(queues, after, r, u) && !Accepted(queues, u)
    ensures AcceptedOnce(after)
  {
    forall p: nat, i: nat, t: nat | AcceptedAt(after, p, i, t)
      ensures AcceptedAt(queues, p, i, t) || (t == u && p == r && i == |queues[r].accepted|)
      ensures AcceptedAt(queues, p, i, t) ==> t != u
    {
      assert AcceptedAt(queues, p, i, t) ==> Accepted(queues, t);
    }
    forall p: nat, i: nat, q: nat, j: nat, t: nat | AcceptedAt(after, p, i, t) && AcceptedAt(after, q, j, t)
      ensures p == q && i == j
    {
      assert AcceptedAt(queues, p, i, t) <==> AcceptedAt(queues, q, j, t);
    }
  }

  // ---- The tickets of one publish call ----

  /** The tickets `first..end` that a queue accepted, it accepted in ascending order. */
  ghost predicate Ascending(queues: seq<Queue>, first: nat, end: nat) {
    forall q: nat, i: nat, j: nat, t: nat, u: nat ::
      AcceptedAt(queues, q, i, t) && AcceptedAt(queues, q, j, u) && i < j && first <= t < end && first <= u < end ==>
        t < u
  }

  predicate Continues(calls: map<nat, Call>, c: nat, m: nat, end: nat) {
    c in calls && calls[c].next == m && calls[c].end == end
  }

  ghost predicate StillPutting(calls: map<nat, Call>, m: nat, end: nat) {
    exists c :: Continues(calls, c, m, end)
  }

  ghost predicate AllDropped(stage: map<nat, Stage>, m: nat, end: nat) {
    forall t :: m <= t < end ==> At(stage, t, Dropped)
  }

  ghost predicate AllAccepted(queues: seq<Queue>, first: nat, m: nat) {
    forall t :: first <= t < m ==> Accepted(queues, t)
  }

  /**
    Of the tickets `first..end` those below `m` have been put, in order; a call is still to put the
    others, or it has raised and dropped them.
   */
  ghost predicate DeliveredTo(s: State, first: nat, m: nat, end: nat) {
    && first <= m <= end && AllAccepted(s.queues, first, m) && Ascending(s.queues, first, end)
    && (StillPutting(s.calls, m, end) || AllDropped(s.stage, m, end))
  }

  lemma RestStage(s: State, first: nat, m: nat, end: nat, t: nat)
    requires Inv(s) && DeliveredTo(s, first, m, end) && m <= t < end
    ensures At(s.stage, t, Waiting) || At(s.stage, t, Dropped)
    ensures At(s.stage, t, Waiting) ==> StillPutting(s.calls, m, end)
  {
    hide Sized, Placed, AllInOrder, DispatchedOnce, Held, Balanced, SubLogs;
    assert forall c :: Continues(s.calls, c, m, end) ==> Awaits(s.calls, c, t);
    assert AllDropped(s.stage, m, end) ==> At(s.stage, t, Dropped);
  }

  /** No ticket from `m` on is accepted by any queue. */
  lemma RestNotAccepted(s: State, first: nat, m: nat, end: nat, q: nat, i: nat, t: nat)
    requires Inv(s) && DeliveredTo(s, first, m, end) && m <= t < end
    ensures !AcceptedAt(s.queues, q, i, t)
  {
    RestStage(s, first, m, end, t);
    if AcceptedAt(s.queues, q, i, t) {
      AcceptedStage(s, q, i, t);
    }
  }

  lemma AcceptedStays(queues: seq<Queue>, after: seq<Queue>, t: nat)
    requires Accepted(queues, t)
    requires SameAccepted(queues, after) || exists q: nat, u: nat :: OneMore(queues, after, q, u)
    ensures Accepted(after, t)
  {
    var q, i :| AcceptedAt(queues, q, i, t);
    assert AcceptedAt(after, q, i, t);
  }

  lemma DroppedStays(s: State, a: Action, m: nat, end: nat)
    requires Inv(s) && Enabled(s, a)
    ensures AllDropped(s.stage, m, end) ==> AllDropped(Fire(s, a).stage, m, end)
  {
    hide Inv, Fire, Enabled;
    forall t: nat | At(s.stage, t, Dropped)
      ensures At(Fire(s, a).stage, t, Dropped)
    {
      StageStep(s, a, t);
    }
  }

  /** A step that puts nothing of this call. */
  lemma QuietStep(s: State, a: Action, first: nat, m: nat, end: nat)
    requires Inv(s) && Enabled(s, a) && DeliveredTo(s, first, m, end)
    requires forall q: nat, t: nat :: Puts(s, a, q, t) ==> !(first <= t < end)
    requires StillPutting(s.calls, m, end) ==>
               StillPutting(Fire(s, a).calls, m, end) || AllDropped(Fire(s, a).stage, m, end)
    ensures DeliveredTo(Fire(s, a), first, m, end)
  {
    var after := Fire(s, a);
    DroppedStays(s, a, m, end);
    if q: nat, t: nat :| Puts(s, a, q, t) {
      PutAccepts(s, a, q, t);
      hide Fire, Inv;
      QuietQueues(s.queues, after.queues, first, m, end, q, t);
    } else {
      NoPutAccepts(s, a);
      hide Fire, Inv;
      SameQueues(s.queues, after.queues, first, m, end);
    }
  }

  lemma QuietQueues(queues: seq<Queue>, after: seq<Queue>, first: nat, m: nat, end: nat, r: nat, u: nat)
    requires AllAccepted(queues, first, m) && Ascending(queues, first, end) && OneMore(queues, after, r, u)
    requires !(first <= u < end)
    ensures AllAccepted(after, first, m) && Ascending(after, first, end)
  {
    forall t | first <= t < m
      ensures Accepted(after, t)
    {
      AcceptedStays(queues, after, t);
    }
    forall q: nat, i: nat, j: nat, t: nat, v: nat | AcceptedAt(after, q, i, t) && AcceptedAt(after, q, j, v) && i < j
                           && first <= t < end && first <= v < end
      ensures t < v
    {
      assert AcceptedAt(queues, q, i, t) && AcceptedAt(queues, q, j, v);
    }
  }

  lemma SameQueues(queues: seq<Queue>, after: seq<Queue>, first: nat, m: nat, end: nat)
    requires AllAccepted(queues, first, m) && Ascending(queues, first, end) && SameAccepted(queues, after)
    ensures AllAccepted(after, first, m) && Ascending(after, first, end)
  {
    forall t | first <= t < m
      ensures Accepted(after, t)
    {
      AcceptedStays(queues, after, t);
    }
    forall q: nat, i: nat, j: nat, t: nat, v: nat | AcceptedAt(after, q, i, t) && AcceptedAt(after, q, j, v) && i < j
                           && first <= t < end && first <= v < end
      ensures t < v
    {
      assert AcceptedAt(queues, q, i, t) && AcceptedAt(queues, q, j, v);
    }
  }

  /** The step that puts the next ticket of this call. */
  lemma PutStep(s: State, a: Action, first: nat, m: nat, end: nat, q: nat)
    requires Inv(s) && Enabled(s, a) && DeliveredTo(s, first, m, end) && m < end
    requires Puts(s, a, q, m) && Continues(s.calls, a.call, m, end)
    ensures DeliveredTo(Fire(s, a), first, m + 1, end)
  {
    var after := Fire(s, a);
    PutAccepts(s, a, q, m);
    forall i: nat, t: nat | AcceptedAt(s.queues, q, i, t) && first <= t < end
      ensures t < m
    {
      if t >= m {
        RestNotAccepted(s, first, m, end, q, i, t);
      }
    }
    hide Fire, Inv;
    assert Continues(after.calls, a.call, m + 1, end);
    PutQueues(s.queues, after.queues, first, m, end, q);
  }

  lemma PutQueues(queues: seq<Queue>, after: seq<Queue>, first: nat, m: nat, end: nat, r: nat)
    requires AllAccepted(queues, first, m) && Ascending(queues, first, end) && OneMore(queues, after, r, m)
    requires forall i: nat, t: nat :: AcceptedAt(queues, r, i, t) && first <= t < end ==> t < m
    ensures AllAccepted(after, first, m + 1) && Ascending(after, first, end)
  {
    forall t | first <= t < m + 1
      ensures Accepted(after, t)
    {
      if t == m {
        assert AcceptedAt(after, r, |queues[r].accepted|, t);
      } else {
        AcceptedStays(queues, after, t);
      }
    }
    forall q: nat, i: nat, j: nat, t: nat, v: nat | AcceptedAt(after, q, i, t) && AcceptedAt(after, q, j, v) && i < j
                           && first <= t < end && first <= v < end
      ensures t < v
    {
      assert AcceptedAt(queues, q, i, t);
      assert AcceptedAt(queues, q, j, v) || (q == r && v == m);
    }
  }

  lemma DeliveryStep(s: State, a: Action, first: nat, m: nat, end: nat) returns (k: nat)
    requires Inv(s) && Enabled(s, a) && DeliveredTo(s, first, m, end)
    ensures DeliveredTo(Fire(s, a), first, k, end)
  {
    k := m;
    if a.PutNext? && Continues(s.calls, a.call, m, end) {
      k := OwnTurn(s, a, first, m, end);
    } else {
      OtherTurn(s, a, first, m, end);
      hide Fire;
    }
  }

  /** A turn of the call's own loop: a put, a wait for room, or the exception. */
  lemma OwnTurn(s: State, a: Action, first: nat, m: nat, end: nat) returns (k: nat)
    requires Inv(s) && Enabled(s, a) && DeliveredTo(s, first, m, end)
    requires a.PutNext? && Continues(s.calls, a.call, m, end)
    ensures DeliveredTo(Fire(s, a), first, k, end)
  {
    k := m;
    if q: nat :| Puts(s, a, q, m) {
      PutStep(s, a, first, m, end, q);
      k := m + 1;
    } else {
      NotPut(s, a, m, end);
      QuietStep(s, a, first, m, end);
    }
  }

  lemma NotPut(s: State, a: Action, m: nat, end: nat)
    requires Inv(s) && Enabled(s, a) && a.PutNext? && Continues(s.calls, a.call, m, end)
    requires forall q: nat :: !Puts(s, a, q, m)
    ensures StillPutting(Fire(s, a).calls, m, end) || AllDropped(Fire(s, a).stage, m, end)
  {
    hide Placed, AllInOrder, DispatchedOnce, Held, Owned, Balanced, SubLogs;
    var c := s.calls[a.call];
    var target := if c.blocked.Some? then c.blocked else s.current;
    if target.Some? {
      assert !Puts(s, a, target.value, m);
      assert Continues(Fire(s, a).calls, a.call, m, end);
    } else {
      forall t: nat | m <= t < end
        ensures At(Fire(s, a).stage, t, Dropped)
      {
        StagedAt(s.stage, m, end - m, Dropped, t);
      }
    }
  }

  /** A step of anyone else touches no ticket that this call has yet to put. */
  lemma OtherTurn(s: State, a: Action, first: nat, m: nat, end: nat)
    requires Inv(s) && Enabled(s, a) && DeliveredTo(s, first, m, end)
    requires !(a.PutNext? && Continues(s.calls, a.call, m, end))
    ensures DeliveredTo(Fire(s, a), first, m, end)
  {
    forall q: nat, t: nat | Puts(s, a, q, t)
      ensures !(first <= t < end)
    {
      PutElsewhere(s, a, first, m, end, q, t);
    }
    if StillPutting(s.calls, m, end) {
      var c :| Continues(s.calls, c, m, end);
      OthersCalls(s, a, c);
      assert Continues(Fire(s, a).calls, c, m, end);
    }
    hide Fire;
    QuietStep(s, a, first, m, end);
  }

  lemma QuietAside(s: State, a: Action)
    requires Enabled(s, a)
    requires a.Enter? || a.Finish? || a.Quit? || a.Cancel? || a.FinishDirect? || a.QuitDirect? ||
             a.EndGather? || a.EndStop? || a.Subscribe? || a.Unsubscribe? || a.Start? || a.Take? || a.JoinedOrTimedOut?
    ensures Aside(s, Fire(s, a))
  {
    hide FireStart, FirePublish, FirePut, FireTake, FireStop, FireJoined, Release, Tail;
    hide Handlers, Alive, HasRoom, QueueAt, CountError, Minus, TopicPart;
  }

  lemma PublishAside(s: State, a: Action)
    requires a.Publish? && Enabled(s, a)
    ensures
      var t := Fire(s, a);
      && t.drains == s.drains && t.stopCount == s.stopCount
      && forall c :: c in s.calls ==> c in t.calls && t.calls[c] == s.calls[c]
  {
    hide Staged, Range, JobsFor, Handlers, SameNews;
  }

  lemma PutAside(s: State, a: Action, c: nat)
    requires a.PutNext? && Enabled(s, a) && c in s.calls && c != a.call
    ensures c in FirePut(s, a.call).calls && FirePut(s, a.call).calls[c] == s.calls[c]
  {
    hide FirePut, HasRoom, QueueAt, SameNews;
  }

  /** The same call of `drain`, however far it has come. */
  predicate SameCall(x: Drain, y: Drain) {
    x.snapshot == y.snapshot && x.calm == y.calm && x.stops == y.stops
  }

  lemma DrainAside(s: State, a: Action)
    requires Enabled(s, a) && (a.BeginDrain? || a.DrainPastQueue? || a.DrainTasks? || a.DrainReturns?)
    ensures
      var t := Fire(s, a);
      && t.calls == s.calls && t.stopCount == s.stopCount
      && forall d :: d in s.drains ==> d in t.drains && SameCall(t.drains[d], s.drains[d])
  {
    hide Alive;
  }

  lemma OthersCalls(s: State, a: Action, c: nat)
    requires Enabled(s, a) && c in s.calls && !(a.PutNext? && a.call == c)
    ensures c in Fire(s, a).calls && Fire(s, a).calls[c] == s.calls[c]
  {
    hide FireStart, FirePublish, FirePut, FireTake, FireStop, FireJoined, Release, Tail, Alive, WithProgress, SameNews;
    match a
    case Publish(_, _, _, _) => PublishAside(s, a);
    case PutNext(_) => PutAside(s, a, c);
    case BeginStop(k) =>
    case BeginDrain(_) => DrainAside(s, a);
    case DrainPastQueue(_) => DrainAside(s, a);
    case DrainTasks(_) => DrainAside(s, a);
    case DrainReturns(_) => DrainAside(s, a);
    case _ => QuietAside(s, a);
  }

  /** The next ticket of a call is the first of its own that waits. */
  lemma OwnTicket(s: State, a: Action, m: nat, end: nat, t: nat)
    requires Owned(s.stage, s.calls) && a.PutNext? && Awaits(s.calls, a.call, t) && t == s.calls[a.call].next
    requires m <= t < end && StillPutting(s.calls, m, end)
    ensures Continues(s.calls, a.call, m, end)
  {
    var c :| Continues(s.calls, c, m, end);
    assert Awaits(s.calls, c, t) && c == a.call;
  }

  lemma PutElsewhere(s: State, a: Action, first: nat, m: nat, end: nat, q: nat, t: nat)
    requires Inv(s) && Enabled(s, a) && DeliveredTo(s, first, m, end) && Puts(s, a, q, t)
    requires !Continues(s.calls, a.call, m, end)
    ensures !(first <= t < end)
  {
    PutIsNew(s, a, q, t);
    hide Sized, Placed, AllInOrder, DispatchedOnce, Held, Balanced, SubLogs;
    assert Awaits(s.calls, a.call, t) && At(s.stage, t, Waiting);
    if m <= t < end {
      RestStage(s, first, m, end, t);
      OwnTicket(s, a, m, end, t);
    }
  }

  // ---- Theorems over runs ----

  /** The publish call goes through the queue: there is one, workers listen, and the loop is the bus's own. */
  predicate TakesQueue(s: State, a: Action) {
    a.Publish? && s.current.Some? && s.listed < |s.workers| && a.sameLoop
  }

  lemma PublishBegins(s: State, a: Action)
    requires Inv(s) && Enabled(s, a) && TakesQueue(s, a)
    ensures DeliveredTo(Fire(s, a), |s.jobs|, |s.jobs|, |Fire(s, a).jobs|)
  {
    var after := Fire(s, a);
    var first, n := |s.jobs|, |Handlers(s, a.topic)|;
    assert |after.jobs| == first + n && after.queues == s.queues;
    if n > 0 {
      assert Continues(after.calls, a.call, first, first + n);
    }
    forall q: nat, i: nat, t: nat | AcceptedAt(s.queues, q, i, t)
      ensures t < first
    {
      AcceptedStage(s, q, i, t);
    }
  }

  lemma {:induction false} DeliveryRun(trace: seq<State>, acts: seq<Action>, i: nat, n: nat) returns (m: nat)
    requires IsRun(trace, acts) && i < n < |trace| && Inv(trace[0]) && TakesQueue(trace[i], acts[i])
    ensures DeliveredTo(trace[n], |trace[i].jobs|, m, |trace[i + 1].jobs|)
  {
    hide Fire, Enabled, Inv, DeliveredTo, TakesQueue;
    RunKeeps(trace, acts, n - 1);
    if i + 1 == n {
      PublishBegins(trace[i], acts[i]);
      m := |trace[i].jobs|;
    } else {
      m := DeliveryRun(trace, acts, i, n - 1);
      m := DeliveryStep(trace[n - 1], acts[n - 1], |trace[i].jobs|, m, |trace[i + 1].jobs|);
      assert trace[n - 1 + 1] == Fire(trace[n - 1], acts[n - 1]);
    }
  }

  lemma {:induction false} OnceRun(trace: seq<State>, acts: seq<Action>, n: nat)
    requires IsRun(trace, acts) && n < |trace| && Inv(trace[0]) && AcceptedOnce(trace[0].queues)
    ensures AcceptedOnce(trace[n].queues)
  {
    hide Fire, Enabled, Inv, AcceptedOnce;
    if n > 0 {
      OnceRun(trace, acts, n - 1);
      RunKeeps(trace, acts, n - 1);
      OnceStep(trace[n - 1], acts[n - 1]);
      assert trace[n - 1 + 1] == Fire(trace[n - 1], acts[n - 1]);
    }
  }

  /**
    At every moment after a publish call that took the queue, the tickets of its handlers fall into
    two parts: a first part put into queues, each ticket exactly once and in handler order, and a
    rest that the call is still to put or that it dropped.
   */
  lemma PublishDelivers(
    trace: seq<State>, acts: seq<Action>, i: nat, n: nat, capacity: nat, workerCount: nat) returns (m: nat)
    requires IsRun(trace, acts) && i < n < |trace| && trace[0] == Initial(capacity, workerCount)
    requires TakesQueue(trace[i], acts[i])
    ensures
      var s, first, end := trace[n], |trace[i].jobs|, |trace[i + 1].jobs|;
      && first <= m <= end && end == first + |Handlers(trace[i], acts[i].topic)|
      && (forall t :: first <= t < m ==> Accepted(s.queues, t))
      && (StillPutting(s.calls, m, end) || forall t :: m <= t < end ==> At(s.stage, t, Dropped))
      && AcceptedOnce(s.queues) && Ascending(s.queues, first, end)
  {
    InitialInv(capacity, workerCount);
    OnceRun(trace, acts, n);
    m := DeliveryRun(trace, acts, i, n);
    hide Inv, AcceptedOnce, Ascending, StillPutting;
    assert trace[i + 1] == Fire(trace[i], acts[i]);
  }

  /** Once nothing of the call waits, every handler's ticket was accepted, or dropped with all that follow it. */
  lemma PublishFinished(
    trace: seq<State>, acts: seq<Action>, i: nat, n: nat, capacity: nat, workerCount: nat) returns (m: nat)
    requires IsRun(trace, acts) && i < n < |trace| && trace[0] == Initial(capacity, workerCount)
    requires TakesQueue(trace[i], acts[i])
    requires forall t :: |trace[i].jobs| <= t < |trace[i + 1].jobs| ==> !At(trace[n].stage, t, Waiting)
    ensures
      var s, first, end := trace[n], |trace[i].jobs|, |trace[i + 1].jobs|;
      && first <= m <= end && (forall t :: first <= t < m ==> Accepted(s.queues, t))
      && (forall t :: m <= t < end ==> At(s.stage, t, Dropped))
      && AcceptedOnce(s.queues) && Ascending(s.queues, first, end)
  {
    m := PublishDelivers(trace, acts, i, n, capacity, workerCount);
    InitialInv(capacity, workerCount);
    RunKeeps(trace, acts, n);
    var s, end := trace[n], |trace[i + 1].jobs|;
    hide Fire, Enabled, AcceptedOnce, Ascending, Sized, Placed, AllInOrder, DispatchedOnce, Held, Balanced, SubLogs;
    if m < end {
      assert !At(s.stage, m, Waiting);
      assert forall c :: Continues(s.calls, c, m, end) ==> Awaits(s.calls, c, m);
    }
  }

  /** A ticket that waits can be put as soon as the queue its call is blocked on has room. */
  lemma WaitingCanBePut(s: State, t: nat)
    requires Inv(s) && At(s.stage, t, Waiting)
    ensures exists c :: Awaits(s.calls, c, t) &&
              (Enabled(s, PutNext(c)) ||
               (s.calls[c].blocked.Some? && !HasRoom(QueueAt(s.queues, s.calls[c].blocked.value).items, s.capacity)))
  {
    hide Sized, Placed, AllInOrder, DispatchedOnce, Held, Balanced, SubLogs;
    assert Awaited(s.calls, t);
  }

  /** A ticket is dropped only by a turn of its own call that found the bus without a queue. */
  lemma {:induction false} DroppedWithoutQueue(
    trace: seq<State>, acts: seq<Action>, n: nat, t: nat, capacity: nat, workerCount: nat) returns (j: nat)
    requires IsRun(trace, acts) && n < |trace| && trace[0] == Initial(capacity, workerCount)
    requires At(trace[n].stage, t, Dropped)
    ensures j < n && Raised(trace[j], acts[j], t)
  {
    hide Inv, Fire, Enabled, Raised;
    InitialInv(capacity, workerCount);
    RunKeeps(trace, acts, n - 1);
    var s, a := trace[n - 1], acts[n - 1];
    assert trace[n - 1 + 1] == Fire(s, a);
    if At(s.stage, t, Dropped) {
      j := DroppedWithoutQueue(trace, acts, n - 1, t, capacity, workerCount);
    } else {
      j := n - 1;
      DropStep(s, a, t);
    }
  }

  lemma DropStep(s: State, a: Action, t: nat)
    requires Inv(s) && Enabled(s, a) && At(Fire(s, a).stage, t, Dropped) && !At(s.stage, t, Dropped)
    ensures Raised(s, a, t)
  {
    hide Inv, Fire, Enabled, Raised;
    if t in s.stage {
      StageStep(s, a, t);
    } else {
      NewStage(s, a, t);
    }
  }

  /** A new ticket is to be put or dispatched directly. */
  lemma NewStage(s: State, a: Action, t: nat)
    requires Inv(s) && Enabled(s, a) && t !in s.stage && t in Fire(s, a).stage
    ensures a.Publish? && Fire(s, a).stage[t] == if TakesQueue(s, a) then Waiting else Direct
  {
    StepKeeps(s, a);
    JobsFrame(s, a);
    hide Sized, AllInOrder, DispatchedOnce, Held, Owned, Balanced, SubLogs;
    assert t < |Fire(s, a).jobs| && t >= |s.jobs|;
    if a.Publish? {
      var n := |Handlers(s, a.topic)|;
      StagedAt(s.stage, |s.jobs|, n, Waiting, t);
      StagedAt(s.stage, |s.jobs|, n, Direct, t);
    }
  }

  /** A publish call that does not take the queue makes a task for every handler, known to `drain` and `stop`. */
  lemma DirectPublish(s: State, a: Action, t: nat)
    requires Inv(s) && Enabled(s, a) && a.Publish? && !TakesQueue(s, a)
    ensures |s.jobs| <= t < |Fire(s, a).jobs| ==> At(Fire(s, a).stage, t, Direct) && t in Fire(s, a).tasks
    ensures Fire(s, a).queues == s.queues && s.tasks <= Fire(s, a).tasks && Fire(s, a).calls == s.calls
  {
    hide Inv;
    var n := |Handlers(s, a.topic)|;
    StagedAt(s.stage, |s.jobs|, n, Direct, t);
    RangeMember(|s.jobs|, n, t);
  }

  // ---- What drain finds ----

  lemma DrainStays(s: State, a: Action, d: nat)
    requires Enabled(s, a) && d in s.drains
    ensures d in Fire(s, a).drains && SameCall(Fire(s, a).drains[d], s.drains[d])
    ensures Fire(s, a).stopCount == s.stopCount + if a.BeginStop? && s.started then 1 else 0
  {
    hide FireStart, FirePublish, FirePut, FireTake, FireStop, FireJoined, Release, Tail, Alive, WithProgress, SameNews;
    match a
    case Publish(_, _, _, _) =>
    case PutNext(_) =>
    case BeginStop(k) =>
    case BeginDrain(_) => DrainAside(s, a);
    case DrainPastQueue(_) => DrainAside(s, a);
    case DrainTasks(_) => DrainAside(s, a);
    case DrainReturns(_) => DrainAside(s, a);
    case _ => QuietAside(s, a);
  }

  /** No `stop` begins in the steps `i..n`; calls on a bus that is not started return at once. */
  predicate NoStop(trace: seq<State>, acts: seq<Action>, i: nat, n: nat)
    requires |trace| == |acts| + 1 && n < |trace|
  {
    forall j :: i <= j < n && acts[j].BeginStop? ==> !trace[j].started
  }

  lemma DrainNew(s: State, d: nat)
    requires Enabled(s, BeginDrain(d))
    ensures
      var t := Fire(s, BeginDrain(d));
      && d in t.drains && SameCall(t.drains[d], Drain(Alive(s), s.stops == map[], s.stopCount, Returned))
      && t.stopCount == s.stopCount
  {
  }

  lemma {:induction false} DrainKept(trace: seq<State>, acts: seq<Action>, i: nat, n: nat, d: nat)
    requires IsRun(trace, acts) && i < n < |trace| && acts[i] == BeginDrain(d) && NoStop(trace, acts, i, n)
    ensures
      var s, x := trace[n], trace[i];
      && d in s.drains && SameCall(s.drains[d], Drain(Alive(x), x.stops == map[], x.stopCount, Returned))
      && s.stopCount == x.stopCount
  {
    hide Fire, Enabled, Alive;
    assert trace[n - 1 + 1] == Fire(trace[n - 1], acts[n - 1]);
    if i + 1 == n {
      DrainNew(trace[i], d);
    } else {
      DrainKept(trace, acts, i, n - 1, d);
      DrainStays(trace[n - 1], acts[n - 1], d);
    }
  }

  /** The dispatch of the ticket is under way or the current queue holds it. */
  predicate Pending(s: State, t: nat) {
    t in s.stage && (s.stage[t].Running? || s.stage[t].Direct? ||
                     (s.stage[t].Queued? && s.current == Some(s.stage[t].queue)))
  }

  /**
    What `drain` promises its caller, in a proper run: call it at step `i` while no `stop` is under
    way, and let none begin until it has returned; then the handler of every ticket that was in the
    queue, with a worker or dispatched directly at step `i` has returned, raised or been cancelled.
   */
  lemma DrainDelivers(
    trace: seq<State>, acts: seq<Action>, i: nat, n: nat, d: nat, t: nat, capacity: nat, workerCount: nat)
    requires ProperRun(trace, acts, n) && trace[0] == Initial(capacity, workerCount) && i < n
    requires acts[i] == BeginDrain(d) && trace[i].stops == map[] && NoStop(trace, acts, i, n)
    requires d in trace[n].drains && trace[n].drains[d].progress.Returned? && Pending(trace[i], t)
    ensures Ended(trace[n].stage, t)
  {
    DrainKept(trace, acts, i, n, d);
    DrainGuarantee(trace, acts, n, d, capacity, workerCount);
    hide Fire, Enabled;
    assert t in Alive(trace[i]);
  }

  // ---- Workers ----

  /** `start` on a stopped bus: a queue, a new one and empty if there was none, and `workerCount` new workers. */
  lemma StartServes(s: State)
    requires Inv(s) && !s.started
    ensures
      var after := FireStart(s);
      && after.started && after.current.Some? && after.current.value < |after.queues|
      && |after.workers| == |s.workers| + s.workerCount && after.listed == |s.workers|
      && (forall w :: 0 <= w < |s.workers| ==> after.workers[w] == s.workers[w])
      && (forall w :: after.listed <= w < |after.workers| ==> after.workers[w].Fresh?)
      && (s.current.Some? ==> after.current == s.current && after.queues == s.queues)
      && (s.current.None? ==> after.current == Some(|s.queues|) && s.queues <= after.queues)
      && (s.current.None? ==> after.queues[|s.queues|].items == [] && after.queues[|s.queues|].unfinished == 0)
  {
    hide Placed, AllInOrder, DispatchedOnce, Held, Owned, Balanced, SubLogs;
  }

  /** In a proper run a worker whose handler has returned or raised awaits the next item of the same queue. */
  lemma WorkerSurvivesHandler(
    trace: seq<State>, acts: seq<Action>, i: nat, w: nat, raised: bool, capacity: nat, workerCount: nat)
    requires ProperRun(trace, acts, i + 1) && trace[0] == Initial(capacity, workerCount) && acts[i] == Finish(w, raised)
    ensures
      var s, after := trace[i], trace[i + 1];
      && w < |s.workers| && s.workers[w].Busy? && At(after.stage, s.workers[w].ticket, Done)
      && after.workers == s.workers[w := Getting(s.workers[w].queue)]
  {
    InitialOrder(capacity, workerCount);
    RunOrder(trace, acts, i);
    hide GoodOrder;
    HandlerReturns(trace[i], w, raised);
    hide Fire;
  }

  lemma HandlerReturns(s: State, w: nat, raised: bool)
    requires GoodOrder(s) && Enabled(s, Finish(w, raised))
    ensures
      var after := Fire(s, Finish(w, raised));
      && At(after.stage, s.workers[w].ticket, Done) && after.workers == s.workers[w := Getting(s.workers[w].queue)]
  {
    BusyCounted(s, w);
    hide GoodOrder, DoneAt, CountError, DoneWorks;
  }
}
