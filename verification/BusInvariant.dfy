/**
  What every interleaving of the event bus keeps, whatever `start` and `stop` calls overlap:
  queues stay within capacity and in order, no ticket is dispatched twice, and the books of
  every queue balance once calls of `task_done` that went astray are counted.
 */
module BusInvariant {
  import opened Prelude
  import opened EventBus

  // ---- The invariant ----

  predicate At(stage: map<nat, Stage>, t: nat, x: Stage) {
    t in stage && stage[t] == x
  }

  predicate InRange(q: Option<nat>, n: nat) {
    q.Some? ==> q.value < n
  }

  /** Every queue that is referred to exists. */
  ghost predicate Sized(queues: seq<Queue>, current: Option<nat>, workers: seq<Worker>, calls: map<nat, Call>) {
    && InRange(current, |queues|)
    && (forall w :: 0 <= w < |workers| && workers[w].Getting? ==> workers[w].queue < |queues|)
    && (forall w :: 0 <= w < |workers| && workers[w].Busy? ==> workers[w].queue < |queues|)
    && (forall c :: c in calls ==> InRange(calls[c].blocked, |queues|))
  }

  /** Each queue holds exactly the tickets queued there, once each. */
  ghost predicate Placed(count: nat, stage: map<nat, Stage>, queues: seq<Queue>) {
    && (forall t :: t in stage <==> 0 <= t < count)
    && (forall t :: t in stage && stage[t].Queued? ==> stage[t].queue < |queues|)
    && (forall q :: 0 <= q < |queues| ==> Holds(stage, q, Tickets(queues[q].items)))
  }

  ghost predicate Holds(stage: map<nat, Stage>, q: nat, queued: seq<nat>) {
    Distinct(queued) && forall t :: t in queued <==> At(stage, t, Queued(q))
  }

  /** The tickets taken from a queue and those in it are the accepted ones, in order, and it is within capacity. */
  predicate InOrder(q: Queue, capacity: nat) {
    q.accepted == q.log + Tickets(q.items) && (capacity > 0 ==> |q.items| <= capacity)
  }

  predicate AllInOrder(queues: seq<Queue>, capacity: nat) {
    forall q :: 0 <= q < |queues| ==> InOrder(queues[q], capacity)
  }

  predicate Taken(x: Stage) {
    x.Running? || x.Done? || x.Aborted?
  }

  /** No ticket is dispatched twice, in the whole life of the bus. */
  ghost predicate DispatchedOnce(stage: map<nat, Stage>, log: seq<nat>) {
    Distinct(log) && forall t :: t in log ==> t in stage && Taken(stage[t])
  }

  /** The running tickets are those that workers hold, one each. */
  ghost predicate Held(stage: map<nat, Stage>, workers: seq<Worker>) {
    && (forall w :: 0 <= w < |workers| && workers[w].Busy? ==> At(stage, workers[w].ticket, Running(workers[w].queue)))
    && (forall v, w :: 0 <= v < w < |workers| && workers[v].Busy? && workers[w].Busy? ==>
          workers[v].ticket != workers[w].ticket)
    && (forall t :: t in stage && stage[t].Running? ==> HeldBy(workers, t))
  }

  ghost predicate HeldBy(workers: seq<Worker>, t: nat) {
    exists w :: 0 <= w < |workers| && workers[w].Busy? && workers[w].ticket == t
  }

  predicate Awaits(calls: map<nat, Call>, c: nat, t: nat) {
    c in calls && calls[c].next <= t < calls[c].end
  }

  ghost predicate Awaited(calls: map<nat, Call>, t: nat) {
    exists c :: Awaits(calls, c, t)
  }

  /** The waiting tickets are exactly those that publish calls have yet to put, each that of one call alone. */
  ghost predicate Owned(stage: map<nat, Stage>, calls: map<nat, Call>) {
    && (forall c, t :: Awaits(calls, c, t) ==> At(stage, t, Waiting))
    && (forall c, d, t :: Awaits(calls, c, t) && Awaits(calls, d, t) ==> c == d)
    && (forall t :: At(stage, t, Waiting) ==> Awaited(calls, t))
  }

  /** What any queue has handed out is in the log of the bus. */
  ghost predicate SubLogs(queues: seq<Queue>, log: seq<nat>) {
    forall q, t :: 0 <= q < |queues| && t in queues[q].log ==> t in log
  }

  predicate BusyWith(x: Worker, q: nat) {
    x.Busy? && x.queue == q
  }

  function BusyFrom(ws: seq<Worker>, q: nat): nat {
    if ws == [] then 0 else (if BusyWith(ws[0], q) then 1 else 0) + BusyFrom(ws[1..], q)
  }

  /** The books of one queue with `busy` of its items in flight; `owed` calls of `task_done` are still to come. */
  predicate Even(q: Queue, busy: nat, owed: nat) {
    q.unfinished + q.foreign == |q.items| + busy + q.stray + owed
  }

  ghost predicate Balanced(queues: seq<Queue>, workers: seq<Worker>) {
    forall q :: 0 <= q < |queues| ==> Even(queues[q], BusyFrom(workers, q), 0)
  }

  ghost predicate Inv(s: State) {
    && Sized(s.queues, s.current, s.workers, s.calls) && Placed(|s.jobs|, s.stage, s.queues)
    && AllInOrder(s.queues, s.capacity) && DispatchedOnce(s.stage, s.log)
    && Held(s.stage, s.workers) && Owned(s.stage, s.calls) && Balanced(s.queues, s.workers)
    && SubLogs(s.queues, s.log)
  }

  // ---- Lemmas on the small functions ----

  lemma {:induction false} TicketsConcat(a: seq<Slot>, b: seq<Slot>)
    ensures Tickets(a + b) == Tickets(a) + Tickets(b)
  {
    if a == [] {
      assert a + b == b;
    } else {
      TicketsConcat(a[1..], b);
      assert (a + b)[1..] == a[1..] + b;
    }
  }

  lemma TicketsPut(q: seq<Slot>, x: Slot)
    ensures Tickets(q + [x]) == if x.Ticket? then Tickets(q) + [x.ticket] else Tickets(q)
  {
    TicketsConcat(q, [x]);
    assert [x][1..] == [];
  }

  lemma {:induction false} BusyUpdate(ws: seq<Worker>, w: nat, x: Worker, q: nat)
    requires w < |ws|
    ensures BusyFrom(ws[w := x], q) ==
            BusyFrom(ws, q) - (if BusyWith(ws[w], q) then 1 else 0) + (if BusyWith(x, q) then 1 else 0)
  {
    if w == 0 {
      assert ws[w := x][1..] == ws[1..];
    } else {
      BusyUpdate(ws[1..], w - 1, x, q);
      assert ws[w := x][1..] == ws[1..][w - 1 := x];
    }
  }

  lemma {:induction false} BusyPositive(ws: seq<Worker>, w: nat)
    requires w < |ws| && ws[w].Busy?
    ensures BusyFrom(ws, ws[w].queue) > 0
  {
    if w > 0 {
      BusyPositive(ws[1..], w - 1);
    }
  }

  lemma {:induction false} NoneBusy(ws: seq<Worker>, q: nat)
    requires forall w :: 0 <= w < |ws| ==> !BusyWith(ws[w], q)
    ensures BusyFrom(ws, q) == 0
  {
    if ws != [] {
      NoneBusy(ws[1..], q);
    }
  }

  lemma {:induction false} BusyJoin(ws: seq<Worker>, vs: seq<Worker>, q: nat)
    requires forall w :: 0 <= w < |vs| ==> !vs[w].Busy?
    ensures BusyFrom(ws + vs, q) == BusyFrom(ws, q)
  {
    if ws == [] {
      assert ws + vs == vs;
      NoneBusy(vs, q);
    } else {
      BusyJoin(ws[1..], vs, q);
      assert (ws + vs)[1..] == ws[1..] + vs;
    }
  }

  /** Replacing a worker that holds nothing by one that holds nothing changes no count. */
  lemma IdleSwap(queues: seq<Queue>, ws: seq<Worker>, w: nat, x: Worker)
    requires w < |ws| && !ws[w].Busy? && !x.Busy? && Balanced(queues, ws)
    ensures Balanced(queues, ws[w := x])
  {
    forall q | 0 <= q < |queues|
      ensures Even(queues[q], BusyFrom(ws[w := x], q), 0)
    {
      BusyUpdate(ws, w, x, q);
    }
  }

  lemma {:induction false} SentinelsOnly(q: Queue, n: nat, capacity: nat)
    requires InOrder(q, capacity)
    ensures
      var r := WithSentinels(q, n, capacity);
      && Tickets(r.items) == Tickets(q.items) && InOrder(r, capacity)
      && r.log == q.log && r.accepted == q.accepted && r.stray == q.stray && r.foreign == q.foreign
      && forall busy, owed :: Even(q, busy, owed) ==> Even(r, busy, owed)
    decreases n
  {
    if n > 0 && HasRoom(q.items, capacity) {
      TicketsPut(q.items, Sentinel);
      SentinelsOnly(Put(q, Sentinel), n - 1, capacity);
    }
  }

  lemma {:induction false} StagedAt(stage: map<nat, Stage>, first: nat, n: nat, to: Stage, t: nat)
    ensures t in Staged(stage, first, n, to) <==> t in stage || first <= t < first + n
    ensures t in Staged(stage, first, n, to) ==>
              Staged(stage, first, n, to)[t] == if first <= t < first + n then to else stage[t]
  {
    if n > 0 {
      StagedAt(stage, first, n - 1, to, t);
    }
  }

  lemma {:induction false} RangeMember(first: nat, n: nat, t: nat)
    ensures t in Range(first, n) <==> first <= t < first + n
  {
    if n > 0 {
      RangeMember(first, n - 1, t);
    }
  }

  // ---- Calling task_done ----

  /** The books are even but for one call owed for an item of `q`. */
  ghost predicate Owing(queues: seq<Queue>, workers: seq<Worker>, q: nat) {
    forall p :: 0 <= p < |queues| ==> Even(queues[p], BusyFrom(workers, p), if p == q then 1 else 0)
  }

  /** Wherever the call goes, it settles the debt. */
  lemma DoneBalances(queues: seq<Queue>, current: Option<nat>, workers: seq<Worker>, q: nat)
    requires InRange(current, |queues|) && q < |queues| && Owing(queues, workers, q)
    ensures Balanced(DoneAt(queues, current, q), workers)
  {
    hide BusyFrom;
  }

  /** A call of `task_done` touches counts only. */
  lemma DoneKeeps(queues: seq<Queue>, current: Option<nat>, q: nat)
    ensures
      var after := DoneAt(queues, current, q);
      && |after| == |queues|
      && forall p :: 0 <= p < |queues| ==>
           after[p].items == queues[p].items && after[p].accepted == queues[p].accepted && after[p].log == queues[p].log
  {
  }

  // ---- How one change of stage affects each part ----

  lemma HeldMoved(stage: map<nat, Stage>, workers: seq<Worker>, t: nat, x: Stage)
    requires Held(stage, workers) && !x.Running? && (t in stage ==> !stage[t].Running?)
    ensures Held(stage[t := x], workers)
  {
    var stage' := stage[t := x];
    forall w | 0 <= w < |workers| && workers[w].Busy?
      ensures At(stage', workers[w].ticket, Running(workers[w].queue))
    {
      assert At(stage, workers[w].ticket, Running(workers[w].queue));
    }
    forall u | u in stage' && stage'[u].Running?
      ensures HeldBy(workers, u)
    {
      assert u in stage && stage[u].Running?;
    }
  }

  lemma OwnedMoved(stage: map<nat, Stage>, calls: map<nat, Call>, t: nat, x: Stage)
    requires Owned(stage, calls) && !At(stage, t, Waiting) && !x.Waiting?
    ensures Owned(stage[t := x], calls)
  {
    forall c, u | Awaits(calls, c, u)
      ensures At(stage[t := x], u, Waiting)
    {
      assert At(stage, u, Waiting);
    }
    forall u | At(stage[t := x], u, Waiting)
      ensures Awaited(calls, u)
    {
      assert At(stage, u, Waiting);
    }
  }

  /** Moving a ticket that is and stays outside the queues. */
  lemma PlacedMoved(count: nat, stage: map<nat, Stage>, queues: seq<Queue>, t: nat, x: Stage)
    requires Placed(count, stage, queues) && t in stage && !stage[t].Queued? && !x.Queued?
    ensures Placed(count, stage[t := x], queues)
  {
    var stage' := stage[t := x];
    forall q | 0 <= q < |queues|
      ensures Holds(stage', q, Tickets(queues[q].items))
    {
      assert Holds(stage, q, Tickets(queues[q].items));
      forall u
        ensures At(stage', u, Queued(q)) <==> At(stage, u, Queued(q))
      {
      }
    }
  }

  /** Only what is in the queues matters to where tickets are. */
  lemma PlacedSame(count: nat, stage: map<nat, Stage>, queues: seq<Queue>, queues': seq<Queue>)
    requires Placed(count, stage, queues) && |queues'| == |queues|
    requires forall q :: 0 <= q < |queues| ==> Tickets(queues'[q].items) == Tickets(queues[q].items)
    ensures Placed(count, stage, queues')
  {
    forall q | 0 <= q < |queues'|
      ensures Holds(stage, q, Tickets(queues'[q].items))
    {
      assert Holds(stage, q, Tickets(queues[q].items));
    }
  }

  // ---- Every step keeps the invariant ----

  /** Nothing the invariant speaks of has changed, except that the bus may have let go of its queue. */
  lemma FrameKeeps(s: State, t: State)
    requires Inv(s)
    requires t.queues == s.queues && t.workers == s.workers && t.calls == s.calls && t.stage == s.stage
    requires t.jobs == s.jobs && t.log == s.log && t.capacity == s.capacity
    requires t.current == s.current || t.current == None
    ensures Inv(t)
  {
    hide Placed, AllInOrder, DispatchedOnce, Held, Owned, Balanced, SubLogs;
  }

  lemma StartKeeps(s: State)
    requires Inv(s)
    ensures Inv(FireStart(s))
  {
    hide DispatchedOnce, Owned, Held, Placed, AllInOrder, Balanced, SubLogs;
    if !s.started {
      var newcomers := seq(s.workerCount, _ => Fresh);
      StartHeld(s, newcomers);
      StartBalanced(s, newcomers);
      StartPlaced(s);
      StartSized(s, newcomers);
      hide Sized;
    }
  }

  lemma StartSized(s: State, newcomers: seq<Worker>)
    requires Inv(s) && forall w :: 0 <= w < |newcomers| ==> newcomers[w] == Fresh
    ensures Sized(s.queues, s.current, s.workers + newcomers, s.calls)
    ensures Sized(s.queues + [NEW_QUEUE], Some(|s.queues|), s.workers + newcomers, s.calls)
  {
    hide DispatchedOnce, Owned, Held, Placed, AllInOrder, Balanced, SubLogs;
    var workers := s.workers + newcomers;
    assert forall w :: 0 <= w < |workers| ==> workers[w] == if w < |s.workers| then s.workers[w] else Fresh;
  }

  lemma StartHeld(s: State, newcomers: seq<Worker>)
    requires Inv(s) && forall w :: 0 <= w < |newcomers| ==> newcomers[w] == Fresh
    ensures Held(s.stage, s.workers + newcomers)
  {
    hide DispatchedOnce, Owned, Placed, AllInOrder, Balanced, Sized;
    var workers := s.workers + newcomers;
    assert forall w :: 0 <= w < |workers| ==> workers[w] == if w < |s.workers| then s.workers[w] else Fresh;
    forall u | u in s.stage && s.stage[u].Running?
      ensures HeldBy(workers, u)
    {
      var w :| 0 <= w < |s.workers| && s.workers[w].Busy? && s.workers[w].ticket == u;
      assert workers[w].Busy? && workers[w].ticket == u;
    }
  }

  lemma StartPlaced(s: State)
    requires Inv(s)
    ensures Placed(|s.jobs|, s.stage, s.queues + [NEW_QUEUE]) && AllInOrder(s.queues + [NEW_QUEUE], s.capacity)
    ensures SubLogs(s.queues + [NEW_QUEUE], s.log)
  {
    var queues := s.queues + [NEW_QUEUE];
    forall q | 0 <= q < |queues|
      ensures Holds(s.stage, q, Tickets(queues[q].items)) && InOrder(queues[q], s.capacity)
    {
      if q < |s.queues| {
        assert Holds(s.stage, q, Tickets(s.queues[q].items));
      }
    }
  }

  lemma StartBalanced(s: State, newcomers: seq<Worker>)
    requires Inv(s) && forall w :: 0 <= w < |newcomers| ==> newcomers[w] == Fresh
    ensures Balanced(s.queues, s.workers + newcomers) && Balanced(s.queues + [NEW_QUEUE], s.workers + newcomers)
  {
    var queues := s.queues + [NEW_QUEUE];
    forall q | 0 <= q < |queues|
      ensures Even(queues[q], BusyFrom(s.workers + newcomers, q), 0)
    {
      BusyJoin(s.workers, newcomers, q);
      if q == |s.queues| {
        NoneBusy(s.workers, q);
      } else {
        assert Even(s.queues[q], BusyFrom(s.workers, q), 0);
      }
    }
  }

  lemma PublishKeeps(s: State, a: Action)
    requires Inv(s) && a.Publish? && Enabled(s, a)
    ensures Inv(Fire(s, a))
  {
    hide DispatchedOnce, Held, Owned, Placed, AllInOrder, Balanced, SubLogs;
    var first, n := |s.jobs|, |Handlers(s, a.topic)|;
    if n > 0 {
      var x := if s.current.Some? && s.listed < |s.workers| && a.sameLoop then Waiting else Direct;
      NewTickets(s, first, n, x);
      if x.Waiting? {
        NewCall(s, a.call, first, n);
      } else {
        NoNewCall(s, first, n);
      }
    }
  }

  /** New tickets, waiting or direct, disturb none of the old ones. */
  lemma NewTickets(s: State, first: nat, n: nat, x: Stage)
    requires Inv(s) && first == |s.jobs| && (x.Waiting? || x.Direct?)
    ensures
      var stage := Staged(s.stage, first, n, x);
      Placed(first + n, stage, s.queues) && DispatchedOnce(stage, s.log) && Held(stage, s.workers)
  {
    hide AllInOrder, Owned, Balanced, Sized;
    var stage := Staged(s.stage, first, n, x);
    forall t: nat
      ensures t in stage <==> 0 <= t < first + n
      ensures t in s.stage ==> stage[t] == s.stage[t]
      ensures first <= t < first + n ==> stage[t] == x
    {
      StagedAt(s.stage, first, n, x, t);
    }
    forall q | 0 <= q < |s.queues|
      ensures Holds(stage, q, Tickets(s.queues[q].items))
    {
      assert Holds(s.stage, q, Tickets(s.queues[q].items));
      forall t
        ensures At(stage, t, Queued(q)) <==> At(s.stage, t, Queued(q))
      {
      }
    }
    forall w | 0 <= w < |s.workers| && s.workers[w].Busy?
      ensures At(stage, s.workers[w].ticket, Running(s.workers[w].queue))
    {
      assert At(s.stage, s.workers[w].ticket, Running(s.workers[w].queue));
    }
  }

  lemma NewCall(s: State, call: nat, first: nat, n: nat)
    requires Inv(s) && first == |s.jobs| && call !in s.calls
    ensures Owned(Staged(s.stage, first, n, Waiting), s.calls[call := Call(first, first + n, None)])
  {
    hide AllInOrder, Balanced, Sized, Held, DispatchedOnce;
    var stage, calls := Staged(s.stage, first, n, Waiting), s.calls[call := Call(first, first + n, None)];
    forall c, t: nat | Awaits(calls, c, t)
      ensures At(stage, t, Waiting) && (c == call <==> t >= first)
    {
      StagedAt(s.stage, first, n, Waiting, t);
      if c != call {
        assert Awaits(s.calls, c, t);
      }
    }
    forall c, d, t | Awaits(calls, c, t) && Awaits(calls, d, t)
      ensures c == d
    {
      if c != call && d != call {
        assert Awaits(s.calls, c, t) && Awaits(s.calls, d, t);
      }
    }
    forall t: nat | At(stage, t, Waiting)
      ensures Awaited(calls, t)
    {
      StagedAt(s.stage, first, n, Waiting, t);
      if t >= first {
        assert Awaits(calls, call, t);
      } else {
        assert At(s.stage, t, Waiting);
        var c :| Awaits(s.calls, c, t);
        assert Awaits(calls, c, t);
      }
    }
  }

  lemma NoNewCall(s: State, first: nat, n: nat)
    requires Inv(s) && first == |s.jobs|
    ensures Owned(Staged(s.stage, first, n, Direct), s.calls)
  {
    forall c, t | Awaits(s.calls, c, t)
      ensures At(Staged(s.stage, first, n, Direct), t, Waiting)
    {
      assert At(s.stage, t, Waiting);
      StagedAt(s.stage, first, n, Direct, t);
    }
    forall t | At(Staged(s.stage, first, n, Direct), t, Waiting)
      ensures Awaited(s.calls, t)
    {
      StagedAt(s.stage, first, n, Direct, t);
      assert At(s.stage, t, Waiting);
    }
  }

  lemma PutNextKeeps(s: State, call: nat)
    requires Inv(s) && Enabled(s, PutNext(call))
    ensures Inv(FirePut(s, call))
  {
    hide Placed, AllInOrder, DispatchedOnce, Held, Owned, Balanced, SubLogs;
    var c := s.calls[call];
    var target := if c.blocked.Some? then c.blocked else s.current;
    if target.None? {
      DropKeeps(s, call);
    } else if !HasRoom(QueueAt(s.queues, target.value).items, s.capacity) {
      BlockKeeps(s, call, target);
    } else {
      PutKeeps(s, call, target.value);
    }
  }

  lemma BlockKeeps(s: State, call: nat, target: Option<nat>)
    requires Inv(s) && call in s.calls && InRange(target, |s.queues|)
    ensures Inv(s.(calls := s.calls[call := s.calls[call].(blocked := target)]))
  {
    BlockOwned(s.stage, s.calls, call, target);
    hide Placed, AllInOrder, DispatchedOnce, Held, Owned, Balanced, SubLogs;
  }

  lemma BlockOwned(stage: map<nat, Stage>, calls: map<nat, Call>, call: nat, target: Option<nat>)
    requires Owned(stage, calls) && call in calls
    ensures Owned(stage, calls[call := calls[call].(blocked := target)])
  {
    var calls' := calls[call := calls[call].(blocked := target)];
    assert forall c, t :: Awaits(calls', c, t) <==> Awaits(calls, c, t);
    forall t: nat | At(stage, t, Waiting)
      ensures Awaited(calls', t)
    {
      var c :| Awaits(calls, c, t);
      assert Awaits(calls', c, t);
    }
  }

  /** Publishing to a bus that has lost its queue raises, and the rest of the call is dropped. */
  lemma DropKeeps(s: State, call: nat)
    requires Inv(s) && Enabled(s, PutNext(call)) && s.calls[call].blocked.None? && s.current.None?
    ensures Inv(FirePut(s, call))
  {
    var c, t := s.calls[call], FirePut(s, call);
    forall u: nat
      ensures u in t.stage <==> u in s.stage
      ensures u in s.stage ==> t.stage[u] == if c.next <= u < c.end then Dropped else s.stage[u]
      ensures c.next <= u < c.end ==> At(s.stage, u, Waiting)
    {
      StagedAt(s.stage, c.next, c.end - c.next, Dropped, u);
      if c.next <= u < c.end {
        assert Awaits(s.calls, call, u);
      }
    }
    DropParts(s, t, call);
  }

  lemma DropParts(s: State, t: State, call: nat)
    requires Inv(s) && call in s.calls && t == s.(stage := t.stage, calls := s.calls - {call})
    requires forall u :: u in t.stage <==> u in s.stage
    requires forall u :: u in s.stage && !Awaits(s.calls, call, u) ==> t.stage[u] == s.stage[u]
    requires forall u :: Awaits(s.calls, call, u) ==> At(s.stage, u, Waiting) && At(t.stage, u, Dropped)
    ensures Inv(t)
  {
    hide AllInOrder, Balanced;
    forall q | 0 <= q < |s.queues|
      ensures Holds(t.stage, q, Tickets(s.queues[q].items))
    {
      assert Holds(s.stage, q, Tickets(s.queues[q].items));
      forall u
        ensures At(t.stage, u, Queued(q)) <==> At(s.stage, u, Queued(q))
      {
      }
    }
    forall w | 0 <= w < |s.workers| && s.workers[w].Busy?
      ensures At(t.stage, s.workers[w].ticket, Running(s.workers[w].queue))
    {
      assert At(s.stage, s.workers[w].ticket, Running(s.workers[w].queue));
    }
    forall d, u | Awaits(t.calls, d, u)
      ensures At(t.stage, u, Waiting)
    {
      assert Awaits(s.calls, d, u);
    }
    forall d, e, u | Awaits(t.calls, d, u) && Awaits(t.calls, e, u)
      ensures d == e
    {
      assert Awaits(s.calls, d, u) && Awaits(s.calls, e, u);
    }
    forall u | At(t.stage, u, Waiting)
      ensures Awaited(t.calls, u)
    {
      assert At(s.stage, u, Waiting);
      var c :| Awaits(s.calls, c, u);
      assert Awaits(t.calls, c, u);
    }
  }

  lemma PutKeeps(s: State, call: nat, q: nat)
    requires Inv(s) && call in s.calls && s.calls[call].next < s.calls[call].end
    requires q < |s.queues| && HasRoom(s.queues[q].items, s.capacity)
    ensures
      var c := s.calls[call];
      Inv(s.(queues := WithQueue(s.queues, q, Put(s.queues[q], Ticket(c.next))),
             stage := s.stage[c.next := Queued(q)], calls := s.calls[call := Call(c.next + 1, c.end, None)]))
  {
    var t := s.calls[call].next;
    assert Awaits(s.calls, call, t) && At(s.stage, t, Waiting);
    TicketsPut(s.queues[q].items, Ticket(t));
    PutPlaced(s, q, t);
    PutOwned(s, call, q);
    PutBooks(s, q, t);
    hide Placed, Owned, Held, AllInOrder, Balanced;
    HeldMoved(s.stage, s.workers, t, Queued(q));
  }

  lemma PutBooks(s: State, q: nat, t: nat)
    requires Inv(s) && q < |s.queues| && HasRoom(s.queues[q].items, s.capacity)
    ensures
      var queues := s.queues[q := Put(s.queues[q], Ticket(t))];
      AllInOrder(queues, s.capacity) && Balanced(queues, s.workers) && SubLogs(queues, s.log)
  {
    hide Placed, Owned, Held, DispatchedOnce, Sized;
    TicketsPut(s.queues[q].items, Ticket(t));
  }

  lemma PutPlaced(s: State, q: nat, t: nat)
    requires Inv(s) && At(s.stage, t, Waiting) && q < |s.queues|
    ensures Placed(|s.jobs|, s.stage[t := Queued(q)], s.queues[q := Put(s.queues[q], Ticket(t))])
  {
    hide Owned, Held, DispatchedOnce, Sized, AllInOrder, Balanced;
    var stage, queues := s.stage[t := Queued(q)], s.queues[q := Put(s.queues[q], Ticket(t))];
    TicketsPut(s.queues[q].items, Ticket(t));
    forall p | 0 <= p < |queues|
      ensures Holds(stage, p, Tickets(queues[p].items))
    {
      var old', new' := Tickets(s.queues[p].items), Tickets(queues[p].items);
      assert Holds(s.stage, p, old') && t !in old';
      forall u
        ensures u in new' <==> At(stage, u, Queued(p))
      {
        assert u in old' <==> At(s.stage, u, Queued(p));
        assert u in new' <==> u in old' || (p == q && u == t);
      }
    }
  }

  lemma PutOwned(s: State, call: nat, q: nat)
    requires Inv(s) && call in s.calls && s.calls[call].next < s.calls[call].end
    ensures
      var c := s.calls[call];
      Owned(s.stage[c.next := Queued(q)], s.calls[call := Call(c.next + 1, c.end, None)])
  {
    hide Placed, Held, DispatchedOnce, Sized, AllInOrder, Balanced;
    var t := s.calls[call].next;
    var calls := s.calls[call := Call(t + 1, s.calls[call].end, None)];
    assert Awaits(s.calls, call, t);
    forall c, u | Awaits(calls, c, u)
      ensures Awaits(s.calls, c, u) && u != t
    {
      assert Awaits(s.calls, c, u);
      assert u == t ==> c == call;
    }
    forall u | At(s.stage[t := Queued(q)], u, Waiting)
      ensures Awaited(calls, u)
    {
      assert At(s.stage, u, Waiting);
      var c :| Awaits(s.calls, c, u);
      assert Awaits(calls, c, u);
    }
  }

  lemma IdleHeld(stage: map<nat, Stage>, workers: seq<Worker>, w: nat, x: Worker)
    requires Held(stage, workers) && w < |workers| && !workers[w].Busy? && !x.Busy?
    ensures Held(stage, workers[w := x])
  {
    var after := workers[w := x];
    forall u | u in stage && stage[u].Running?
      ensures HeldBy(after, u)
    {
      var v :| 0 <= v < |workers| && workers[v].Busy? && workers[v].ticket == u;
      assert after[v].Busy? && after[v].ticket == u;
    }
  }

  /** A worker without a ticket moves on, or ends. */
  lemma IdleKeeps(s: State, w: nat, x: Worker)
    requires Inv(s) && w < |s.workers| && !s.workers[w].Busy? && !x.Busy? && (x.Getting? ==> x.queue < |s.queues|)
    ensures Inv(s.(workers := s.workers[w := x]))
  {
    IdleSwap(s.queues, s.workers, w, x);
    IdleHeld(s.stage, s.workers, w, x);
    hide Placed, Owned, Held, AllInOrder, Balanced, DispatchedOnce;
  }

  lemma TakeKeeps(s: State, w: nat)
    requires Inv(s) && Enabled(s, Take(w))
    ensures Inv(FireTake(s, w))
  {
    var q := s.workers[w].queue;
    var x := s.queues[q];
    assert x.items == [x.items[0]] + x.items[1..];
    if x.items[0].Ticket? {
      TakeTicket(s, w, q, x.items[0].ticket);
    } else {
      TakeSentinel(s, w, q);
    }
  }

  lemma TakeSentinel(s: State, w: nat, q: nat)
    requires Inv(s) && Enabled(s, Take(w)) && s.workers[w] == Getting(q) && q < |s.queues|
    requires s.queues[q].items[0].Sentinel?
    ensures Inv(FireTake(s, w))
  {
    var x := s.queues[q];
    var rest := s.queues[q := x.(items := x.items[1..])];
    var next := AfterDone(s.(queues := rest), Gone);
    assert Tickets(x.items[1..]) == Tickets(x.items);
    IdleSwap(s.queues, s.workers, w, next);
    IdleHeld(s.stage, s.workers, w, next);
    SentinelOwing(s.queues, s.workers[w := next], q);
    DoneBalances(rest, s.current, s.workers[w := next], q);
    DoneKeeps(rest, s.current, q);
    PlacedSame(|s.jobs|, s.stage, s.queues, DoneAt(rest, s.current, q));
    hide Owned, Held, Balanced, DispatchedOnce, Placed, DoneAt;
  }

  lemma SentinelOwing(queues: seq<Queue>, workers: seq<Worker>, q: nat)
    requires Balanced(queues, workers) && q < |queues| && queues[q].items != []
    ensures Owing(queues[q := queues[q].(items := queues[q].items[1..])], workers, q)
  {
    hide BusyFrom;
  }

  lemma TakeTicket(s: State, w: nat, q: nat, t: nat)
    requires Inv(s) && Enabled(s, Take(w)) && s.workers[w] == Getting(q) && q < |s.queues|
    requires s.queues[q].items[0] == Ticket(t)
    ensures Inv(FireTake(s, w))
  {
    var x := s.queues[q];
    var queues := s.queues[q := x.(items := x.items[1..], log := x.log + [t])];
    TakePlaced(s, q, t, queues);
    TakeBooks(s, w, q, t, queues);
    TakeHeld(s, w, q, t);
    hide Placed, Owned, Held, AllInOrder, Balanced, DispatchedOnce;
    OwnedMoved(s.stage, s.calls, t, Running(q));
  }

  lemma TakePlaced(s: State, q: nat, t: nat, queues: seq<Queue>)
    requires Inv(s) && q < |s.queues| && s.queues[q].items != [] && s.queues[q].items[0] == Ticket(t)
    requires queues == s.queues[q := s.queues[q].(items := s.queues[q].items[1..], log := s.queues[q].log + [t])]
    ensures At(s.stage, t, Queued(q)) && Placed(|s.jobs|, s.stage[t := Running(q)], queues)
    ensures DispatchedOnce(s.stage[t := Running(q)], s.log + [t])
  {
    hide Owned, Held, Sized, Balanced, AllInOrder;
    var stage := s.stage[t := Running(q)];
    var queued, left := Tickets(s.queues[q].items), Tickets(s.queues[q].items[1..]);
    assert queued == [t] + left && queued[0] == t && t in queued && Holds(s.stage, q, queued);
    TailDistinct(t, left, queued);
    forall p | 0 <= p < |queues|
      ensures Holds(stage, p, Tickets(queues[p].items))
    {
      assert Holds(s.stage, p, Tickets(s.queues[p].items));
      forall u
        ensures u in Tickets(queues[p].items) <==> At(stage, u, Queued(p))
      {
        assert u in Tickets(s.queues[p].items) <==> At(s.stage, u, Queued(p));
        assert p == q ==> (u in queued <==> u == t || u in left);
      }
    }
    assert t !in s.log;
  }

  lemma TailDistinct(t: nat, left: seq<nat>, queued: seq<nat>)
    requires queued == [t] + left && Distinct(queued)
    ensures Distinct(left) && t !in left
  {
    forall i | 0 <= i < |left|
      ensures left[i] != t
    {
      assert queued[0] == t && queued[i + 1] == left[i];
    }
    forall i, j | 0 <= i < j < |left|
      ensures left[i] != left[j]
    {
      assert queued[i + 1] == left[i] && queued[j + 1] == left[j];
    }
  }

  lemma TakeBooks(s: State, w: nat, q: nat, t: nat, queues: seq<Queue>)
    requires Inv(s) && w < |s.workers| && s.workers[w] == Getting(q)
    requires q < |s.queues| && s.queues[q].items != [] && s.queues[q].items[0] == Ticket(t)
    requires queues == s.queues[q := s.queues[q].(items := s.queues[q].items[1..], log := s.queues[q].log + [t])]
    ensures AllInOrder(queues, s.capacity) && Balanced(queues, s.workers[w := Busy(q, t)])
    ensures SubLogs(queues, s.log + [t])
  {
    hide Owned, Held, Sized, Placed, DispatchedOnce;
    forall p | 0 <= p < |queues|
      ensures Even(queues[p], BusyFrom(s.workers[w := Busy(q, t)], p), 0) && InOrder(queues[p], s.capacity)
    {
      BusyUpdate(s.workers, w, Busy(q, t), p);
      assert Even(s.queues[p], BusyFrom(s.workers, p), 0) && InOrder(s.queues[p], s.capacity);
    }
  }

  lemma TakeHeld(s: State, w: nat, q: nat, t: nat)
    requires Inv(s) && w < |s.workers| && !s.workers[w].Busy? && At(s.stage, t, Queued(q))
    ensures Held(s.stage[t := Running(q)], s.workers[w := Busy(q, t)])
  {
    hide Owned, Sized, Placed, DispatchedOnce, AllInOrder, Balanced;
    var stage, workers := s.stage[t := Running(q)], s.workers[w := Busy(q, t)];
    forall v | 0 <= v < |workers| && workers[v].Busy?
      ensures At(stage, workers[v].ticket, Running(workers[v].queue)) && (v != w ==> workers[v].ticket != t)
    {
      if v != w {
        assert At(s.stage, s.workers[v].ticket, Running(s.workers[v].queue));
      }
    }
    forall u | u in stage && stage[u].Running?
      ensures HeldBy(workers, u)
    {
      if u == t {
        assert workers[w].Busy? && workers[w].ticket == u;
      } else {
        assert u in s.stage && s.stage[u].Running?;
        var v :| 0 <= v < |s.workers| && s.workers[v].Busy? && s.workers[v].ticket == u;
        assert workers[v].Busy? && workers[v].ticket == u;
      }
    }
  }

  /** A worker lets go of its ticket, finished or aborted. */
  lemma ReleaseHeld(stage: map<nat, Stage>, workers: seq<Worker>, w: nat, x: Stage, next: Worker)
    requires Held(stage, workers) && w < |workers| && workers[w].Busy? && !x.Running? && !next.Busy?
    ensures Held(stage[workers[w].ticket := x], workers[w := next])
  {
    var t := workers[w].ticket;
    var stage', after := stage[t := x], workers[w := next];
    forall v | 0 <= v < |after| && after[v].Busy?
      ensures v != w && after[v].ticket != t && At(stage', after[v].ticket, Running(after[v].queue))
    {
      assert v != w && after[v] == workers[v];
      assert workers[v].ticket != t;
      assert At(stage, workers[v].ticket, Running(workers[v].queue));
    }
    forall v, v' | 0 <= v < v' < |after| && after[v].Busy? && after[v'].Busy?
      ensures after[v].ticket != after[v'].ticket
    {
      assert after[v] == workers[v] && after[v'] == workers[v'];
    }
    forall u | u in stage' && stage'[u].Running?
      ensures HeldBy(after, u)
    {
      assert u in stage && stage[u].Running? && HeldBy(workers, u);
      var v :| 0 <= v < |workers| && workers[v].Busy? && workers[v].ticket == u;
      assert after[v].Busy? && after[v].ticket == u;
    }
  }

  lemma ReleaseKeeps(s: State, w: nat, to: Stage, next: Worker)
    requires Inv(s) && w < |s.workers| && s.workers[w].Busy? && (to.Done? || to.Aborted?)
    requires !next.Busy? && (next.Getting? ==> next.queue < |s.queues|)
    ensures Inv(Release(s, w, to, next))
  {
    var q, t, x := s.workers[w].queue, s.workers[w].ticket, AfterDone(s, next);
    assert At(s.stage, t, Running(q));
    ReleaseStage(s, t, to);
    ReleaseOwing(s, w, x);
    DoneBalances(s.queues, s.current, s.workers[w := x], q);
    DoneKeeps(s.queues, s.current, q);
    PlacedSame(|s.jobs|, s.stage[t := to], s.queues, DoneAt(s.queues, s.current, q));
    hide Placed, Owned, Held, Balanced, DispatchedOnce, DoneAt;
    ReleaseHeld(s.stage, s.workers, w, to, x);
    OwnedMoved(s.stage, s.calls, t, to);
  }

  lemma ReleaseOwing(s: State, w: nat, x: Worker)
    requires Inv(s) && w < |s.workers| && s.workers[w].Busy? && !x.Busy?
    ensures Owing(s.queues, s.workers[w := x], s.workers[w].queue)
  {
    forall p | 0 <= p < |s.queues|
      ensures Even(s.queues[p], BusyFrom(s.workers[w := x], p), if p == s.workers[w].queue then 1 else 0)
    {
      BusyUpdate(s.workers, w, x, p);
      assert Even(s.queues[p], BusyFrom(s.workers, p), 0);
    }
  }

  lemma ReleaseStage(s: State, t: nat, to: Stage)
    requires Inv(s) && t in s.stage && s.stage[t].Running? && (to.Done? || to.Aborted?)
    ensures Placed(|s.jobs|, s.stage[t := to], s.queues) && DispatchedOnce(s.stage[t := to], s.log)
  {
    PlacedMoved(|s.jobs|, s.stage, s.queues, t, to);
  }

  lemma DirectKeeps(s: State, t: nat, to: Stage)
    requires Inv(s) && At(s.stage, t, Direct) && (to.Done? || to.Aborted?)
    ensures Inv(s.(stage := s.stage[t := to]))
  {
    PlacedMoved(|s.jobs|, s.stage, s.queues, t, to);
    assert DispatchedOnce(s.stage[t := to], s.log);
    hide Placed, Owned, Held, Balanced, DispatchedOnce;
    HeldMoved(s.stage, s.workers, t, to);
    OwnedMoved(s.stage, s.calls, t, to);
  }

  lemma JoinedKeeps(s: State, k: nat)
    requires Inv(s)
    ensures Inv(FireJoined(s, k))
  {
    hide Owned, Held, DispatchedOnce, Placed, AllInOrder, Balanced;
    if s.current.Some? && s.listed <= |s.workers| {
      JoinedBooks(s, s.current.value, |s.workers| - s.listed);
      hide WithSentinels;
      assert Inv(FireJoined(s, k));
    } else {
      assert Inv(FireJoined(s, k));
    }
  }

  lemma JoinedBooks(s: State, q: nat, n: nat)
    requires Inv(s) && q < |s.queues|
    ensures
      var queues := s.queues[q := WithSentinels(s.queues[q], n, s.capacity)];
      && Placed(|s.jobs|, s.stage, queues) && AllInOrder(queues, s.capacity) && Balanced(queues, s.workers)
      && SubLogs(queues, s.log)
  {
    hide Owned, Held, DispatchedOnce, Sized, BusyFrom, Placed, WithSentinels;
    SentinelsOnly(s.queues[q], n, s.capacity);
    var queues := s.queues[q := WithSentinels(s.queues[q], n, s.capacity)];
    PlacedSame(|s.jobs|, s.stage, s.queues, queues);
    forall p | 0 <= p < |queues|
      ensures InOrder(queues[p], s.capacity) && Even(queues[p], BusyFrom(s.workers, p), 0)
    {
      assert InOrder(s.queues[p], s.capacity) && Even(s.queues[p], BusyFrom(s.workers, p), 0);
    }
  }

  lemma StepKeeps(s: State, a: Action)
    requires Inv(s) && Enabled(s, a)
    ensures Inv(Fire(s, a))
  {
    hide Inv, FireStart, FirePublish, FirePut, FireTake, FireStop, FireJoined, Release, Tail;
    match a
    case Start => StartKeeps(s);
    case Publish(_, _, _, _) => PublishKeeps(s, a);
    case PutNext(call) => PutNextKeeps(s, call);
    case Enter(w) => EnterKeeps(s, w);
    case Take(w) => TakeKeeps(s, w);
    case Finish(w, raised) => FinishKeeps(s, w, raised);
    case Quit(w) => ReleaseKeeps(s, w, Aborted, Gone);
    case Cancel(w) => IdleKeeps(s, w, Gone);
    case FinishDirect(_, _) => DirectStepKeeps(s, a);
    case QuitDirect(_) => DirectStepKeeps(s, a);
    case JoinedOrTimedOut(k) => JoinedKeeps(s, k);
    case Subscribe(_, _) => TopicKeeps(s, a);
    case Unsubscribe(_) => TopicKeeps(s, a);
    case BeginStop(k) => StopKeeps(s, k);
    case EndGather(k) => EndGatherKeeps(s, k);
    case EndStop(k) => EndStopKeeps(s, k);
    case _ => DrainKeeps(s, Fire(s, a).drains);
  }

  lemma EnterKeeps(s: State, w: nat)
    requires Inv(s) && Enabled(s, Enter(w))
    ensures Inv(Fire(s, Enter(w)))
  {
    IdleKeeps(s, w, if s.current.Some? then Getting(s.current.value) else Gone);
  }

  lemma TopicKeeps(s: State, a: Action)
    requires Inv(s) && (a.Subscribe? || a.Unsubscribe?)
    ensures Inv(Fire(s, a))
  {
    hide Inv, Minus, TopicPart, Handlers;
    TopicsFrame(s, Fire(s, a).topics);
  }

  lemma TopicsFrame(s: State, topics: map<string, seq<string>>)
    requires Inv(s)
    ensures Inv(s.(topics := topics))
  {
    hide Inv;
    FrameKeeps(s, s.(topics := topics));
  }

  lemma StopKeeps(s: State, k: nat)
    requires Inv(s)
    ensures Inv(FireStop(s, k))
  {
    hide Inv;
    if s.started {
      var t := s.(started := false, stopCount := s.stopCount + 1);
      FrameKeeps(s, t);
      if s.current.Some? {
        FrameKeeps(t, t.(stops := s.stops[k := Joining(s.current.value)]));
      } else {
        TailKeeps(t, k);
      }
    }
  }

  lemma TailKeeps(s: State, k: nat)
    requires Inv(s)
    ensures Inv(Tail(s, k))
  {
    hide Inv;
    if s.tasks == {} {
      FrameKeeps(s, s.(stops := s.stops - {k}));
    } else {
      FrameKeeps(s, s.(stops := s.stops[k := Finishing(s.tasks)]));
    }
  }

  lemma EndGatherKeeps(s: State, k: nat)
    requires Inv(s)
    ensures Inv(Tail(s.(listed := |s.workers|, current := None), k))
  {
    hide Inv;
    FrameKeeps(s, s.(listed := |s.workers|, current := None));
    TailKeeps(s.(listed := |s.workers|, current := None), k);
  }

  lemma EndStopKeeps(s: State, k: nat)
    requires Inv(s)
    ensures Inv(s.(tasks := {}, stops := s.stops - {k}))
  {
    hide Inv;
    FrameKeeps(s, s.(tasks := {}, stops := s.stops - {k}));
  }

  lemma DrainKeeps(s: State, drains: map<nat, Drain>)
    requires Inv(s)
    ensures Inv(s.(drains := drains))
  {
    hide Inv;
    FrameKeeps(s, s.(drains := drains));
  }

  lemma FinishKeeps(s: State, w: nat, raised: bool)
    requires Inv(s) && Enabled(s, Finish(w, raised))
    ensures Inv(Fire(s, Finish(w, raised)))
  {
    var next := if s.current.Some? then Getting(s.current.value) else Gone;
    ReleaseKeeps(s, w, Done, next);
    hide Inv, Release;
    FrameKeeps(Release(s, w, Done, next), Fire(s, Finish(w, raised)));
  }

  lemma DirectStepKeeps(s: State, a: Action)
    requires Inv(s) && (a.FinishDirect? || a.QuitDirect?) && Enabled(s, a)
    ensures Inv(Fire(s, a))
  {
    var to := if a.FinishDirect? then Done else Aborted;
    DirectKeeps(s, a.ticket, to);
    hide Inv;
    FrameKeeps(s.(stage := s.stage[a.ticket := to]), Fire(s, a));
  }

  // ---- Runs ----

  /** `trace` takes the steps `acts`, each enabled where it is taken. */
  ghost predicate IsRun(trace: seq<State>, acts: seq<Action>) {
    && |trace| == |acts| + 1
    && forall i :: 0 <= i < |acts| ==> Enabled(trace[i], acts[i]) && trace[i + 1] == Fire(trace[i], acts[i])
  }

  lemma {:induction false} RunKeeps(trace: seq<State>, acts: seq<Action>, n: nat)
    requires IsRun(trace, acts) && n < |trace| && Inv(trace[0])
    ensures Inv(trace[n])
  {
    if n > 0 {
      RunKeeps(trace, acts, n - 1);
      StepKeeps(trace[n - 1], acts[n - 1]);
    }
  }

  lemma InitialInv(capacity: nat, workerCount: nat)
    ensures Inv(Initial(capacity, workerCount))
  {
  }

  /**
    Conservation over every interleaving, overlapping `start` and `stop` calls included. From an
    idle bus, in every reachable state and for every queue there ever was: it is within its
    capacity, accepted tickets leave it in the order they came, and what it counts as unfinished is
    what is queued and in flight, corrected by the calls of `task_done` that went astray. No ticket
    is ever dispatched twice.
   */
  lemma Conservation(trace: seq<State>, acts: seq<Action>, n: nat, capacity: nat, workerCount: nat)
    requires IsRun(trace, acts) && n < |trace| && trace[0] == Initial(capacity, workerCount)
    ensures
      var s := trace[n];
      && Distinct(s.log)
      && forall q: nat :: q < |s.queues| ==>
           var x := s.queues[q];
           && (s.capacity > 0 ==> |x.items| <= s.capacity) && x.accepted == x.log + Tickets(x.items)
           && x.unfinished + x.foreign == |x.items| + BusyFrom(s.workers, q) + x.stray
  {
    InitialInv(capacity, workerCount);
    RunKeeps(trace, acts, n);
    hide Sized, Placed, Held, Owned, BusyFrom;
    forall q: nat | q < |trace[n].queues|
      ensures InOrder(trace[n].queues[q], trace[n].capacity)
      ensures Even(trace[n].queues[q], BusyFrom(trace[n].workers, q), 0)
    {
    }
  }
}
