/**
  The in-process event bus (core/event_bus/bus.py) as a transition system. One event loop
  runs everything, so code between two awaits is one step; the steps of publishers, workers,
  and any number of `start`, `stop` and `drain` calls interleave in any order. A ticket is one
  (handler, event) pair of one publish call.

  Queues are objects: `stop` abandons the current one and the next `start` makes another, while
  workers, putters and joins stay with the queue object they were called on. Only `task_done` and
  the next `get` look up the current queue again, as the source does.
 */
module EventBus {
  import opened Prelude

  /** A handler is known by the text of its identity. */
  datatype Job = Job(handler: string, topic: string, event: nat)

  /** Where a ticket is; the queue it went through is kept while it matters. */
  datatype Stage = Waiting | Queued(queue: nat) | Running(queue: nat) | Direct | Done | Aborted | Dropped

  datatype Slot = Ticket(ticket: nat) | Sentinel

  /**
    `accepted` and `log` are the tickets put into this queue and taken from it. `stray` counts the
    items taken from here whose `task_done` went elsewhere, `foreign` the calls made here for
    items of another queue.
   */
  datatype Queue = Queue(
    items: seq<Slot>, unfinished: nat, accepted: seq<nat>, log: seq<nat>, stray: nat, foreign: nat)

  const NEW_QUEUE := Queue([], 0, [], [], 0, 0)

  /** A worker not yet scheduled, waiting for an item, with a handler, ended, or ended by an exception. */
  datatype Worker = Fresh | Getting(queue: nat) | Busy(queue: nat, ticket: nat) | Gone | Crashed

  /** A publish call with tickets `next..end` still to put; it may be blocked on a full queue. */
  datatype Call = Call(next: nat, end: nat, blocked: Option<nat>)

  /** Where a `stop` call awaits: the join, the cancelled workers `from..end`, or the direct tasks. */
  datatype Stop = Joining(queue: nat) | Gathering(from: nat, end: nat) | Finishing(tasks: set<nat>)

  /**
    A call of `drain`: awaiting the queue, then the direct tasks it found, then returned.
    `calm` and `stops` record whether a `stop` call was under way, and how many had begun.
   */
  datatype Drain = Drain(snapshot: set<nat>, calm: bool, stops: nat, progress: Progress)

  datatype Progress = AtQueue(queue: nat) | PastQueue | AtTasks(tasks: set<nat>) | Returned

  /** The worker list of the bus is `workers[listed..]`; earlier workers have been forgotten. */
  datatype State = State(
    capacity: nat, workerCount: nat, started: bool,
    topics: map<string, seq<string>>, jobs: seq<Job>, stage: map<nat, Stage>,
    queues: seq<Queue>, current: Option<nat>, workers: seq<Worker>, listed: nat,
    tasks: set<nat>, calls: map<nat, Call>, log: seq<nat>,
    stops: map<nat, Stop>, stopCount: nat, drains: map<nat, Drain>, errors: map<string, nat>)

  /** `Quit` is a handler ended by CancelledError, be it from a `stop` or of its own making. */
  datatype Action =
    | Start
    | Subscribe(topic: string, handler: string)
    | Unsubscribe(subscription: string)
    | Publish(call: nat, topic: string, event: nat, sameLoop: bool)
    | PutNext(call: nat)
    | Enter(worker: nat)
    | Take(worker: nat)
    | Finish(worker: nat, raised: bool)
    | Quit(worker: nat)
    | Cancel(worker: nat)
    | FinishDirect(ticket: nat, raised: bool)
    | QuitDirect(ticket: nat)
    | BeginStop(stop: nat)
    | JoinedOrTimedOut(stop: nat)
    | EndGather(stop: nat)
    | EndStop(stop: nat)
    | BeginDrain(drain: nat)
    | DrainPastQueue(drain: nat)
    | DrainTasks(drain: nat)
    | DrainReturns(drain: nat)

  // ---- Small functions ----

  function Tickets(q: seq<Slot>): seq<nat> {
    if q == [] then []
    else if q[0].Ticket? then [q[0].ticket] + Tickets(q[1..])
    else Tickets(q[1..])
  }

  /** A capacity of zero means no bound. */
  predicate HasRoom(items: seq<Slot>, capacity: nat) {
    capacity == 0 || |items| < capacity
  }

  function QueueAt(qs: seq<Queue>, q: nat): Queue {
    if q < |qs| then qs[q] else NEW_QUEUE
  }

  function WithQueue(qs: seq<Queue>, q: nat, x: Queue): seq<Queue> {
    if q < |qs| then qs[q := x] else qs
  }

  function Put(q: Queue, slot: Slot): Queue {
    q.(items := q.items + [slot], unfinished := q.unfinished + 1,
       accepted := if slot.Ticket? then q.accepted + [slot.ticket] else q.accepted)
  }

  /** One `put_nowait(None)` per worker; the ones that do not fit are skipped. */
  function WithSentinels(q: Queue, n: nat, capacity: nat): Queue
    decreases n
  {
    if n == 0 || !HasRoom(q.items, capacity) then q else WithSentinels(Put(q, Sentinel), n - 1, capacity)
  }

  /** Whether `task_done` on the current queue returns: there is one, and it counts something unfinished. */
  predicate DoneWorks(qs: seq<Queue>, current: Option<nat>) {
    current.Some? && QueueAt(qs, current.value).unfinished > 0
  }

  /** `task_done` for an item taken from `q`, which is called on the current queue. */
  function DoneAt(qs: seq<Queue>, current: Option<nat>, q: nat): seq<Queue> {
    if DoneWorks(qs, current) && current.value == q then
      WithQueue(qs, q, QueueAt(qs, q).(unfinished := QueueAt(qs, q).unfinished - 1))
    else
      var qs' := WithQueue(qs, q, QueueAt(qs, q).(stray := QueueAt(qs, q).stray + 1));
      if DoneWorks(qs, current) then
        var c := QueueAt(qs, current.value);
        WithQueue(qs', current.value, c.(unfinished := c.unfinished - 1, foreign := c.foreign + 1))
      else qs'
  }

  function Handlers(s: State, topic: string): seq<string> {
    if topic in s.topics then s.topics[topic] else []
  }

  /** One job for every handler subscribed when the event is published. */
  function JobsFor(handlers: seq<string>, topic: string, event: nat): seq<Job> {
    seq(|handlers|, i requires 0 <= i < |handlers| => Job(handlers[i], topic, event))
  }

  function Staged(stage: map<nat, Stage>, first: nat, n: nat, to: Stage): map<nat, Stage> {
    if n == 0 then stage else Staged(stage, first, n - 1, to)[first + n - 1 := to]
  }

  function Range(first: nat, n: nat): set<nat> {
    if n == 0 then {} else Range(first, n - 1) + {first + n - 1}
  }

  function CountError(s: State, t: nat, raised: bool): map<string, nat>
    requires t < |s.jobs|
  {
    var topic := s.jobs[t].topic;
    if !raised then s.errors
    else s.errors[topic := (if topic in s.errors then s.errors[topic] else 0) + 1]
  }

  /** Tickets accepted and not left behind in a queue that was abandoned. */
  function Alive(s: State): set<nat> {
    set t | t in s.stage &&
      (s.stage[t].Running? || s.stage[t].Direct? || s.stage[t].Done? || s.stage[t].Aborted? ||
       (s.stage[t].Queued? && s.current == Some(s.stage[t].queue)))
  }

  /** Subscriptions, jobs and error counts are untouched. */
  predicate SameNews(s: State, t: State) {
    t.topics == s.topics && t.jobs == s.jobs && t.errors == s.errors
  }

  /** Publish calls, drains and the number of stops are untouched. */
  predicate Aside(s: State, t: State) {
    t.calls == s.calls && t.drains == s.drains && t.stopCount == s.stopCount
  }

  /** The tail of `stop`: await the direct tasks there are, or return at once. */
  function Tail(s: State, k: nat): (t: State)
    ensures SameNews(s, t) && Aside(s, t) && t.stage == s.stage && t.queues == s.queues
  {
    if s.tasks == {} then s.(stops := s.stops - {k}) else s.(stops := s.stops[k := Finishing(s.tasks)])
  }

  // ---- Steps ----

  predicate Enabled(s: State, a: Action) {
    match a
    case Start => true
    case Subscribe(_, _) => true
    case Unsubscribe(_) => true
    case Publish(call, _, _, _) => s.started && call !in s.calls
    case PutNext(call) =>
      && call in s.calls && s.calls[call].next < s.calls[call].end
      && (s.calls[call].blocked.Some? ==> HasRoom(QueueAt(s.queues, s.calls[call].blocked.value).items, s.capacity))
    case Enter(w) => w < |s.workers| && s.workers[w].Fresh?
    case Take(w) => w < |s.workers| && s.workers[w].Getting? && QueueAt(s.queues, s.workers[w].queue).items != []
    case Finish(w, _) => w < |s.workers| && s.workers[w].Busy? && s.workers[w].ticket < |s.jobs|
    case Quit(w) => w < |s.workers| && s.workers[w].Busy?
    case Cancel(w) =>
      && w < |s.workers| && (s.workers[w].Fresh? || s.workers[w].Getting?)
      && exists k :: k in s.stops && s.stops[k].Gathering? && s.stops[k].from <= w < s.stops[k].end
    case FinishDirect(t, _) => t < |s.jobs| && t in s.stage && s.stage[t].Direct?
    case QuitDirect(t) => t in s.stage && s.stage[t].Direct?
    case BeginStop(k) => k !in s.stops
    case JoinedOrTimedOut(k) => k in s.stops && s.stops[k].Joining?
    case EndGather(k) =>
      && k in s.stops && s.stops[k].Gathering?
      && forall w :: s.stops[k].from <= w < s.stops[k].end && w < |s.workers| ==>
           s.workers[w].Gone? || s.workers[w].Crashed?
    case EndStop(k) =>
      && k in s.stops && s.stops[k].Finishing?
      && forall t :: t in s.stops[k].tasks ==> !(t in s.stage && s.stage[t].Direct?)
    case BeginDrain(d) => d !in s.drains
    case DrainPastQueue(d) =>
      d in s.drains && s.drains[d].progress.AtQueue? && QueueAt(s.queues, s.drains[d].progress.queue).unfinished == 0
    case DrainTasks(d) => d in s.drains && s.drains[d].progress.PastQueue?
    case DrainReturns(d) =>
      && d in s.drains && s.drains[d].progress.AtTasks?
      && forall t :: t in s.drains[d].progress.tasks ==> !(t in s.stage && s.stage[t].Direct?)
  }

  /** `start`: a no-op when started; otherwise a queue if there is none, and a new list of workers. */
  function FireStart(s: State): (t: State)
    ensures SameNews(s, t) && Aside(s, t) && t.stage == s.stage
  {
    if s.started then s
    else
      var t := s.(started := true, workers := s.workers + seq(s.workerCount, _ => Fresh), listed := |s.workers|);
      if s.current.Some? then t else t.(queues := s.queues + [NEW_QUEUE], current := Some(|s.queues|))
  }

  function FirePublish(s: State, call: nat, topic: string, event: nat, sameLoop: bool): (t: State)
    ensures t.topics == s.topics && t.errors == s.errors && t.drains == s.drains && t.stopCount == s.stopCount
    ensures t.jobs == s.jobs + JobsFor(Handlers(s, topic), topic, event)
  {
    var handlers := Handlers(s, topic);
    var first, n := |s.jobs|, |handlers|;
    if n == 0 then s
    else
      var t := s.(jobs := s.jobs + JobsFor(handlers, topic, event));
      if s.current.Some? && s.listed < |s.workers| && sameLoop then
        t.(stage := Staged(s.stage, first, n, Waiting), calls := s.calls[call := Call(first, first + n, None)])
      else t.(stage := Staged(s.stage, first, n, Direct), tasks := s.tasks + Range(first, n))
  }

  /** One turn of the publishing loop: put, block on a full queue, or raise because there is none. */
  function FirePut(s: State, call: nat): (t: State)
    requires Enabled(s, PutNext(call))
    ensures SameNews(s, t) && t.drains == s.drains && t.stopCount == s.stopCount
    ensures t.calls == if call in t.calls then s.calls[call := t.calls[call]] else s.calls - {call}
  {
    var c := s.calls[call];
    var target := if c.blocked.Some? then c.blocked else s.current;
    if target.None? then
      s.(stage := Staged(s.stage, c.next, c.end - c.next, Dropped), calls := s.calls - {call})
    else if !HasRoom(QueueAt(s.queues, target.value).items, s.capacity) then
      s.(calls := s.calls[call := c.(blocked := target)])
    else
      var q := target.value;
      s.(queues := WithQueue(s.queues, q, Put(QueueAt(s.queues, q), Ticket(c.next))),
         stage := s.stage[c.next := Queued(q)],
         calls := s.calls[call := Call(c.next + 1, c.end, None)])
  }

  /** After `task_done` a worker looks up the queue again, or dies of the exception. */
  function AfterDone(s: State, works: Worker): Worker {
    if DoneWorks(s.queues, s.current) then works else Crashed
  }

  function FireTake(s: State, w: nat): (t: State)
    requires Enabled(s, Take(w))
    ensures SameNews(s, t) && Aside(s, t)
  {
    var q := s.workers[w].queue;
    var x := QueueAt(s.queues, q);
    var rest := WithQueue(s.queues, q, x.(items := x.items[1..]));
    if x.items[0].Sentinel? then
      s.(queues := DoneAt(rest, s.current, q), workers := s.workers[w := AfterDone(s.(queues := rest), Gone)])
    else
      var t := x.items[0].ticket;
      s.(queues := WithQueue(s.queues, q, x.(items := x.items[1..], log := x.log + [t])),
         workers := s.workers[w := Busy(q, t)], stage := s.stage[t := Running(q)], log := s.log + [t])
  }

  /** A worker is done with its ticket: `task_done` on the current queue, whatever queue the item came from. */
  function Release(s: State, w: nat, to: Stage, next: Worker): (t: State)
    requires w < |s.workers| && s.workers[w].Busy?
    ensures SameNews(s, t) && Aside(s, t)
  {
    s.(queues := DoneAt(s.queues, s.current, s.workers[w].queue), workers := s.workers[w := AfterDone(s, next)],
       stage := s.stage[s.workers[w].ticket := to])
  }

  function FireStop(s: State, k: nat): (t: State)
    ensures SameNews(s, t) && t.calls == s.calls && t.drains == s.drains && t.stage == s.stage && t.queues == s.queues
    ensures t.stopCount == s.stopCount + if s.started then 1 else 0
  {
    if !s.started then s
    else
      var t := s.(started := false, stopCount := s.stopCount + 1);
      if s.current.Some? then t.(stops := s.stops[k := Joining(s.current.value)]) else Tail(t, k)
  }

  /** Sentinels for the listed workers, which are then cancelled and awaited. */
  function FireJoined(s: State, k: nat): (t: State)
    ensures SameNews(s, t) && Aside(s, t) && t.stage == s.stage
  {
    var t := s.(stops := s.stops[k := Gathering(s.listed, |s.workers|)]);
    if s.current.None? || s.listed > |s.workers| then t
    else
      var q := s.current.value;
      t.(queues := WithQueue(s.queues, q, WithSentinels(QueueAt(s.queues, q), |s.workers| - s.listed, s.capacity)))
  }

  function WithProgress(s: State, d: nat, progress: Progress): State
    requires d in s.drains
  {
    s.(drains := s.drains[d := s.drains[d].(progress := progress)])
  }

  function Fire(s: State, a: Action): State
    requires Enabled(s, a)
  {
    match a
    case Start => FireStart(s)
    case Subscribe(topic, h) =>
      if h in Handlers(s, topic) then s else s.(topics := s.topics[topic := Handlers(s, topic) + [h]])
    case Unsubscribe(id) =>
      var topic := TopicPart(id);
      if topic !in s.topics then s else s.(topics := s.topics[topic := Minus(s.topics[topic], topic, id)])
    case Publish(call, topic, event, sameLoop) => FirePublish(s, call, topic, event, sameLoop)
    case PutNext(call) => FirePut(s, call)
    case Enter(w) => s.(workers := s.workers[w := if s.current.Some? then Getting(s.current.value) else Gone])
    case Take(w) => FireTake(s, w)
    case Finish(w, raised) =>
      var next := if s.current.Some? then Getting(s.current.value) else Gone;
      Release(s, w, Done, next).(errors := CountError(s, s.workers[w].ticket, raised))
    case Quit(w) => Release(s, w, Aborted, Gone)
    case Cancel(w) => s.(workers := s.workers[w := Gone])
    case FinishDirect(t, raised) =>
      s.(stage := s.stage[t := Done], tasks := s.tasks - {t}, errors := CountError(s, t, raised))
    case QuitDirect(t) => s.(stage := s.stage[t := Aborted], tasks := s.tasks - {t})
    case BeginStop(k) => FireStop(s, k)
    case JoinedOrTimedOut(k) => FireJoined(s, k)
    case EndGather(k) => Tail(s.(listed := |s.workers|, current := None), k)
    case EndStop(k) => s.(tasks := {}, stops := s.stops - {k})
    case BeginDrain(d) =>
      var progress := if s.current.Some? then AtQueue(s.current.value) else PastQueue;
      s.(drains := s.drains[d := Drain(Alive(s), s.stops == map[], s.stopCount, progress)])
    case DrainPastQueue(d) => WithProgress(s, d, PastQueue)
    case DrainTasks(d) => WithProgress(s, d, if s.tasks == {} then Returned else AtTasks(s.tasks))
    case DrainReturns(d) => WithProgress(s, d, Returned)
  }

  function SubscriptionId(topic: string, handler: string): string {
    topic + ":" + handler
  }

  /** `split(":", 1)[0]`: everything before the first colon. */
  function TopicPart(id: string): string {
    if id == [] || id[0] == ':' then [] else [id[0]] + TopicPart(id[1..])
  }

  /** The handlers of `topic` but the one subscribed under `id`. */
  function Minus(hs: seq<string>, topic: string, id: string): seq<string> {
    if hs == [] then []
    else if SubscriptionId(topic, hs[0]) == id then hs[1..]
    else [hs[0]] + Minus(hs[1..], topic, id)
  }

  function Initial(capacity: nat, workerCount: nat): State {
    State(capacity, workerCount, false, map[], [], map[], [], None, [], 0, {}, map[], [], map[], 0, map[], map[])
  }
}
