/**
  Runs of tasks on engines (services/execution_engine/manager.py): what one attempt does to
  its task and to the engine's metrics, ordered failover, and the reconciliation of metrics
  with the runs they account for.
 */
module Failover {
  import opened Prelude
  import opened Routing
  import opened EngineModel

  // ---- Accounting ----

  /** One run that went past the health gate. */
  datatype Finished = Finished(seconds: real, success: bool)

  /** What one operation does to the runs charged to a name. */
  function Charged(runs: seq<Finished>, op: Op, name: string): seq<Finished> {
    match op
    case Record(n, seconds, success) => if n == name then runs + [Finished(seconds, success)] else runs
    case Register(n, _, setup) => if n == name && setup.Ready? then [] else runs
    case Unregister(n) => if n == name then [] else runs
    case _ => runs
  }

  /**
    The runs charged to a name since its metrics were last replaced or removed. Shutdown
    keeps metrics, and so does a registration that raises before its last step.
   */
  function Ledger(ops: seq<Op>, name: string): seq<Finished> {
    if ops == [] then [] else Charged(Ledger(ops[..|ops| - 1], name), ops[|ops| - 1], name)
  }

  function Wins(runs: seq<Finished>): (n: nat)
    ensures n <= |runs|
  {
    if runs == [] then 0 else Wins(runs[..|runs| - 1]) + if runs[|runs| - 1].success then 1 else 0
  }

  function Seconds(runs: seq<Finished>): real {
    if runs == [] then 0.0 else Seconds(runs[..|runs| - 1]) + runs[|runs| - 1].seconds
  }

  /** The metrics say exactly what the runs add up to. */
  predicate Reconciles(m: Metrics, runs: seq<Finished>) {
    && m.completed == Wins(runs) && m.failed == |runs| - Wins(runs)
    && m.cancelled == 0 && m.timedOut == 0
    && m.total == Seconds(runs) && m.average == Seconds(runs) / Max(1, |runs|) as real
  }

  lemma RecordReconciles(m: Metrics, runs: seq<Finished>, seconds: real, success: bool)
    requires Reconciles(m, runs)
    ensures Reconciles(Recorded(m, seconds, success), runs + [Finished(seconds, success)])
  {
    var runs' := runs + [Finished(seconds, success)];
    assert runs'[..|runs'| - 1] == runs;
    assert Seconds(runs') == Seconds(runs) + seconds;
  }

  /** The metrics of a name, reconciled; a name without metrics has no runs. */
  predicate InBooks(s: State, name: string, runs: seq<Finished>) {
    Reconciles(MetricsOf(s, name), runs) && (name !in s.metrics ==> runs == [])
  }

  lemma NoRuns(s: State, name: string)
    requires MetricsOf(s, name) == FRESH_METRICS
    ensures InBooks(s, name, [])
  {
  }

  lemma SameMetrics(s: State, t: State, name: string, runs: seq<Finished>)
    requires InBooks(s, name, runs) && (name in t.metrics <==> name in s.metrics)
    requires name in s.metrics ==> t.metrics[name] == s.metrics[name]
    ensures InBooks(t, name, runs)
  {
    hide Reconciles;
  }

  lemma RecordInBooks(s: State, name: string, runs: seq<Finished>, seconds: real, success: bool)
    requires InBooks(s, name, runs)
    ensures InBooks(Apply(s, Record(name, seconds, success)), name, runs + [Finished(seconds, success)])
  {
    RecordReconciles(MetricsOf(s, name), runs, seconds, success);
    hide Reconciles, Recorded;
  }

  lemma StepInBooks(s: State, op: Op, name: string, runs: seq<Finished>)
    requires InBooks(s, name, runs)
    ensures InBooks(Apply(s, op), name, Charged(runs, op, name))
  {
    hide Reconciles, Recorded, InBooks;
    var t := Apply(s, op);
    match op
    case Record(n, seconds, success) =>
      if n == name {
        RecordInBooks(s, name, runs, seconds, success);
      } else {
        SameMetrics(s, t, name, runs);
      }
    case Register(n, _, setup) =>
      if n == name && setup.Ready? {
        NoRuns(t, name);
      } else {
        SameMetrics(s, t, name, runs);
      }
    case Unregister(n) =>
      if n == name {
        NoRuns(t, name);
      } else {
        SameMetrics(s, t, name, runs);
      }
    case SetEnabled(_, _) => SameMetrics(s, t, name, runs);
    case NoteHealth(_, _) => SameMetrics(s, t, name, runs);
    case Shutdown => SameMetrics(s, t, name, runs);
  }

  /** Over any run of operations, the metrics under every name reconcile with its ledger. */
  lemma {:induction false} AccountsReconcile(ops: seq<Op>, name: string)
    ensures Reconciles(MetricsOf(Run(ops), name), Ledger(ops, name))
    ensures name !in Run(ops).metrics ==> Ledger(ops, name) == []
  {
    if ops == [] {
      NoRuns(START, name);
    } else {
      hide Apply, Reconciles;
      var k := |ops| - 1;
      AccountsReconcile(ops[..k], name);
      StepInBooks(Run(ops[..k]), ops[k], name, Ledger(ops[..k], name));
    }
  }

  // ---- One attempt ----

  datatype HealthAnswer = Healthy | Unhealthy | CheckRaises(cause: string)

  datatype ExecAnswer =
    | Returned(mock: bool, output: nat)
    | TimesOut
    | EngineRaises(message: string)
    | Crashes(message: string)

  /** How an engine behaves during one attempt; `seconds` is the measured duration, any number. */
  datatype Answer = Answer(check: HealthAnswer, exec: ExecAnswer, seconds: real)

  datatype Status = Pending | Queued | Dispatched | Running | Completed | Failed | Cancelled | TimedOut

  datatype Error =
    | UnhealthyEngine(engine: string)
    | CheckFailed(cause: string)
    | MockResult(kind: EngineType)
    | TimeoutAfter(limit: real)
    | Reported(message: string)
    | Unexpected(message: string)
    | EngineMissing(engine: string)
    | AllFailed(last: Option<Error>)

  datatype Task = Task(
    engine: string, kind: EngineType, limit: real, status: Status, error: Option<Error>,
    output: Option<nat>, seconds: real)

  /** A task as failover creates it: the type is left at its default. */
  function NewTask(engine: string): Task {
    Task(engine, Local, 600.0, Pending, None, None, 0.0)
  }

  /** A real result came back, not a mock one. */
  predicate Succeeds(a: Answer) {
    a.check.Healthy? && a.exec.Returned? && !a.exec.mock
  }

  /** The task after an attempt on `engine`; on success an old error is not cleared. */
  function Attempted(t: Task, engine: string, a: Answer): Task {
    match a.check
    case Unhealthy => t.(status := Failed, error := Some(UnhealthyEngine(engine)))
    case CheckRaises(cause) => t.(status := Failed, error := Some(CheckFailed(cause)))
    case Healthy =>
      match a.exec
      case Returned(mock, output) =>
        if mock then
          t.(status := Failed, error := Some(MockResult(t.kind)), output := Some(output), seconds := a.seconds)
        else
          t.(status := Completed, output := Some(output), seconds := a.seconds)
      case TimesOut => t.(status := TimedOut, error := Some(TimeoutAfter(t.limit)))
      case EngineRaises(message) => t.(status := Failed, error := Some(Reported(message)))
      case Crashes(message) => t.(status := Failed, error := Some(Unexpected(message)))
  }

  /** What an attempt charges to its task's engine: one run, if it got past the health gate. */
  function Charge(t: Task, engine: string, a: Answer): seq<Op> {
    if a.check.Healthy? then [Record(t.engine, Attempted(t, engine, a).seconds, Succeeds(a))] else []
  }

  /** A terminal status always results, with an error on everything but a completion. */
  lemma AttemptSettles(t: Task, engine: string, a: Answer)
    ensures
      var t' := Attempted(t, engine, a);
      && (t'.status == Completed <==> Succeeds(a))
      && t'.status in {Completed, Failed, TimedOut}
      && (t'.status != Completed ==> t'.error.Some?)
      && (t'.status == Completed ==> t'.output == Some(a.exec.output) && t'.error == t.error)
      && (t'.engine, t'.kind, t'.limit) == (t.engine, t.kind, t.limit)
  {
  }

  /** Each field of the task after each behaviour of the engine. */
  lemma AttemptMeans(t: Task, engine: string, a: Answer)
    ensures
      var t' := Attempted(t, engine, a);
      var returned := a.check.Healthy? && a.exec.Returned?;
      && t'.seconds == (if returned then a.seconds else t.seconds)
      && t'.output == (if returned then Some(a.exec.output) else t.output)
      && (t'.status == Completed <==> returned && !a.exec.mock)
      && (t'.status == TimedOut <==> a.check.Healthy? && a.exec.TimesOut?)
      && (a.check.Unhealthy? ==> t'.error == Some(UnhealthyEngine(engine)))
      && (a.check.CheckRaises? ==> t'.error == Some(CheckFailed(a.check.cause)))
      && (returned && a.exec.mock ==> t'.error == Some(MockResult(t.kind)))
      && (a.check.Healthy? && a.exec.TimesOut? ==> t'.error == Some(TimeoutAfter(t.limit)))
      && (a.check.Healthy? && a.exec.EngineRaises? ==> t'.error == Some(Reported(a.exec.message)))
      && (a.check.Healthy? && a.exec.Crashes? ==> t'.error == Some(Unexpected(a.exec.message)))
  {
  }

  /** One run is added: a completion for a real result and a failure for anything else, with its seconds. */
  predicate OneRun(m: Metrics, m': Metrics, a: Answer, seconds: real) {
    && m'.completed == m.completed + (if Succeeds(a) then 1 else 0)
    && m'.failed == m.failed + (if Succeeds(a) then 0 else 1)
    && m'.cancelled == m.cancelled && m'.timedOut == m.timedOut
    && m'.total == m.total + (if a.exec.Returned? then a.seconds else seconds)
    && m'.average * (m'.completed + m'.failed + m'.cancelled + m'.timedOut) as real == m'.total
  }

  /**
    What an attempt does to the books: exactly one run for the task's engine if the health check
    answered that it is healthy, of the seconds measured or else those the task had, and nothing
    for any other name.
   */
  predicate Accounted(s: State, s': State, task: Task, a: Answer, name: string) {
    if a.check.Healthy? && name == task.engine then
      name in s'.metrics && OneRun(MetricsOf(s, name), MetricsOf(s', name), a, task.seconds)
    else
      SameMetric(s, s', name)
  }

  lemma AttemptAccounts(s: State, t: Task, engine: string, a: Answer, name: string)
    ensures Accounted(s, RunFrom(s, Charge(t, engine, a)), t, a, name)
  {
    AttemptMeans(t, engine, a);
    if a.check.Healthy? {
      var op := Record(t.engine, Attempted(t, engine, a).seconds, Succeeds(a));
      hide Attempted;
      RunStep(s, [], op);
      assert [] + [op] == [op] && RunFrom(s, []) == s;
      hide RunFrom;
      if name == t.engine {
        RecordedRun(MetricsOf(s, name), op.seconds, op.success);
        hide Recorded;
      }
    }
  }

  lemma RecordedRun(m: Metrics, seconds: real, success: bool)
    ensures
      var m' := Recorded(m, seconds, success);
      && m'.completed == m.completed + (if success then 1 else 0)
      && m'.failed == m.failed + (if success then 0 else 1)
      && m'.cancelled == m.cancelled && m'.timedOut == m.timedOut && m'.total == m.total + seconds
      && m'.average * (m'.completed + m'.failed + m'.cancelled + m'.timedOut) as real == m'.total
  {
  }

  // ---- Failover ----

  /** Listed engines are tried only if registered and not disabled. */
  predicate Eligible(s: State, name: string) {
    name in s.kinds && (name in s.configs ==> s.configs[name].enabled)
  }

  datatype Progress = Trying(last: Option<Error>, charges: seq<Op>) | Won(task: Task, charges: seq<Op>)

  /** The failover loop after its first `n` names. */
  function Tried(s: State, names: seq<string>, answers: seq<Answer>, n: nat): Progress
    requires n <= |names| == |answers|
  {
    if n == 0 then Trying(None, [])
    else
      match Tried(s, names, answers, n - 1)
      case Won(t, c) => Won(t, c)
      case Trying(last, c) =>
        if !Eligible(s, names[n - 1]) then Trying(last, c)
        else
          var t := Attempted(NewTask(names[n - 1]), names[n - 1], answers[n - 1]);
          var c' := c + Charge(NewTask(names[n - 1]), names[n - 1], answers[n - 1]);
          if t.status == Completed then Won(t, c') else Trying(t.error, c')
  }

  function FailedTask(last: Option<Error>): Task {
    NewTask("").(status := Failed, error := Some(AllFailed(last)))
  }

  /** The task `execute_with_failover` returns. */
  function Outcome(p: Progress): Task {
    match p
    case Won(t, _) => t
    case Trying(last, _) => FailedTask(last)
  }

  predicate Winner(s: State, names: seq<string>, answers: seq<Answer>, i: nat)
    requires |names| == |answers|
  {
    i < |names| && Eligible(s, names[i]) && Succeeds(answers[i])
  }

  predicate FirstWinner(s: State, names: seq<string>, answers: seq<Answer>, i: nat)
    requires |names| == |answers|
  {
    Winner(s, names, answers, i) && forall j: nat :: j < i ==> !Winner(s, names, answers, j)
  }

  predicate LastTried(s: State, names: seq<string>, i: nat) {
    i < |names| && Eligible(s, names[i]) && forall j :: i < j < |names| ==> !Eligible(s, names[j])
  }

  /** The runs that attempts on the first `n` eligible names leave behind. */
  function Charges(s: State, names: seq<string>, answers: seq<Answer>, n: nat): seq<Op>
    requires n <= |names| == |answers|
  {
    if n == 0 then []
    else
      Charges(s, names, answers, n - 1) +
      if Eligible(s, names[n - 1]) then Charge(NewTask(names[n - 1]), names[n - 1], answers[n - 1]) else []
  }

  lemma {:induction false} StillTrying(s: State, names: seq<string>, answers: seq<Answer>, n: nat)
    requires n <= |names| == |answers|
    requires forall j: nat :: j < n ==> !Winner(s, names, answers, j)
    ensures Tried(s, names, answers, n).Trying?
    ensures Tried(s, names, answers, n).charges == Charges(s, names, answers, n)
  {
    if n > 0 {
      StillTrying(s, names, answers, n - 1);
      assert !Winner(s, names, answers, n - 1);
    }
  }

  lemma {:induction false} WonStays(s: State, names: seq<string>, answers: seq<Answer>, n: nat, m: nat)
    requires n <= m <= |names| == |answers|
    requires Tried(s, names, answers, n).Won?
    ensures Tried(s, names, answers, m) == Tried(s, names, answers, n)
  {
    if n < m {
      WonStays(s, names, answers, n, m - 1);
    }
  }

  lemma {:induction false} LastErrorKept(s: State, names: seq<string>, answers: seq<Answer>, i: nat, n: nat)
    requires i < n <= |names| == |answers|
    requires forall j: nat :: j < n ==> !Winner(s, names, answers, j)
    requires Eligible(s, names[i]) && forall j :: i < j < n ==> !Eligible(s, names[j])
    ensures Tried(s, names, answers, n).Trying?
    ensures Tried(s, names, answers, n).last == Attempted(NewTask(names[i]), names[i], answers[i]).error
  {
    StillTrying(s, names, answers, n - 1);
    if i < n - 1 {
      LastErrorKept(s, names, answers, i, n - 1);
    } else {
      assert !Winner(s, names, answers, i);
    }
  }

  lemma {:induction false} NothingTried(s: State, names: seq<string>, answers: seq<Answer>, n: nat)
    requires n <= |names| == |answers|
    requires forall j :: 0 <= j < n ==> !Eligible(s, names[j])
    ensures Tried(s, names, answers, n) == Trying(None, [])
  {
    if n > 0 {
      NothingTried(s, names, answers, n - 1);
    }
  }

  /** Failover answers with the task completed by the first listed engine that can complete it... */
  lemma FailoverWins(s: State, names: seq<string>, answers: seq<Answer>, i: nat)
    requires |names| == |answers| && FirstWinner(s, names, answers, i)
    ensures
      var p := Tried(s, names, answers, |names|);
      && Outcome(p).status == Completed && Outcome(p).engine == names[i]
      && Outcome(p).output == Some(answers[i].exec.output) && Outcome(p).error == None
      && p.charges == Charges(s, names, answers, i + 1)
  {
    StillTrying(s, names, answers, i);
    WonStays(s, names, answers, i + 1, |names|);
  }

  /** ...and otherwise fails with the error of the last engine it tried. */
  lemma FailoverFails(s: State, names: seq<string>, answers: seq<Answer>)
    requires |names| == |answers| && forall j: nat :: !Winner(s, names, answers, j)
    ensures
      var p := Tried(s, names, answers, |names|);
      && Outcome(p).status == Failed && Outcome(p).error.Some? && Outcome(p).error.value.AllFailed?
      && p.charges == Charges(s, names, answers, |names|)
      && ((forall n :: n in names ==> !Eligible(s, n)) ==> Outcome(p).error.value.last == None)
      && forall i: nat :: LastTried(s, names, i) ==>
        Outcome(p).error.value.last == Attempted(NewTask(names[i]), names[i], answers[i]).error
  {
    StillTrying(s, names, answers, |names|);
    if forall n :: n in names ==> !Eligible(s, n) {
      NothingTried(s, names, answers, |names|);
    }
    forall i: nat | LastTried(s, names, i)
      ensures Tried(s, names, answers, |names|).last == Attempted(NewTask(names[i]), names[i], answers[i]).error
    {
      LastErrorKept(s, names, answers, i, |names|);
    }
  }

  /** The engine is registered and not disabled, and comes back with a real result when it is tried. */
  predicate Completes(kinds: map<string, EngineType>, configs: map<string, Config>, name: string, a: Answer) {
    && name in kinds && !(name in configs && !configs[name].enabled)
    && a.check.Healthy? && a.exec.Returned? && !a.exec.mock
  }

  lemma {:induction false} WinnerSearch(s: State, names: seq<string>, answers: seq<Answer>, n: nat) returns (i: nat)
    requires n <= |names| == |answers|
    ensures FirstWinner(s, names, answers, i) || (i == n && forall j: nat :: j < n ==> !Winner(s, names, answers, j))
  {
    i := n;
    if n > 0 {
      i := WinnerSearch(s, names, answers, n - 1);
      if i == n - 1 && !Winner(s, names, answers, i) {
        i := n;
      }
    }
  }

  /** A failover completes exactly when some listed engine can complete. */
  lemma FailoverCompletes(s: State, names: seq<string>, answers: seq<Answer>)
    requires |names| == |answers|
    ensures Outcome(Tried(s, names, answers, |names|)).status == Completed <==>
              exists i :: 0 <= i < |names| && Completes(s.kinds, s.configs, names[i], answers[i])
  {
    var i := WinnerSearch(s, names, answers, |names|);
    if i < |names| {
      FailoverWins(s, names, answers, i);
      hide Tried, Outcome;
      assert Completes(s.kinds, s.configs, names[i], answers[i]);
    } else {
      FailoverFails(s, names, answers);
      hide Tried, Outcome;
      forall j: nat | j < |names|
        ensures !Completes(s.kinds, s.configs, names[j], answers[j])
      {
        assert !Winner(s, names, answers, j);
      }
    }
  }

  lemma {:induction false} ChargesAreRecords(s: State, names: seq<string>, answers: seq<Answer>, n: nat)
    requires n <= |names| == |answers|
    ensures forall op :: op in Tried(s, names, answers, n).charges ==> op.Record?
  {
    if n > 0 {
      ChargesAreRecords(s, names, answers, n - 1);
    }
  }

  /** Runs change nothing but metrics, so eligibility stays what it was at the call. */
  lemma {:induction false} RecordsKeepEngines(s: State, ops: seq<Op>)
    requires forall op :: op in ops ==> op.Record?
    ensures RunFrom(s, ops) == s.(metrics := RunFrom(s, ops).metrics)
  {
    if ops != [] {
      RecordsKeepEngines(s, ops[..|ops| - 1]);
      assert ops[|ops| - 1] in ops;
    }
  }

  /** Failover, however it ends, leaves engines, configurations and health as they were; only metrics change. */
  lemma FailoverKeepsEngines(s: State, names: seq<string>, answers: seq<Answer>)
    requires |names| == |answers|
    ensures
      var t := RunFrom(s, Tried(s, names, answers, |names|).charges);
      t == s.(metrics := t.metrics)
  {
    ChargesAreRecords(s, names, answers, |names|);
    RecordsKeepEngines(s, Tried(s, names, answers, |names|).charges);
  }

  // ---- What failover charges ----

  /** The positions below `n` that list the name, are eligible and answer the health check. */
  function Passed(s: State, names: seq<string>, answers: seq<Answer>, n: nat, name: string): set<nat>
    requires n <= |names| == |answers|
  {
    set j: nat | j < n && names[j] == name && Eligible(s, name) && answers[j].check.Healthy?
  }

  function Completions(s: State, names: seq<string>, answers: seq<Answer>, n: nat, name: string): set<nat>
    requires n <= |names| == |answers|
  {
    set j: nat | j < n && names[j] == name && Eligible(s, name) && Succeeds(answers[j])
  }

  /** The seconds measured at those positions. */
  function Measured(s: State, names: seq<string>, answers: seq<Answer>, n: nat, name: string): real
    requires n <= |names| == |answers|
  {
    if n == 0 then 0.0
    else
      Measured(s, names, answers, n - 1, name) +
      if n - 1 in Passed(s, names, answers, n, name) && answers[n - 1].exec.Returned? then answers[n - 1].seconds
      else 0.0
  }

  /** The metrics have grown by the runs of the first `n` positions that passed. */
  predicate Grown(m: Metrics, m': Metrics, runs: nat, completions: nat, seconds: real) {
    && m'.completed == m.completed + completions && m'.completed + m'.failed == m.completed + m.failed + runs
    && m'.total == m.total + seconds && m'.cancelled == m.cancelled && m'.timedOut == m.timedOut
  }

  /** The same, counting the positions. */
  predicate GrownTo(s: State, t: State, names: seq<string>, answers: seq<Answer>, n: nat, name: string)
    requires n <= |names| == |answers|
  {
    Grown(MetricsOf(s, name), MetricsOf(t, name), |Passed(s, names, answers, n, name)|,
          |Completions(s, names, answers, n, name)|, Measured(s, names, answers, n, name))
  }

  lemma {:induction false} ChargesAccount(s: State, names: seq<string>, answers: seq<Answer>, n: nat, name: string)
    requires n <= |names| == |answers|
    ensures GrownTo(s, RunFrom(s, Charges(s, names, answers, n)), names, answers, n, name)
  {
    if n == 0 {
      NothingPassed(s, names, answers, name);
    } else {
      hide GrownTo, Charge, RunFrom, Accounted, Eligible, Charges;
      ChargesAccount(s, names, answers, n - 1, name);
      var i := n - 1;
      var t, u := RunFrom(s, Charges(s, names, answers, i)), RunFrom(s, Charges(s, names, answers, n));
      ChargesStep(s, names, answers, i);
      if Eligible(s, names[i]) {
        AttemptAccounts(t, NewTask(names[i]), names[i], answers[i], name);
      }
      AccountStep(s, t, u, names, answers, i, name);
    }
  }

  lemma NothingPassed(s: State, names: seq<string>, answers: seq<Answer>, name: string)
    requires |names| == |answers|
    ensures GrownTo(s, RunFrom(s, Charges(s, names, answers, 0)), names, answers, 0, name)
  {
    assert Passed(s, names, answers, 0, name) == {} && Completions(s, names, answers, 0, name) == {};
  }

  lemma ChargesStep(s: State, names: seq<string>, answers: seq<Answer>, i: nat)
    requires i < |names| == |answers|
    ensures
      var t, u := RunFrom(s, Charges(s, names, answers, i)), RunFrom(s, Charges(s, names, answers, i + 1));
      u == if Eligible(s, names[i]) then RunFrom(t, Charge(NewTask(names[i]), names[i], answers[i])) else t
  {
    hide Charge, RunFrom, Eligible;
    var before := Charges(s, names, answers, i);
    RunJoin(s, before, Charge(NewTask(names[i]), names[i], answers[i]));
    assert before + [] == before;
  }

  lemma AccountStep(
    s: State, t: State, u: State, names: seq<string>, answers: seq<Answer>, i: nat, name: string)
    requires i < |names| == |answers| && GrownTo(s, t, names, answers, i, name)
    requires if Eligible(s, names[i]) then Accounted(t, u, NewTask(names[i]), answers[i], name) else u == t
    ensures GrownTo(s, u, names, answers, i + 1, name)
  {
    PassedStep(s, names, answers, i, name);
    CompletionsStep(s, names, answers, i, name);
    hide Passed, Completions, OneRun, Grown, Eligible;
    if Eligible(s, name) && names[i] == name && answers[i].check.Healthy? {
      GrownStep(MetricsOf(s, name), MetricsOf(t, name), MetricsOf(u, name), |Passed(s, names, answers, i, name)|,
                |Completions(s, names, answers, i, name)|, Measured(s, names, answers, i, name), answers[i]);
    } else {
      assert MetricsOf(u, name) == MetricsOf(t, name);
    }
  }

  lemma GrownStep(m: Metrics, m1: Metrics, m2: Metrics, runs: nat, completions: nat, seconds: real, a: Answer)
    requires Grown(m, m1, runs, completions, seconds) && OneRun(m1, m2, a, 0.0)
    ensures Grown(m, m2, runs + 1, completions + (if Succeeds(a) then 1 else 0),
                  seconds + if a.exec.Returned? then a.seconds else 0.0)
  {
  }

  lemma OneFurther(a: set<nat>, b: set<nat>, n: nat, hit: bool)
    requires n !in a && forall j :: j in b <==> j in a || (hit && j == n)
    ensures |b| == |a| + if hit then 1 else 0
  {
    assert b == a + if hit then {n} else {};
  }

  lemma PassedStep(s: State, names: seq<string>, answers: seq<Answer>, n: nat, name: string)
    requires n < |names| == |answers|
    ensures
      var hit := names[n] == name && Eligible(s, name) && answers[n].check.Healthy?;
      && |Passed(s, names, answers, n + 1, name)| == |Passed(s, names, answers, n, name)| + (if hit then 1 else 0)
      && (n in Passed(s, names, answers, n + 1, name) <==> hit)
  {
    hide Eligible;
    OneFurther(Passed(s, names, answers, n, name), Passed(s, names, answers, n + 1, name), n,
               names[n] == name && Eligible(s, name) && answers[n].check.Healthy?);
  }

  lemma CompletionsStep(s: State, names: seq<string>, answers: seq<Answer>, n: nat, name: string)
    requires n < |names| == |answers|
    ensures
      var hit := names[n] == name && Eligible(s, name) && Succeeds(answers[n]);
      |Completions(s, names, answers, n + 1, name)| == |Completions(s, names, answers, n, name)| + if hit then 1 else 0
  {
    hide Eligible, Succeeds;
    OneFurther(Completions(s, names, answers, n, name), Completions(s, names, answers, n + 1, name), n,
               names[n] == name && Eligible(s, name) && Succeeds(answers[n]));
  }

  /**
    What a whole failover charges to each name: one run for every position up to the winner, or
    of the whole list if nobody wins, at which the name is listed, eligible and answers the health
    check. Of these runs only the winner's is a completion.
   */
  lemma FailoverAccounts(s: State, names: seq<string>, answers: seq<Answer>, stop: nat, name: string)
    requires |names| == |answers| && (FirstWinner(s, names, answers, stop) ||
             (stop == |names| && forall j: nat :: !Winner(s, names, answers, j)))
    ensures
      var after := RunFrom(s, Tried(s, names, answers, |names|).charges);
      var end := if stop < |names| then stop + 1 else stop;
      Grown(MetricsOf(s, name), MetricsOf(after, name), |Passed(s, names, answers, end, name)|,
            if stop < |names| && names[stop] == name then 1 else 0, Measured(s, names, answers, end, name))
  {
    var end := if stop < |names| then stop + 1 else stop;
    ChargesAccount(s, names, answers, end, name);
    if stop < |names| {
      FailoverWins(s, names, answers, stop);
    } else {
      FailoverFails(s, names, answers);
    }
    hide RunFrom, Tried, Charges, Measured, Passed, Grown, Outcome;
    OnlyWinnerCompletes(s, names, answers, stop, name);
  }

  lemma OnlyWinnerCompletes(s: State, names: seq<string>, answers: seq<Answer>, stop: nat, name: string)
    requires |names| == |answers| && (FirstWinner(s, names, answers, stop) ||
             (stop == |names| && forall j: nat :: !Winner(s, names, answers, j)))
    ensures
      |Completions(s, names, answers, if stop < |names| then stop + 1 else stop, name)| ==
      if stop < |names| && names[stop] == name then 1 else 0
  {
    var done := Completions(s, names, answers, if stop < |names| then stop + 1 else stop, name);
    forall j | j in done
      ensures j == stop
    {
      assert Winner(s, names, answers, j);
    }
    assert done == if stop < |names| && names[stop] == name then {stop} else {};
  }
}
