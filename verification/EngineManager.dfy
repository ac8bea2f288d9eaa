/**
  The manager as the source writes it: dictionaries updated in place, metrics and task
  objects with fields of their own. Each method does to the abstract state what
  `EngineModel` and `Failover` say, so the laws proved there hold of these objects.
 */
module EngineManager {
  import opened Prelude
  import opened Routing
  import opened EngineModel
  import opened Failover

  class ExecutionMetrics {
    var completed: nat
    var failed: nat
    var cancelled: nat
    var timedOut: nat
    var total: real
    var average: real

    constructor ()
      ensures View() == FRESH_METRICS
    {
      completed, failed, cancelled, timedOut, total, average := 0, 0, 0, 0, 0.0, 0.0;
    }

    ghost function View(): Metrics
      reads this
    {
      Metrics(completed, failed, cancelled, timedOut, total, average)
    }

    method RecordTask(seconds: real, success: bool)
      modifies this
      ensures View() == Recorded(old(View()), seconds, success)
    {
      if success {
        completed := completed + 1;
      } else {
        failed := failed + 1;
      }
      total := total + seconds;
      var count := completed + failed + cancelled + timedOut;
      average := total / Max(1, count) as real;
    }
  }

  class ExecutionTask {
    const engine: string
    const kind: EngineType
    const limit: real
    var status: Status
    var error: Option<Error>
    var output: Option<nat>
    var seconds: real

    constructor (engine: string)
      ensures View() == NewTask(engine)
    {
      this.engine, kind, limit := engine, Local, 600.0;
      status, error, output, seconds := Pending, None, None, 0.0;
    }

    constructor Exhausted(last: Option<Error>)
      ensures View() == FailedTask(last)
    {
      engine, kind, limit := "", Local, 600.0;
      status, error, output, seconds := Failed, Some(AllFailed(last)), None, 0.0;
    }

    ghost function View(): Task
      reads this
    {
      Task(engine, kind, limit, status, error, output, seconds)
    }
  }

  class ExecutionEngineManager {
    var order: seq<string>
    var kinds: map<string, EngineType>
    var configs: map<string, Config>
    var health: map<string, bool>
    var metrics: map<string, ExecutionMetrics>
    const balancer: LoadBalancingRouter

    constructor ()
      ensures Valid() && View() == START && fresh(balancer) && balancer.Valid() && balancer.calls == []
    {
      order, kinds, configs, health, metrics := [], map[], map[], map[], map[];
      balancer := new LoadBalancingRouter();
    }

    /** Each name has a metrics object of its own, and the dictionaries are paired. */
    ghost predicate Valid()
      reads this, metrics.Values
    {
      Unshared(metrics) && Consistent(View())
    }

    ghost function View(): State
      reads this, metrics.Values
    {
      State(order, kinds, configs, health, MetricsView(metrics))
    }

    method RegisterEngine(name: string, config: Config, setup: Setup) returns (ok: bool)
      requires Valid()
      modifies this
      ensures Valid() && View() == Apply(old(View()), Register(name, config, setup)) && ok == setup.Ready?
      ensures fresh(metrics.Values - old(metrics.Values))
    {
      hide Consistent, MetricsView, Unshared;
      ApplyConsistent(View(), Register(name, config, setup));
      if setup.InitRaises? {
        return false;
      }
      order := Appended(order, name);
      kinds := kinds[name := config.kind];
      configs := configs[name := config];
      if setup.HealthRaises? {
        return false;
      }
      health := health[name := setup.healthy];
      if setup.TelemetryRaises? {
        return false;
      }
      var m := new ExecutionMetrics();
      MetricsPut(metrics, name, m);
      UnsharedPut(metrics, name, m);
      metrics := metrics[name := m];
      return true;
    }

    method UnregisterEngine(name: string)
      requires Valid()
      modifies this
      ensures Valid() && View() == Apply(old(View()), Unregister(name))
      ensures metrics.Values <= old(metrics.Values)
    {
      hide Consistent, MetricsView;
      ApplyConsistent(View(), Unregister(name));
      MetricsDrop(metrics, name);
      order := Dropped(order, name);
      kinds := kinds - {name};
      configs := configs - {name};
      health := health - {name};
      metrics := metrics - {name};
    }

    /** `enable_engine` and `disable_engine`. */
    method SwitchEngine(name: string, on: bool)
      requires Valid()
      modifies this`configs
      ensures Valid() && View() == Apply(old(View()), SetEnabled(name, on))
    {
      hide Consistent;
      ApplyConsistent(View(), SetEnabled(name, on));
      if name in configs {
        configs := configs[name := configs[name].(enabled := on)];
      }
    }

    method NoteEngineHealth(name: string, healthy: bool)
      requires Valid()
      modifies this`health
      ensures Valid() && View() == Apply(old(View()), NoteHealth(name, healthy))
    {
      hide Consistent;
      ApplyConsistent(View(), NoteHealth(name, healthy));
      health := health[name := healthy];
    }

    method ShutDown()
      requires Valid()
      modifies this
      ensures Valid() && View() == Apply(old(View()), Shutdown) && metrics == old(metrics)
    {
      hide Consistent;
      ApplyConsistent(View(), Shutdown);
      order, kinds, configs, health := [], map[], map[], map[];
    }

    method MetricsFor(name: string) returns (m: ExecutionMetrics)
      ensures m.View() == MetricsOf(View(), name)
      ensures if name in metrics then m == metrics[name] else fresh(m)
    {
      if name in metrics {
        m := metrics[name];
      } else {
        m := new ExecutionMetrics();
      }
    }

    /** `_update_metrics`: an engine without metrics gets a new record. */
    method UpdateMetrics(task: ExecutionTask)
      requires Valid()
      modifies this`metrics, metrics.Values
      ensures Valid()
      ensures View() == Apply(old(View()), Record(task.engine, task.seconds, task.status == Completed))
      ensures fresh(metrics.Values - old(metrics.Values))
    {
      hide Consistent, Apply, MetricsOf, Recorded;
      ghost var s := View();
      ApplyConsistent(s, Record(task.engine, task.seconds, task.status == Completed));
      ApplyRecord(s, task.engine, task.seconds, task.status == Completed);
      var m := MetricsFor(task.engine);
      m.RecordTask(task.seconds, task.status == Completed);
      UnsharedPut(metrics, task.engine, m);
      assert forall n :: n in metrics && n != task.engine ==> metrics[n] != m && metrics[n].View() == s.metrics[n];
      MetricsChanged(s.metrics, metrics, task.engine, m);
      hide MetricsView, Unshared;
      metrics := metrics[task.engine := m];
    }

    /** The part of `_execute_on_engine` that drives the task; false if it stopped at the health gate. */
    method Drive(task: ExecutionTask, engine: string, answer: Answer) returns (past: bool)
      modifies task
      ensures task.View() == Attempted(old(task.View()), engine, answer) && past == answer.check.Healthy?
    {
      task.status := Dispatched;
      if answer.check.Unhealthy? {
        task.status := Failed;
        task.error := Some(UnhealthyEngine(engine));
        return false;
      }
      if answer.check.CheckRaises? {
        task.status := Failed;
        task.error := Some(CheckFailed(answer.check.cause));
        return false;
      }
      task.status := Running;
      match answer.exec {
        case Returned(mock, output) =>
          task.seconds := answer.seconds;
          if mock {
            task.status := Failed;
            task.error := Some(MockResult(task.kind));
          } else {
            task.status := Completed;
          }
          task.output := Some(output);
        case TimesOut =>
          task.status := TimedOut;
          task.error := Some(TimeoutAfter(task.limit));
        case EngineRaises(message) =>
          task.status := Failed;
          task.error := Some(Reported(message));
        case Crashes(message) =>
          task.status := Failed;
          task.error := Some(Unexpected(message));
      }
      return true;
    }

    /** `_execute_on_engine`: a run is recorded exactly if the health gate lets it through. */
    method RunOn(task: ExecutionTask, engine: string, answer: Answer)
      requires Valid()
      modifies task, this`metrics, metrics.Values
      ensures Valid()
      ensures task.View() == Attempted(old(task.View()), engine, answer)
      ensures View() == RunFrom(old(View()), Charge(old(task.View()), engine, answer))
      ensures forall name :: Accounted(old(View()), View(), old(task.View()), answer, name)
      ensures fresh(metrics.Values - old(metrics.Values))
    {
      hide Consistent, Apply, Attempted, RunFrom, Accounted;
      ghost var s, t := View(), task.View();
      forall name
        ensures Accounted(s, RunFrom(s, Charge(t, engine, answer)), t, answer, name)
      {
        AttemptAccounts(s, t, engine, answer, name);
      }
      RunNothing(s);
      AttemptSettles(task.View(), engine, answer);
      var past := Drive(task, engine, answer);
      if past {
        ghost var op := Record(task.engine, task.seconds, task.status == Completed);
        RunStep(s, [], op);
        assert [] + [op] == Charge(old(task.View()), engine, answer);
        UpdateMetrics(task);
      }
    }

    /** `execute_on_engine`: the run is charged to the name the task carries. */
    method ExecuteOnEngine(task: ExecutionTask, engine: string, answer: Answer)
      requires Valid()
      modifies task, this`metrics, metrics.Values
      ensures Valid()
      ensures engine in kinds ==>
                && task.View() == Attempted(old(task.View()), engine, answer)
                && View() == RunFrom(old(View()), Charge(old(task.View()), engine, answer))
      ensures engine !in kinds ==>
                && task.View() == old(task.View()).(status := Failed, error := Some(EngineMissing(engine)))
                && View() == old(View())
    {
      if engine !in kinds {
        task.status := Failed;
        task.error := Some(EngineMissing(engine));
        return;
      }
      RunOn(task, engine, answer);
    }

    /** `execute_with_failover`: `answers[i]` is how the engine listed at `i` behaves if it is tried. */
    method ExecuteWithFailover(preferred: seq<string>, fallback: seq<string>, answers: seq<Answer>)
      returns (result: ExecutionTask)
      requires Valid() && |answers| == |preferred + fallback|
      modifies this`metrics, metrics.Values
      ensures Valid() && fresh(result)
      ensures
        var end := Tried(old(View()), preferred + fallback, answers, |answers|);
        result.View() == Outcome(end) && View() == RunFrom(old(View()), end.charges)
      ensures result.status == Completed <==>
                exists i :: 0 <= i < |answers| && Completes(kinds, configs, (preferred + fallback)[i], answers[i])
      ensures fresh(metrics.Values - old(metrics.Values))
    {
      hide Consistent, Apply, Attempted, Charge, RunFrom;
      var names := preferred + fallback;
      ghost var s := View();
      var last: Option<Error> := None;
      RunNothing(s);
      FailoverCompletes(s, names, answers);
      hide Completes;
      for i := 0 to |names|
        invariant Valid() && (kinds, configs) == (s.kinds, s.configs)
        invariant Tried(s, names, answers, i).Trying?
        invariant Tried(s, names, answers, i).last == last
        invariant View() == RunFrom(s, Tried(s, names, answers, i).charges)
        invariant fresh(metrics.Values - old(metrics.Values))
      {
        var engine := names[i];
        if engine !in kinds {
          continue;
        }
        if engine in configs && !configs[engine].enabled {
          continue;
        }
        var task := new ExecutionTask(engine);
        RunOn(task, engine, answers[i]);
        RunJoin(s, Tried(s, names, answers, i).charges, Charge(NewTask(engine), engine, answers[i]));
        if task.status == Completed {
          WonStays(s, names, answers, i + 1, |names|);
          return task;
        }
        last := task.error;
      }
      result := new ExecutionTask.Exhausted(last);
    }

    /** `_available_engines`: a set of types, listed in no particular order. */
    method AvailableEngines(only: Option<EngineType>) returns (xs: seq<EngineType>)
      ensures Lists(xs, Available(View(), only))
      ensures forall t :: t in xs <==>
                exists n :: n in configs && configs[n].kind == t && configs[n].enabled &&
                            (n in health ==> health[n]) && (only.None? || only.value == t)
    {
      var types: set<EngineType> := {};
      var rest := configs.Keys;
      while rest != {}
        invariant rest <= configs.Keys
        invariant types == set n |
          n in configs && n !in rest && Usable(View(), n) && Fits(configs[n].kind, only) :: configs[n].kind
      {
        var n :| n in rest;
        rest := rest - {n};
        if !configs[n].enabled || (n in health && !health[n]) || !Fits(configs[n].kind, only) {
          continue;
        }
        types := types + {configs[n].kind};
      }
      xs := [];
      ghost var all := types;
      while types != {}
        invariant Distinct(xs) && (forall t :: t in xs <==> t in all - types) && types <= all
      {
        var t :| t in types;
        assert t !in xs;
        xs, types := xs + [t], types - {t};
      }
    }

    /** The lookup loop of `_select_engine`, and the index after it. */
    method FindEngine(t: EngineType) returns (r: Selection)
      requires Valid()
      ensures r == Lookup(View(), t)
      ensures r.KeyError? <==> forall n :: n in order ==> kinds[n] != t && n != Value(t)
      ensures r.Picked? ==>
                exists i :: 0 <= i < |order| && order[i] == r.name && (kinds[order[i]] == t || order[i] == Value(t)) &&
                            forall j :: 0 <= j < i ==> kinds[order[j]] != t && order[j] != Value(t)
    {
      ghost var s := View();
      for i := 0 to |order|
        invariant FirstMatch(s, t, 0) == FirstMatch(s, t, i)
        invariant forall j :: 0 <= j < i ==> kinds[order[j]] != t && order[j] != Value(t)
      {
        if kinds[order[i]] == t || order[i] == Value(t) {
          return Picked(order[i]);
        }
      }
      FirstMatchIsFirst(s, t, 0);
      assert Value(t) in kinds ==> Matches(s, Value(t), t) && Value(t) in order;
      r := if Value(t) in kinds then Picked(Value(t)) else KeyError;
    }

    /** `_select_engine`: some listing of the available types explains the choice. */
    method SelectEngine(name: Option<string>, only: Option<EngineType>, strategy: Strategy) returns (r: Selection)
      requires Valid() && balancer.Valid()
      modifies balancer
      ensures balancer.Valid()
      ensures exists xs ::
                && Lists(xs, Available(View(), only))
                && r == Select(View(), name, strategy, xs, old(balancer.counter))
                && Meant(View(), name, strategy, xs, old(balancer.counter), r)
                && Counted(old(balancer.counter), balancer.counter, name, strategy, xs)
      ensures !r.KeyError?
    {
      hide Lists, Available, Lookup, Consistent, Alike, After, Bumped, CountOf, Sorted, MetricsView, Unshared;
      ghost var s := View();
      var xs := AvailableEngines(only);
      SelectMeans(s, name, only, strategy, xs, balancer.counter);
      hide PicksBest;
      if name.Some? && name.value != "" {
        r := if name.value in kinds then Picked(name.value) else NotFound;
        return;
      }
      if xs == [] {
        return NoneAvailable;
      }
      if !BuiltIn(strategy) {
        return UnknownStrategy;
      }
      RouteSelectsAvailable(xs, strategy, PLAIN, balancer.counter);
      ghost var t' := RoutedLookup(s, only, strategy, xs, balancer.counter);
      ghost var i' := LookupFinds(s, only, t');
      var t: EngineType;
      if strategy.LoadBalancing? {
        var d := balancer.Select(xs);
        t := d.value.selected;
      } else {
        t := Route(xs, strategy, PLAIN, balancer.counter).decision.selected;
      }
      assert t == Route(xs, strategy, PLAIN, old(balancer.counter)).decision.selected;
      r := FindEngine(t);
      assert r == Select(s, name, strategy, xs, old(balancer.counter));
      assert Counted(old(balancer.counter), balancer.counter, name, strategy, xs);
    }
  }

  /** Only a load-balanced choice is counted, and once. */
  ghost predicate Counted(
    before: Counter, after: Counter, name: Option<string>, strategy: Strategy, xs: seq<EngineType>)
  {
    if strategy.LoadBalancing? && xs != [] && (name.None? || name.value == "") then
      Alike(Bumped(before, Pick(before, xs)), after)
    else
      after == before
  }

  lemma RunNothing(s: State)
    ensures RunFrom(s, []) == s
  {
  }

  lemma ApplyRecord(s: State, name: string, seconds: real, success: bool)
    ensures Apply(s, Record(name, seconds, success)) ==
            s.(metrics := s.metrics[name := Recorded(MetricsOf(s, name), seconds, success)])
  {
  }

  ghost function MetricsView(metrics: map<string, ExecutionMetrics>): map<string, Metrics>
    reads metrics.Values
  {
    map n | n in metrics :: metrics[n].View()
  }

  lemma MetricsPut(metrics: map<string, ExecutionMetrics>, name: string, m: ExecutionMetrics)
    ensures MetricsView(metrics[name := m]) == MetricsView(metrics)[name := m.View()]
  {
  }

  lemma MetricsChanged(
    was: map<string, Metrics>, held: map<string, ExecutionMetrics>, name: string, m: ExecutionMetrics)
    requires forall n :: n in held <==> n in was
    requires forall n :: n in held && n != name ==> held[n].View() == was[n]
    ensures MetricsView(held[name := m]) == was[name := m.View()]
  {
  }

  lemma UnsharedPut(metrics: map<string, ExecutionMetrics>, name: string, m: ExecutionMetrics)
    requires Unshared(metrics) && (m in metrics.Values ==> name in metrics && metrics[name] == m)
    ensures Unshared(metrics[name := m])
  {
  }

  lemma MetricsDrop(metrics: map<string, ExecutionMetrics>, name: string)
    ensures MetricsView(metrics - {name}) == MetricsView(metrics) - {name}
  {
  }
}
