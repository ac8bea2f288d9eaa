/**
  The execution engine manager as values (services/execution_engine/manager.py): its
  dictionaries, the operations that change them, engine selection after routing, and the
  accounting of runs.
 */
module EngineModel {
  import opened Prelude
  import opened Routing

  datatype Config = Config(kind: EngineType, enabled: bool)

  datatype Metrics = Metrics(
    completed: nat, failed: nat, cancelled: nat, timedOut: nat, total: real, average: real)

  const FRESH_METRICS := Metrics(0, 0, 0, 0, 0.0, 0.0)

  /**
    `order` and `kinds` are the engine dictionary: its keys in insertion order, and the type
    of the engine under each key. A name missing from `health` has never been checked.
   */
  datatype State = State(
    order: seq<string>, kinds: map<string, EngineType>, configs: map<string, Config>,
    health: map<string, bool>, metrics: map<string, Metrics>)

  const START := State([], map[], map[], map[], map[])

  // ---- Operations ----

  /** Where a registration raises, if it does. The health check and telemetry run after the engine is stored. */
  datatype Setup = InitRaises | HealthRaises | TelemetryRaises(healthy: bool) | Ready(healthy: bool)

  /**
    `NoteHealth` is the second half of `get_health`, which may find the engine gone by then;
    `Record` is the locked block that ends a run on an engine.
   */
  datatype Op =
    | Register(name: string, config: Config, setup: Setup)
    | Unregister(name: string)
    | SetEnabled(name: string, on: bool)
    | NoteHealth(name: string, healthy: bool)
    | Shutdown
    | Record(name: string, seconds: real, success: bool)

  function Appended(order: seq<string>, name: string): seq<string> {
    if name in order then order else order + [name]
  }

  function Dropped(order: seq<string>, name: string): seq<string> {
    if order == [] then []
    else if order[0] == name then order[1..]
    else [order[0]] + Dropped(order[1..], name)
  }

  function Recorded(m: Metrics, seconds: real, success: bool): Metrics {
    var completed := if success then m.completed + 1 else m.completed;
    var failed := if success then m.failed else m.failed + 1;
    var count := completed + failed + m.cancelled + m.timedOut;
    Metrics(completed, failed, m.cancelled, m.timedOut, m.total + seconds, (m.total + seconds) / Max(1, count) as real)
  }

  function Max(a: nat, b: nat): nat {
    if a >= b then a else b
  }

  function MetricsOf(s: State, name: string): Metrics {
    if name in s.metrics then s.metrics[name] else FRESH_METRICS
  }

  function Installed(s: State, name: string, config: Config): State {
    s.(order := Appended(s.order, name), kinds := s.kinds[name := config.kind], configs := s.configs[name := config])
  }

  function Apply(s: State, op: Op): State {
    match op
    case Register(name, config, setup) => (
      match setup
      case InitRaises => s
      case HealthRaises => Installed(s, name, config)
      case TelemetryRaises(healthy) =>
        var s' := Installed(s, name, config);
        s'.(health := s'.health[name := healthy])
      case Ready(healthy) =>
        var s' := Installed(s, name, config);
        s'.(health := s'.health[name := healthy], metrics := s'.metrics[name := FRESH_METRICS])
    )
    case Unregister(name) =>
      State(Dropped(s.order, name), s.kinds - {name}, s.configs - {name}, s.health - {name}, s.metrics - {name})
    case SetEnabled(name, on) =>
      if name in s.configs then s.(configs := s.configs[name := s.configs[name].(enabled := on)]) else s
    case NoteHealth(name, healthy) => s.(health := s.health[name := healthy])
    case Shutdown => State([], map[], map[], map[], s.metrics)
    case Record(name, seconds, success) =>
      s.(metrics := s.metrics[name := Recorded(MetricsOf(s, name), seconds, success)])
  }

  function RunFrom(s: State, ops: seq<Op>): State {
    if ops == [] then s else Apply(RunFrom(s, ops[..|ops| - 1]), ops[|ops| - 1])
  }

  function Run(ops: seq<Op>): State {
    RunFrom(START, ops)
  }

  // ---- Engines and configurations stay paired ----

  /** The engine and configuration dictionaries have the same keys and agree on types. */
  ghost predicate Consistent(s: State) {
    && Distinct(s.order)
    && (forall n :: n in s.order <==> n in s.kinds)
    && (forall n :: n in s.kinds <==> n in s.configs)
    && (forall n :: n in s.kinds ==> s.kinds[n] == s.configs[n].kind)
  }

  lemma {:induction false} DroppedFacts(order: seq<string>, name: string)
    requires Distinct(order)
    ensures Distinct(Dropped(order, name))
    ensures forall n :: n in Dropped(order, name) <==> n in order && n != name
  {
    if order != [] {
      assert order == [order[0]] + order[1..];
      if order[0] != name {
        DroppedFacts(order[1..], name);
        assert order[0] !in order[1..];
      }
    }
  }

  lemma InstalledConsistent(s: State, name: string, config: Config)
    requires Consistent(s)
    ensures Consistent(Installed(s, name, config))
  {
  }

  lemma ApplyConsistent(s: State, op: Op)
    requires Consistent(s)
    ensures Consistent(Apply(s, op))
  {
    match op
    case Register(name, config, setup) => {
      InstalledConsistent(s, name, config);
      var s' := Installed(s, name, config);
      hide Installed;
      match setup {
        case InitRaises =>
        case HealthRaises =>
        case TelemetryRaises(healthy) => SamePairing(s', Apply(s, op));
        case Ready(healthy) => SamePairing(s', Apply(s, op));
      }
    }
    case Unregister(name) => DroppedFacts(s.order, name);
    case _ =>
  }

  lemma SamePairing(s: State, s': State)
    requires Consistent(s) && s'.order == s.order && s'.kinds == s.kinds && s'.configs == s.configs
    ensures Consistent(s')
  {
  }

  lemma RunStep(s: State, ops: seq<Op>, op: Op)
    ensures RunFrom(s, ops + [op]) == Apply(RunFrom(s, ops), op)
  {
    assert (ops + [op])[..|ops|] == ops;
  }

  lemma {:induction false} RunJoin(s: State, ops: seq<Op>, more: seq<Op>)
    ensures RunFrom(s, ops + more) == RunFrom(RunFrom(s, ops), more)
  {
    if more == [] {
      assert ops + more == ops;
    } else {
      var k := |more| - 1;
      RunJoin(s, ops, more[..k]);
      assert (ops + more)[..|ops| + k] == ops + more[..k];
    }
  }

  lemma {:induction false} RunConsistent(ops: seq<Op>)
    ensures Consistent(Run(ops))
  {
    if ops != [] {
      RunConsistent(ops[..|ops| - 1]);
      ApplyConsistent(Run(ops[..|ops| - 1]), ops[|ops| - 1]);
    }
  }

  /** The engine and its configuration are stored under the name, last of all if the name is new. */
  predicate Stored(s: State, t: State, name: string, config: Config) {
    && name in t.kinds && t.kinds[name] == config.kind && name in t.configs && t.configs[name] == config
    && t.order == if name in s.order then s.order else s.order + [name]
  }

  /** The dictionaries say of `n` what they said before. */
  predicate SameFor(s: State, t: State, n: string) {
    && (n in t.kinds <==> n in s.kinds) && (n in s.kinds ==> t.kinds[n] == s.kinds[n])
    && (n in t.configs <==> n in s.configs) && (n in s.configs ==> t.configs[n] == s.configs[n])
    && SameHealth(s, t, n) && SameMetric(s, t, n)
  }

  predicate SameHealth(s: State, t: State, n: string) {
    (n in t.health <==> n in s.health) && (n in s.health ==> t.health[n] == s.health[n])
  }

  predicate SameMetric(s: State, t: State, n: string) {
    (n in t.metrics <==> n in s.metrics) && (n in s.metrics ==> t.metrics[n] == s.metrics[n])
  }

  /** An operation on one engine says nothing of any other. */
  lemma OthersUntouched(s: State, op: Op, n: string)
    requires !op.Shutdown? && n != op.name
    ensures SameFor(s, Apply(s, op), n)
  {
    hide Recorded, Appended, Dropped;
  }

  /** What a registration leaves behind, depending on the step that raised. */
  lemma RegisterMeans(s: State, name: string, config: Config, setup: Setup)
    ensures
      var t := Apply(s, Register(name, config, setup));
      && (setup.InitRaises? ==> t == s) && (!setup.InitRaises? ==> Stored(s, t, name, config))
      && (setup.InitRaises? || setup.HealthRaises? ==> SameHealth(s, t, name))
      && (setup.TelemetryRaises? || setup.Ready? ==> name in t.health && t.health[name] == setup.healthy)
      && (setup.Ready? ==> name in t.metrics && t.metrics[name] == Metrics(0, 0, 0, 0, 0.0, 0.0))
      && (!setup.Ready? ==> SameMetric(s, t, name))
  {
  }

  /** The other operations on the engine's own entries; a shutdown forgets all engines and keeps metrics. */
  lemma OpMeans(s: State, name: string, on: bool)
    requires Consistent(s)
    ensures
      var t := Apply(s, Unregister(name));
      && name !in t.order && name !in t.kinds && name !in t.configs && name !in t.health && name !in t.metrics
    ensures
      var t := Apply(s, SetEnabled(name, on));
      && t.order == s.order && t.kinds == s.kinds && SameHealth(s, t, name) && SameMetric(s, t, name)
      && (name in t.configs <==> name in s.configs)
      && (name in s.configs ==> t.configs[name].enabled == on && t.configs[name].kind == s.configs[name].kind)
    ensures
      var t := Apply(s, NoteHealth(name, on));
      && t.order == s.order && t.kinds == s.kinds && t.configs == s.configs && SameMetric(s, t, name)
      && name in t.health && t.health[name] == on
    ensures
      var t := Apply(s, Shutdown);
      t.order == [] && t.kinds == map[] && t.configs == map[] && t.health == map[] && t.metrics == s.metrics
  {
    DroppedFacts(s.order, name);
    hide Recorded;
  }

  /** Removing a name closes the gap: what stood before and after it stays in order. */
  lemma {:induction false} DroppedExact(before: seq<string>, name: string, after: seq<string>)
    requires name !in before
    ensures Dropped(before + [name] + after, name) == before + after
  {
    var order := before + [name] + after;
    if before == [] {
      assert order[1..] == after && before + after == after;
    } else {
      DroppedExact(before[1..], name, after);
      assert order[1..] == before[1..] + [name] + after;
      assert before + after == [before[0]] + (before[1..] + after);
    }
  }

  // ---- Selection ----

  /** Enabled and not known to be unhealthy. */
  predicate Usable(s: State, name: string) {
    name in s.configs && s.configs[name].enabled && !(name in s.health && !s.health[name])
  }

  predicate Fits(kind: EngineType, only: Option<EngineType>) {
    only.None? || kind == only.value
  }

  function Available(s: State, only: Option<EngineType>): set<EngineType> {
    set n | n in s.configs && Usable(s, n) && Fits(s.configs[n].kind, only) :: s.configs[n].kind
  }

  predicate Matches(s: State, name: string, t: EngineType) {
    name in s.kinds && (s.kinds[name] == t || name == Value(t))
  }

  /** The position of the first engine the lookup loop would stop at. */
  function FirstMatch(s: State, t: EngineType, from: nat): Option<nat>
    requires from <= |s.order|
    decreases |s.order| - from
  {
    if from == |s.order| then None
    else if Matches(s, s.order[from], t) then Some(from)
    else FirstMatch(s, t, from + 1)
  }

  lemma {:induction false} FirstMatchIsFirst(s: State, t: EngineType, from: nat)
    requires from <= |s.order|
    ensures
      match FirstMatch(s, t, from)
      case Some(i) => from <= i < |s.order| && Matches(s, s.order[i], t) &&
                      forall j :: from <= j < i ==> !Matches(s, s.order[j], t)
      case None => forall j :: from <= j < |s.order| ==> !Matches(s, s.order[j], t)
    decreases |s.order| - from
  {
    if from < |s.order| && !Matches(s, s.order[from], t) {
      FirstMatchIsFirst(s, t, from + 1);
    }
  }

  /** `KeyError` is the fallback index after the loop, taken only when no engine matches. */
  datatype Selection = Picked(name: string) | NotFound | NoneAvailable | UnknownStrategy | KeyError

  /** The manager builds its context without required capabilities. */
  const PLAIN := Context([], map[])

  function Lookup(s: State, t: EngineType): Selection {
    match FirstMatch(s, t, 0)
    case Some(i) => FirstMatchIsFirst(s, t, 0); Picked(s.order[i])
    case None => KeyError
  }

  /** `_select_engine` when the set of available types was listed as `xs`. */
  function Select(
    s: State, name: Option<string>, strategy: Strategy, xs: seq<EngineType>, counter: Counter): Selection
  {
    if name.Some? && name.value != "" then
      if name.value in s.kinds then Picked(name.value) else NotFound
    else if xs == [] then NoneAvailable
    else
      match Route(xs, strategy, PLAIN, counter)
      case Chosen(d) => Lookup(s, d.selected)
      case _ => UnknownStrategy
  }

  predicate BuiltIn(strategy: Strategy) {
    !strategy.Failover? && !strategy.CustomStrategy?
  }

  lemma AvailableRegistered(s: State, only: Option<EngineType>, t: EngineType) returns (i: nat)
    requires Consistent(s) && t in Available(s, only)
    ensures i < |s.order| && Matches(s, s.order[i], t) && Usable(s, s.order[i]) && s.kinds[s.order[i]] == t
  {
    var n :| n in s.configs && Usable(s, n) && s.configs[n].kind == t;
    assert n in s.order;
    i :| 0 <= i < |s.order| && s.order[i] == n;
  }

  /** The lookup for an available type stops at the first match and never reaches the fallback. */
  lemma LookupFinds(s: State, only: Option<EngineType>, t: EngineType) returns (i: nat)
    requires Consistent(s) && t in Available(s, only)
    ensures i < |s.order| && Matches(s, s.order[i], t) && Lookup(s, t) == Picked(s.order[i])
    ensures forall j :: 0 <= j < i ==> !Matches(s, s.order[j], t)
  {
    var k := AvailableRegistered(s, only, t);
    FirstMatchIsFirst(s, t, 0);
    i := FirstMatch(s, t, 0).value;
  }

  lemma RoutedLookup(
    s: State, only: Option<EngineType>, strategy: Strategy, xs: seq<EngineType>, counter: Counter)
      returns (t: EngineType)
    requires Lists(xs, Available(s, only)) && xs != [] && BuiltIn(strategy)
    ensures t in Available(s, only) && Select(s, None, strategy, xs, counter) == Lookup(s, t)
  {
    RouteSelectsAvailable(xs, strategy, PLAIN, counter);
    t := Route(xs, strategy, PLAIN, counter).decision.selected;
  }

  /**
    In every state a run can reach, if some type is available then every built-in strategy
    but failover ends with a registered engine, in whatever order the types were listed.
   */
  lemma SelectionTotal(
    ops: seq<Op>, only: Option<EngineType>, strategy: Strategy, xs: seq<EngineType>, counter: Counter)
    requires Lists(xs, Available(Run(ops), only)) && xs != [] && BuiltIn(strategy)
    ensures
      var r := Select(Run(ops), None, strategy, xs, counter);
      r.Picked? && r.name in Run(ops).kinds
  {
    RunConsistent(ops);
    var t := RoutedLookup(Run(ops), only, strategy, xs, counter);
    var i := LookupFinds(Run(ops), only, t);
  }

  /** No two engines share a type and none is named after the type of another. */
  ghost predicate PlainNames(s: State) {
    forall n, n' :: n in s.kinds && n' in s.kinds && n != n' ==> s.kinds[n] != s.kinds[n'] && n != Value(s.kinds[n'])
  }

  lemma SelectionUsable(
    ops: seq<Op>, only: Option<EngineType>, strategy: Strategy, xs: seq<EngineType>, counter: Counter)
    requires PlainNames(Run(ops))
    requires Lists(xs, Available(Run(ops), only)) && xs != [] && BuiltIn(strategy)
    ensures
      var r := Select(Run(ops), None, strategy, xs, counter);
      r.Picked? && Usable(Run(ops), r.name)
  {
    var s := Run(ops);
    RunConsistent(ops);
    var t := RoutedLookup(s, only, strategy, xs, counter);
    var i := LookupFinds(s, only, t);
    var k := AvailableRegistered(s, only, t);
    assert s.order[i] == s.order[k];
  }

  // ---- What a selection means ----

  /** Engine `i` is the first, in registration order, of the type or named after it. */
  predicate FirstOfType(s: State, t: EngineType, i: nat) {
    && i < |s.order| && Matches(s, s.order[i], t)
    && forall j :: 0 <= j < i ==> !Matches(s, s.order[j], t)
  }

  /** The engine picked is the first of the type that the strategy ranks best among those listed. */
  ghost predicate PicksBest(s: State, strategy: Strategy, xs: seq<EngineType>, counter: Counter, r: Selection) {
    exists k: nat, i: nat ::
      FirstBest(xs, strategy, PLAIN, counter, k) && FirstOfType(s, xs[k], i) && r == Picked(s.order[i])
  }

  /** What `_select_engine` may answer when the available types are listed as `xs`. */
  ghost predicate Meant(
    s: State, name: Option<string>, strategy: Strategy, xs: seq<EngineType>, counter: Counter, r: Selection)
  {
    if name.Some? && name.value != "" then
      (r == Picked(name.value) <==> name.value in s.kinds) && (r == NotFound <==> name.value !in s.kinds)
    else if xs == [] then r == NoneAvailable
    else if BuiltIn(strategy) then PicksBest(s, strategy, xs, counter, r)
    else r == UnknownStrategy
  }

  /**
    A name picks exactly that engine if it is registered and nothing else; otherwise the
    engine is the first of an available type that is best under the strategy.
   */
  lemma SelectMeans(
    s: State, name: Option<string>, only: Option<EngineType>, strategy: Strategy, xs: seq<EngineType>,
    counter: Counter)
    requires Consistent(s) && Lists(xs, Available(s, only))
    ensures Meant(s, name, strategy, xs, counter, Select(s, name, strategy, xs, counter))
  {
    hide FirstBest, Rank;
    if (name.None? || name.value == "") && xs != [] && BuiltIn(strategy) {
      var k := RouteOptimal(xs, strategy, PLAIN, counter);
      hide Route;
      RankedIsListed(xs, strategy, counter, k);
      var i := LookupFinds(s, only, xs[k]);
      assert FirstOfType(s, xs[k], i);
      hide Lookup, Available, Consistent, Lists;
    }
  }

  /** Nothing is on offer exactly when no engine of the wanted type is enabled and not known to be unhealthy. */
  lemma NothingOnOffer(s: State, only: Option<EngineType>, xs: seq<EngineType>)
    requires Consistent(s) && Lists(xs, Available(s, only))
    ensures xs == [] <==> forall n :: n in s.kinds && Usable(s, n) ==> !Fits(s.kinds[n], only)
  {
    if xs == [] {
      forall n | n in s.kinds && Usable(s, n)
        ensures !Fits(s.kinds[n], only)
      {
        assert s.configs[n].kind !in Available(s, only);
      }
    } else {
      assert xs[0] in Available(s, only);
    }
  }

  lemma RankedIsListed(xs: seq<EngineType>, strategy: Strategy, counter: Counter, k: nat)
    requires FirstBest(xs, strategy, PLAIN, counter, k)
    ensures k < |xs| && xs[k] in xs
  {
  }

  /** Every selection the manager could make in this state, whatever it is asked, is usable. */
  ghost predicate AlwaysUsable(s: State) {
    forall only, strategy, xs, counter ::
      Lists(xs, Available(s, only)) && xs != [] && BuiltIn(strategy) ==>
        var r := Select(s, None, strategy, xs, counter);
        r.Picked? && Usable(s, r.name)
  }

  /** A usable engine ahead of position `i` that the lookup for `t` would stop at. */
  ghost predicate Shielded(s: State, t: EngineType, i: nat) {
    exists j: nat :: j < i && j < |s.order| && Matches(s, s.order[j], t) && Usable(s, s.order[j])
  }

  /** No unusable engine comes first for a type that is available. */
  ghost predicate Screened(s: State) {
    forall i: nat, t :: i < |s.order| && !Usable(s, s.order[i]) && Matches(s, s.order[i], t) && t in Available(s, None)
      ==> Shielded(s, t, i)
  }

  lemma AvailableNarrowed(s: State, only: Option<EngineType>, t: EngineType)
    requires t in Available(s, only)
    ensures t in Available(s, None) && Available(s, Some(t)) == {t}
  {
    var n :| n in s.configs && Usable(s, n) && s.configs[n].kind == t;
    assert n in s.configs && Fits(s.configs[n].kind, None) && Fits(s.configs[n].kind, Some(t));
    assert t in Available(s, Some(t));
  }

  lemma ScreenedUsable(
    s: State, only: Option<EngineType>, strategy: Strategy, xs: seq<EngineType>, counter: Counter)
    requires Consistent(s) && Screened(s)
    requires Lists(xs, Available(s, only)) && xs != [] && BuiltIn(strategy)
    ensures
      var r := Select(s, None, strategy, xs, counter);
      r.Picked? && Usable(s, r.name)
  {
    var t := RoutedLookup(s, only, strategy, xs, counter);
    AvailableNarrowed(s, only, t);
    var i := LookupFinds(s, only, t);
    hide Select, Available, Lists, Usable, Matches, Lookup, Consistent;
    assert !Shielded(s, t, i);
  }

  lemma UsableShielded(s: State, i: nat, t: EngineType)
    requires Consistent(s) && AlwaysUsable(s)
    requires i < |s.order| && !Usable(s, s.order[i]) && Matches(s, s.order[i], t) && t in Available(s, None)
    ensures Shielded(s, t, i)
  {
    AvailableNarrowed(s, None, t);
    var k := LookupFinds(s, None, t);
    assert Lists([t], Available(s, Some(t)));
    var t' := RoutedLookup(s, Some(t), Fastest, [t], map[]);
    var r := Select(s, None, Fastest, [t], map[]);
    assert r.Picked? && Usable(s, r.name);
  }

  /** When selection can hand out a disabled or unhealthy engine: exactly when one is registered first. */
  lemma SelectionExact(ops: seq<Op>)
    ensures AlwaysUsable(Run(ops)) <==> Screened(Run(ops))
  {
    var s := Run(ops);
    RunConsistent(ops);
    hide Run, Consistent, Select, Lists, Available, Usable, Matches, Shielded;
    if Screened(s) {
      forall only, strategy, xs, counter | Lists(xs, Available(s, only)) && xs != [] && BuiltIn(strategy)
        ensures Select(s, None, strategy, xs, counter).Picked?
        ensures Usable(s, Select(s, None, strategy, xs, counter).name)
      {
        ScreenedUsable(s, only, strategy, xs, counter);
      }
      assert AlwaysUsable(s);
    }
    if AlwaysUsable(s) {
      forall i: nat, t | i < |s.order| && !Usable(s, s.order[i]) && Matches(s, s.order[i], t) && t in Available(s, None)
        ensures Shielded(s, t, i)
      {
        UsableShielded(s, i, t);
      }
      assert Screened(s);
    }
  }

  /** Two local engines, the first one disabled: the enabled one makes the type available, the disabled one is used. */
  lemma DisabledTwinSelected()
    ensures
      var on, off := Config(Local, true), Config(Local, false);
      var s := Run([Register("a", off, Ready(true)), Register("b", on, Ready(true))]);
      && Lists([Local], Available(s, None))
      && Select(s, None, Fastest, [Local], map[]) == Picked("a")
      && !Usable(s, "a") && !AlwaysUsable(s)
  {
    var s := Twins();
    TwinsRun();
    TwinsAvailable();
    hide Available, Usable, Lists, Select, AlwaysUsable;
    var t := RoutedLookup(s, None, Fastest, [Local], map[]);
    assert t == Local by { OnlyLocal(s, t); }
    assert FirstMatch(s, Local, 0) == Some(0) by { assert Matches(s, s.order[0], Local); }
    assert Select(s, None, Fastest, [Local], map[]) == Picked("a");
    assert !Usable(s, "a") by { TwinsAvailable(); }
    NotAlways(s, [Local]);
  }

  /** Two local engines, of which the first is disabled. */
  function Twins(): State {
    State(["a", "b"], map["a" := Local, "b" := Local],
          map["a" := Config(Local, false), "b" := Config(Local, true)],
          map["a" := true, "b" := true], map["a" := FRESH_METRICS, "b" := FRESH_METRICS])
  }

  lemma TwinsRun()
    ensures Run([Register("a", Config(Local, false), Ready(true)), Register("b", Config(Local, true), Ready(true))]) ==
            Twins()
  {
    var ops := [Register("a", Config(Local, false), Ready(true)), Register("b", Config(Local, true), Ready(true))];
    RunStep(START, [], ops[0]);
    RunStep(START, [ops[0]], ops[1]);
    assert ops == [ops[0]] + [ops[1]] && [] + [ops[0]] == [ops[0]];
    var s1 := State(["a"], map["a" := Local], map["a" := Config(Local, false)], map["a" := true],
                    map["a" := FRESH_METRICS]);
    assert Apply(START, ops[0]) == s1;
    assert Apply(s1, ops[1]) == Twins();
  }

  lemma TwinsAvailable()
    ensures Available(Twins(), None) == {Local} && Lists([Local], Available(Twins(), None)) && !Usable(Twins(), "a")
  {
    var s := Twins();
    assert Usable(s, "b") && s.configs["b"].kind == Local && Fits(Local, None);
    assert Local in Available(s, None);
  }

  lemma OnlyLocal(s: State, t: EngineType)
    requires s == Twins() && t in Available(s, None)
    ensures t == Local
  {
    TwinsAvailable();
  }

  lemma NotAlways(s: State, xs: seq<EngineType>)
    requires Lists(xs, Available(s, None)) && xs != []
    requires Select(s, None, Fastest, xs, map[]).Picked? ==> !Usable(s, Select(s, None, Fastest, xs, map[]).name)
    ensures !AlwaysUsable(s)
  {
    hide Select, Usable, Lists, Available;
  }
}
