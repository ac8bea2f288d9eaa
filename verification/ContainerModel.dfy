/**
  The dependency-injection container as a state machine over a tree of scopes
  (src/agentic_os/core/container.py). A scope is named by its position in `scopes`; a
  parent is always created before its children. `Resolve` and `Gather` give the meaning
  of the recursive resolver, including its failure paths and its bookkeeping.
 */
module ContainerModel {
  import opened Prelude

  type Key = string

  datatype Lifetime = Singleton | Transient | Scoped

  datatype Status = Resolved | BuildFailed

  /** The kinds of parameters: ordinary, before a `/`, `*args` and `**kwargs`. */
  datatype SlotKind = Ordinary | PositionalOnly | Positionals | Keywords

  /** One parameter of a factory. */
  datatype Slot = Slot(name: string, hasDefault: bool, hint: Option<Key>, kind: SlotKind)

  /** What a factory yields: a new object, or the ready-made object it was registered with. */
  datatype Instance = Built(serial: nat) | Given(object: nat)

  datatype Argument = Injected(instance: Instance) | DefaultValue

  /** The part of a registration that is fixed when it is made. */
  datatype Registration = Registration(
    lifetime: Lifetime, name: string, dependsOn: seq<Key>, slots: seq<Slot>, given: Option<nat>)

  /**
    One container. The fields a resolution writes on a registration are kept beside it:
    `marks` holds (key, chain) when the chain's number is in that key's `resolving_in`,
    and `status` is absent for a registration not yet tried. `since` is how long the log of
    builds was when the container was last reset.
   */
  datatype Scope = Scope(
    parent: Option<nat>, regs: map<Key, Registration>, marks: set<(Key, nat)>,
    status: map<Key, Status>, singletons: map<Key, Instance>, scoped: map<Key, Instance>,
    aliases: map<Key, Key>, counter: nat, since: nat)

  /** One successful factory call. */
  datatype Build = Build(
    scope: nat, key: Key, lifetime: Lifetime, args: map<string, Argument>, instance: Instance)

  /** `visited` is the set shared by one resolve chain; `calls` counts factory calls so far. */
  datatype State = State(scopes: seq<Scope>, visited: set<Key>, calls: nat, log: seq<Build>)

  /** Whether the n-th factory call raises. */
  type Oracle = nat -> bool

  /** The three exceptions are MissingDependency, CyclicDependency and ResolutionError. */
  datatype Outcome = Ok(instance: Instance) | Missing | Cyclic | Unresolved

  datatype Resolution = Resolution(outcome: Outcome, state: State)

  /** `deps` is keyed by type name, `params` by parameter name. */
  datatype Args = Args(deps: map<Key, Instance>, params: map<string, Argument>)

  const NoArgs := Args(map[], map[])

  datatype Gathering = Ready(args: Args, state: State) | Blocked(error: Outcome, state: State)

  /** A step before construction: resolve a declared dependency, or fill a slot. */
  datatype Want = Dep(key: Key) | Fill(slot: Slot)

  /** What one want does: extend the arguments, or first resolve another key. */
  datatype Need = Take(args: Args) | First(key: Key)

  /** The work before construction, in order: the declared dependencies, then the slots. */
  function PlanSize(reg: Registration): nat {
    |reg.dependsOn| + |reg.slots|
  }

  function WantAt(reg: Registration, p: nat): Want
    requires p < PlanSize(reg)
  {
    if p < |reg.dependsOn| then Dep(reg.dependsOn[p]) else Fill(reg.slots[p - |reg.dependsOn|])
  }

  function NeedOf(want: Want, args: Args): Need {
    match want
    case Dep(key) => First(key)
    case Fill(slot) =>
      if slot.name in args.deps then
        Take(args.(params := args.params[slot.name := Injected(args.deps[slot.name])]))
      else if slot.hasDefault then Take(args.(params := args.params[slot.name := DefaultValue]))
      else if slot.hint.Some? then First(slot.hint.value)
      else Take(args)
  }

  /** What a resolved key adds to the arguments. */
  function Supply(want: Want, args: Args, instance: Instance): Args {
    match want
    case Dep(key) => args.(deps := args.deps[key := instance])
    case Fill(slot) => args.(params := args.params[slot.name := Injected(instance)])
  }

  predicate WellFormed(s: State) {
    forall i :: 0 <= i < |s.scopes| && s.scopes[i].parent.Some? ==> s.scopes[i].parent.value < i
  }

  /** Between operations nothing is under construction. */
  predicate Quiet(s: State) {
    && s.visited == {}
    && forall i :: 0 <= i < |s.scopes| ==> s.scopes[i].marks == {}
  }

  // ---- The pieces of one resolution ----

  function WithScope(s: State, id: nat, scope: Scope): State
    requires id < |s.scopes|
  {
    s.(scopes := s.scopes[id := scope])
  }

  /** Both cycle detectors are armed before dependencies are resolved. */
  function Enter(s: State, id: nat, key: Key, rid: nat): State
    requires id < |s.scopes|
  {
    var scope := s.scopes[id];
    WithScope(s.(visited := s.visited + {key}), id, scope.(marks := scope.marks + {(key, rid)}))
  }

  /** The `finally` clause. */
  function Leave(s: State, id: nat, key: Key, rid: nat): State
    requires id < |s.scopes|
  {
    var scope := s.scopes[id];
    WithScope(s.(visited := s.visited - {key}), id, scope.(marks := scope.marks - {(key, rid)}))
  }

  function MarkFailed(s: State, id: nat, key: Key): State
    requires id < |s.scopes|
  {
    var scope := s.scopes[id];
    WithScope(s, id, scope.(status := scope.status[key := BuildFailed]))
  }

  /** The caching step after a successful construction. */
  function Store(s: State, id: nat, key: Key, instance: Instance): State
    requires id < |s.scopes| && key in s.scopes[id].regs
  {
    var scope := s.scopes[id];
    match scope.regs[key].lifetime
    case Singleton =>
      WithScope(s, id, scope.(singletons := scope.singletons[key := instance],
                              status := scope.status[key := Resolved]))
    case Scoped => WithScope(s, id, scope.(scoped := scope.scoped[key := instance]))
    case Transient => s
  }

  /** The factory has a `**kwargs` parameter, which takes every keyword that no other one takes. */
  predicate TakesAny(slots: seq<Slot>) {
    exists i :: 0 <= i < |slots| && slots[i].kind.Keywords?
  }

  /**
    Whether one parameter is content with the call, which passes keywords only. An ordinary
    one must be filled or have a default. A positional-only one cannot be filled at all, so it needs
    a default; its keyword, like that of `*args`, is unexpected unless `**kwargs` takes it.
   */
  predicate SlotBinds(slot: Slot, filled: bool, takesAny: bool) {
    match slot.kind
    case Ordinary => slot.hasDefault || filled
    case PositionalOnly => slot.hasDefault && (filled ==> takesAny)
    case Positionals => filled ==> takesAny
    case Keywords => true
  }

  /** The factory call binds when every parameter is content with it. */
  predicate Binds(slots: seq<Slot>, params: map<string, Argument>) {
    forall i :: 0 <= i < |slots| ==> SlotBinds(slots[i], slots[i].name in params, TakesAny(slots))
  }

  /** Calls the factory; a call that does not bind raises before any user code runs. */
  function Construct(o: Oracle, s: State, id: nat, key: Key, params: map<string, Argument>): (Option<Instance>, State)
    requires id < |s.scopes| && key in s.scopes[id].regs
  {
    var reg := s.scopes[id].regs[key];
    if !Binds(reg.slots, params) then (None, s)
    else if reg.given.None? && o(s.calls) then (None, s.(calls := s.calls + 1))
    else
      var instance := if reg.given.Some? then Given(reg.given.value) else Built(s.calls);
      (Some(instance),
       s.(calls := s.calls + 1, log := s.log + [Build(id, key, reg.lifetime, params, instance)]))
  }

  /** The instance found in the caches the resolver consults before building. */
  function Cached(s: State, id: nat, key: Key): Option<Instance>
    requires WellFormed(s) && id < |s.scopes| && key in s.scopes[id].regs
  {
    var scope := s.scopes[id];
    match scope.regs[key].lifetime
    case Singleton =>
      if key in scope.singletons then Some(scope.singletons[key])
      else if scope.parent.Some? && key in s.scopes[scope.parent.value].singletons then
        Some(s.scopes[scope.parent.value].singletons[key])
      else None
    case Scoped => if key in scope.scoped then Some(scope.scoped[key]) else None
    case Transient => None
  }

  /** From the gathered arguments (or the exception) to the result of `_resolve`. */
  function Finish(o: Oracle, g: Gathering, id: nat, key: Key, rid: nat): Resolution
    requires id < |g.state.scopes| && key in g.state.scopes[id].regs
  {
    match g
    case Blocked(error, t) =>
      var u := Leave(t, id, key, rid);
      if error.Cyclic? then Resolution(Cyclic, u) else Resolution(Unresolved, MarkFailed(u, id, key))
    case Ready(args, t) =>
      var (built, u) := Construct(o, t, id, key, args.params);
      var v := Leave(u, id, key, rid);
      match built
      case None => Resolution(Unresolved, MarkFailed(v, id, key))
      case Some(instance) => Resolution(Ok(instance), Store(v, id, key, instance))
  }

  // ---- What a resolution must leave as found ----

  function Core(scope: Scope): Scope {
    scope.(status := map[], singletons := map[], scoped := map[])
  }

  function Cores(scopes: seq<Scope>): (cores: seq<Scope>)
    ensures |cores| == |scopes|
  {
    if scopes == [] then [] else [Core(scopes[0])] + Cores(scopes[1..])
  }

  /** The tree, the registrations and all of the bookkeeping are as they were. */
  predicate Undone(s: State, t: State) {
    t.visited == s.visited && Cores(t.scopes) == Cores(s.scopes)
  }

  lemma {:induction false} CoresAt(scopes: seq<Scope>, i: nat)
    requires i < |scopes|
    ensures Cores(scopes)[i] == Core(scopes[i])
  {
    if i > 0 {
      CoresAt(scopes[1..], i - 1);
    }
  }

  lemma CoresUpdate(scopes: seq<Scope>, id: nat, scope: Scope)
    requires id < |scopes|
    ensures Cores(scopes[id := scope]) == Cores(scopes)[id := Core(scope)]
  {
    var a, b := Cores(scopes[id := scope]), Cores(scopes)[id := Core(scope)];
    forall i | 0 <= i < |scopes|
      ensures a[i] == b[i]
    {
      CoresAt(scopes[id := scope], i);
      CoresAt(scopes, i);
    }
  }

  /** What an undone resolution means for one scope. */
  lemma UndoneAt(s: State, t: State, id: nat)
    requires Undone(s, t) && id < |s.scopes|
    ensures |t.scopes| == |s.scopes| && Core(t.scopes[id]) == Core(s.scopes[id])
    ensures t.scopes[id].parent == s.scopes[id].parent && t.scopes[id].regs == s.scopes[id].regs
    ensures t.scopes[id].marks == s.scopes[id].marks
    ensures t.scopes[id].aliases == s.scopes[id].aliases && t.scopes[id].counter == s.scopes[id].counter
    ensures t.scopes[id].since == s.scopes[id].since
  {
    CoresAt(s.scopes, id);
    CoresAt(t.scopes, id);
  }

  /** Every key registered in some scope. */
  function Universe(cores: seq<Scope>): set<Key> {
    if cores == [] then {} else cores[0].regs.Keys + Universe(cores[1..])
  }

  lemma {:induction false} UniverseSame(a: seq<Scope>, b: seq<Scope>)
    requires |a| == |b| && forall i :: 0 <= i < |a| ==> a[i].regs.Keys == b[i].regs.Keys
    ensures Universe(a) == Universe(b)
  {
    if a != [] {
      UniverseSame(a[1..], b[1..]);
    }
  }

  lemma {:induction false} UniverseMember(scopes: seq<Scope>, id: nat, key: Key)
    requires id < |scopes| && key in scopes[id].regs
    ensures key in Universe(scopes)
  {
    if id > 0 {
      UniverseMember(scopes[1..], id - 1, key);
    }
  }

  /** Names still unvisited: the outer part of the termination measure. */
  function Unvisited(s: State): set<Key> {
    Universe(Cores(s.scopes)) - s.visited
  }

  lemma UndoneMeasure(s: State, t: State)
    requires Undone(s, t)
    ensures |t.scopes| == |s.scopes| && Unvisited(t) == Unvisited(s)
    ensures WellFormed(s) ==> WellFormed(t)
  {
    assert |Cores(s.scopes)| == |Cores(t.scopes)|;
    forall i | 0 <= i < |s.scopes|
      ensures t.scopes[i].parent == s.scopes[i].parent
    {
      UndoneAt(s, t, i);
    }
  }

  lemma EnterMeasure(s: State, id: nat, key: Key, rid: nat)
    requires WellFormed(s) && id < |s.scopes| && key in s.scopes[id].regs && key !in s.visited
    ensures WellFormed(Enter(s, id, key, rid))
    ensures Unvisited(Enter(s, id, key, rid)) < Unvisited(s)
  {
    var t := Enter(s, id, key, rid);
    CoresUpdate(s.scopes, id, t.scopes[id]);
    CoresAt(s.scopes, id);
    UniverseSame(Cores(s.scopes), Cores(t.scopes));
    UniverseMember(Cores(s.scopes), id, key);
    assert key in Unvisited(s) && key !in Unvisited(t);
  }

  /** Leaving undoes entering, whatever was resolved in between. */
  lemma LeaveUndoes(s: State, id: nat, key: Key, rid: nat, t: State)
    requires id < |s.scopes| && key !in s.visited && (key, rid) !in s.scopes[id].marks
    requires Undone(Enter(s, id, key, rid), t)
    ensures |t.scopes| == |s.scopes| && t.scopes[id].regs == s.scopes[id].regs
    ensures Undone(s, Leave(t, id, key, rid))
  {
    var e := Enter(s, id, key, rid);
    UndoneAt(e, t, id);
    var u := Leave(t, id, key, rid);
    CoresUpdate(s.scopes, id, e.scopes[id]);
    CoresUpdate(t.scopes, id, u.scopes[id]);
    CoresAt(s.scopes, id);
    assert e.scopes[id].marks - {(key, rid)} == s.scopes[id].marks;
    assert e.visited - {key} == s.visited;
    assert Cores(s.scopes)[id := Core(e.scopes[id])][id := Core(u.scopes[id])] == Cores(s.scopes);
  }

  /** Caching, or writing a registration's status, changes no core. */
  lemma StoreKeepsCore(s: State, id: nat, key: Key, instance: Instance)
    requires id < |s.scopes| && key in s.scopes[id].regs
    ensures Undone(s, Store(s, id, key, instance)) && Undone(s, MarkFailed(s, id, key))
  {
    CoresAt(s.scopes, id);
    CoresUpdate(s.scopes, id, Store(s, id, key, instance).scopes[id]);
    CoresUpdate(s.scopes, id, MarkFailed(s, id, key).scopes[id]);
  }

  lemma FinishUndoes(o: Oracle, s: State, g: Gathering, id: nat, key: Key, rid: nat)
    requires id < |s.scopes| && key in s.scopes[id].regs && key !in s.visited
    requires (key, rid) !in s.scopes[id].marks
    requires Undone(Enter(s, id, key, rid), g.state)
    ensures |g.state.scopes| == |s.scopes| && g.state.scopes[id].regs == s.scopes[id].regs
    ensures Undone(s, Finish(o, g, id, key, rid).state)
  {
    LeaveUndoes(s, id, key, rid, g.state);
    match g
    case Blocked(error, t) =>
      StoreKeepsCore(Leave(t, id, key, rid), id, key, Given(0));
    case Ready(args, t) =>
      var (built, c) := Construct(o, t, id, key, args.params);
      LeaveUndoes(s, id, key, rid, c);
      StoreKeepsCore(Leave(c, id, key, rid), id, key, if built.Some? then built.value else Given(0));
  }

  // ---- The resolver ----

  /**
    `_resolve`: looks the key up here, then in the parent; the two cycle tests; the
    caches; then dependencies, construction and caching, with every exception path.
   */
  function Resolve(o: Oracle, s: State, id: nat, key: Key, rid: nat): (r: Resolution)
    requires WellFormed(s) && id < |s.scopes|
    ensures Undone(s, r.state)
    decreases Unvisited(s), id, 0, 0
  {
    var scope := s.scopes[id];
    if key !in scope.regs then
      if scope.parent.Some? then Resolve(o, s, scope.parent.value, key, rid)
      else Resolution(Missing, s)
    else if key in s.visited then Resolution(Cyclic, s)
    else if (key, rid) in scope.marks then Resolution(Cyclic, s)
    else if Cached(s, id, key).Some? then Resolution(Ok(Cached(s, id, key).value), s)
    else
      EnterMeasure(s, id, key, rid);
      var g := Gather(o, Enter(s, id, key, rid), id, scope.regs[key], 0, NoArgs, rid);
      FinishUndoes(o, s, g, id, key, rid);
      Finish(o, g, id, key, rid)
  }

  function Gather(o: Oracle, s: State, id: nat, reg: Registration, p: nat, args: Args, rid: nat): (g: Gathering)
    requires WellFormed(s) && id < |s.scopes| && p <= PlanSize(reg)
    ensures Undone(s, g.state)
    decreases Unvisited(s), id, 1, PlanSize(reg) - p
  {
    if p == PlanSize(reg) then Ready(args, s)
    else
      var want := WantAt(reg, p);
      match NeedOf(want, args)
      case Take(more) => Gather(o, s, id, reg, p + 1, more, rid)
      case First(key) =>
        var r := Resolve(o, s, id, key, rid);
        UndoneMeasure(s, r.state);
        match r.outcome
        case Ok(instance) => Gather(o, r.state, id, reg, p + 1, Supply(want, args, instance), rid)
        case Missing =>
          if want.Dep? then Blocked(Missing, r.state)
          else Gather(o, r.state, id, reg, p + 1, args, rid)
        case _ => Blocked(r.outcome, r.state)
  }

  // ---- Unfolding, one case at a time ----

  /** The registration is neither under construction nor cached, so it is built. */
  predicate Builds(s: State, id: nat, key: Key, rid: nat) {
    && WellFormed(s) && id < |s.scopes| && key in s.scopes[id].regs && key !in s.visited
    && (key, rid) !in s.scopes[id].marks && Cached(s, id, key).None?
  }

  /** The arguments gathered for a build. */
  function Gathered(o: Oracle, s: State, id: nat, key: Key, rid: nat): (g: Gathering)
    requires Builds(s, id, key, rid)
  {
    EnterMeasure(s, id, key, rid);
    Gather(o, Enter(s, id, key, rid), id, s.scopes[id].regs[key], 0, NoArgs, rid)
  }

  lemma ResolveBuilding(o: Oracle, s: State, id: nat, key: Key, rid: nat)
    requires Builds(s, id, key, rid)
    ensures
      var g, r := Gathered(o, s, id, key, rid), Resolve(o, s, id, key, rid);
      && WellFormed(Enter(s, id, key, rid)) && Unvisited(Enter(s, id, key, rid)) < Unvisited(s)
      && Undone(Enter(s, id, key, rid), g.state)
      && |g.state.scopes| == |s.scopes| && g.state.scopes[id].regs == s.scopes[id].regs
      && r == Finish(o, g, id, key, rid)
      && (r.outcome.Cyclic? <==> g.Blocked? && g.error.Cyclic?)
      && !r.outcome.Missing?
  {
    EnterMeasure(s, id, key, rid);
    FinishUndoes(o, s, Gathered(o, s, id, key, rid), id, key, rid);
  }

  /** A key that is not built is answered from a cache or reported as cyclic. */
  lemma ResolveNotBuilding(o: Oracle, s: State, id: nat, key: Key, rid: nat)
    requires WellFormed(s) && id < |s.scopes| && key in s.scopes[id].regs && !Builds(s, id, key, rid)
    ensures
      var r := Resolve(o, s, id, key, rid);
      && r.state == s && !r.outcome.Missing? && !r.outcome.Unresolved?
      && (r.outcome.Cyclic? <==> key in s.visited || (key, rid) in s.scopes[id].marks)
      && (r.outcome.Ok? ==> Cached(s, id, key) == Some(r.outcome.instance))
  {
  }

  lemma ResolveAbsent(o: Oracle, s: State, id: nat, key: Key, rid: nat)
    requires WellFormed(s) && id < |s.scopes| && key !in s.scopes[id].regs
    ensures s.scopes[id].parent.None? ==> Resolve(o, s, id, key, rid) == Resolution(Missing, s)
    ensures s.scopes[id].parent.Some? ==>
              Resolve(o, s, id, key, rid) == Resolve(o, s, s.scopes[id].parent.value, key, rid)
  {
  }

  lemma GatherDone(o: Oracle, s: State, id: nat, reg: Registration, args: Args, rid: nat)
    requires WellFormed(s) && id < |s.scopes|
    ensures Gather(o, s, id, reg, PlanSize(reg), args, rid) == Ready(args, s)
  {
  }

  lemma GatherTake(o: Oracle, s: State, id: nat, reg: Registration, p: nat, args: Args, rid: nat)
    requires WellFormed(s) && id < |s.scopes| && p < PlanSize(reg) && NeedOf(WantAt(reg, p), args).Take?
    ensures Gather(o, s, id, reg, p, args, rid) ==
            Gather(o, s, id, reg, p + 1, NeedOf(WantAt(reg, p), args).args, rid)
  {
  }

  /** Resolving a needed key keeps what the next step relies on. */
  lemma NeedResolved(o: Oracle, s: State, id: nat, key: Key, rid: nat)
    requires WellFormed(s) && id < |s.scopes|
    ensures
      var t := Resolve(o, s, id, key, rid).state;
      && WellFormed(t) && |t.scopes| == |s.scopes| && Unvisited(t) == Unvisited(s)
      && t.scopes[id].parent == s.scopes[id].parent && t.scopes[id].regs == s.scopes[id].regs
  {
    UndoneMeasure(s, Resolve(o, s, id, key, rid).state);
    UndoneAt(s, Resolve(o, s, id, key, rid).state, id);
  }

  lemma GatherFirst(
    o: Oracle, s: State, id: nat, reg: Registration, p: nat, args: Args, rid: nat, r: Resolution)
    requires WellFormed(s) && id < |s.scopes| && p < PlanSize(reg) && NeedOf(WantAt(reg, p), args).First?
    requires r == Resolve(o, s, id, NeedOf(WantAt(reg, p), args).key, rid)
    requires WellFormed(r.state) && |r.state.scopes| == |s.scopes|
    ensures Gather(o, s, id, reg, p, args, rid) ==
            if r.outcome.Ok? then
              Gather(o, r.state, id, reg, p + 1, Supply(WantAt(reg, p), args, r.outcome.instance), rid)
            else if r.outcome.Missing? && WantAt(reg, p).Fill? then
              Gather(o, r.state, id, reg, p + 1, args, rid)
            else Blocked(r.outcome, r.state)
  {
  }
}
