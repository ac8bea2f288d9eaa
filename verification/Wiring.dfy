/**
  Injection is correct. Every object a resolution builds, at any depth and in any scope, is
  handed the right arguments: for each parameter the instance made for the declared
  dependency of that name, else its default, else the instance made for its type hint.
 */
module Wiring {
  import opened Prelude
  import opened ContainerModel
  import opened ContainerGrowth
  import opened SingletonOnce
  import opened ContainerRuns

  /** The instance was built for the key by the container that answers for it, or by that one's parent. */
  ghost predicate MadeFor(s: State, id: nat, key: Key, x: Instance)
    requires WellFormed(s) && id < |s.scopes|
  {
    var owner := Owner(s, id, key);
    && owner.Some? && owner.value < |s.scopes|
    && (|| Logged(s, owner.value, key, x)
        || (s.scopes[owner.value].parent.Some? && Logged(s, s.scopes[owner.value].parent.value, key, x)))
  }

  /** The slot calls for this argument: dependency before default before hint. */
  ghost predicate Fits(s: State, id: nat, reg: Registration, slot: Slot, a: Argument)
    requires WellFormed(s) && id < |s.scopes|
  {
    if slot.name in reg.dependsOn then a.Injected? && MadeFor(s, id, slot.name, a.instance)
    else if slot.hasDefault then a.DefaultValue?
    else slot.hint.Some? && a.Injected? && MadeFor(s, id, slot.hint.value, a.instance)
  }

  ghost predicate ParamsWired(s: State, id: nat, reg: Registration, params: map<string, Argument>)
    requires WellFormed(s) && id < |s.scopes|
  {
    forall n :: n in params ==>
      exists i :: 0 <= i < |reg.slots| && reg.slots[i].name == n && Fits(s, id, reg, reg.slots[i], params[n])
  }

  /** The declared dependencies before position `p` are resolved, each to an instance made for it. */
  ghost predicate DepsWired(s: State, id: nat, reg: Registration, p: nat, deps: map<Key, Instance>)
    requires WellFormed(s) && id < |s.scopes|
  {
    && (forall k :: k in deps ==> k in reg.dependsOn && MadeFor(s, id, k, deps[k]))
    && (forall i :: 0 <= i < p && i < |reg.dependsOn| ==> reg.dependsOn[i] in deps)
  }

  ghost predicate ArgsWired(s: State, id: nat, reg: Registration, p: nat, args: Args)
    requires WellFormed(s) && id < |s.scopes|
  {
    DepsWired(s, id, reg, p, args.deps) && ParamsWired(s, id, reg, args.params)
  }

  /** The build got every argument it needs, and each from the right place. */
  ghost predicate BuildWired(s: State, b: Build)
    requires WellFormed(s)
  {
    && b.scope < |s.scopes| && b.key in s.scopes[b.scope].regs
    && Binds(s.scopes[b.scope].regs[b.key].slots, b.args)
    && ParamsWired(s, b.scope, s.scopes[b.scope].regs[b.key], b.args)
  }

  /** Everything built between the two states is wired. */
  ghost predicate NewWired(s: State, t: State)
    requires WellFormed(t)
  {
    forall j :: |s.log| <= j < |t.log| ==> BuildWired(t, t.log[j])
  }

  // ---- What a later state keeps ----

  /** The same tree and registrations, and a longer log. */
  ghost predicate Grown(s: State, t: State) {
    SameTree(s, t) && s.log <= t.log
  }

  lemma ExtendsGrown(s: State, t: State)
    requires Extends(s, t)
    ensures Grown(s, t)
  {
    UndoneSameTree(s, s, t);
  }

  /** Finishing a build may only append to the log of what was gathered. */
  lemma FinishGrown(o: Oracle, s: State, id: nat, key: Key, rid: nat, g: Gathering, r: Resolution)
    requires Builds(s, id, key, rid) && g == Gathered(o, s, id, key, rid) && r == Resolve(o, s, id, key, rid)
    ensures Grown(g.state, r.state)
  {
    hide Resolve, Gather, Finish;
    ResolveBuilding(o, s, id, key, rid);
    FinishEffect(o, g, id, key, rid);
    var e := Enter(s, id, key, rid);
    forall i | 0 <= i < |s.scopes|
      ensures r.state.scopes[i].parent == g.state.scopes[i].parent && r.state.scopes[i].regs == g.state.scopes[i].regs
    {
      UndoneAt(e, g.state, i);
      UndoneAt(s, r.state, i);
    }
  }

  lemma MadeForKept(s: State, t: State, id: nat, key: Key, x: Instance)
    requires WellFormed(s) && WellFormed(t) && Grown(s, t) && id < |s.scopes| && MadeFor(s, id, key, x)
    ensures MadeFor(t, id, key, x)
  {
    OwnerSameTree(s, t, id, key);
    var a := Owner(s, id, key).value;
    assert forall i, k, y :: Logged(s, i, k, y) ==> Logged(t, i, k, y);
  }

  lemma FitsKept(s: State, t: State, id: nat, reg: Registration, slot: Slot, a: Argument)
    requires WellFormed(s) && WellFormed(t) && Grown(s, t) && id < |s.scopes| && Fits(s, id, reg, slot, a)
    ensures Fits(t, id, reg, slot, a)
  {
    hide Grown, MadeFor;
    if slot.name in reg.dependsOn {
      MadeForKept(s, t, id, slot.name, a.instance);
    } else if !slot.hasDefault {
      MadeForKept(s, t, id, slot.hint.value, a.instance);
    }
  }

  lemma ParamsKept(s: State, t: State, id: nat, reg: Registration, params: map<string, Argument>)
    requires WellFormed(s) && WellFormed(t) && Grown(s, t) && id < |s.scopes| && id < |t.scopes|
    requires ParamsWired(s, id, reg, params)
    ensures ParamsWired(t, id, reg, params)
  {
    hide Fits;
    forall n | n in params
      ensures exists i :: 0 <= i < |reg.slots| && reg.slots[i].name == n && Fits(t, id, reg, reg.slots[i], params[n])
    {
      var i :| 0 <= i < |reg.slots| && reg.slots[i].name == n && Fits(s, id, reg, reg.slots[i], params[n]);
      FitsKept(s, t, id, reg, reg.slots[i], params[n]);
    }
  }

  lemma ArgsKept(s: State, t: State, id: nat, reg: Registration, p: nat, args: Args)
    requires WellFormed(s) && WellFormed(t) && Grown(s, t) && id < |s.scopes| && id < |t.scopes|
    requires ArgsWired(s, id, reg, p, args)
    ensures ArgsWired(t, id, reg, p, args)
  {
    hide MadeFor, ParamsWired;
    ParamsKept(s, t, id, reg, args.params);
    forall k | k in args.deps
      ensures MadeFor(t, id, k, args.deps[k])
    {
      MadeForKept(s, t, id, k, args.deps[k]);
    }
  }

  lemma BuildKept(s: State, t: State, b: Build)
    requires WellFormed(s) && WellFormed(t) && Grown(s, t) && BuildWired(s, b)
    ensures BuildWired(t, b)
  {
    hide ParamsWired;
    ParamsKept(s, t, b.scope, s.scopes[b.scope].regs[b.key], b.args);
  }

  lemma NewWiredJoins(s: State, t: State, u: State)
    requires WellFormed(t) && WellFormed(u) && Grown(t, u) && NewWired(s, t) && NewWired(t, u)
    ensures NewWired(s, u)
  {
    hide BuildWired;
    forall j | |s.log| <= j < |u.log|
      ensures BuildWired(u, u.log[j])
    {
      if j < |t.log| {
        assert u.log[j] == t.log[j];
        BuildKept(t, u, t.log[j]);
      }
    }
  }

  // ---- One step of the plan ----

  lemma TakeWired(s: State, id: nat, reg: Registration, p: nat, args: Args)
    requires WellFormed(s) && id < |s.scopes| && p < PlanSize(reg) && ArgsWired(s, id, reg, p, args)
    requires NeedOf(WantAt(reg, p), args).Take?
    ensures ArgsWired(s, id, reg, p + 1, NeedOf(WantAt(reg, p), args).args)
  {
    hide MadeFor;
    var slot := reg.slots[p - |reg.dependsOn|];
    assert slot.name in args.deps <==> slot.name in reg.dependsOn;
    var params := NeedOf(WantAt(reg, p), args).args.params;
    if slot.name in args.deps || slot.hasDefault {
      assert Fits(s, id, reg, slot, params[slot.name]);
      ParamAdded(s, id, reg, args.params, p - |reg.dependsOn|, params[slot.name]);
    }
  }

  lemma ParamAdded(s: State, id: nat, reg: Registration, params: map<string, Argument>, i: nat, a: Argument)
    requires WellFormed(s) && id < |s.scopes| && ParamsWired(s, id, reg, params)
    requires i < |reg.slots| && Fits(s, id, reg, reg.slots[i], a)
    ensures ParamsWired(s, id, reg, params[reg.slots[i].name := a])
  {
    hide Fits;
  }

  lemma SupplyWired(s: State, id: nat, reg: Registration, p: nat, args: Args, x: Instance)
    requires WellFormed(s) && id < |s.scopes| && p < PlanSize(reg) && ArgsWired(s, id, reg, p, args)
    requires NeedOf(WantAt(reg, p), args).First? && MadeFor(s, id, NeedOf(WantAt(reg, p), args).key, x)
    ensures ArgsWired(s, id, reg, p + 1, Supply(WantAt(reg, p), args, x))
  {
    hide MadeFor;
    if p < |reg.dependsOn| {
      hide ParamsWired;
      assert ParamsWired(s, id, reg, args.params);
    } else {
      var slot := reg.slots[p - |reg.dependsOn|];
      assert Fits(s, id, reg, slot, Injected(x));
      ParamAdded(s, id, reg, args.params, p - |reg.dependsOn|, Injected(x));
    }
  }

  // ---- The resolver ----

  lemma {:induction false} ResolveWires(o: Oracle, s: State, id: nat, key: Key, rid: nat, r: Resolution)
    requires WellFormed(s) && id < |s.scopes| && LifetimeInv(s) && r == Resolve(o, s, id, key, rid)
    ensures WellFormed(r.state) && |r.state.scopes| == |s.scopes| && NewWired(s, r.state)
    ensures r.outcome.Ok? ==> MadeFor(r.state, id, key, r.outcome.instance)
    decreases Unvisited(s), id, 0, 0
  {
    hide Resolve, Gather, Finish, LifetimeInv, ParamsWired, MadeFor, BuildWired;
    UndoneMeasure(s, r.state);
    if key !in s.scopes[id].regs {
      ResolveAbsent(o, s, id, key, rid);
      if s.scopes[id].parent.Some? {
        ResolveWires(o, s, s.scopes[id].parent.value, key, rid, r);
        if r.outcome.Ok? {
          UndoneAt(s, r.state, id);
          MadeForInherited(r.state, id, key, r.outcome.instance);
        }
      }
    } else if Builds(s, id, key, rid) {
      ResolveBuilding(o, s, id, key, rid);
      var e, g := Enter(s, id, key, rid), Gathered(o, s, id, key, rid);
      EnterKeeps(s, id, key, rid);
      NoArgsWired(e, id, s.scopes[id].regs[key]);
      GatherWires(o, e, id, s.scopes[id].regs[key], 0, NoArgs, rid, g);
      FinishWires(o, s, id, key, rid, g, r);
    } else {
      ResolveNotBuilding(o, s, id, key, rid);
      if r.outcome.Ok? {
        CachedMadeFor(s, id, key);
      }
    }
  }

  lemma MadeForInherited(s: State, id: nat, key: Key, x: Instance)
    requires WellFormed(s) && id < |s.scopes| && key !in s.scopes[id].regs && s.scopes[id].parent.Some?
    requires MadeFor(s, s.scopes[id].parent.value, key, x)
    ensures MadeFor(s, id, key, x)
  {
  }

  lemma CachedMadeFor(s: State, id: nat, key: Key)
    requires WellFormed(s) && id < |s.scopes| && LifetimeInv(s) && key in s.scopes[id].regs
    requires Cached(s, id, key).Some?
    ensures MadeFor(s, id, key, Cached(s, id, key).value)
  {
    hide Logged;
    assert CacheLogged(s, id);
    if s.scopes[id].parent.Some? {
      assert CacheLogged(s, s.scopes[id].parent.value);
    }
  }

  lemma FinishWires(o: Oracle, s: State, id: nat, key: Key, rid: nat, g: Gathering, r: Resolution)
    requires Builds(s, id, key, rid) && g == Gathered(o, s, id, key, rid) && r == Resolve(o, s, id, key, rid)
    requires WellFormed(g.state) && |g.state.scopes| == |s.scopes| && NewWired(s, g.state)
    requires WellFormed(r.state) && |r.state.scopes| == |s.scopes|
    requires g.Ready? ==> ParamsWired(g.state, id, s.scopes[id].regs[key], g.args.params)
    ensures NewWired(s, r.state)
    ensures r.outcome.Ok? ==> MadeFor(r.state, id, key, r.outcome.instance)
  {
    hide Resolve, Gather, Finish, ParamsWired, BuildWired, Grown;
    ResolveBuilding(o, s, id, key, rid);
    FinishEffect(o, g, id, key, rid);
    FinishGrown(o, s, id, key, rid, g, r);
    var t := r.state;
    UndoneAt(s, t, id);
    if r.outcome.Ok? {
      ParamsKept(g.state, t, id, s.scopes[id].regs[key], g.args.params);
      LastWired(g.state, t, id, key, g.args.params, r.outcome.instance);
    }
    NewWiredJoins(s, g.state, t);
  }

  /** The entry that finishing appends. */
  lemma LastWired(s: State, t: State, id: nat, key: Key, params: map<string, Argument>, x: Instance)
    requires WellFormed(t) && id < |t.scopes| && key in t.scopes[id].regs
    requires t.log == s.log + [Build(id, key, t.scopes[id].regs[key].lifetime, params, x)]
    requires Binds(t.scopes[id].regs[key].slots, params) && ParamsWired(t, id, t.scopes[id].regs[key], params)
    ensures NewWired(s, t) && MadeFor(t, id, key, x)
  {
    hide ParamsWired, Binds;
    assert t.log[|s.log|].key == key;
    assert Logged(t, id, key, x);
  }

  lemma {:induction false} GatherWires(
    o: Oracle, s: State, id: nat, reg: Registration, p: nat, args: Args, rid: nat, g: Gathering)
    requires WellFormed(s) && id < |s.scopes| && LifetimeInv(s) && p <= PlanSize(reg)
    requires ArgsWired(s, id, reg, p, args) && g == Gather(o, s, id, reg, p, args, rid)
    ensures WellFormed(g.state) && |g.state.scopes| == |s.scopes| && NewWired(s, g.state)
    ensures g.Ready? ==> ParamsWired(g.state, id, reg, g.args.params)
    decreases Unvisited(s), id, 1, PlanSize(reg) - p
  {
    hide Resolve, Gather, LifetimeInv, DepsWired, ParamsWired, MadeFor, BuildWired, Grown, NeedOf, Supply, NewWired;
    UndoneMeasure(s, g.state);
    if p == PlanSize(reg) {
      GatherDone(o, s, id, reg, args, rid);
      NothingNew(s);
    } else {
      match NeedOf(WantAt(reg, p), args)
      case Take(more) =>
        GatherTake(o, s, id, reg, p, args, rid);
        TakeWired(s, id, reg, p, args);
        GatherWires(o, s, id, reg, p + 1, more, rid, g);
      case First(key) =>
        var r := Resolve(o, s, id, key, rid);
        NeedResolved(o, s, id, key, rid);
        GatherFirst(o, s, id, reg, p, args, rid, r);
        ResolveWires(o, s, id, key, rid, r);
        ResolveOnce(o, s, id, key, rid, r);
        ResolveExtends(o, s, id, key, rid, r);
        ExtendsGrown(s, r.state);
        ArgsKept(s, r.state, id, reg, p, args);
        if r.outcome.Ok? {
          var more := Supply(WantAt(reg, p), args, r.outcome.instance);
          SupplyWired(r.state, id, reg, p, args, r.outcome.instance);
          GatherExtends(o, r.state, id, reg, p + 1, more, rid, g);
          ExtendsGrown(r.state, g.state);
          GatherWires(o, r.state, id, reg, p + 1, more, rid, g);
          NewWiredJoins(s, r.state, g.state);
        } else if r.outcome.Missing? && WantAt(reg, p).Fill? {
          SkipWired(r.state, id, reg, p, args);
          GatherExtends(o, r.state, id, reg, p + 1, args, rid, g);
          ExtendsGrown(r.state, g.state);
          GatherWires(o, r.state, id, reg, p + 1, args, rid, g);
          NewWiredJoins(s, r.state, g.state);
        }
    }
  }

  lemma NoArgsWired(s: State, id: nat, reg: Registration)
    requires WellFormed(s) && id < |s.scopes|
    ensures ArgsWired(s, id, reg, 0, NoArgs)
  {
  }

  lemma NothingNew(s: State)
    requires WellFormed(s)
    ensures NewWired(s, s)
  {
  }

  lemma SkipWired(s: State, id: nat, reg: Registration, p: nat, args: Args)
    requires WellFormed(s) && id < |s.scopes| && p < PlanSize(reg) && ArgsWired(s, id, reg, p, args)
    requires WantAt(reg, p).Fill?
    ensures ArgsWired(s, id, reg, p + 1, args)
  {
  }

  /** After any run: everything a public resolve builds is wired as its registration says. */
  lemma ServeWires(o: Oracle, ops: seq<Op>, id: nat, interface: string, name: string)
    requires id < |Run(o, Initial, ops).scopes|
    ensures
      var s := Run(o, Initial, ops);
      var r := Serve(o, s, id, interface, name);
      && NewWired(s, r.state)
      && (r.outcome.Ok? ==> MadeFor(r.state, id, ResolveKey(s, id, KeyOf(interface, name)), r.outcome.instance))
  {
    hide Resolve, Run, MadeFor, NewWired;
    RunKeeps(o, Initial, ops);
    var s := Run(o, Initial, ops);
    var n, rid := Numbered(s, id), s.scopes[id].counter + 1;
    var key := ResolveKey(s, id, KeyOf(interface, name));
    SameCaches(s, n);
    ResolveWires(o, n, id, key, rid, Resolve(o, n, id, key, rid));
    SameLog(n, s, Resolve(o, n, id, key, rid).state);
  }

  lemma SameLog(n: State, s: State, t: State)
    requires WellFormed(t) && NewWired(n, t) && n.log == s.log
    ensures NewWired(s, t)
  {
  }
}
