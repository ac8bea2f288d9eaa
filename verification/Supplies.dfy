/**
  When a resolution cannot run short, in any tree of containers: if every registration at or
  below a place finds its dependencies and can fill its required slots from where it stands,
  and no factory raises, then the only thing that can go wrong is a cycle report.
 */
module Supplies {
  import opened Prelude
  import opened ContainerModel
  import opened ContainerGrowth
  import opened RootResolution
  import opened ContainerRuns
  import opened Places

  ghost predicate NeverRaises(o: Oracle) {
    forall n :: !o(n)
  }

  /** Some slot of this name before position `p` has received a value. */
  predicate SuppliedBy(bp: map<Key, Registration>, reg: Registration, p: nat, name: string) {
    exists j ::
      0 <= j < |reg.slots| && |reg.dependsOn| + j < p && reg.slots[j].name == name && Gives(bp, reg, reg.slots[j])
  }

  /** The parameters gathered before position `p` are exactly those whose slots receive a value. */
  ghost predicate Filled(bp: map<Key, Registration>, reg: Registration, p: nat, params: map<string, Argument>) {
    forall name :: name in params <==> SuppliedBy(bp, reg, p, name)
  }

  /** With all slots seen to, the call binds exactly if the local condition on slots holds. */
  lemma FilledBinds(bp: map<Key, Registration>, reg: Registration, params: map<string, Argument>)
    requires Filled(bp, reg, PlanSize(reg), params)
    ensures Binds(reg.slots, params) <==>
              forall i :: 0 <= i < |reg.slots| ==>
                SlotBinds(reg.slots[i], Suppliable(bp, reg, reg.slots[i].name), TakesAny(reg.slots))
  {
    hide SlotBinds, TakesAny;
    forall name
      ensures SuppliedBy(bp, reg, PlanSize(reg), name) <==> Suppliable(bp, reg, name)
    {
      if j :| 0 <= j < |reg.slots| && reg.slots[j].name == name && Gives(bp, reg, reg.slots[j]) {
        assert |reg.dependsOn| + j < PlanSize(reg);
      }
    }
  }

  lemma NothingFilled(bp: map<Key, Registration>, reg: Registration)
    ensures Filled(bp, reg, 0, map[])
  {
  }

  /** A want that fills no slot, and one that fills slot `j`. */
  lemma FilledNext(
    bp: map<Key, Registration>, reg: Registration, p: nat, params: map<string, Argument>, arg: Argument)
    requires Filled(bp, reg, p, params) && p < PlanSize(reg)
    ensures (p < |reg.dependsOn| || !Gives(bp, reg, reg.slots[p - |reg.dependsOn|])) ==> Filled(bp, reg, p + 1, params)
    ensures p >= |reg.dependsOn| && Gives(bp, reg, reg.slots[p - |reg.dependsOn|]) ==>
              Filled(bp, reg, p + 1, params[reg.slots[p - |reg.dependsOn|].name := arg])
  {
    hide Gives;
    var i := p - |reg.dependsOn|;
    forall name
      ensures SuppliedBy(bp, reg, p + 1, name) <==>
                SuppliedBy(bp, reg, p, name) || (i >= 0 && reg.slots[i].name == name && Gives(bp, reg, reg.slots[i]))
    {
      if j :| (&& 0 <= j < |reg.slots| && |reg.dependsOn| + j < p + 1
               && reg.slots[j].name == name && Gives(bp, reg, reg.slots[j])) {
        assert j == i || |reg.dependsOn| + j < p;
      }
    }
  }

  /** Whatever a want does, the parameters are again exactly those whose slots receive a value. */
  lemma StepFills(bp: map<Key, Registration>, reg: Registration, p: nat, args: Args, instance: Instance)
    requires OnPlan(reg, p, args) && p < PlanSize(reg) && Filled(bp, reg, p, args.params)
    ensures
      var want := WantAt(reg, p);
      var need := NeedOf(want, args);
      && (need.Take? ==> Filled(bp, reg, p + 1, need.args.params))
      && (need.First? && (want.Fill? ==> need.key in bp) ==>
            Filled(bp, reg, p + 1, Supply(want, args, instance).params))
      && (need.First? && want.Fill? && need.key !in bp ==> Filled(bp, reg, p + 1, args.params))
  {
    hide Filled;
    FilledNext(bp, reg, p, args.params, Injected(instance));
    FilledNext(bp, reg, p, args.params, DefaultValue);
    if p >= |reg.dependsOn| && reg.slots[p - |reg.dependsOn|].name in args.deps {
      FilledNext(bp, reg, p, args.params, Injected(args.deps[reg.slots[p - |reg.dependsOn|].name]));
    }
  }

  lemma FinishBound(o: Oracle, g: Gathering, id: nat, key: Key, rid: nat)
    requires id < |g.state.scopes| && key in g.state.scopes[id].regs && NeverRaises(o)
    requires g.Ready? && Binds(g.state.scopes[id].regs[key].slots, g.args.params)
    ensures Finish(o, g, id, key, rid).outcome.Ok?
  {
  }

  // ---- What a container sees ----

  /** The registrations that keys stand for in a container: its own, over those of its ancestors. */
  function Visible(s: State, id: nat): map<Key, Registration>
    requires WellFormed(s) && id < |s.scopes|
    decreases id
  {
    if s.scopes[id].parent.Some? then Visible(s, s.scopes[id].parent.value) + s.scopes[id].regs else s.scopes[id].regs
  }

  lemma {:induction false} VisibleOwned(s: State, id: nat, key: Key)
    requires WellFormed(s) && id < |s.scopes|
    ensures key in Visible(s, id) <==> Owner(s, id, key).Some?
    ensures key in s.scopes[id].regs ==> Visible(s, id)[key] == s.scopes[id].regs[key]
    decreases id
  {
    if s.scopes[id].parent.Some? {
      VisibleOwned(s, s.scopes[id].parent.value, key);
    }
  }

  /** The registration at `a` finds all it needs from where it stands. */
  ghost predicate SuppliedAt(s: State, a: Place) {
    IsPlace(s, a) && Local(Visible(s, a.scope), RegAt(s, a))
  }

  ghost predicate SuppliedBelow(s: State, a: Place) {
    forall c :: Reaches(s, a, c) ==> SuppliedAt(s, c)
  }

  lemma SuppliedNeed(s: State, a: Place, c: Place)
    requires SuppliedBelow(s, a) && Leads(s, a, c)
    ensures SuppliedBelow(s, c)
  {
    hide SuppliedAt;
    LeadsReaches(s, a, c);
    forall d | Reaches(s, c, d)
      ensures SuppliedAt(s, d)
    {
      ReachesTransitive(s, a, c, d);
    }
  }

  lemma {:induction false} ResolveSuppliedAt(o: Oracle, b: State, s: State, a: Place, rid: nat, r: Resolution)
    requires IsPlace(b, a) && WellFormed(s) && SameTree(b, s) && NeverRaises(o) && SuppliedBelow(b, a)
    requires r == Resolve(o, s, a.scope, a.key, rid)
    ensures r.outcome.Ok? || r.outcome.Cyclic?
    decreases Unvisited(s), 0, 0
  {
    hide Resolve, Gather, SuppliedBelow, Finish;
    if Builds(s, a.scope, a.key, rid) {
      ResolveBuilding(o, s, a.scope, a.key, rid);
      var g := Gathered(o, s, a.scope, a.key, rid);
      NothingFilled(Visible(b, a.scope), RegAt(b, a));
      GatherSuppliedAt(o, b, Enter(s, a.scope, a.key, rid), a, 0, NoArgs, rid, g);
      if g.Ready? {
        SuppliedHere(b, a);
        FilledBinds(Visible(b, a.scope), RegAt(b, a), g.args.params);
        FinishBound(o, g, a.scope, a.key, rid);
      }
    } else {
      ResolveNotBuilding(o, s, a.scope, a.key, rid);
    }
  }

  lemma SuppliedHere(s: State, a: Place)
    requires IsPlace(s, a) && SuppliedBelow(s, a)
    ensures Local(Visible(s, a.scope), RegAt(s, a))
    ensures a.key in Visible(s, a.scope) && Visible(s, a.scope)[a.key] == RegAt(s, a)
  {
    ReachesSelf(s, a);
    VisibleOwned(s, a.scope, a.key);
  }

  lemma {:induction false} GatherSuppliedAt(
    o: Oracle, b: State, s: State, a: Place, p: nat, args: Args, rid: nat, g: Gathering)
    requires IsPlace(b, a) && WellFormed(s) && SameTree(b, s) && NeverRaises(o) && SuppliedBelow(b, a)
    requires OnPlan(RegAt(b, a), p, args) && Filled(Visible(b, a.scope), RegAt(b, a), p, args.params)
    requires g == Gather(o, s, a.scope, RegAt(b, a), p, args, rid)
    ensures g.Blocked? ==> g.error.Cyclic?
    ensures g.Ready? ==> Filled(Visible(b, a.scope), RegAt(b, a), PlanSize(RegAt(b, a)), g.args.params)
    decreases Unvisited(s), 1, PlanSize(RegAt(b, a)) - p
  {
    hide Resolve, Gather, SuppliedBelow, SameTree, Filled, Visible, Local;
    var reg, id, bp := RegAt(b, a), a.scope, Visible(b, a.scope);
    assert id < |s.scopes| by { TreeSize(b, s); }
    SuppliedHere(b, a);
    if p == PlanSize(reg) {
      GatherDone(o, s, id, reg, args, rid);
    } else {
      match NeedOf(WantAt(reg, p), args)
      case Take(more) =>
        GatherTake(o, s, id, reg, p, args, rid);
        TakeOnPlan(reg, p, args);
        StepFills(bp, reg, p, args, Given(0));
        GatherSuppliedAt(o, b, s, a, p + 1, more, rid, g);
      case First(key) =>
        var r := Resolve(o, s, id, key, rid);
        NeedResolved(o, s, id, key, rid);
        GatherFirst(o, s, id, reg, p, args, rid, r);
        NeedLeads(o, b, s, a, p, args, rid);
        VisibleOwned(b, id, key);
        UndoneSameTree(b, s, r.state);
        var owner := Owner(b, id, key);
        if owner.Some? {
          SuppliedNeed(b, a, Place(owner.value, key));
          ResolveSuppliedAt(o, b, s, Place(owner.value, key), rid, r);
          if r.outcome.Ok? {
            SupplyOnPlan(reg, p, args, r.outcome.instance);
            StepFills(bp, reg, p, args, r.outcome.instance);
            GatherSuppliedAt(o, b, r.state, a, p + 1, Supply(WantAt(reg, p), args, r.outcome.instance), rid, g);
          }
        } else {
          DependencyFound(bp, reg, p);
          SupplyOnPlan(reg, p, args, Given(0));
          StepFills(bp, reg, p, args, Given(0));
          GatherSuppliedAt(o, b, s, a, p + 1, args, rid, g);
        }
    }
  }

  lemma TreeSize(b: State, s: State)
    requires SameTree(b, s)
    ensures |s.scopes| == |b.scopes|
  {
  }

  lemma DependencyFound(bp: map<Key, Registration>, reg: Registration, p: nat)
    requires Local(bp, reg) && p < PlanSize(reg)
    ensures WantAt(reg, p).Dep? ==> WantAt(reg, p).key in bp
  {
  }
}
