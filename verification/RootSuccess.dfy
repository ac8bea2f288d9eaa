/**
  What a successful resolution in a root container proves, and when resolution must
  succeed. Together with `CycleReports.RootCycleIsReal` this characterises every outcome.
 */
module RootSuccess {
  import opened Prelude
  import opened Graph
  import opened ContainerModel
  import opened ContainerGrowth
  import opened RootResolution
  import opened Places
  import opened CycleReports
  import opened Supplies

  // ---- Soundness is local plus soundness of the successors ----

  lemma SoundStep(bp: map<Key, Registration>, singletons: map<Key, Instance>, n: Key)
    requires forall m :: Edge(EffectiveGraph(bp), n, m) ==> Sound(bp, singletons, m)
    requires n in bp ==> Local(bp, bp[n]) && (bp[n].lifetime.Singleton? ==> n in singletons)
    ensures Sound(bp, singletons, n)
  {
    var g := EffectiveGraph(bp);
    AcyclicStep(g, n);
    forall k | Below(g, n, k) && k in bp
      ensures Local(bp, bp[k]) && (bp[k].lifetime.Singleton? ==> k in singletons)
    {
      FirstStep(g, n, k);
      if k != n {
        var m :| Edge(g, n, m) && Below(g, m, k);
        assert Sound(bp, singletons, m);
      }
    }
  }

  lemma UnregisteredSound(bp: map<Key, Registration>, singletons: map<Key, Instance>, n: Key)
    requires n !in bp
    ensures Sound(bp, singletons, n)
  {
    assert forall m :: !Edge(EffectiveGraph(bp), n, m);
    SoundStep(bp, singletons, n);
  }

  lemma SoundMonotone(bp: map<Key, Registration>, a: map<Key, Instance>, b: map<Key, Instance>, n: Key)
    requires Sub(a, b) && Sound(bp, a, n)
    ensures Sound(bp, b, n)
  {
  }

  /** From position `p` on, everything the plan resolves is sound. */
  ghost predicate Met(bp: map<Key, Registration>, singletons: map<Key, Instance>, reg: Registration, p: nat) {
    && (forall i :: p <= i < |reg.dependsOn| ==> Grounded(bp, singletons, reg.dependsOn[i]))
    && (forall j :: 0 <= j < |reg.slots| && p <= |reg.dependsOn| + j && FollowsHint(reg, reg.slots[j]) ==>
          Sound(bp, singletons, reg.slots[j].hint.value))
  }

  lemma MetEdges(bp: map<Key, Registration>, singletons: map<Key, Instance>, node: Key)
    requires node in bp && Met(bp, singletons, bp[node], 0)
    ensures forall m :: Edge(EffectiveGraph(bp), node, m) ==> Sound(bp, singletons, m)
  {
    var reg := bp[node];
    forall m | Edge(EffectiveGraph(bp), node, m)
      ensures Sound(bp, singletons, m)
    {
      if m !in reg.dependsOn {
        HintKeysMembers(reg, reg.slots, m);
      }
    }
  }

  /** A construction that binds meets every local condition. */
  lemma BoundIsLocal(
    bp: map<Key, Registration>, singletons: map<Key, Instance>, node: Key, params: map<string, Argument>)
    requires node in bp && Met(bp, singletons, bp[node], 0)
    requires Filled(bp, bp[node], PlanSize(bp[node]), params) && Binds(bp[node].slots, params)
    ensures Local(bp, bp[node])
  {
    FilledBinds(bp, bp[node], params);
  }

  lemma GroundedGrows(bp: map<Key, Registration>, a: Scope, b: Scope)
    requires CacheGrounded(bp, a) && Sub(a.singletons, b.singletons)
    requires forall k :: (k in b.singletons && k !in a.singletons) || (k in b.scoped && k !in a.scoped) ==>
               Grounded(bp, b.singletons, k)
    ensures CacheGrounded(bp, b)
  {
    forall k | k in b.singletons || k in b.scoped
      ensures Grounded(bp, b.singletons, k)
    {
      if k in a.singletons || k in a.scoped {
        SoundMonotone(bp, a.singletons, b.singletons, k);
      }
    }
  }

  /** The end of a build: from met wants and a bound call to a grounded key. */
  lemma FinishGrounds(
    o: Oracle, s: State, id: nat, key: Key, rid: nat, bp: map<Key, Registration>, g: Gathering, r: Resolution)
    requires RootWith(s, id, bp) && RootWith(g.state, id, bp) && key in bp
    requires key in g.state.scopes[id].regs && r == Finish(o, g, id, key, rid)
    requires Undone(s, r.state)
    requires CacheGrounded(bp, g.state.scopes[id])
    requires g.Ready? ==>
               && Met(bp, g.state.scopes[id].singletons, bp[key], 0)
               && Filled(bp, bp[key], PlanSize(bp[key]), g.args.params)
    requires key !in g.state.scopes[id].singletons || !bp[key].lifetime.Singleton?
    ensures CacheGrounded(bp, r.state.scopes[id])
    ensures r.outcome.Ok? ==> Grounded(bp, r.state.scopes[id].singletons, key)
  {
    FinishEffect(o, g, id, key, rid);
    var a, b := g.state.scopes[id], r.state.scopes[id];
    if r.outcome.Ok? {
      BoundIsLocal(bp, a.singletons, key, g.args.params);
      MetEdges(bp, a.singletons, key);
      forall m | Edge(EffectiveGraph(bp), key, m)
        ensures Sound(bp, b.singletons, m)
      {
        SoundMonotone(bp, a.singletons, b.singletons, m);
      }
      SoundStep(bp, b.singletons, key);
    }
    GroundedGrows(bp, a, b);
  }

  lemma {:induction false} ResolveGrounds(
    o: Oracle, s: State, id: nat, key: Key, rid: nat, bp: map<Key, Registration>, r: Resolution)
    requires RootWith(s, id, bp) && CacheGrounded(bp, s.scopes[id])
    requires r == Resolve(o, s, id, key, rid)
    ensures RootWith(r.state, id, bp) && CacheGrounded(bp, r.state.scopes[id])
    ensures r.outcome.Ok? ==> Grounded(bp, r.state.scopes[id].singletons, key)
    ensures r.outcome.Missing? <==> key !in bp
    decreases Unvisited(s), id, 0, 0
  {
    RootKept(s, r.state, id, bp);
    if Builds(s, id, key, rid) {
      ResolveBuilding(o, s, id, key, rid);
      var e := Enter(s, id, key, rid);
      var g := Gathered(o, s, id, key, rid);
      assert e.scopes[id].singletons == s.scopes[id].singletons && e.scopes[id].scoped == s.scopes[id].scoped;
      NothingFilled(bp, bp[key]);
      GatherGrounds(o, e, id, key, 0, NoArgs, rid, bp, g);
      GatherExtends(o, e, id, bp[key], 0, NoArgs, rid, g);
      assert Untouched(e.scopes[id], g.state.scopes[id], e.visited) && key in e.visited;
      FinishGrounds(o, s, id, key, rid, bp, g, r);
    } else if key in bp {
      ResolveNotBuilding(o, s, id, key, rid);
    }
  }

  lemma {:induction false} GatherGrounds(
    o: Oracle, s: State, id: nat, node: Key, p: nat, args: Args, rid: nat, bp: map<Key, Registration>,
    gathering: Gathering)
    requires RootWith(s, id, bp) && CacheGrounded(bp, s.scopes[id])
    requires node in bp && OnPlan(bp[node], p, args) && Filled(bp, bp[node], p, args.params)
    requires gathering == Gather(o, s, id, bp[node], p, args, rid)
    ensures RootWith(gathering.state, id, bp) && CacheGrounded(bp, gathering.state.scopes[id])
    ensures gathering.Ready? ==>
              && Met(bp, gathering.state.scopes[id].singletons, bp[node], p)
              && Filled(bp, bp[node], PlanSize(bp[node]), gathering.args.params)
    decreases Unvisited(s), id, 1, PlanSize(bp[node]) - p
  {
    hide Resolve, Gather, Filled;
    var reg := bp[node];
    RootKept(s, gathering.state, id, bp);
    if p == PlanSize(reg) {
      GatherDone(o, s, id, reg, args, rid);
    } else {
      match NeedOf(WantAt(reg, p), args)
      case Take(more) =>
        GatherTake(o, s, id, reg, p, args, rid);
        TakeOnPlan(bp[node], p, args);
        StepFills(bp, reg, p, args, Given(0));
        GatherGrounds(o, s, id, node, p + 1, more, rid, bp, gathering);
        TakeMet(bp, gathering.state.scopes[id].singletons, node, p, args);
      case First(key) =>
        var r := Resolve(o, s, id, key, rid);
        NeedResolved(o, s, id, key, rid);
        GatherFirst(o, s, id, reg, p, args, rid, r);
        ResolveGrounds(o, s, id, key, rid, bp, r);
        if r.outcome.Ok? {
          var more := Supply(WantAt(reg, p), args, r.outcome.instance);
          SupplyOnPlan(bp[node], p, args, r.outcome.instance);
          StepFills(bp, reg, p, args, r.outcome.instance);
          GatherGrounds(o, r.state, id, node, p + 1, more, rid, bp, gathering);
          GatherExtends(o, r.state, id, reg, p + 1, more, rid, gathering);
          assert CachesGrew(r.state.scopes[id], gathering.state.scopes[id]);
          SoundMonotone(bp, r.state.scopes[id].singletons, gathering.state.scopes[id].singletons, key);
          FirstMet(bp, gathering.state.scopes[id].singletons, node, p, args);
        } else if r.outcome.Missing? && WantAt(reg, p).Fill? {
          SupplyOnPlan(bp[node], p, args, Given(0));
          StepFills(bp, reg, p, args, Given(0));
          GatherGrounds(o, r.state, id, node, p + 1, args, rid, bp, gathering);
          UnregisteredSound(bp, gathering.state.scopes[id].singletons, key);
          FirstMet(bp, gathering.state.scopes[id].singletons, node, p, args);
        }
    }
  }

  lemma TakeMet(bp: map<Key, Registration>, singletons: map<Key, Instance>, node: Key, p: nat, args: Args)
    requires node in bp && OnPlan(bp[node], p, args) && p < PlanSize(bp[node])
    requires NeedOf(WantAt(bp[node], p), args).Take?
    ensures Met(bp, singletons, bp[node], p + 1) ==> Met(bp, singletons, bp[node], p)
  {
  }

  lemma FirstMet(bp: map<Key, Registration>, singletons: map<Key, Instance>, node: Key, p: nat, args: Args)
    requires node in bp && OnPlan(bp[node], p, args) && p < PlanSize(bp[node])
    requires NeedOf(WantAt(bp[node], p), args).First?
    requires Sound(bp, singletons, NeedOf(WantAt(bp[node], p), args).key)
    requires WantAt(bp[node], p).Dep? ==> NeedOf(WantAt(bp[node], p), args).key in bp
    ensures Met(bp, singletons, bp[node], p + 1) ==> Met(bp, singletons, bp[node], p)
  {
  }

  // ---- When resolution must succeed ----

  lemma ResolveSupplied(
    o: Oracle, s: State, id: nat, key: Key, rid: nat, bp: map<Key, Registration>, r: Resolution)
    requires RootWith(s, id, bp) && NeverRaises(o) && key in bp && LocalBelow(bp, key)
    requires r == Resolve(o, s, id, key, rid)
    ensures r.outcome.Ok? || r.outcome.Cyclic?
  {
    hide Resolve, Local;
    var a := Place(id, key);
    forall c | Reaches(s, a, c)
      ensures SuppliedAt(s, c)
    {
      RootReaches(s, a, c);
    }
    ResolveSuppliedAt(o, s, s, a, rid, r);
  }

  // ---- The exact outcome ----

  /** A successful resolution shows that nothing below the key is cyclic, whatever was cached. */
  lemma SuccessProvesAcyclic(o: Oracle, s: State, id: nat, key: Key, rid: nat)
    requires WellFormed(s) && id < |s.scopes| && s.scopes[id].parent.None?
    requires CacheGrounded(s.scopes[id].regs, s.scopes[id])
    requires Resolve(o, s, id, key, rid).outcome.Ok?
    ensures AcyclicBelow(EffectiveGraph(s.scopes[id].regs), key)
    ensures AcyclicBelow(DeclaredGraph(s.scopes[id].regs), key)
  {
    var bp := s.scopes[id].regs;
    ResolveGrounds(o, s, id, key, rid, bp, Resolve(o, s, id, key, rid));
    AcyclicMonotone(DeclaredGraph(bp), EffectiveGraph(bp), key);
  }

  /** With factories that do not raise, the outcome is decided by the registrations alone. */
  lemma ResolutionExact(o: Oracle, s: State, id: nat, key: Key, rid: nat)
    requires WellFormed(s) && id < |s.scopes| && s.scopes[id].parent.None? && Quiet(s) && NeverRaises(o)
    requires CacheGrounded(s.scopes[id].regs, s.scopes[id])
    ensures
      var bp, outcome := s.scopes[id].regs, Resolve(o, s, id, key, rid).outcome;
      var g := EffectiveGraph(bp);
      && (outcome.Ok? <==> key in bp && AcyclicBelow(g, key) && LocalBelow(bp, key))
      && (outcome.Missing? <==> key !in bp)
      && (outcome.Cyclic? ==> CycleBelow(g, key))
      && (key in bp && LocalBelow(bp, key) && CycleBelow(g, key) ==> outcome.Cyclic?)
  {
    var bp := s.scopes[id].regs;
    var r := Resolve(o, s, id, key, rid);
    ResolveGrounds(o, s, id, key, rid, bp, r);
    if r.outcome.Cyclic? {
      RootCycleIsReal(o, s, id, key, rid, bp);
    }
    if key in bp && LocalBelow(bp, key) {
      ResolveSupplied(o, s, id, key, rid, bp, r);
    }
  }
}
