/**
  The start gate and what it buys. The gate is the cycle check and the missing-dependency
  check, run before anything is built. In a root container it accepts exactly the
  registrations under which every registered service can be resolved.
 */
module StartGate {
  import opened Prelude
  import opened Graph
  import opened ContainerModel
  import opened ContainerGrowth
  import opened RootResolution
  import opened CycleReports
  import opened Supplies
  import opened RootSuccess
  import opened SingletonOnce
  import opened ContainerRuns
  import opened Validator

  /** `is_registered`: here or in an ancestor; aliases do not count. */
  predicate IsRegistered(s: State, id: nat, key: Key)
    requires WellFormed(s) && id < |s.scopes|
    decreases id
  {
    key in s.scopes[id].regs || (s.scopes[id].parent.Some? && IsRegistered(s, s.scopes[id].parent.value, key))
  }

  /** `MissingDependencyChecker.check`: the declared dependencies that no container of the chain has. */
  method CheckMissing(s: State, id: nat, order: seq<Key>) returns (missing: seq<(Key, Key)>)
    requires WellFormed(s) && id < |s.scopes| && forall k :: k in order <==> k in s.scopes[id].regs
    ensures forall k, d ::
              (k, d) in missing <==>
                k in s.scopes[id].regs && d in s.scopes[id].regs[k].dependsOn && !IsRegistered(s, id, d)
    ensures missing == [] <==>
              forall k, d :: k in s.scopes[id].regs && d in s.scopes[id].regs[k].dependsOn ==> IsRegistered(s, id, d)
  {
    missing := [];
    for i := 0 to |order|
      invariant forall k, d ::
        (k, d) in missing <==> k in order[..i] && d in s.scopes[id].regs[k].dependsOn && !IsRegistered(s, id, d)
    {
      var deps := s.scopes[id].regs[order[i]].dependsOn;
      ghost var before := missing;
      for j := 0 to |deps|
        invariant forall k, d ::
          (k, d) in missing <==> (k, d) in before || (k == order[i] && d in deps[..j] && !IsRegistered(s, id, d))
      {
        if !IsRegistered(s, id, deps[j]) {
          missing := missing + [(order[i], deps[j])];
        }
      }
      assert deps[..|deps|] == deps;
    }
    assert order[..|order|] == order;
    if missing != [] {
      assert (missing[0].0, missing[0].1) in missing;
    }
  }

  /** The registrations of a root container pass both checks. */
  ghost predicate Accepted(bp: map<Key, Registration>) {
    && !HasCycle(DeclaredGraph(bp))
    && forall k, d {:trigger d in bp[k].dependsOn} :: k in bp && d in bp[k].dependsOn ==> d in bp
  }

  /**
    The gate on a root container, as the pipeline runs it with the outcomes of the other
    checkers: the kernel starts exactly when the registrations are accepted and no other
    checker fails.
   */
  method Gate(s: State, id: nat, order: seq<Key>, others: seq<CheckRun>) returns (starts: bool)
    requires WellFormed(s) && id < |s.scopes| && s.scopes[id].parent.None?
    requires forall k :: k in order <==> k in s.scopes[id].regs
    ensures starts <==> Accepted(s.scopes[id].regs) && forall r :: r in others ==> !Fails(r)
  {
    hide HasCycle, DeclaredGraph;
    var regs := s.scopes[id].regs;
    assert DeclaredGraph(regs).Keys == regs.Keys by { DeclaredKeys(regs); }
    var cycle := CheckCycles(DeclaredGraph(regs), order);
    var missing := CheckMissing(s, id, order);
    assert forall d :: IsRegistered(s, id, d) <==> d in regs;
    assert missing == [] <==> forall k, d :: k in regs && d in regs[k].dependsOn ==> IsRegistered(s, id, d);
    var first := Returned("circular_dependency", if cycle.Some? then "failed" else "passed");
    var second := Returned("missing_dependency", if missing == [] then "passed" else "failed");
    AddedRuns(first, second, others);
    var report := Validate([first, second] + others);
    starts := report.Success();
  }

  lemma DeclaredKeys(bp: map<Key, Registration>)
    ensures DeclaredGraph(bp).Keys == bp.Keys
  {
  }

  lemma AddedRuns(first: CheckRun, second: CheckRun, others: seq<CheckRun>)
    ensures (forall r :: r in [first, second] + others ==> !Fails(r)) <==>
            !Fails(first) && !Fails(second) && forall r :: r in others ==> !Fails(r)
  {
    var runs := [first, second] + others;
    assert runs[0] == first && runs[1] == second && forall i :: 2 <= i < |runs| ==> runs[i] == others[i - 2];
    assert forall r :: r in runs <==> r == first || r == second || r in others;
  }

  // ---- The gate implies resolvability ----

  /** The slot receives a value, and every key the resolver follows for it is a declared dependency. */
  predicate Provided(reg: Registration, slot: Slot) {
    slot.hasDefault || slot.name in reg.dependsOn || (slot.hint.Some? && slot.hint.value in reg.dependsOn)
  }

  /** Nothing is looked for on behalf of the slot. */
  predicate LeftAlone(reg: Registration, slot: Slot) {
    !slot.hasDefault && slot.name !in reg.dependsOn && slot.hint.None?
  }

  /**
    An ordinary slot has a default, is named after a declared dependency, or has a hint that is
    one. `*args` and `**kwargs` are left alone, and no parameter is positional-only; with a `**kwargs`
    there, `*args` and `**kwargs` may be provided too, and a positional-only one may have a default.
   */
  predicate SlotCovered(reg: Registration, slot: Slot) {
    match slot.kind
    case Ordinary => Provided(reg, slot)
    case PositionalOnly => slot.hasDefault && TakesAny(reg.slots)
    case Positionals => LeftAlone(reg, slot) || (Provided(reg, slot) && TakesAny(reg.slots))
    case Keywords => LeftAlone(reg, slot) || Provided(reg, slot)
  }

  /** As in every signature, no two parameters share a name. */
  predicate NamesDistinct(slots: seq<Slot>) {
    forall i, j :: 0 <= i < j < |slots| ==> slots[i].name != slots[j].name
  }

  predicate SlotsCovered(bp: map<Key, Registration>) {
    && (forall k :: k in bp ==> NamesDistinct(bp[k].slots))
    && (forall k, i :: k in bp && 0 <= i < |bp[k].slots| ==> SlotCovered(bp[k], bp[k].slots[i]))
  }

  /** With covered slots the resolver follows declared edges only. */
  lemma CoveredEdges(bp: map<Key, Registration>, a: Key, b: Key)
    requires SlotsCovered(bp) && Edge(EffectiveGraph(bp), a, b)
    ensures Edge(DeclaredGraph(bp), a, b)
  {
    HintKeysMembers(bp[a], bp[a].slots, b);
  }

  lemma CoveredLocal(bp: map<Key, Registration>, k: Key)
    requires SlotsCovered(bp) && k in bp && forall d :: d in bp[k].dependsOn ==> d in bp
    ensures Local(bp, bp[k])
  {
    var reg := bp[k];
    forall i | 0 <= i < |reg.slots|
      ensures SlotBinds(reg.slots[i], Suppliable(bp, reg, reg.slots[i].name), TakesAny(reg.slots))
    {
      hide TakesAny;
      var slot := reg.slots[i];
      assert SlotCovered(reg, slot);
      if Provided(reg, slot) {
        assert Gives(bp, reg, slot);
      }
      if j :| 0 <= j < |reg.slots| && reg.slots[j].name == slot.name && Gives(bp, reg, reg.slots[j]) {
        assert j == i;
      }
    }
  }

  /** Accepted registrations: whatever is cached, a registered key resolves. */
  lemma AcceptedResolves(o: Oracle, s: State, root: nat, key: Key, rid: nat, bp: map<Key, Registration>)
    requires RootWith(s, root, bp) && Quiet(s) && NeverRaises(o)
    requires Accepted(bp) && SlotsCovered(bp) && key in bp
    ensures Resolve(o, s, root, key, rid).outcome.Ok?
  {
    hide Resolve, Gather, EffectiveGraph, DeclaredGraph, HasCycle;
    forall n | n in bp
      ensures Local(bp, bp[n])
    {
      CoveredLocal(bp, n);
    }
    ResolveSupplied(o, s, root, key, rid, bp, Resolve(o, s, root, key, rid));
    if Resolve(o, s, root, key, rid).outcome.Cyclic? {
      RootCycleIsReal(o, s, root, key, rid, bp);
      CycleIsDeclared(bp);
      assert false;
    }
  }

  lemma CycleIsDeclared(bp: map<Key, Registration>)
    requires SlotsCovered(bp) && HasCycle(EffectiveGraph(bp))
    ensures HasCycle(DeclaredGraph(bp))
  {
    var g, h := EffectiveGraph(bp), DeclaredGraph(bp);
    var w :| ClosedWalk(g, w);
    forall i | 0 <= i < |w| - 1
      ensures Joined(h, w, i)
    {
      assert Joined(g, w, i);
      CoveredEdges(bp, w[i], w[i + 1]);
    }
    assert ClosedWalk(h, w);
  }

  /** The other direction: if every registered key resolves, the registrations are accepted. */
  lemma AllResolveAccepted(o: Oracle, s: State, root: nat, rid: nat, bp: map<Key, Registration>)
    requires RootWith(s, root, bp) && CacheGrounded(bp, s.scopes[root])
    requires forall key :: key in bp ==> Resolve(o, s, root, key, rid).outcome.Ok?
    ensures Accepted(bp)
  {
    hide Resolve, Gather;
    forall key | key in bp
      ensures Grounded(bp, Resolve(o, s, root, key, rid).state.scopes[root].singletons, key)
    {
      ResolveGrounds(o, s, root, key, rid, bp, Resolve(o, s, root, key, rid));
    }
    GroundedAccepted(bp, key requires key in bp => Resolve(o, s, root, key, rid).state.scopes[root].singletons);
  }

  lemma GroundedAccepted(bp: map<Key, Registration>, caches: Key --> map<Key, Instance>)
    requires forall key :: key in bp ==> caches.requires(key) && Grounded(bp, caches(key), key)
    ensures Accepted(bp)
  {
    var g, h := EffectiveGraph(bp), DeclaredGraph(bp);
    forall k, d | k in bp && d in bp[k].dependsOn
      ensures d in bp
    {
      BelowSelf(g, k);
      assert Grounded(bp, caches(k), k) && Local(bp, bp[k]);
    }
    if HasCycle(h) {
      CycleNode(h);
      var c :| StrictlyBelow(h, c, c);
      assert c in bp && Grounded(bp, caches(c), c);
      AcyclicMonotone(h, g, c);
      BelowSelf(h, c);
      assert false;
    }
  }

  // ---- Over whole runs ----

  lemma ServeQuiet(o: Oracle, s: State, id: nat, interface: string, name: string)
    requires WellFormed(s) && Quiet(s) && id < |s.scopes|
    ensures Quiet(Serve(o, s, id, interface, name).state)
  {
    hide Resolve;
    var n, r := Numbered(s, id), Serve(o, s, id, interface, name);
    forall i | 0 <= i < |r.state.scopes|
      ensures r.state.scopes[i].marks == {}
    {
      UndoneAt(n, r.state, i);
    }
  }

  /** A resolution anywhere in the tree keeps a root's cache grounded. */
  lemma {:induction false} ResolveKeepsRoot(
    o: Oracle, s: State, id: nat, key: Key, rid: nat, root: nat, bp: map<Key, Registration>, r: Resolution)
    requires RootWith(s, root, bp) && id < |s.scopes| && CacheGrounded(bp, s.scopes[root])
    requires r == Resolve(o, s, id, key, rid)
    ensures RootWith(r.state, root, bp) && CacheGrounded(bp, r.state.scopes[root])
    decreases Unvisited(s), id, 0, 0
  {
    hide Resolve, Gather, Finish, CacheGrounded;
    RootKept(s, r.state, root, bp);
    if id == root {
      ResolveGrounds(o, s, root, key, rid, bp, r);
    } else if key !in s.scopes[id].regs {
      ResolveAbsent(o, s, id, key, rid);
      if s.scopes[id].parent.Some? {
        ResolveKeepsRoot(o, s, s.scopes[id].parent.value, key, rid, root, bp, r);
      }
    } else if Builds(s, id, key, rid) {
      ResolveBuilding(o, s, id, key, rid);
      var e, g := Enter(s, id, key, rid), Gathered(o, s, id, key, rid);
      assert e.scopes[root] == s.scopes[root];
      GatherKeepsRoot(o, e, id, s.scopes[id].regs[key], 0, NoArgs, rid, root, bp, g);
      FinishEffect(o, g, id, key, rid);
    } else {
      ResolveNotBuilding(o, s, id, key, rid);
    }
  }

  lemma {:induction false} GatherKeepsRoot(
    o: Oracle, s: State, id: nat, reg: Registration, p: nat, args: Args, rid: nat, root: nat,
    bp: map<Key, Registration>, g: Gathering)
    requires RootWith(s, root, bp) && id < |s.scopes| && CacheGrounded(bp, s.scopes[root])
    requires p <= PlanSize(reg) && g == Gather(o, s, id, reg, p, args, rid)
    ensures RootWith(g.state, root, bp) && CacheGrounded(bp, g.state.scopes[root])
    decreases Unvisited(s), id, 1, PlanSize(reg) - p
  {
    hide Resolve, Gather, CacheGrounded;
    if p == PlanSize(reg) {
      GatherDone(o, s, id, reg, args, rid);
    } else {
      match NeedOf(WantAt(reg, p), args)
      case Take(more) =>
        GatherTake(o, s, id, reg, p, args, rid);
        GatherKeepsRoot(o, s, id, reg, p + 1, more, rid, root, bp, g);
      case First(key) =>
        var r := Resolve(o, s, id, key, rid);
        NeedResolved(o, s, id, key, rid);
        GatherFirst(o, s, id, reg, p, args, rid, r);
        ResolveKeepsRoot(o, s, id, key, rid, root, bp, r);
        if r.outcome.Ok? {
          var more := Supply(WantAt(reg, p), args, r.outcome.instance);
          GatherKeepsRoot(o, r.state, id, reg, p + 1, more, rid, root, bp, g);
        } else if r.outcome.Missing? && WantAt(reg, p).Fill? {
          GatherKeepsRoot(o, r.state, id, reg, p + 1, args, rid, root, bp, g);
        }
    }
  }

  /** The operation does not change what the root has registered. */
  predicate LeavesRoot(op: Op, root: nat) {
    op.id == root ==> !op.Register? && !op.Reset?
  }

  ghost predicate RootInv(s: State, root: nat, bp: map<Key, Registration>) {
    RootWith(s, root, bp) && Quiet(s) && CacheGrounded(bp, s.scopes[root])
  }

  lemma ApplyKeepsRoot(o: Oracle, s: State, op: Op, root: nat, bp: map<Key, Registration>)
    requires RootInv(s, root, bp) && LeavesRoot(op, root)
    ensures RootInv(Apply(o, s, op).1, root, bp)
  {
    hide Resolve;
    if op.id < |s.scopes| && op.ResolveService? {
      ServeQuiet(o, s, op.id, op.interface, op.name);
      var n := Numbered(s, op.id);
      var key := ResolveKey(s, op.id, KeyOf(op.interface, op.name));
      ResolveKeepsRoot(o, n, op.id, key, s.scopes[op.id].counter + 1, root, bp,
                       Resolve(o, n, op.id, key, s.scopes[op.id].counter + 1));
    } else {
      QuietKept(o, s, op);
    }
  }

  predicate AllLeaveRoot(ops: seq<Op>, root: nat) {
    forall i :: 0 <= i < |ops| ==> LeavesRoot(ops[i], root)
  }

  lemma {:induction false} RunKeepsRoot(o: Oracle, s: State, ops: seq<Op>, root: nat, bp: map<Key, Registration>)
    requires RootInv(s, root, bp) && AllLeaveRoot(ops, root)
    ensures RootInv(Run(o, s, ops), root, bp)
    decreases |ops|
  {
    hide Apply, RootInv;
    if ops != [] {
      assert RootInv(s, root, bp) && WellFormed(s) by { RootInvWellFormed(s, root, bp); }
      ApplyKeepsRoot(o, s, ops[0], root, bp);
      RunKeepsRoot(o, Apply(o, s, ops[0]).1, ops[1..], root, bp);
    }
  }

  lemma RootInvWellFormed(s: State, root: nat, bp: map<Key, Registration>)
    requires RootInv(s, root, bp)
    ensures WellFormed(s)
  {
  }

  /**
    Closure of the singleton cache. In every state a root container with fixed
    registrations can reach, through any operations on any scope, whatever is cached has
    all singletons below it cached, also those reached through transient services.
   */
  lemma SingletonClosure(
    o: Oracle, s: State, ops: seq<Op>, t: State, root: nat, bp: map<Key, Registration>, k: Key, n: Key)
    requires RootInv(s, root, bp) && AllLeaveRoot(ops, root) && t == Run(o, s, ops)
    requires root < |t.scopes| && (k in t.scopes[root].singletons || k in t.scopes[root].scoped)
    requires Below(DeclaredGraph(bp), k, n) && n in bp && bp[n].lifetime.Singleton?
    ensures n in t.scopes[root].singletons
  {
    hide Run;
    RunKeepsRoot(o, s, ops, root, bp);
    BelowMonotone(DeclaredGraph(bp), EffectiveGraph(bp), k, n);
    assert Grounded(bp, t.scopes[root].singletons, k);
  }

  /**
    The start-gate theorem. Once the gate has accepted a root container, then after any
    operations on the tree of scopes, every public resolve that the root answers succeeds.
   */
  lemma AcceptedNeverFails(
    o: Oracle, s: State, ops: seq<Op>, root: nat, bp: map<Key, Registration>,
    id: nat, interface: string, name: string, key: Key)
    requires RootInv(s, root, bp) && AllLeaveRoot(ops, root) && NeverRaises(o)
    requires Accepted(bp) && SlotsCovered(bp)
    requires AnsweredBy(Run(o, s, ops), id, interface, name, root, key)
    ensures Serve(o, Run(o, s, ops), id, interface, name).outcome.Ok?
  {
    hide Resolve, Run, Accepted;
    RunKeepsRoot(o, s, ops, root, bp);
    var t := Run(o, s, ops);
    var n, rid := Numbered(t, id), t.scopes[id].counter + 1;
    OwnerNumbered(t, id, id, key);
    ResolveAtOwner(o, n, id, key, rid);
    AcceptedResolves(o, n, root, key, rid, bp);
  }

  /** In every reachable state the gate's verdict and resolvability are the same thing. */
  lemma GateIsExact(o: Oracle, s: State, ops: seq<Op>, root: nat, bp: map<Key, Registration>, rid: nat)
    requires RootInv(s, root, bp) && AllLeaveRoot(ops, root) && NeverRaises(o) && SlotsCovered(bp)
    ensures RootInv(Run(o, s, ops), root, bp)
    ensures Accepted(bp) <==> forall key :: key in bp ==> Resolve(o, Run(o, s, ops), root, key, rid).outcome.Ok?
  {
    hide Resolve, Run;
    RunKeepsRoot(o, s, ops, root, bp);
    var t := Run(o, s, ops);
    if Accepted(bp) {
      forall key | key in bp
        ensures Resolve(o, t, root, key, rid).outcome.Ok?
      {
        AcceptedResolves(o, t, root, key, rid, bp);
      }
    }
    if forall key :: key in bp ==> Resolve(o, t, root, key, rid).outcome.Ok? {
      AllResolveAccepted(o, t, root, rid, bp);
    }
  }

  // ---- What the gate does not look at ----

  /** `Bar` declares `Foo` and asks for it through `*args`. */
  function Variadic(): map<Key, Registration> {
    map["Foo" := Registration(Singleton, "", [], [], None),
        "Bar" := Registration(Singleton, "", ["Foo"], [Slot("args", false, Some("Foo"), Positionals)], None)]
  }

  /** Accepted, and yet `Bar` cannot be resolved: a keyword `args` is not what `*args` takes. */
  lemma AcceptedButNotCovered(o: Oracle, s: State, root: nat, rid: nat)
    requires NeverRaises(o) && Quiet(s) && RootWith(s, root, Variadic()) && CacheGrounded(Variadic(), s.scopes[root])
    ensures Accepted(Variadic()) && !SlotsCovered(Variadic())
    ensures !Resolve(o, s, root, "Bar", rid).outcome.Ok?
  {
    hide Resolve;
    var bp := Variadic();
    VariadicAccepted();
    var reg := bp["Bar"];
    assert Gives(bp, reg, reg.slots[0]) && Suppliable(bp, reg, "args");
    assert !SlotCovered(reg, reg.slots[0]) && !Local(bp, reg);
    BelowSelf(EffectiveGraph(bp), "Bar");
    ResolutionExact(o, s, root, "Bar", rid);
  }

  lemma VariadicAccepted()
    ensures Accepted(Variadic())
  {
    var g, order := DeclaredGraph(Variadic()), ["Foo", "Bar"];
    forall i, b | 0 <= i < |order| && Edge(g, order[i], b)
      ensures b in order[..i]
    {
      assert order[..1] == ["Foo"];
    }
    TopologicalAcyclic(g, order);
  }
}
