/**
  What every resolution keeps, in any tree of scopes and on every exit: bookkeeping is
  restored, caches only grow, and names under construction are never cached by others.
 */
module ContainerGrowth {
  import opened Prelude
  import opened ContainerModel

  predicate Sub<K, V(==)>(a: map<K, V>, b: map<K, V>) {
    forall k :: k in a ==> k in b && b[k] == a[k]
  }

  predicate CachesGrew(a: Scope, b: Scope) {
    Sub(a.singletons, b.singletons) && Sub(a.scoped, b.scoped)
  }

  /** No cache entry for any of `names` appeared. */
  predicate Untouched(a: Scope, b: Scope, names: set<Key>) {
    forall k :: k in names ==>
      (k in b.singletons ==> k in a.singletons) && (k in b.scoped ==> k in a.scoped)
  }

  predicate Extends(s: State, t: State) {
    && Undone(s, t) && |t.scopes| == |s.scopes| && s.calls <= t.calls && s.log <= t.log
    && forall i :: 0 <= i < |s.scopes| ==>
         CachesGrew(s.scopes[i], t.scopes[i]) && Untouched(s.scopes[i], t.scopes[i], s.visited)
  }

  lemma ExtendsTransitive(s: State, t: State, u: State)
    requires Extends(s, t) && Extends(t, u)
    ensures Extends(s, u)
  {
    forall i | 0 <= i < |s.scopes|
      ensures CachesGrew(s.scopes[i], u.scopes[i]) && Untouched(s.scopes[i], u.scopes[i], s.visited)
    {
      assert CachesGrew(s.scopes[i], t.scopes[i]) && CachesGrew(t.scopes[i], u.scopes[i]);
      assert Untouched(s.scopes[i], t.scopes[i], s.visited);
      assert Untouched(t.scopes[i], u.scopes[i], t.visited);
    }
  }

  /** How the last part of `_resolve` changes the caches, the log and the call count. */
  lemma FinishEffect(o: Oracle, g: Gathering, id: nat, key: Key, rid: nat)
    requires id < |g.state.scopes| && key in g.state.scopes[id].regs
    ensures
      var t, r := g.state, Finish(o, g, id, key, rid);
      var u, scope := r.state, g.state.scopes[id];
      && |u.scopes| == |t.scopes|
      && (forall i :: 0 <= i < |t.scopes| && i != id ==> u.scopes[i] == t.scopes[i])
      && (r.outcome.Ok? ==>
            && g.Ready? && Binds(scope.regs[key].slots, g.args.params) && u.calls == t.calls + 1
            && (scope.regs[key].given.None? ==> !o(t.calls))
            && r.outcome.instance ==
                 (if scope.regs[key].given.Some? then Given(scope.regs[key].given.value) else Built(t.calls))
            && u.log == t.log + [Build(id, key, scope.regs[key].lifetime, g.args.params, r.outcome.instance)])
      && (!r.outcome.Ok? ==> u.log == t.log && t.calls <= u.calls)
      && u.scopes[id].since == scope.since
      && u.scopes[id].singletons ==
           (if r.outcome.Ok? && scope.regs[key].lifetime.Singleton?
            then scope.singletons[key := r.outcome.instance] else scope.singletons)
      && u.scopes[id].scoped ==
           (if r.outcome.Ok? && scope.regs[key].lifetime.Scoped?
            then scope.scoped[key := r.outcome.instance] else scope.scoped)
  {
  }

  lemma FinishExtends(o: Oracle, s: State, g: Gathering, id: nat, key: Key, rid: nat)
    requires WellFormed(s) && id < |s.scopes| && key in s.scopes[id].regs && key !in s.visited
    requires (key, rid) !in s.scopes[id].marks && Cached(s, id, key).None?
    requires Extends(Enter(s, id, key, rid), g.state)
    ensures |g.state.scopes| == |s.scopes| && g.state.scopes[id].regs == s.scopes[id].regs
    ensures Extends(s, Finish(o, g, id, key, rid).state)
  {
    hide Finish;
    FinishUndoes(o, s, g, id, key, rid);
    FinishEffect(o, g, id, key, rid);
    var e := Enter(s, id, key, rid);
    var u := Finish(o, g, id, key, rid).state;
    forall i | 0 <= i < |s.scopes|
      ensures CachesGrew(s.scopes[i], u.scopes[i]) && Untouched(s.scopes[i], u.scopes[i], s.visited)
    {
      assert CachesGrew(e.scopes[i], g.state.scopes[i]);
      assert Untouched(e.scopes[i], g.state.scopes[i], e.visited);
      assert key in e.visited;
    }
  }

  lemma {:induction false} ResolveExtends(o: Oracle, s: State, id: nat, key: Key, rid: nat, r: Resolution)
    requires WellFormed(s) && id < |s.scopes| && r == Resolve(o, s, id, key, rid)
    ensures Extends(s, r.state)
    decreases Unvisited(s), id, 0, 0
  {
    if key !in s.scopes[id].regs {
      ResolveAbsent(o, s, id, key, rid);
      if s.scopes[id].parent.Some? {
        ResolveExtends(o, s, s.scopes[id].parent.value, key, rid, r);
      }
    } else if Builds(s, id, key, rid) {
      ResolveBuilding(o, s, id, key, rid);
      var g := Gathered(o, s, id, key, rid);
      GatherExtends(o, Enter(s, id, key, rid), id, s.scopes[id].regs[key], 0, NoArgs, rid, g);
      FinishExtends(o, s, g, id, key, rid);
    } else {
      ResolveNotBuilding(o, s, id, key, rid);
    }
  }

  lemma {:induction false} GatherExtends(
    o: Oracle, s: State, id: nat, reg: Registration, p: nat, args: Args, rid: nat, g: Gathering)
    requires WellFormed(s) && id < |s.scopes| && p <= PlanSize(reg)
    requires g == Gather(o, s, id, reg, p, args, rid)
    ensures Extends(s, g.state)
    decreases Unvisited(s), id, 1, PlanSize(reg) - p
  {
    hide Resolve, Gather;
    if p == PlanSize(reg) {
      GatherDone(o, s, id, reg, args, rid);
    } else {
      match NeedOf(WantAt(reg, p), args)
      case Take(more) =>
        GatherTake(o, s, id, reg, p, args, rid);
        GatherExtends(o, s, id, reg, p + 1, more, rid, g);
      case First(key) =>
        var r := Resolve(o, s, id, key, rid);
        NeedResolved(o, s, id, key, rid);
        GatherFirst(o, s, id, reg, p, args, rid, r);
        ResolveExtends(o, s, id, key, rid, r);
        if r.outcome.Ok? {
          GatherExtends(o, r.state, id, reg, p + 1, Supply(WantAt(reg, p), args, r.outcome.instance), rid, g);
          ExtendsTransitive(s, r.state, g.state);
        } else if r.outcome.Missing? && WantAt(reg, p).Fill? {
          GatherExtends(o, r.state, id, reg, p + 1, args, rid, g);
          ExtendsTransitive(s, r.state, g.state);
        }
    }
  }
}
