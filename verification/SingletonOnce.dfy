/**
  Lifetimes over any tree of scopes: a singleton is built at most once per container, the
  log of builds and the caches agree, and serial numbers tell instances apart.
 */
module SingletonOnce {
  import opened Prelude
  import opened ContainerModel
  import opened ContainerGrowth

  predicate HasSingleton(s: State, id: nat, key: Key) {
    id < |s.scopes| && key in s.scopes[id].singletons
  }

  /** The j-th build was made after the last reset of its container. */
  predicate Current(s: State, j: nat)
    requires j < |s.log|
  {
    s.log[j].scope < |s.scopes| && s.scopes[s.log[j].scope].since <= j
  }

  /** If the j-th build made a singleton, its container's cache still holds it, unless that was reset. */
  predicate Recorded(s: State, j: nat)
    requires j < |s.log|
  {
    var b := s.log[j];
    && b.scope < |s.scopes|
    && (b.lifetime.Singleton? && Current(s, j) ==>
          b.key in s.scopes[b.scope].singletons && s.scopes[b.scope].singletons[b.key] == b.instance)
    && (b.instance.Built? ==> b.instance.serial < s.calls)
  }

  predicate SameSingleton(a: Build, b: Build) {
    a.lifetime.Singleton? && b.lifetime.Singleton? && a.scope == b.scope && a.key == b.key
  }

  predicate SameSerial(a: Build, b: Build) {
    a.instance.Built? && b.instance.Built? && a.instance.serial == b.instance.serial
  }

  /**
    Every build is recorded, no two singleton builds since a container's last reset are for
    the same key, and no two builds at all made the same object.
   */
  ghost predicate BuiltOnce(s: State) {
    && (forall j :: 0 <= j < |s.log| ==> Recorded(s, j))
    && (forall i, j :: 0 <= i < j < |s.log| ==> SameSingleton(s.log[i], s.log[j]) ==> !Current(s, i))
    && (forall i, j :: 0 <= i < j < |s.log| ==> !SameSerial(s.log[i], s.log[j]))
  }

  /** The instance was built for this key in this scope. */
  ghost predicate Logged(s: State, id: nat, key: Key, instance: Instance) {
    exists j :: 0 <= j < |s.log| && s.log[j].scope == id && s.log[j].key == key && s.log[j].instance == instance
  }

  /** A scope's caches hold only what was built for that scope. */
  ghost predicate CacheLogged(s: State, id: nat)
    requires id < |s.scopes|
  {
    && (forall k :: k in s.scopes[id].singletons ==> Logged(s, id, k, s.scopes[id].singletons[k]))
    && (forall k :: k in s.scopes[id].scoped ==> Logged(s, id, k, s.scopes[id].scoped[k]))
  }

  ghost predicate CachesLogged(s: State) {
    forall i :: 0 <= i < |s.scopes| ==> CacheLogged(s, i)
  }

  ghost predicate LifetimeInv(s: State) {
    BuiltOnce(s) && CachesLogged(s)
  }

  lemma LoggedOld(s: State, id: nat, key: Key, instance: Instance)
    requires BuiltOnce(s) && Logged(s, id, key, instance)
    ensures instance.Built? ==> instance.serial < s.calls
  {
    var j :| 0 <= j < |s.log| && s.log[j].scope == id && s.log[j].key == key && s.log[j].instance == instance;
    assert Recorded(s, j);
  }

  lemma LoggedKept(s: State, t: State, id: nat, key: Key, instance: Instance)
    requires s.log <= t.log && Logged(s, id, key, instance)
    ensures Logged(t, id, key, instance)
  {
    var j :| 0 <= j < |s.log| && s.log[j].scope == id && s.log[j].key == key && s.log[j].instance == instance;
    assert t.log[j] == s.log[j];
  }

  /** A scope never builds its own singleton once its parent holds one of that name. */
  ghost predicate Deferred(s: State, t: State) {
    forall i, k ::
      (&& 0 <= i < |s.scopes| && s.scopes[i].parent.Some?
       && HasSingleton(s, s.scopes[i].parent.value, k) && HasSingleton(t, i, k)) ==>
      HasSingleton(s, i, k)
  }

  lemma DeferredTransitive(s: State, t: State, u: State)
    requires Extends(s, t) && Extends(t, u) && Deferred(s, t) && Deferred(t, u)
    ensures Deferred(s, u)
  {
    forall i, k | 0 <= i < |s.scopes| && s.scopes[i].parent.Some? &&
      HasSingleton(s, s.scopes[i].parent.value, k) && HasSingleton(u, i, k)
      ensures HasSingleton(s, i, k)
    {
      UndoneAt(s, t, i);
      assert CachesGrew(s.scopes[s.scopes[i].parent.value], t.scopes[s.scopes[i].parent.value]);
      assert HasSingleton(t, t.scopes[i].parent.value, k);
    }
  }

  /** Entering changes nothing the invariants speak of. */
  lemma EnterKeeps(s: State, id: nat, key: Key, rid: nat)
    requires id < |s.scopes|
    ensures LifetimeInv(s) ==> LifetimeInv(Enter(s, id, key, rid))
    ensures forall t :: Deferred(Enter(s, id, key, rid), t) ==> Deferred(s, t)
  {
    var e := Enter(s, id, key, rid);
    assert forall i :: 0 <= i < |s.scopes| ==>
      e.scopes[i].singletons == s.scopes[i].singletons && e.scopes[i].scoped == s.scopes[i].scoped &&
      e.scopes[i].parent == s.scopes[i].parent && e.scopes[i].since == s.scopes[i].since;
    assert forall j: nat :: j < |s.log| ==> (Current(s, j) <==> Current(e, j));
    assert forall j: nat :: j < |s.log| && Recorded(s, j) ==> Recorded(e, j);
    assert forall i, k, x :: Logged(s, i, k, x) ==> Logged(e, i, k, x);
    assert forall i :: 0 <= i < |s.scopes| && CacheLogged(s, i) ==> CacheLogged(e, i);
    assert forall i, k :: HasSingleton(s, i, k) <==> HasSingleton(e, i, k);
  }

  /** The end of a build appends at most one entry, for a key that had no cached singleton. */
  lemma FinishKeeps(o: Oracle, g: Gathering, id: nat, key: Key, rid: nat, r: Resolution)
    requires id < |g.state.scopes| && key in g.state.scopes[id].regs && r == Finish(o, g, id, key, rid)
    requires LifetimeInv(g.state)
    requires g.state.scopes[id].regs[key].lifetime.Singleton? ==> key !in g.state.scopes[id].singletons
    ensures LifetimeInv(r.state)
    ensures r.outcome.Ok? && r.outcome.instance.Built? ==>
              g.state.calls <= r.outcome.instance.serial < r.state.calls
  {
    hide Finish;
    FinishEffect(o, g, id, key, rid);
    var t, u := g.state, r.state;
    forall j | 0 <= j < |u.log|
      ensures Recorded(u, j)
    {
      if j < |t.log| {
        assert u.log[j] == t.log[j] && Recorded(t, j);
        assert Current(u, j) <==> Current(t, j);
      }
    }
    forall i, j | 0 <= i < j < |u.log|
      ensures SameSingleton(u.log[i], u.log[j]) ==> !Current(u, i)
      ensures !SameSerial(u.log[i], u.log[j])
    {
      assert u.log[i] == t.log[i] && Recorded(t, i);
      assert Current(u, i) <==> Current(t, i);
      if j < |t.log| {
        assert u.log[j] == t.log[j];
      }
    }
    forall i | 0 <= i < |u.scopes|
      ensures CacheLogged(u, i)
    {
      assert CacheLogged(t, i);
      forall k, x | Logged(t, i, k, x)
        ensures Logged(u, i, k, x)
      {
        LoggedKept(t, u, i, k, x);
      }
      if r.outcome.Ok? {
        assert u.log[|t.log|].scope == id && u.log[|t.log|].key == key;
        assert Logged(u, id, key, r.outcome.instance);
      }
    }
  }

  lemma FinishDefers(o: Oracle, s: State, g: Gathering, id: nat, key: Key, rid: nat, r: Resolution)
    requires Builds(s, id, key, rid) && |g.state.scopes| == |s.scopes|
    requires key in g.state.scopes[id].regs && r == Finish(o, g, id, key, rid)
    requires g.state.scopes[id].regs == s.scopes[id].regs
    requires Deferred(s, g.state)
    ensures Deferred(s, r.state)
  {
    hide Finish;
    FinishEffect(o, g, id, key, rid);
    forall i, k | 0 <= i < |s.scopes| && s.scopes[i].parent.Some? &&
      HasSingleton(s, s.scopes[i].parent.value, k) && HasSingleton(r.state, i, k)
      ensures HasSingleton(s, i, k)
    {
      assert HasSingleton(g.state, i, k);
    }
  }

  lemma CachedOld(s: State, id: nat, key: Key)
    requires WellFormed(s) && id < |s.scopes| && key in s.scopes[id].regs && LifetimeInv(s)
    requires Cached(s, id, key).Some?
    ensures Cached(s, id, key).value.Built? ==> Cached(s, id, key).value.serial < s.calls
  {
    assert CacheLogged(s, id);
    if Logged(s, id, key, Cached(s, id, key).value) {
      LoggedOld(s, id, key, Cached(s, id, key).value);
    } else {
      var p := s.scopes[id].parent.value;
      assert CacheLogged(s, p);
      LoggedOld(s, p, key, Cached(s, id, key).value);
    }
  }

  lemma {:induction false} ResolveOnce(o: Oracle, s: State, id: nat, key: Key, rid: nat, r: Resolution)
    requires WellFormed(s) && id < |s.scopes| && LifetimeInv(s) && r == Resolve(o, s, id, key, rid)
    ensures LifetimeInv(r.state) && Deferred(s, r.state)
    ensures r.outcome.Ok? && r.outcome.instance.Built? ==> r.outcome.instance.serial < r.state.calls
    decreases Unvisited(s), id, 0, 0
  {
    hide Resolve, Gather, Finish;
    if key !in s.scopes[id].regs {
      ResolveAbsent(o, s, id, key, rid);
      if s.scopes[id].parent.Some? {
        ResolveOnce(o, s, s.scopes[id].parent.value, key, rid, r);
      }
    } else if Builds(s, id, key, rid) {
      ResolveBuilding(o, s, id, key, rid);
      var e, g := Enter(s, id, key, rid), Gathered(o, s, id, key, rid);
      EnterKeeps(s, id, key, rid);
      GatherOnce(o, e, id, s.scopes[id].regs[key], 0, NoArgs, rid, g);
      GatherExtends(o, e, id, s.scopes[id].regs[key], 0, NoArgs, rid, g);
      assert Untouched(e.scopes[id], g.state.scopes[id], e.visited) && key in e.visited;
      FinishKeeps(o, g, id, key, rid, r);
      FinishDefers(o, s, g, id, key, rid, r);
    } else {
      ResolveNotBuilding(o, s, id, key, rid);
      if r.outcome.Ok? {
        CachedOld(s, id, key);
      }
    }
  }

  lemma {:induction false} GatherOnce(
    o: Oracle, s: State, id: nat, reg: Registration, p: nat, args: Args, rid: nat, g: Gathering)
    requires WellFormed(s) && id < |s.scopes| && p <= PlanSize(reg) && LifetimeInv(s)
    requires g == Gather(o, s, id, reg, p, args, rid)
    ensures LifetimeInv(g.state) && Deferred(s, g.state)
    decreases Unvisited(s), id, 1, PlanSize(reg) - p
  {
    hide Resolve, Gather, BuiltOnce, CachesLogged;
    if p == PlanSize(reg) {
      GatherDone(o, s, id, reg, args, rid);
    } else {
      match NeedOf(WantAt(reg, p), args)
      case Take(more) =>
        GatherTake(o, s, id, reg, p, args, rid);
        GatherOnce(o, s, id, reg, p + 1, more, rid, g);
      case First(key) =>
        var r := Resolve(o, s, id, key, rid);
        NeedResolved(o, s, id, key, rid);
        GatherFirst(o, s, id, reg, p, args, rid, r);
        ResolveOnce(o, s, id, key, rid, r);
        ResolveExtends(o, s, id, key, rid, r);
        if r.outcome.Ok? {
          var more := Supply(WantAt(reg, p), args, r.outcome.instance);
          GatherOnce(o, r.state, id, reg, p + 1, more, rid, g);
          GatherExtends(o, r.state, id, reg, p + 1, more, rid, g);
          DeferredTransitive(s, r.state, g.state);
        } else if r.outcome.Missing? && WantAt(reg, p).Fill? {
          GatherOnce(o, r.state, id, reg, p + 1, args, rid, g);
          GatherExtends(o, r.state, id, reg, p + 1, args, rid, g);
          DeferredTransitive(s, r.state, g.state);
        }
    }
  }
}
