/**
  When a tree of containers is reported cyclic, exactly. Caches matter: a registration that has
  been built and kept is not walked again, so a name met twice behind it goes unnoticed. Where
  names at or below the kept services are unambiguous, a report is made if and only if a path of
  needs meets a name twice, and every report is a real cycle if and only if no name is shadowed.
 */
module ScopeCycles {
  import opened Prelude
  import opened ContainerModel
  import opened ContainerGrowth
  import opened RootResolution
  import opened Detectors
  import opened ContainerRuns
  import opened Places
  import opened CycleReports
  import opened Supplies

  predicate Kept(s: State, a: Place)
    requires IsPlace(s, a)
  {
    !RegAt(s, a).lifetime.Transient?
  }

  /** A name found at or below a singleton or scoped service stands for one registration only. */
  ghost predicate Unambiguous(s: State, start: Place) {
    forall a, x, y {:trigger Reaches(s, a, x), Reaches(s, start, y)} ::
      (&& Reaches(s, start, a) && IsPlace(s, a) && Kept(s, a) && Reaches(s, a, x)
       && Reaches(s, start, y) && x.key == y.key) ==>
        x == y
  }

  predicate CachedAt(s: State, a: Place) {
    IsPlace(s, a) && Cached(s, a.scope, a.key).Some?
  }

  /** Nothing cached below `start` has a name met twice below it; true in particular when nothing is cached. */
  ghost predicate CachesClear(b: State, s: State, start: Place) {
    forall a :: Reaches(b, start, a) && CachedAt(s, a) ==> !MeetsName(b, a)
  }

  predicate FreshNames(w: seq<Place>, names: set<Key>) {
    && (forall i, j :: 0 <= i < j < |w| ==> w[i].key != w[j].key)
    && (forall i :: 0 <= i < |w| ==> w[i].key !in names)
  }

  /** No path from `a` meets a name twice or one of `names`. */
  ghost predicate Clear(s: State, names: set<Key>, a: Place) {
    forall w :: PathFrom(s, a, w) ==> FreshNames(w, names)
  }

  lemma ClearStep(s: State, names: set<Key>, a: Place)
    requires IsPlace(s, a) && a.key !in names && forall c :: Leads(s, a, c) ==> Clear(s, names + {a.key}, c)
    ensures Clear(s, names, a)
  {
    forall w: seq<Place> | PathFrom(s, a, w)
      ensures FreshNames(w, names)
    {
      if |w| > 1 {
        assert Step(s, w, 0);
        PathSlice(s, w, 1, |w|);
        var rest := w[1..|w|];
        assert PathFrom(s, w[1], rest);
        FreshStep(w, rest, names);
      }
    }
  }

  lemma FreshStep(w: seq<Place>, rest: seq<Place>, names: set<Key>)
    requires |w| > 1 && rest == w[1..] && w[0].key !in names && FreshNames(rest, names + {w[0].key})
    ensures FreshNames(w, names)
  {
    assert forall i :: 1 <= i < |w| ==> w[i] == rest[i - 1];
  }

  lemma ClearMeetsNothing(s: State, names: set<Key>, a: Place)
    requires Clear(s, names, a)
    ensures !MeetsName(s, a)
  {
  }

  /** Behind a cached service nothing is walked, and nothing there could have clashed with the path to it. */
  lemma CachedClear(s: State, start: Place, path: seq<Place>, a: Place, names: set<Key>)
    requires Unambiguous(s, start) && PathFrom(s, start, path + [a]) && VisitedOn(names, path)
    requires IsPlace(s, a) && Kept(s, a) && !MeetsName(s, a)
    ensures Clear(s, names, a)
  {
    forall w: seq<Place> | PathFrom(s, a, w)
      ensures FreshNames(w, names)
    {
      forall i, j | 0 <= i < j < |w|
        ensures w[i].key != w[j].key
      {
        assert !Repeats(w, i, j);
      }
      forall i | 0 <= i < |w|
        ensures w[i].key !in names
      {
        if w[i].key in names {
          var j :| 0 <= j < |path| && path[j].key == w[i].key;
          RoundTrip(s, start, path, a, w, i, j);
          assert false;
        }
      }
    }
  }

  /** A path that leaves a place and comes back on the way to it closes a cycle there. */
  lemma RoundTrip(s: State, start: Place, path: seq<Place>, a: Place, w: seq<Place>, i: nat, j: nat)
    requires Unambiguous(s, start) && PathFrom(s, start, path + [a]) && PathFrom(s, a, w)
    requires IsPlace(s, a) && Kept(s, a) && i < |w| && j < |path| && path[j].key == w[i].key
    ensures MeetsName(s, a)
  {
    var v := path + [a];
    PathPlaces(s, v, |path|);
    PathPlaces(s, v, j);
    PathPlaces(s, w, i);
    hide Path;
    assert v[j] == path[j] && v[|path|] == a && v[0] == start;
    assert Reaches(s, start, v[j]) && Reaches(s, start, a) && Reaches(s, a, w[i]);
    hide Reaches;
    assert w[i] == v[j];
    CycleThrough(s, v, w, i, j);
  }

  lemma CycleThrough(s: State, v: seq<Place>, w: seq<Place>, i: nat, j: nat)
    requires Path(s, v) && Path(s, w) && i < |w| && j < |v| - 1 && v[j] == w[i] && w[0] == v[|v| - 1]
    ensures MeetsName(s, w[0])
  {
    PathSlice(s, w, 0, i + 1);
    PathSlice(s, v, j, |v|);
    PathJoin(s, w[0..i + 1], v[j..|v|]);
    hide Path;
    var u := w[0..i + 1] + v[j..|v|][1..];
    assert PathFrom(s, w[0], u) && Repeats(u, 0, |u| - 1);
  }

  // ---- What a success proves ----

  /** Everything the plan asks for from position `p` on is clear. */
  ghost predicate NeedsClear(s: State, names: set<Key>, a: Place, p: nat)
    requires IsPlace(s, a)
  {
    forall q: nat :: p <= q < PlanSize(RegAt(s, a)) && NeedKey(RegAt(s, a), q).Some? ==>
      ClearFor(s, names, a, NeedKey(RegAt(s, a), q).value)
  }

  ghost predicate ClearFor(s: State, names: set<Key>, a: Place, key: Key)
    requires IsPlace(s, a)
  {
    Owner(s, a.scope, key).Some? ==> Clear(s, names, Place(Owner(s, a.scope, key).value, key))
  }

  lemma NeedsClearFrom(s: State, names: set<Key>, a: Place, p: nat)
    requires IsPlace(s, a) && p < PlanSize(RegAt(s, a))
    requires NeedKey(RegAt(s, a), p).Some? ==> ClearFor(s, names, a, NeedKey(RegAt(s, a), p).value)
    ensures NeedsClear(s, names, a, p + 1) ==> NeedsClear(s, names, a, p)
  {
    hide ClearFor, NeedKey;
  }

  lemma NothingNeeded(s: State, names: set<Key>, a: Place)
    requires IsPlace(s, a)
    ensures NeedsClear(s, names, a, PlanSize(RegAt(s, a)))
  {
  }

  lemma NeedsClearStep(s: State, names: set<Key>, a: Place)
    requires IsPlace(s, a) && a.key !in names && NeedsClear(s, names + {a.key}, a, 0)
    ensures Clear(s, names, a)
  {
    forall c | Leads(s, a, c)
      ensures Clear(s, names + {a.key}, c)
    {
      var q: nat :| q < PlanSize(RegAt(s, a)) && NeedKey(RegAt(s, a), q) == Some(c.key);
      assert ClearFor(s, names + {a.key}, a, c.key);
    }
    hide NeedsClear;
    ClearStep(s, names, a);
  }

  lemma EnterCachesClear(b: State, s: State, start: Place, id: nat, key: Key, rid: nat)
    requires CachesClear(b, s, start) && WellFormed(s) && id < |s.scopes|
    ensures CachesClear(b, Enter(s, id, key, rid), start)
  {
    hide Reaches, MeetsName;
    var e := Enter(s, id, key, rid);
    assert forall i :: 0 <= i < |s.scopes| ==>
      && e.scopes[i].singletons == s.scopes[i].singletons && e.scopes[i].scoped == s.scopes[i].scoped
      && e.scopes[i].parent == s.scopes[i].parent && e.scopes[i].regs == s.scopes[i].regs;
    assert forall a :: CachedAt(e, a) ==> CachedAt(s, a);
  }

  /** A finished build adds one place to the caches, and no other place is answered from there. */
  lemma FinishCachesClear(o: Oracle, b: State, start: Place, a: Place, rid: nat, g: Gathering, r: Resolution)
    requires IsPlace(b, a) && WellFormed(g.state) && SameTree(b, g.state) && WellFormed(r.state) && SameTree(b, r.state)
    requires r == Finish(o, g, a.scope, a.key, rid)
    requires Unambiguous(b, start) && Reaches(b, start, a) && CachesClear(b, g.state, start)
    requires r.outcome.Ok? ==> !MeetsName(b, a)
    ensures CachesClear(b, r.state, start)
  {
    hide Finish, Reaches, MeetsName, Unambiguous;
    FinishEffect(o, g, a.scope, a.key, rid);
    forall c | Reaches(b, start, c) && CachedAt(r.state, c)
      ensures !MeetsName(b, c)
    {
      if c != a && !CachedAt(g.state, c) {
        assert c.key == a.key && Kept(b, c);
        SameNameKept(b, start, c, a);
      }
    }
  }

  lemma SameNameKept(s: State, start: Place, c: Place, a: Place)
    requires Unambiguous(s, start) && Reaches(s, start, c) && Reaches(s, start, a)
    requires IsPlace(s, c) && Kept(s, c) && c.key == a.key
    ensures c == a
  {
    ReachesSelf(s, c);
  }

  lemma {:induction false} ResolveClear(
    o: Oracle, b: State, s: State, start: Place, path: seq<Place>, a: Place, rid: nat, r: Resolution)
    requires Underway(b, s, rid) && IsPlace(b, a) && r == Resolve(o, s, a.scope, a.key, rid)
    requires PathFrom(b, start, path + [a]) && VisitedOn(s.visited, path)
    requires Unambiguous(b, start) && CachesClear(b, s, start)
    ensures CachesClear(b, r.state, start) && !r.outcome.Missing?
    ensures r.outcome.Ok? ==> Clear(b, s.visited, a)
    decreases Unvisited(s), 0, 0
  {
    hide Resolve, Gather, Finish, Path, Reaches, MeetsName, Unambiguous, Clear, VisitedOn, CachesClear, Underway;
    PlaceKept(b, s, a, rid);
    assert Reaches(b, start, a) by { PathPlaces(b, path + [a], |path|); }
    if Builds(s, a.scope, a.key, rid) {
      ResolveBuilding(o, s, a.scope, a.key, rid);
      var e, g := Enter(s, a.scope, a.key, rid), Gathered(o, s, a.scope, a.key, rid);
      UnderwayEntered(b, s, a.scope, a.key, rid);
      EnterCachesClear(b, s, start, a.scope, a.key, rid);
      EnteredOn(s.visited, path, a);
      GatherClear(o, b, e, start, path + [a], a, 0, NoArgs, rid, g);
      FinishClear(o, b, s, start, a, rid, g, r);
    } else {
      ResolveNotBuilding(o, s, a.scope, a.key, rid);
      if r.outcome.Ok? {
        assert CachedAt(s, a) && Kept(b, a);
        assert !MeetsName(b, a) by { CachedIsClear(b, s, start, a); }
        CachedClear(b, start, path, a, s.visited);
      }
    }
  }

  lemma CachedIsClear(b: State, s: State, start: Place, a: Place)
    requires CachesClear(b, s, start) && Reaches(b, start, a) && CachedAt(s, a)
    ensures !MeetsName(b, a)
  {
  }

  lemma FinishClear(o: Oracle, b: State, s: State, start: Place, a: Place, rid: nat, g: Gathering, r: Resolution)
    requires Underway(b, s, rid) && Builds(s, a.scope, a.key, rid) && IsPlace(b, a)
    requires g == Gathered(o, s, a.scope, a.key, rid) && r == Resolve(o, s, a.scope, a.key, rid)
    requires Unambiguous(b, start) && Reaches(b, start, a) && CachesClear(b, g.state, start)
    requires g.Ready? ==> NeedsClear(b, s.visited + {a.key}, a, 0)
    ensures CachesClear(b, r.state, start)
    ensures r.outcome.Ok? ==> Clear(b, s.visited, a)
  {
    hide Resolve, Gather, Finish, Reaches, MeetsName, Unambiguous, Clear, CachesClear, NeedsClear, Underway;
    ResolveBuilding(o, s, a.scope, a.key, rid);
    FinishEffect(o, g, a.scope, a.key, rid);
    UnderwayEntered(b, s, a.scope, a.key, rid);
    UnderwayUndone(b, Enter(s, a.scope, a.key, rid), g.state, rid);
    UnderwayUndone(b, s, r.state, rid);
    UnderwayTree(b, g.state, rid);
    UnderwayTree(b, r.state, rid);
    if r.outcome.Ok? {
      NeedsClearStep(b, s.visited, a);
      ClearMeetsNothing(b, s.visited, a);
    }
    FinishCachesClear(o, b, start, a, rid, g, r);
  }

  lemma {:induction false} GatherClear(
    o: Oracle, b: State, s: State, start: Place, path: seq<Place>, a: Place, p: nat, args: Args, rid: nat, g: Gathering)
    requires Underway(b, s, rid) && IsPlace(b, a) && OnPlan(RegAt(b, a), p, args) && a.scope < |s.scopes|
    requires g == Gather(o, s, a.scope, RegAt(b, a), p, args, rid)
    requires path != [] && PathFrom(b, start, path) && path[|path| - 1] == a && VisitedOn(s.visited, path)
    requires Unambiguous(b, start) && CachesClear(b, s, start)
    ensures CachesClear(b, g.state, start)
    ensures g.Ready? ==> NeedsClear(b, s.visited, a, p)
    decreases Unvisited(s), 1, PlanSize(RegAt(b, a)) - p
  {
    hide Resolve, Gather, Path, Underway, VisitedOn, Unambiguous, CachesClear, Clear, NeedKey, NeedsClear;
    assert WellFormed(s) && SameTree(b, s) by { UnderwayTree(b, s, rid); }
    var reg, id := RegAt(b, a), a.scope;
    if p == PlanSize(reg) {
      GatherDone(o, s, id, reg, args, rid);
      NothingNeeded(b, s.visited, a);
    } else {
      NeedIsAsked(reg, p, args);
      match NeedOf(WantAt(reg, p), args)
      case Take(more) =>
        GatherTake(o, s, id, reg, p, args, rid);
        TakeOnPlan(reg, p, args);
        GatherClear(o, b, s, start, path, a, p + 1, more, rid, g);
        NeedsClearFrom(b, s.visited, a, p);
      case First(key) =>
        var r := Resolve(o, s, id, key, rid);
        NeedResolved(o, s, id, key, rid);
        GatherFirst(o, s, id, reg, p, args, rid, r);
        NeedLeads(o, b, s, a, p, args, rid);
        var owner := Owner(b, id, key);
        if owner.Some? {
          PathExtend(b, path, Place(owner.value, key));
          assert (path + [Place(owner.value, key)])[0] == path[0];
          ResolveClear(o, b, s, start, path, Place(owner.value, key), rid, r);
        }
        UnderwayUndone(b, s, r.state, rid);
        if r.outcome.Ok? {
          SupplyOnPlan(reg, p, args, r.outcome.instance);
          GatherClear(o, b, r.state, start, path, a, p + 1, Supply(WantAt(reg, p), args, r.outcome.instance), rid, g);
          NeedsClearFrom(b, s.visited, a, p);
        } else if r.outcome.Missing? && WantAt(reg, p).Fill? {
          SupplyOnPlan(reg, p, args, Given(0));
          GatherClear(o, b, r.state, start, path, a, p + 1, args, rid, g);
          NeedsClearFrom(b, s.visited, a, p);
        }
    }
  }

  // ---- The exact outcome in a tree ----

  /** A key with everything it takes to build it, nothing ambiguous behind caches, and no false caches. */
  ghost predicate WellSupplied(s: State, a: Place) {
    IsPlace(s, a) && SuppliedBelow(s, a) && Unambiguous(s, a) && CachesClear(s, s, a)
  }

  /** The outcome is decided by the graph: Cyclic exactly if some path meets a name twice, otherwise Ok. */
  lemma TreeOutcomeExact(o: Oracle, s: State, id: nat, key: Key, rid: nat, a: Place)
    requires WellFormed(s) && id < |s.scopes| && Quiet(s) && NeverRaises(o)
    requires Owner(s, id, key) == Some(a.scope) && a.key == key && WellSupplied(s, a)
    ensures
      var outcome := Resolve(o, s, id, key, rid).outcome;
      && (outcome.Cyclic? <==> MeetsName(s, a))
      && (outcome.Ok? <==> !MeetsName(s, a))
  {
    hide Resolve, MeetsName, SuppliedBelow, Unambiguous, CachesClear, Clear;
    var r := Resolve(o, s, id, key, rid);
    ResolveAtOwner(o, s, id, key, rid);
    ResolveSuppliedAt(o, s, s, a, rid, r);
    if r.outcome.Cyclic? {
      CyclicMeetsName(o, s, id, key, rid);
    } else {
      assert Underway(s, s, rid) && PathFrom(s, a, [] + [a]) && VisitedOn({}, []);
      ResolveClear(o, s, s, a, [], a, rid, r);
      ClearMeetsNothing(s, {}, a);
    }
  }

  /** Cycle reports can be trusted exactly where no name is shadowed, or where there is a cycle anyway. */
  lemma ReportsTrueExactly(o: Oracle, s: State, id: nat, key: Key, rid: nat, a: Place)
    requires WellFormed(s) && id < |s.scopes| && Quiet(s) && NeverRaises(o)
    requires Owner(s, id, key) == Some(a.scope) && a.key == key && WellSupplied(s, a)
    ensures
      (Resolve(o, s, id, key, rid).outcome.Cyclic? ==> CycleFrom(s, a)) <==> (NoShadow(s, a) || CycleFrom(s, a))
    ensures NoShadow(s, a) ==> (Resolve(o, s, id, key, rid).outcome.Cyclic? <==> CycleFrom(s, a))
  {
    hide Resolve, MeetsName, WellSupplied, NoShadow, CycleFrom;
    TreeOutcomeExact(o, s, id, key, rid, a);
    if MeetsName(s, a) {
      NameMetTwice(s, a);
    }
    if !NoShadow(s, a) {
      ShadowMeetsName(s, a);
    }
    if CycleFrom(s, a) {
      CycleMeetsName(s, a);
    }
  }

  // ---- Where the conditions hold by themselves ----

  /** Transient services are never kept, so nothing about caches needs to be asked. */
  lemma TransientsUnambiguous(s: State, a: Place)
    requires IsPlace(s, a) && forall c :: Reaches(s, a, c) && IsPlace(s, c) ==> !Kept(s, c)
    ensures Unambiguous(s, a) && CachesClear(s, s, a)
  {
    hide Reaches, MeetsName;
  }

  /** In a root container every name stands for one registration. */
  lemma RootUnambiguous(s: State, a: Place)
    requires IsPlace(s, a) && s.scopes[a.scope].parent.None?
    ensures Unambiguous(s, a) && NoShadow(s, a)
  {
    RootNoShadow(s, a);
    forall c, x, y | Reaches(s, a, c) && Reaches(s, c, x) && Reaches(s, a, y) && x.key == y.key
      ensures x == y
    {
      RootReaches(s, a, c);
      RootReaches(s, c, x);
      RootReaches(s, a, y);
    }
  }
}
