/**
  What a Cyclic error means. The resolver compares names, and one name can stand for different
  registrations in a container and in its ancestors. In any tree a report means that some path
  of needs meets a name twice; where no registration shadows another on such a path, and so in
  every root container, it means a real cycle.
 */
module CycleReports {
  import opened Prelude
  import opened Graph
  import opened ContainerModel
  import opened ContainerGrowth
  import opened RootResolution
  import opened Detectors
  import opened ContainerRuns
  import opened Places

  /** Every name the chain has visited is that of a registration on the path. */
  ghost predicate VisitedOn(visited: set<Key>, path: seq<Place>) {
    forall v :: v in visited ==> exists i :: 0 <= i < |path| && path[i].key == v
  }

  /** The state of a chain that is somewhere in the tree `b`. */
  ghost predicate Underway(b: State, s: State, rid: nat) {
    WellFormed(b) && WellFormed(s) && SameTree(b, s) && MarkedIsVisited(s, rid)
  }

  lemma UnderwayEntered(b: State, s: State, id: nat, key: Key, rid: nat)
    requires Underway(b, s, rid) && id < |s.scopes|
    ensures Underway(b, Enter(s, id, key, rid), rid)
  {
    EnterAgrees(s, id, key, rid);
  }

  lemma UnderwayUndone(b: State, s: State, t: State, rid: nat)
    requires Underway(b, s, rid) && Undone(s, t) && |s.scopes| > 0
    ensures Underway(b, t, rid)
  {
    UndoneMeasure(s, t);
    UndoneSameTree(b, s, t);
    UndoneAgrees(s, t, 0, rid);
  }

  /** `path` leads to `a`, which is about to be resolved. */
  lemma {:induction false} ResolveMeets(
    o: Oracle, b: State, s: State, a: Place, rid: nat, path: seq<Place>, r: Resolution)
    requires Underway(b, s, rid) && IsPlace(b, a) && r == Resolve(o, s, a.scope, a.key, rid)
    requires Path(b, path + [a]) && VisitedOn(s.visited, path)
    ensures r.outcome.Cyclic? ==> MeetsName(b, (path + [a])[0])
    decreases Unvisited(s), 0, 0
  {
    hide Resolve, Gather, Finish, Path, Underway;
    PlaceKept(b, s, a, rid);
    var w := path + [a];
    if Builds(s, a.scope, a.key, rid) {
      ResolveBuilding(o, s, a.scope, a.key, rid);
      UnderwayEntered(b, s, a.scope, a.key, rid);
      EnteredOn(s.visited, path, a);
      GatherMeets(o, b, Enter(s, a.scope, a.key, rid), a, 0, NoArgs, rid, w, Gathered(o, s, a.scope, a.key, rid));
    } else {
      ResolveNotBuilding(o, s, a.scope, a.key, rid);
      if r.outcome.Cyclic? {
        var i :| 0 <= i < |path| && path[i].key == a.key;
        assert PathFrom(b, w[0], w) && Repeats(w, i, |path|);
      }
    }
  }

  lemma PlaceKept(b: State, s: State, a: Place, rid: nat)
    requires Underway(b, s, rid) && IsPlace(b, a)
    ensures IsPlace(s, a) && RegAt(s, a) == RegAt(b, a) && MarksVisited(s, a.scope, rid)
  {
  }

  lemma EnteredOn(visited: set<Key>, path: seq<Place>, a: Place)
    requires VisitedOn(visited, path)
    ensures VisitedOn(visited + {a.key}, path + [a])
  {
    var w := path + [a];
    forall v | v in visited + {a.key}
      ensures exists i :: 0 <= i < |w| && w[i].key == v
    {
      if v == a.key {
        assert w[|path|].key == v;
      } else {
        var i :| 0 <= i < |path| && path[i].key == v;
        assert w[i].key == v;
      }
    }
  }

  /** `path` ends at `a`, whose arguments are being gathered. */
  lemma {:induction false} GatherMeets(
    o: Oracle, b: State, s: State, a: Place, p: nat, args: Args, rid: nat, path: seq<Place>, g: Gathering)
    requires Underway(b, s, rid) && IsPlace(b, a) && OnPlan(RegAt(b, a), p, args) && a.scope < |s.scopes|
    requires g == Gather(o, s, a.scope, RegAt(b, a), p, args, rid)
    requires path != [] && Path(b, path) && path[|path| - 1] == a && VisitedOn(s.visited, path)
    ensures g.Blocked? && g.error.Cyclic? ==> MeetsName(b, path[0])
    decreases Unvisited(s), 1, PlanSize(RegAt(b, a)) - p
  {
    hide Resolve, Gather, Path, Underway, VisitedOn, MeetsName;
    assert WellFormed(s) && SameTree(b, s) by { UnderwayTree(b, s, rid); }
    var reg, id := RegAt(b, a), a.scope;
    if p == PlanSize(reg) {
      GatherDone(o, s, id, reg, args, rid);
    } else {
      match NeedOf(WantAt(reg, p), args)
      case Take(more) =>
        GatherTake(o, s, id, reg, p, args, rid);
        TakeOnPlan(reg, p, args);
        GatherMeets(o, b, s, a, p + 1, more, rid, path, g);
      case First(key) =>
        var r := Resolve(o, s, id, key, rid);
        NeedResolved(o, s, id, key, rid);
        GatherFirst(o, s, id, reg, p, args, rid, r);
        NeedLeads(o, b, s, a, p, args, rid);
        var owner := Owner(b, id, key);
        if owner.Some? {
          PathExtend(b, path, Place(owner.value, key));
          assert (path + [Place(owner.value, key)])[0] == path[0];
          ResolveMeets(o, b, s, Place(owner.value, key), rid, path, r);
        }
        UnderwayUndone(b, s, r.state, rid);
        if r.outcome.Ok? {
          SupplyOnPlan(reg, p, args, r.outcome.instance);
          GatherMeets(o, b, r.state, a, p + 1, Supply(WantAt(reg, p), args, r.outcome.instance), rid, path, g);
        } else if r.outcome.Missing? && WantAt(reg, p).Fill? {
          SupplyOnPlan(reg, p, args, Given(0));
          GatherMeets(o, b, r.state, a, p + 1, args, rid, path, g);
        }
    }
  }

  lemma UnderwayTree(b: State, s: State, rid: nat)
    requires Underway(b, s, rid)
    ensures WellFormed(s) && SameTree(b, s)
  {
  }

  // ---- What a report means ----

  /** In any tree, from any caches and with any factories: a report means that a path meets a name twice. */
  lemma CyclicMeetsName(o: Oracle, s: State, id: nat, key: Key, rid: nat)
    requires WellFormed(s) && id < |s.scopes| && Quiet(s) && Resolve(o, s, id, key, rid).outcome.Cyclic?
    ensures Owner(s, id, key).Some? && MeetsName(s, Place(Owner(s, id, key).value, key))
  {
    hide Resolve, MeetsName;
    ResolveAtOwner(o, s, id, key, rid);
    var a := Place(Owner(s, id, key).value, key);
    assert MarkedIsVisited(s, rid) && Path(s, [] + [a]) && ([] + [a])[0] == a;
    ResolveMeets(o, s, s, a, rid, [], Resolve(o, s, a.scope, key, rid));
  }

  /** Where no registration lies below another one of its name, a report means a real cycle. */
  lemma CyclicErrorIsReal(o: Oracle, s: State, id: nat, key: Key, rid: nat)
    requires WellFormed(s) && id < |s.scopes| && Quiet(s) && Resolve(o, s, id, key, rid).outcome.Cyclic?
    requires Owner(s, id, key).Some? ==> NoShadow(s, Place(Owner(s, id, key).value, key))
    ensures Owner(s, id, key).Some? && CycleFrom(s, Place(Owner(s, id, key).value, key))
  {
    hide Resolve, NoShadow, CycleFrom;
    CyclicMeetsName(o, s, id, key, rid);
    NameMetTwice(s, Place(Owner(s, id, key).value, key));
  }

  // ---- A root container ----

  function KeysOf(w: seq<Place>): (ks: seq<Key>)
    ensures |ks| == |w| && forall i :: 0 <= i < |w| ==> ks[i] == w[i].key
  {
    if w == [] then [] else KeysOf(w[..|w| - 1]) + [w[|w| - 1].key]
  }

  /** In a root container a path is a walk of the effective graph. */
  lemma RootWalk(s: State, a: Place, w: seq<Place>)
    requires PathFrom(s, a, w) && s.scopes[a.scope].parent.None?
    ensures WalkFrom(EffectiveGraph(s.scopes[a.scope].regs), a.key, w[|w| - 1].key, KeysOf(w))
  {
    var bp, ks := s.scopes[a.scope].regs, KeysOf(w);
    var g := EffectiveGraph(bp);
    forall i | 0 <= i < |ks| - 1
      ensures Joined(g, ks, i)
    {
      assert Step(s, w, i);
      RootPath(s, w, i);
      AskedIsEdge(bp, ks[i], ks[i + 1]);
    }
  }

  lemma AskedIsEdge(bp: map<Key, Registration>, n: Key, k: Key)
    requires n in bp && Asks(bp[n], k)
    ensures Edge(EffectiveGraph(bp), n, k)
  {
    HintKeysMembers(bp[n], bp[n].slots, k);
  }

  lemma RootReaches(s: State, a: Place, b: Place)
    requires IsPlace(s, a) && s.scopes[a.scope].parent.None? && Reaches(s, a, b)
    ensures IsPlace(s, b) && b.scope == a.scope && Below(EffectiveGraph(s.scopes[a.scope].regs), a.key, b.key)
  {
    var w :| PathFrom(s, a, w) && w[|w| - 1] == b;
    PathPlaces(s, w, |w| - 1);
    RootPath(s, w, |w| - 1);
    RootWalk(s, a, w);
  }

  /** A Cyclic error of a root container is a genuine cycle of the edges the resolver follows. */
  lemma RootCycleIsReal(o: Oracle, s: State, id: nat, key: Key, rid: nat, bp: map<Key, Registration>)
    requires RootWith(s, id, bp) && Quiet(s) && Resolve(o, s, id, key, rid).outcome.Cyclic?
    ensures CycleBelow(EffectiveGraph(bp), key) && HasCycle(EffectiveGraph(bp))
  {
    hide Resolve;
    var a, g := Place(id, key), EffectiveGraph(bp);
    ResolveAtOwner(o, s, id, key, rid);
    RootNoShadow(s, a);
    CyclicErrorIsReal(o, s, id, key, rid);
    hide NoShadow;
    var c :| Reaches(s, a, c) && ReachesOn(s, c, c);
    RootReaches(s, a, c);
    var w :| PathFrom(s, c, w) && |w| >= 2 && w[|w| - 1] == c;
    RootWalk(s, c, w);
    assert ClosedWalk(g, KeysOf(w));
    ClosedStrict(g, KeysOf(w));
  }
}
