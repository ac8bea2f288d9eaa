/**
  Three small trees of containers in which a name stands for two registrations. Two are
  reported as cyclic though nothing in them needs itself; in the third a path meets a name
  twice and is not reported, because a cache answers first.
 */
module ShadowedNames {
  import opened Prelude
  import opened ContainerModel
  import opened ContainerGrowth
  import opened RootResolution
  import opened ContainerRuns
  import opened Places
  import opened Supplies

  function Plain(dependsOn: seq<Key>): Registration {
    Registration(Singleton, "", dependsOn, [], None)
  }

  function Holding(parent: Option<nat>, regs: map<Key, Registration>): Scope {
    Scope(parent, regs, {}, map[], map[], map[], map[], 0, 0)
  }

  /** A root container and one child, with nothing built yet. */
  function Family(root: map<Key, Registration>, child: map<Key, Registration>): State {
    State([Holding(None, root), Holding(Some(0), child)], {}, 0, [])
  }

  /** Needs only ever lead down a ranking. */
  ghost predicate Ranked(s: State, rank: Place -> nat) {
    forall x, y :: Leads(s, x, y) ==> rank(y) < rank(x)
  }

  lemma {:induction false} PathDescends(s: State, rank: Place -> nat, w: seq<Place>, i: nat)
    requires Ranked(s, rank) && Path(s, w) && i < |w|
    ensures i > 0 ==> rank(w[i]) < rank(w[0])
  {
    if i > 0 {
      PathDescends(s, rank, w, i - 1);
      assert Step(s, w, i - 1);
    }
  }

  lemma RankedHasNoCycle(s: State, rank: Place -> nat, a: Place)
    requires Ranked(s, rank)
    ensures !CycleFrom(s, a)
  {
    forall c | ReachesOn(s, c, c)
      ensures false
    {
      var w :| PathFrom(s, c, w) && |w| >= 2 && w[|w| - 1] == c;
      PathDescends(s, rank, w, |w| - 1);
    }
  }

  /** In such a tree needs are dependencies. */
  lemma PlainLeads(s: State, x: Place, y: Place)
    requires Leads(s, x, y) && RegAt(s, x).slots == []
    ensures y.key in RegAt(s, x).dependsOn
  {
  }

  // ---- A child that registers its own `A` ----

  /**
    A parent with `A` and `B -> A`, and a child whose own `A -> B`. The child's `A` needs
    the parent's `B`, which needs the parent's own `A`: no cycle.
   */
  function Shadowing(): State {
    Family(map["A" := Plain([]), "B" := Plain(["A"])], map["A" := Plain(["B"])])
  }

  lemma ShadowedNameReportedCyclic(o: Oracle)
    ensures WellFormed(Shadowing()) && Quiet(Shadowing())
    ensures Resolve(o, Shadowing(), 1, "A", 1).outcome.Cyclic?
    ensures !CycleFrom(Shadowing(), Place(1, "A"))
  {
    hide Resolve, Gather, Finish;
    var s := Shadowing();
    var e := Enter(s, 1, "A", 1);
    ResolveBuilding(o, s, 1, "A", 1);
    ClimbsToVisited(o, e, "B", "A");
    NeedResolved(o, e, 1, "B", 1);
    GatherFirst(o, e, 1, Plain(["B"]), 0, NoArgs, 1, Resolve(o, e, 1, "B", 1));
    ShadowingHasNoCycle();
  }

  lemma ShadowingHasNoCycle()
    ensures !CycleFrom(Shadowing(), Place(1, "A"))
  {
    var s := Shadowing();
    var rank := (a: Place) => if a == Place(1, "A") then 3 else if a == Place(0, "B") then 2 else 1;
    forall x, y | Leads(s, x, y)
      ensures rank(y) < rank(x)
    {
      PlainLeads(s, x, y);
    }
    RankedHasNoCycle(s, rank, Place(1, "A"));
  }

  /** From the child, `key` is the parent's, and the parent's `key` needs a name already visited. */
  lemma ClimbsToVisited(o: Oracle, e: State, key: Key, name: Key)
    requires WellFormed(e) && |e.scopes| == 2 && e.scopes[1].parent == Some(0) && key !in e.scopes[1].regs
    requires Builds(e, 0, key, 1) && e.scopes[0].regs[key] == Plain([name])
    requires name in e.scopes[0].regs && name in e.visited && name != key
    ensures Resolve(o, e, 1, key, 1).outcome.Cyclic?
  {
    hide Resolve, Gather, Finish;
    ResolveAbsent(o, e, 1, key, 1);
    ResolveBuilding(o, e, 0, key, 1);
    var f := Enter(e, 0, key, 1);
    ResolveNotBuilding(o, f, 0, name, 1);
    GatherFirst(o, f, 0, Plain([name]), 0, NoArgs, 1, Resolve(o, f, 0, name, 1));
  }

  // ---- The same registration in both ----

  /**
    `A -> M` in both containers, `B -> A` in the parent and `M -> B` in the child. The parent's
    `A` asks for an `M` that the parent does not have: an unsatisfied need, not a cycle.
   */
  function Repeated(): State {
    Family(map["A" := Plain(["M"]), "B" := Plain(["A"])], map["A" := Plain(["M"]), "M" := Plain(["B"])])
  }

  lemma RepeatedNameReportedCyclic(o: Oracle)
    ensures WellFormed(Repeated()) && Quiet(Repeated())
    ensures Resolve(o, Repeated(), 1, "A", 1).outcome.Cyclic?
    ensures !CycleFrom(Repeated(), Place(1, "A"))
  {
    hide Resolve, Gather, Finish;
    var s := Repeated();
    var e := Enter(s, 1, "A", 1);
    ResolveBuilding(o, s, 1, "A", 1);
    RepeatedNeed(o, e);
    NeedResolved(o, e, 1, "M", 1);
    GatherFirst(o, e, 1, Plain(["M"]), 0, NoArgs, 1, Resolve(o, e, 1, "M", 1));
    RepeatedHasNoCycle();
  }

  lemma RepeatedNeed(o: Oracle, e: State)
    requires e == Enter(Repeated(), 1, "A", 1) && WellFormed(e)
    ensures Resolve(o, e, 1, "M", 1).outcome.Cyclic?
  {
    hide Resolve, Gather, Finish;
    ResolveBuilding(o, e, 1, "M", 1);
    var f := Enter(e, 1, "M", 1);
    ClimbsToVisited(o, f, "B", "A");
    NeedResolved(o, f, 1, "B", 1);
    GatherFirst(o, f, 1, Plain(["B"]), 0, NoArgs, 1, Resolve(o, f, 1, "B", 1));
  }

  lemma RepeatedHasNoCycle()
    ensures !CycleFrom(Repeated(), Place(1, "A"))
  {
    var s := Repeated();
    var rank := (a: Place) =>
      if a == Place(1, "A") then 4 else if a == Place(1, "M") then 3 else if a == Place(0, "B") then 2 else 1;
    forall x, y | Leads(s, x, y)
      ensures rank(y) < rank(x)
    {
      PlainLeads(s, x, y);
    }
    RankedHasNoCycle(s, rank, Place(1, "A"));
  }

  // ---- A cache that answers first ----

  /**
    The child's `S` needs the parent's `P` and then the child's own `A`, which needs `P` too; `P`
    needs the parent's `A`. Building `P` keeps the parent's `A`, and that is what the child's `A`
    is then answered with.
   */
  function Hidden(): State {
    Family(map["A" := Plain([]), "P" := Plain(["A"])], map["A" := Plain(["P"]), "S" := Plain(["P", "A"])])
  }

  /** A path meets the name `A` twice, nothing is cached, all is supplied, no factory raises: and no report. */
  lemma CachedNameNotReported(o: Oracle)
    requires NeverRaises(o)
    ensures WellFormed(Hidden()) && Quiet(Hidden()) && SuppliedBelow(Hidden(), Place(1, "S"))
    ensures MeetsName(Hidden(), Place(1, "S"))
    ensures Resolve(o, Hidden(), 1, "S", 1).outcome.Ok?
  {
    hide Resolve, Gather, Finish;
    var s := Hidden();
    HiddenPath();
    HiddenSupplied();
    ResolveBuilding(o, s, 1, "S", 1);
    var e, reg := Enter(s, 1, "S", 1), Plain(["P", "A"]);
    var r := Resolve(o, e, 1, "P", 1);
    HiddenParent(o, e, r);
    GatherFirst(o, e, 1, reg, 0, NoArgs, 1, r);
    var args := Supply(WantAt(reg, 0), NoArgs, r.outcome.instance);
    var q := Resolve(o, r.state, 1, "A", 1);
    ResolveNotBuilding(o, r.state, 1, "A", 1);
    GatherFirst(o, r.state, 1, reg, 1, args, 1, q);
    GatherDone(o, r.state, 1, reg, Supply(WantAt(reg, 1), args, q.outcome.instance), 1);
    FinishBound(o, Gathered(o, s, 1, "S", 1), 1, "S", 1);
  }

  /** A singleton without needs is built and kept. */
  lemma BuildsLeaf(o: Oracle, s: State, id: nat, key: Key, rid: nat)
    requires NeverRaises(o) && Builds(s, id, key, rid) && s.scopes[id].regs[key] == Plain([])
    ensures
      var r := Resolve(o, s, id, key, rid);
      r.outcome.Ok? && |r.state.scopes| == |s.scopes| && key in r.state.scopes[id].singletons
  {
    hide Resolve, Gather, Finish;
    ResolveBuilding(o, s, id, key, rid);
    GatherDone(o, Enter(s, id, key, rid), id, Plain([]), NoArgs, rid);
    FinishBound(o, Gathered(o, s, id, key, rid), id, key, rid);
    FinishEffect(o, Gathered(o, s, id, key, rid), id, key, rid);
  }

  /** A singleton is built over its one need, and what the need left in the cache stays there. */
  lemma BuildsOver(o: Oracle, s: State, id: nat, key: Key, need: Key, rid: nat, q: Resolution)
    requires NeverRaises(o) && Builds(s, id, key, rid) && s.scopes[id].regs[key] == Plain([need])
    requires WellFormed(Enter(s, id, key, rid))
    requires q == Resolve(o, Enter(s, id, key, rid), id, need, rid) && q.outcome.Ok?
    ensures
      var r := Resolve(o, s, id, key, rid);
      && r.outcome.Ok? && |r.state.scopes| == |q.state.scopes| == |s.scopes|
      && forall k :: k in q.state.scopes[id].singletons ==> k in r.state.scopes[id].singletons
  {
    hide Resolve, Gather, Finish;
    ResolveBuilding(o, s, id, key, rid);
    var f, reg := Enter(s, id, key, rid), Plain([need]);
    NeedResolved(o, f, id, need, rid);
    GatherFirst(o, f, id, reg, 0, NoArgs, rid, q);
    GatherDone(o, q.state, id, reg, Supply(WantAt(reg, 0), NoArgs, q.outcome.instance), rid);
    FinishBound(o, Gathered(o, s, id, key, rid), id, key, rid);
    FinishEffect(o, Gathered(o, s, id, key, rid), id, key, rid);
  }

  /** Resolving `P` from the child builds the parent's `A` and `P`, and keeps the `A`. */
  lemma HiddenParent(o: Oracle, e: State, r: Resolution)
    requires NeverRaises(o) && e == Enter(Hidden(), 1, "S", 1) && r == Resolve(o, e, 1, "P", 1)
    ensures r.outcome.Ok? && WellFormed(r.state) && |r.state.scopes| == 2 && r.state.visited == {"S"}
    ensures r.state.scopes[1].regs == e.scopes[1].regs && r.state.scopes[1].marks == e.scopes[1].marks
    ensures r.state.scopes[1].parent == Some(0) && "A" in r.state.scopes[0].singletons
  {
    hide Resolve, Gather, Finish, Undone;
    ResolveAbsent(o, e, 1, "P", 1);
    var f := Enter(e, 0, "P", 1);
    BuildsLeaf(o, f, 0, "A", 1);
    BuildsOver(o, e, 0, "P", "A", 1, Resolve(o, f, 0, "A", 1));
    NeedResolved(o, e, 1, "P", 1);
    UndoneAt(e, r.state, 1);
    SameVisited(e, r.state);
  }

  lemma SameVisited(s: State, t: State)
    requires Undone(s, t)
    ensures t.visited == s.visited
  {
  }

  lemma HiddenPath()
    ensures MeetsName(Hidden(), Place(1, "S"))
  {
    var s := Hidden();
    var w := [Place(1, "S"), Place(1, "A"), Place(0, "P"), Place(0, "A")];
    assert NeedKey(RegAt(s, w[0]), 1) == Some("A") && NeedKey(RegAt(s, w[1]), 0) == Some("P");
    assert NeedKey(RegAt(s, w[2]), 0) == Some("A");
    assert Step(s, w, 0) && Step(s, w, 1) && Step(s, w, 2);
    assert PathFrom(s, w[0], w) && Repeats(w, 1, 3);
  }

  lemma HiddenSupplied()
    ensures SuppliedBelow(Hidden(), Place(1, "S"))
  {
    var s := Hidden();
    forall c | Reaches(s, Place(1, "S"), c)
      ensures SuppliedAt(s, c)
    {
      var w :| PathFrom(s, Place(1, "S"), w) && w[|w| - 1] == c;
      PathPlaces(s, w, |w| - 1);
      hide Reaches, Path, SuppliedAt;
      assert Owner(s, c.scope, "A").Some? && Owner(s, c.scope, "P").Some?;
      PlainSupplied(s, c);
    }
  }

  lemma PlainSupplied(s: State, c: Place)
    requires IsPlace(s, c) && RegAt(s, c).slots == []
    requires forall d :: d in RegAt(s, c).dependsOn ==> Owner(s, c.scope, d).Some?
    ensures SuppliedAt(s, c)
  {
    forall d | d in RegAt(s, c).dependsOn
      ensures d in Visible(s, c.scope)
    {
      VisibleOwned(s, c.scope, d);
    }
  }
}
