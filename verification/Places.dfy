/**
  The graph a resolution walks in a tree of containers. A node is a registration, named by
  its container and its key, because one key can be registered in several containers. From a
  node the resolver goes to the declared dependencies and the hints it follows, each looked up
  from the node's own container.
 */
module Places {
  import opened Prelude
  import opened ContainerModel
  import opened ContainerGrowth
  import opened RootResolution
  import opened ContainerRuns

  datatype Place = Place(scope: nat, key: Key)

  predicate IsPlace(s: State, a: Place) {
    WellFormed(s) && a.scope < |s.scopes| && a.key in s.scopes[a.scope].regs
  }

  function RegAt(s: State, a: Place): Registration
    requires IsPlace(s, a)
  {
    s.scopes[a.scope].regs[a.key]
  }

  /** The key that position `q` of the plan asks for, if it asks for one. */
  function NeedKey(reg: Registration, q: nat): Option<Key>
    requires q < PlanSize(reg)
  {
    if q < |reg.dependsOn| then Some(reg.dependsOn[q])
    else if FollowsHint(reg, reg.slots[q - |reg.dependsOn|]) then reg.slots[q - |reg.dependsOn|].hint
    else None
  }

  ghost predicate Asks(reg: Registration, key: Key) {
    exists q: nat :: q < PlanSize(reg) && NeedKey(reg, q) == Some(key)
  }

  ghost predicate Leads(s: State, a: Place, b: Place) {
    IsPlace(s, a) && IsPlace(s, b) && Asks(RegAt(s, a), b.key) && Owner(s, a.scope, b.key) == Some(b.scope)
  }

  ghost predicate Step(s: State, w: seq<Place>, i: nat)
    requires i + 1 < |w|
  {
    Leads(s, w[i], w[i + 1])
  }

  ghost predicate Path(s: State, w: seq<Place>) {
    |w| > 0 && IsPlace(s, w[0]) && forall i: nat :: i + 1 < |w| ==> Step(s, w, i)
  }

  ghost predicate PathFrom(s: State, a: Place, w: seq<Place>) {
    Path(s, w) && w[0] == a
  }

  /** `b` is reached from `a` by zero or more steps. */
  ghost predicate Reaches(s: State, a: Place, b: Place) {
    exists w :: PathFrom(s, a, w) && w[|w| - 1] == b
  }

  /** `b` is reached from `a` by at least one step. */
  ghost predicate ReachesOn(s: State, a: Place, b: Place) {
    exists w :: PathFrom(s, a, w) && |w| >= 2 && w[|w| - 1] == b
  }

  predicate Repeats(w: seq<Place>, i: nat, j: nat) {
    i < j < |w| && w[i].key == w[j].key
  }

  /** Some path from `a` meets two registrations of one name, or one registration twice. */
  ghost predicate MeetsName(s: State, a: Place) {
    exists w, i: nat, j: nat :: PathFrom(s, a, w) && Repeats(w, i, j)
  }

  /** A registration at or below `a` needs itself. */
  ghost predicate CycleFrom(s: State, a: Place) {
    exists c :: Reaches(s, a, c) && ReachesOn(s, c, c)
  }

  /** No registration at or below `a` lies strictly below another one of the same name. */
  ghost predicate NoShadow(s: State, a: Place) {
    forall x, y :: Reaches(s, a, x) && ReachesOn(s, x, y) && x.key == y.key ==> x == y
  }

  // ---- Paths ----

  lemma PathJoin(s: State, v: seq<Place>, w: seq<Place>)
    requires Path(s, v) && Path(s, w) && v[|v| - 1] == w[0]
    ensures Path(s, v + w[1..])
  {
    var u := v + w[1..];
    forall i: nat | i + 1 < |u|
      ensures Step(s, u, i)
    {
      if i + 1 < |v| {
        assert Step(s, v, i);
      } else {
        assert Step(s, w, i + 1 - |v|);
        assert u[i] == w[i + 1 - |v|] && u[i + 1] == w[i + 2 - |v|];
      }
    }
  }

  lemma PathSlice(s: State, w: seq<Place>, i: nat, j: nat)
    requires Path(s, w) && i < j <= |w|
    ensures Path(s, w[i..j])
  {
    var u := w[i..j];
    if i > 0 {
      assert Step(s, w, i - 1);
    }
    forall k: nat | k + 1 < |u|
      ensures Step(s, u, k)
    {
      assert Step(s, w, i + k);
    }
  }

  lemma PathExtend(s: State, w: seq<Place>, a: Place)
    requires Path(s, w) && Leads(s, w[|w| - 1], a)
    ensures Path(s, w + [a])
  {
    var u := w + [a];
    forall i: nat | i + 1 < |u|
      ensures Step(s, u, i)
    {
      if i + 1 < |w| {
        assert Step(s, w, i);
      }
    }
  }

  lemma PathPlaces(s: State, w: seq<Place>, i: nat)
    requires Path(s, w) && i < |w|
    ensures IsPlace(s, w[i]) && Reaches(s, w[0], w[i]) && Reaches(s, w[i], w[|w| - 1])
  {
    PathSlice(s, w, 0, i + 1);
    assert PathFrom(s, w[0], w[0..i + 1]);
    PathSlice(s, w, i, |w|);
    assert w[i..|w|] == w[i..] && PathFrom(s, w[i], w[i..|w|]);
  }

  lemma ReachesTransitive(s: State, a: Place, b: Place, c: Place)
    requires Reaches(s, a, b) && Reaches(s, b, c)
    ensures Reaches(s, a, c)
  {
    var v :| PathFrom(s, a, v) && v[|v| - 1] == b;
    var w :| PathFrom(s, b, w) && w[|w| - 1] == c;
    PathJoin(s, v, w);
    assert PathFrom(s, a, v + w[1..]);
  }

  lemma ReachesSelf(s: State, a: Place)
    requires IsPlace(s, a)
    ensures Reaches(s, a, a)
  {
    assert PathFrom(s, a, [a]);
  }

  lemma LeadsReaches(s: State, a: Place, b: Place)
    requires Leads(s, a, b)
    ensures Reaches(s, a, b)
  {
    assert PathFrom(s, a, [a]);
    PathExtend(s, [a], b);
    assert PathFrom(s, a, [a] + [b]);
  }

  // ---- Names and cycles ----

  lemma NameBelowItself(s: State, a: Place, x: Place, y: Place)
    requires Reaches(s, a, x) && ReachesOn(s, x, y) && x.key == y.key
    ensures MeetsName(s, a)
  {
    var v :| PathFrom(s, a, v) && v[|v| - 1] == x;
    var w :| PathFrom(s, x, w) && |w| >= 2 && w[|w| - 1] == y;
    PathJoin(s, v, w);
    hide Path;
    var u := v + w[1..];
    assert PathFrom(s, a, u) && Repeats(u, |v| - 1, |u| - 1);
  }

  /** A cycle meets a name twice. */
  lemma CycleMeetsName(s: State, a: Place)
    requires CycleFrom(s, a)
    ensures MeetsName(s, a)
  {
    hide Reaches, ReachesOn;
    var c :| Reaches(s, a, c) && ReachesOn(s, c, c);
    NameBelowItself(s, a, c, c);
  }

  /** Two registrations of one name on a path: the same one is a cycle, two are a shadowed name. */
  lemma NameMetTwice(s: State, a: Place)
    requires MeetsName(s, a)
    ensures CycleFrom(s, a) || !NoShadow(s, a)
  {
    var w, i: nat, j: nat :| PathFrom(s, a, w) && Repeats(w, i, j);
    PathPlaces(s, w, i);
    PathSlice(s, w, i, j + 1);
    var u := w[i..j + 1];
    assert PathFrom(s, w[i], u) && u[|u| - 1] == w[j];
    assert ReachesOn(s, w[i], w[j]);
  }

  /** A shadowed name is met twice. */
  lemma ShadowMeetsName(s: State, a: Place)
    requires !NoShadow(s, a)
    ensures MeetsName(s, a)
  {
    hide Reaches, ReachesOn;
    var x, y :| Reaches(s, a, x) && ReachesOn(s, x, y) && x.key == y.key && x != y;
    NameBelowItself(s, a, x, y);
  }

  // ---- What a plan asks for ----

  /** On its plan the resolver asks for exactly the needed keys. */
  lemma NeedIsAsked(reg: Registration, p: nat, args: Args)
    requires OnPlan(reg, p, args) && p < PlanSize(reg)
    ensures
      var need := NeedOf(WantAt(reg, p), args);
      NeedKey(reg, p) == if need.First? then Some(need.key) else None
  {
  }

  /** The resolution of a needed key is that of the place it leads to, or finds nothing. */
  lemma NeedLeads(o: Oracle, b: State, s: State, a: Place, p: nat, args: Args, rid: nat)
    requires IsPlace(b, a) && WellFormed(s) && SameTree(b, s)
    requires OnPlan(RegAt(b, a), p, args) && p < PlanSize(RegAt(b, a)) && NeedOf(WantAt(RegAt(b, a), p), args).First?
    ensures
      var key := NeedOf(WantAt(RegAt(b, a), p), args).key;
      var owner := Owner(b, a.scope, key);
      && (owner.None? ==> Resolve(o, s, a.scope, key, rid) == Resolution(Missing, s))
      && (owner.Some? ==>
            && Leads(b, a, Place(owner.value, key))
            && Resolve(o, s, a.scope, key, rid) == Resolve(o, s, owner.value, key, rid))
  {
    hide Resolve;
    var key := NeedOf(WantAt(RegAt(b, a), p), args).key;
    NeedIsAsked(RegAt(b, a), p, args);
    OwnerSameTree(b, s, a.scope, key);
    ResolveAtOwner(o, s, a.scope, key, rid);
  }

  // ---- A root container is its own graph ----

  lemma {:induction false} RootPath(s: State, w: seq<Place>, i: nat)
    requires Path(s, w) && i < |w| && s.scopes[w[0].scope].parent.None?
    ensures w[i].scope == w[0].scope
  {
    if i > 0 {
      RootPath(s, w, i - 1);
      assert Step(s, w, i - 1);
    }
  }

  lemma RootNoShadow(s: State, a: Place)
    requires IsPlace(s, a) && s.scopes[a.scope].parent.None?
    ensures NoShadow(s, a)
  {
    forall x, y | Reaches(s, a, x) && ReachesOn(s, x, y) && x.key == y.key
      ensures x == y
    {
      var v :| PathFrom(s, a, v) && v[|v| - 1] == x;
      RootPath(s, v, |v| - 1);
      var w :| PathFrom(s, x, w) && |w| >= 2 && w[|w| - 1] == y;
      RootPath(s, w, |w| - 1);
    }
  }
}
