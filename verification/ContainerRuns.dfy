/**
  The container's public operations, runs of them over a growing tree of scopes, and what
  every run guarantees about lifetimes, from one `reset` of a container to its next.
 */
module ContainerRuns {
  import opened Prelude
  import opened ContainerModel
  import opened ContainerGrowth
  import opened SingletonOnce

  datatype Op =
    | Register(id: nat, interface: string, lifetime: Lifetime, name: string, dependsOn: seq<Key>,
               slots: seq<Slot>, given: Option<nat>)
    | Alias(id: nat, from: Key, target: Key)
    | ResolveService(id: nat, interface: string, name: string)
    | CreateScope(id: nat)
    | ClearScoped(id: nat)
    | Reset(id: nat)

  datatype Answer = Done | Duplicate | AliasTargetMissing | NoSuchScope | Created(scope: nat) | Got(outcome: Outcome)

  function KeyOf(interface: string, name: string): Key {
    if name == "" then interface else interface + ":" + name
  }

  /** A ready-made instance is registered as a singleton whose factory takes no argument. */
  function MakeRegistration(
    lifetime: Lifetime, name: string, dependsOn: seq<Key>, slots: seq<Slot>, given: Option<nat>): Registration
  {
    if given.Some? then Registration(Singleton, name, dependsOn, [], given)
    else Registration(lifetime, name, dependsOn, slots, None)
  }

  /** Only a named registration may replace one, and only under its own name. */
  predicate Replaceable(scope: Scope, key: Key, name: string) {
    key in scope.regs ==> name != "" && scope.regs[key].name == name
  }

  /** `_resolve_key`: a registration here wins over an alias here, which wins over the parent. */
  function ResolveKey(s: State, id: nat, key: Key): Key
    requires WellFormed(s) && id < |s.scopes|
    decreases id
  {
    var scope := s.scopes[id];
    if key in scope.regs then key
    else if key in scope.aliases then scope.aliases[key]
    else if scope.parent.Some? then ResolveKey(s, scope.parent.value, key)
    else key
  }

  function NewScope(parent: Option<nat>): Scope {
    Scope(parent, map[], {}, map[], map[], map[], map[], 0, 0)
  }

  const Initial := State([NewScope(None)], {}, 0, [])

  /** The state in which a public `resolve` on `id` starts: its chain number has been drawn. */
  function Numbered(s: State, id: nat): State
    requires id < |s.scopes|
  {
    WithScope(s, id, s.scopes[id].(counter := s.scopes[id].counter + 1))
  }

  /** The public `resolve`. */
  function Serve(o: Oracle, s: State, id: nat, interface: string, name: string): (r: Resolution)
    requires WellFormed(s) && id < |s.scopes|
    ensures WellFormed(r.state) && |r.state.scopes| == |s.scopes|
  {
    assert WellFormed(Numbered(s, id));
    var key := ResolveKey(s, id, KeyOf(interface, name));
    var r := Resolve(o, Numbered(s, id), id, key, s.scopes[id].counter + 1);
    UndoneMeasure(Numbered(s, id), r.state);
    r
  }

  function Apply(o: Oracle, s: State, op: Op): (r: (Answer, State))
    requires WellFormed(s)
    ensures WellFormed(r.1)
  {
    if op.id >= |s.scopes| then (NoSuchScope, s)
    else
      var scope := s.scopes[op.id];
      match op
      case Register(id, interface, lifetime, name, dependsOn, slots, given) =>
        var key := KeyOf(interface, name);
        if !Replaceable(scope, key, name) then (Duplicate, s)
        else
          var reg := MakeRegistration(lifetime, name, dependsOn, slots, given);
          (Done, WithScope(s, id, scope.(regs := scope.regs[key := reg], status := scope.status - {key})))
      case Alias(id, from, target) =>
        if target !in scope.regs then (AliasTargetMissing, s)
        else (Done, WithScope(s, id, scope.(aliases := scope.aliases[from := target])))
      case ResolveService(id, interface, name) =>
        var r := Serve(o, s, id, interface, name);
        (Got(r.outcome), r.state)
      case CreateScope(id) => (Created(|s.scopes|), s.(scopes := s.scopes + [NewScope(Some(id))]))
      case ClearScoped(id) => (Done, WithScope(s, id, scope.(scoped := map[])))
      case Reset(id) =>
        (Done, WithScope(s, id, scope.(regs := map[], status := map[], singletons := map[], scoped := map[],
                                       aliases := map[], since := |s.log|)))
  }

  // ---- What every operation keeps ----

  ghost predicate RunInv(s: State) {
    WellFormed(s) && Quiet(s) && LifetimeInv(s)
  }

  /** Scopes stay, and calls and the log of builds only grow. */
  ghost predicate Later(s: State, t: State) {
    |s.scopes| <= |t.scopes| && s.calls <= t.calls && s.log <= t.log
  }

  /** Without a reset, singleton caches only grow too, and a scope defers to its parent's singleton. */
  ghost predicate Persists(s: State, t: State) {
    && Later(s, t) && Deferred(s, t)
    && forall i :: 0 <= i < |s.scopes| ==>
         t.scopes[i].parent == s.scopes[i].parent && Sub(s.scopes[i].singletons, t.scopes[i].singletons)
  }

  lemma PersistsTransitive(s: State, t: State, u: State)
    requires WellFormed(s) && Persists(s, t) && Persists(t, u)
    ensures Persists(s, u)
  {
    forall i, k | 0 <= i < |s.scopes| && s.scopes[i].parent.Some? &&
      HasSingleton(s, s.scopes[i].parent.value, k) && HasSingleton(u, i, k)
      ensures HasSingleton(s, i, k)
    {
      assert HasSingleton(t, t.scopes[i].parent.value, k);
    }
  }

  /** Changing what the invariants do not speak of keeps them. */
  lemma SameCaches(s: State, t: State)
    requires RunInv(s) && WellFormed(t) && Quiet(t) && t.log == s.log && t.calls == s.calls
    requires |s.scopes| <= |t.scopes|
    requires forall i :: 0 <= i < |s.scopes| ==>
               && t.scopes[i].parent == s.scopes[i].parent && t.scopes[i].singletons == s.scopes[i].singletons
               && t.scopes[i].since == s.scopes[i].since && Sub(t.scopes[i].scoped, s.scopes[i].scoped)
    requires forall i :: |s.scopes| <= i < |t.scopes| ==> t.scopes[i].singletons == map[] && t.scopes[i].scoped == map[]
    ensures RunInv(t) && Persists(s, t)
  {
    assert forall j: nat :: j < |t.log| && Recorded(s, j) ==> (Current(t, j) <==> Current(s, j));
    forall j | 0 <= j < |t.log|
      ensures Recorded(t, j)
    {
      assert Recorded(s, j);
    }
    forall i | 0 <= i < |t.scopes|
      ensures CacheLogged(t, i)
    {
      if i < |s.scopes| {
        assert CacheLogged(s, i);
        assert forall k, x :: Logged(s, i, k, x) ==> Logged(t, i, k, x);
      }
    }
  }

  lemma ServeKeeps(o: Oracle, s: State, id: nat, interface: string, name: string)
    requires RunInv(s) && id < |s.scopes|
    ensures
      var r := Serve(o, s, id, interface, name);
      && RunInv(r.state) && Persists(s, r.state)
      && (r.outcome.Ok? && r.outcome.instance.Built? ==> r.outcome.instance.serial < r.state.calls)
  {
    hide Resolve;
    var n, rid, r := Numbered(s, id), s.scopes[id].counter + 1, Serve(o, s, id, interface, name);
    var key := ResolveKey(s, id, KeyOf(interface, name));
    SameCaches(s, n);
    ResolveOnce(o, n, id, key, rid, r);
    ResolveExtends(o, n, id, key, rid, r);
    forall i | 0 <= i < |s.scopes|
      ensures r.state.scopes[i].marks == {} && r.state.scopes[i].parent == s.scopes[i].parent
    {
      UndoneAt(n, r.state, i);
    }
    assert forall i :: 0 <= i < |n.scopes| ==> CachesGrew(n.scopes[i], r.state.scopes[i]);
    PersistsTransitive(s, n, r.state);
  }

  lemma ApplyKeeps(o: Oracle, s: State, op: Op)
    requires RunInv(s)
    ensures RunInv(Apply(o, s, op).1) && Later(s, Apply(o, s, op).1)
    ensures !op.Reset? ==> Persists(s, Apply(o, s, op).1)
  {
    hide Serve;
    if op.id < |s.scopes| && op.ResolveService? {
      ServeKeeps(o, s, op.id, op.interface, op.name);
    } else if op.id < |s.scopes| && op.Reset? {
      ResetKeeps(o, s, op.id);
    } else {
      QuietKept(o, s, op);
      SameCaches(s, Apply(o, s, op).1);
    }
  }

  /** What a container built before its reset no longer counts, and all else is as it was. */
  lemma ResetKeeps(o: Oracle, s: State, id: nat)
    requires RunInv(s) && id < |s.scopes|
    ensures RunInv(Apply(o, s, Reset(id)).1)
  {
    var t := Apply(o, s, Reset(id)).1;
    assert forall j: nat :: j < |t.log| ==> (Current(t, j) <==> Current(s, j) && t.log[j].scope != id);
    forall j | 0 <= j < |t.log|
      ensures Recorded(t, j)
    {
      assert Recorded(s, j);
    }
    forall i | 0 <= i < |t.scopes|
      ensures CacheLogged(t, i)
    {
      assert CacheLogged(s, i);
      assert forall k, x :: Logged(s, i, k, x) ==> Logged(t, i, k, x);
    }
  }

  lemma QuietKept(o: Oracle, s: State, op: Op)
    requires WellFormed(s) && Quiet(s) && (op.ResolveService? ==> op.id >= |s.scopes|)
    ensures Quiet(Apply(o, s, op).1)
  {
  }

  function Run(o: Oracle, s: State, ops: seq<Op>): (t: State)
    requires WellFormed(s)
    ensures WellFormed(t)
    decreases |ops|
  {
    if ops == [] then s else Run(o, Apply(o, s, ops[0]).1, ops[1..])
  }

  lemma {:induction false} RunKeeps(o: Oracle, s: State, ops: seq<Op>)
    requires RunInv(s)
    ensures RunInv(Run(o, s, ops)) && Later(s, Run(o, s, ops))
    decreases |ops|
  {
    hide Apply;
    if ops != [] {
      ApplyKeeps(o, s, ops[0]);
      RunKeeps(o, Apply(o, s, ops[0]).1, ops[1..]);
    }
  }

  /** Neither `a` nor its parent is reset. */
  predicate Spares(op: Op, a: nat, parent: Option<nat>) {
    op.Reset? ==> op.id != a && parent != Some(op.id)
  }

  /** What `a` and its parent hold persists, and `a` still defers to its parent. */
  ghost predicate PersistsAt(s: State, t: State, a: nat) {
    && a < |s.scopes| && Later(s, t) && t.scopes[a].parent == s.scopes[a].parent
    && Sub(s.scopes[a].singletons, t.scopes[a].singletons)
    && (s.scopes[a].parent.Some? ==>
          var p := s.scopes[a].parent.value;
          && p < |s.scopes| && Sub(s.scopes[p].singletons, t.scopes[p].singletons)
          && forall k :: HasSingleton(s, p, k) && HasSingleton(t, a, k) ==> HasSingleton(s, a, k))
  }

  lemma AtTransitive(s: State, t: State, u: State, a: nat)
    requires PersistsAt(s, t, a) && PersistsAt(t, u, a)
    ensures PersistsAt(s, u, a)
  {
    if s.scopes[a].parent.Some? {
      assert forall k :: HasSingleton(s, s.scopes[a].parent.value, k) ==> HasSingleton(t, t.scopes[a].parent.value, k);
    }
  }

  lemma ApplyKeepsAt(o: Oracle, s: State, op: Op, a: nat)
    requires RunInv(s) && a < |s.scopes| && Spares(op, a, s.scopes[a].parent)
    ensures PersistsAt(s, Apply(o, s, op).1, a)
  {
    hide Serve, RunInv;
    ApplyKeeps(o, s, op);
    assert WellFormed(s) by { RunInvWellFormed(s); }
    if !op.Reset? {
      hide Apply;
      assert Persists(s, Apply(o, s, op).1);
    }
  }

  lemma RunInvWellFormed(s: State)
    requires RunInv(s)
    ensures WellFormed(s)
  {
  }

  lemma {:induction false} RunKeepsAt(o: Oracle, s: State, ops: seq<Op>, a: nat)
    requires RunInv(s) && a < |s.scopes| && forall op :: op in ops ==> Spares(op, a, s.scopes[a].parent)
    ensures PersistsAt(s, Run(o, s, ops), a)
    decreases |ops|
  {
    hide Apply;
    if ops == [] {
      SameCaches(s, s);
    } else {
      ApplyKeeps(o, s, ops[0]);
      ApplyKeepsAt(o, s, ops[0], a);
      var t := Apply(o, s, ops[0]).1;
      RunKeepsAt(o, t, ops[1..], a);
      AtTransitive(s, t, Run(o, t, ops[1..]), a);
    }
  }

  /** In every state of every run: no container has built a singleton twice since it was last reset. */
  lemma SingletonsBuiltOnce(o: Oracle, ops: seq<Op>)
    ensures BuiltOnce(Run(o, Initial, ops))
  {
    RunKeeps(o, Initial, ops);
  }

  // ---- Between two builds of one singleton lies a reset ----

  /** A run is its last operation after the run before it. */
  lemma {:induction false} RunLast(o: Oracle, s: State, ops: seq<Op>)
    requires WellFormed(s) && ops != []
    ensures Run(o, s, ops) == Apply(o, Run(o, s, ops[..|ops| - 1]), ops[|ops| - 1]).1
    decreases |ops|
  {
    hide Apply;
    var t, n := Apply(o, s, ops[0]).1, |ops| - 1;
    if n > 0 {
      RunLast(o, t, ops[1..]);
      assert ops[1..][..n - 1] == ops[..n][1..];
    }
  }

  lemma {:induction false} PrefixLater(o: Oracle, ops: seq<Op>, k: nat)
    requires k <= |ops|
    ensures Later(Run(o, Initial, ops[..k]), Run(o, Initial, ops))
    decreases |ops|
  {
    hide Run, Apply, RunInv;
    if k == |ops| {
      assert ops[..k] == ops;
    } else {
      var n := |ops| - 1;
      RunLast(o, Initial, ops);
      InitialInv();
      RunKeeps(o, Initial, ops[..n]);
      ApplyKeeps(o, Run(o, Initial, ops[..n]), ops[n]);
      PrefixLater(o, ops[..n], k);
      assert ops[..n][..k] == ops[..k];
    }
  }

  lemma InitialInv()
    ensures RunInv(Initial)
  {
  }

  /** The k-th operation resets container `a`, when `n` builds have been logged. */
  ghost predicate ResetAt(o: Oracle, ops: seq<Op>, k: nat, a: nat, n: nat) {
    && k < |ops| && ops[k] == Reset(a)
    && a < |Run(o, Initial, ops[..k]).scopes| && |Run(o, Initial, ops[..k]).log| == n
  }

  lemma SinceKept(o: Oracle, s: State, op: Op, a: nat)
    requires RunInv(s)
    ensures
      var t := Apply(o, s, op).1;
      a < |t.scopes| && !(op == Reset(a) && a < |s.scopes|) ==>
        t.scopes[a].since == if a < |s.scopes| then s.scopes[a].since else 0
  {
    hide Resolve;
    var t := Apply(o, s, op).1;
    if op.ResolveService? && op.id < |s.scopes| && a < |t.scopes| {
      UndoneAt(Numbered(s, op.id), t, a);
    }
  }

  lemma {:induction false} SinceIsReset(o: Oracle, ops: seq<Op>, a: nat)
    requires a < |Run(o, Initial, ops).scopes|
    ensures
      var n := Run(o, Initial, ops).scopes[a].since;
      n == 0 || exists k: nat :: ResetAt(o, ops, k, a, n)
    decreases |ops|
  {
    if ops != [] {
      var k := |ops| - 1;
      var s := Run(o, Initial, ops[..k]);
      RunLast(o, Initial, ops);
      InitialInv();
      RunKeeps(o, Initial, ops[..k]);
      hide Run, RunInv;
      SinceKept(o, s, ops[k], a);
      if ops[k] == Reset(a) && a < |s.scopes| {
        assert ResetAt(o, ops, k, a, |s.log|);
      } else if a < |s.scopes| {
        hide Apply;
        SinceIsReset(o, ops[..k], a);
        var n := s.scopes[a].since;
        if n != 0 {
          var i: nat :| ResetAt(o, ops[..k], i, a, n);
          assert ops[..k][..i] == ops[..i];
          assert ResetAt(o, ops, i, a, n);
        }
      }
    }
  }

  /**
    The once-only law over whole runs: if a container's log shows the same singleton built
    twice, the container was reset after the first build and before the second.
   */
  lemma {:induction false} RebuiltOnlyAfterReset(o: Oracle, ops: seq<Op>, i: nat, j: nat) returns (k: nat, n: nat)
    requires i < j < |Run(o, Initial, ops).log|
    requires SameSingleton(Run(o, Initial, ops).log[i], Run(o, Initial, ops).log[j])
    ensures ResetAt(o, ops, k, Run(o, Initial, ops).log[i].scope, n) && i < n <= j
    decreases |ops|
  {
    hide Apply, RunInv;
    var last, t := |ops| - 1, Run(o, Initial, ops);
    var s := Run(o, Initial, ops[..last]);
    var a := t.log[i].scope;
    PrefixLater(o, ops, last);
    SingletonsBuiltOnce(o, ops);
    hide Run;
    if j < |s.log| {
      k, n := RebuiltOnlyAfterReset(o, ops[..last], i, j);
      assert ops[..last][..k] == ops[..k];
    } else {
      assert Recorded(t, i);
      SinceIsReset(o, ops, a);
      n := t.scopes[a].since;
      k :| ResetAt(o, ops, k, a, n);
      assert ops[..last][..k] == ops[..k];
      PrefixLater(o, ops[..last], k);
    }
  }

  // ---- Who answers, and with what ----

  /** The nearest scope, going up from `id`, that registers the key. */
  function Owner(s: State, id: nat, key: Key): Option<nat>
    requires WellFormed(s) && id < |s.scopes|
    decreases id
  {
    if key in s.scopes[id].regs then Some(id)
    else if s.scopes[id].parent.Some? then Owner(s, s.scopes[id].parent.value, key)
    else None
  }

  /** The same containers with the same registrations. */
  predicate SameTree(b: State, s: State) {
    && |s.scopes| == |b.scopes|
    && forall i :: 0 <= i < |b.scopes| ==>
         s.scopes[i].parent == b.scopes[i].parent && s.scopes[i].regs == b.scopes[i].regs
  }

  lemma UndoneSameTree(b: State, s: State, t: State)
    requires SameTree(b, s) && Undone(s, t) && |t.scopes| == |s.scopes|
    ensures SameTree(b, t)
  {
    forall i | 0 <= i < |b.scopes|
      ensures t.scopes[i].parent == b.scopes[i].parent && t.scopes[i].regs == b.scopes[i].regs
    {
      UndoneAt(s, t, i);
    }
  }

  lemma {:induction false} OwnerSameTree(b: State, s: State, id: nat, key: Key)
    requires WellFormed(b) && WellFormed(s) && SameTree(b, s) && id < |b.scopes|
    ensures Owner(s, id, key) == Owner(b, id, key)
    decreases id
  {
    if key !in b.scopes[id].regs && b.scopes[id].parent.Some? {
      OwnerSameTree(b, s, b.scopes[id].parent.value, key);
    }
  }

  /** Resolution anywhere is resolution at the owner. */
  lemma {:induction false} ResolveAtOwner(o: Oracle, s: State, id: nat, key: Key, rid: nat)
    requires WellFormed(s) && id < |s.scopes|
    ensures
      var owner := Owner(s, id, key);
      && (owner.None? ==> Resolve(o, s, id, key, rid) == Resolution(Missing, s))
      && (owner.Some? ==>
            && owner.value < |s.scopes| && key in s.scopes[owner.value].regs
            && Resolve(o, s, id, key, rid) == Resolve(o, s, owner.value, key, rid))
    decreases id
  {
    if key !in s.scopes[id].regs {
      ResolveAbsent(o, s, id, key, rid);
      if s.scopes[id].parent.Some? {
        ResolveAtOwner(o, s, s.scopes[id].parent.value, key, rid);
      }
    }
  }

  /** The singleton an owner answers with once it has one: its own, or its parent's. */
  function Held(s: State, id: nat, key: Key): Option<Instance>
    requires WellFormed(s) && id < |s.scopes|
  {
    if HasSingleton(s, id, key) then Some(s.scopes[id].singletons[key])
    else if s.scopes[id].parent.Some? && HasSingleton(s, s.scopes[id].parent.value, key) then
      Some(s.scopes[s.scopes[id].parent.value].singletons[key])
    else None
  }

  lemma HeldKept(s: State, t: State, id: nat, key: Key)
    requires WellFormed(s) && WellFormed(t) && PersistsAt(s, t, id) && Held(s, id, key).Some?
    ensures Held(t, id, key) == Held(s, id, key)
  {
  }

  /** A successful resolution of a singleton is answered by what its owner holds from then on. */
  lemma SingletonHeld(o: Oracle, s: State, id: nat, key: Key, rid: nat, r: Resolution)
    requires WellFormed(s) && id < |s.scopes| && key in s.scopes[id].regs
    requires s.scopes[id].regs[key].lifetime.Singleton?
    requires r == Resolve(o, s, id, key, rid) && r.outcome.Ok?
    ensures WellFormed(r.state) && |r.state.scopes| == |s.scopes|
    ensures Held(r.state, id, key) == Some(r.outcome.instance)
    ensures Held(s, id, key).Some? ==> Held(s, id, key) == Some(r.outcome.instance)
  {
    hide Resolve, Finish;
    UndoneMeasure(s, r.state);
    if Builds(s, id, key, rid) {
      ResolveBuilding(o, s, id, key, rid);
      FinishEffect(o, Gathered(o, s, id, key, rid), id, key, rid);
    } else {
      ResolveNotBuilding(o, s, id, key, rid);
    }
  }

  /** The scope `a` answers for `interface` and `name` asked at `id`, under the key `key`. */
  predicate AnsweredBy(s: State, id: nat, interface: string, name: string, a: nat, key: Key) {
    && WellFormed(s) && id < |s.scopes| && a < |s.scopes| && key in s.scopes[a].regs
    && ResolveKey(s, id, KeyOf(interface, name)) == key && Owner(s, id, key) == Some(a)
  }

  /**
    The singleton law. If a resolve from scope `i` was answered with a singleton owned by
    `a`, then after any further operations that reset neither `a` nor its parent, a resolve
    of the same key from any scope `j` still owned by `a` gets the same instance.
   */
  lemma SingletonIsOneInstance(
    o: Oracle, s: State, i: nat, interface: string, name: string, r: Resolution, ops: seq<Op>, t: State,
    j: nat, interface': string, name': string, q: Resolution, a: nat, key: Key)
    requires RunInv(s) && a < |s.scopes| && forall op :: op in ops ==> Spares(op, a, s.scopes[a].parent)
    requires AnsweredBy(s, i, interface, name, a, key) && s.scopes[a].regs[key].lifetime.Singleton?
    requires r == Serve(o, s, i, interface, name) && t == Run(o, r.state, ops)
    requires AnsweredBy(t, j, interface', name', a, key) && t.scopes[a].regs[key].lifetime.Singleton?
    requires q == Serve(o, t, j, interface', name') && r.outcome.Ok? && q.outcome.Ok?
    ensures q.outcome == r.outcome
  {
    hide Serve, Run, RunInv;
    ServeKeeps(o, s, i, interface, name);
    RunKeepsAt(o, r.state, ops, a);
    OwnedSingleton(o, s, i, interface, name, a, key);
    OwnedSingleton(o, t, j, interface', name', a, key);
    HeldKept(r.state, t, a, key);
  }

  /** A public resolve that ends at a singleton's owner. */
  lemma OwnedSingleton(o: Oracle, s: State, id: nat, interface: string, name: string, a: nat, key: Key)
    requires AnsweredBy(s, id, interface, name, a, key) && s.scopes[a].regs[key].lifetime.Singleton?
    requires Serve(o, s, id, interface, name).outcome.Ok?
    ensures
      var r := Serve(o, s, id, interface, name);
      && Held(r.state, a, key) == Some(r.outcome.instance)
      && (Held(s, a, key).Some? ==> Held(s, a, key) == Some(r.outcome.instance))
  {
    hide Resolve;
    var n, rid := Numbered(s, id), s.scopes[id].counter + 1;
    OwnerNumbered(s, id, id, key);
    ResolveAtOwner(o, n, id, key, rid);
    SingletonHeld(o, n, a, key, rid, Resolve(o, n, a, key, rid));
    assert Held(n, a, key) == Held(s, a, key);
  }

  lemma {:induction false} OwnerNumbered(s: State, id: nat, i: nat, key: Key)
    requires WellFormed(s) && id < |s.scopes| && i < |s.scopes|
    ensures WellFormed(Numbered(s, id)) && Owner(Numbered(s, id), i, key) == Owner(s, i, key)
    decreases i
  {
    if key !in s.scopes[i].regs && s.scopes[i].parent.Some? {
      OwnerNumbered(s, id, s.scopes[i].parent.value, key);
    }
  }

  /** A transient service without a ready-made instance is a new object each time. */
  lemma TransientIsNew(o: Oracle, s: State, id: nat, key: Key, rid: nat, r: Resolution)
    requires WellFormed(s) && id < |s.scopes| && key in s.scopes[id].regs
    requires s.scopes[id].regs[key].lifetime.Transient? && s.scopes[id].regs[key].given.None?
    requires r == Resolve(o, s, id, key, rid) && r.outcome.Ok?
    ensures r.outcome.instance.Built? && s.calls <= r.outcome.instance.serial
  {
    hide Resolve, Finish, Gather;
    if Builds(s, id, key, rid) {
      ResolveBuilding(o, s, id, key, rid);
      var e, g := Enter(s, id, key, rid), Gathered(o, s, id, key, rid);
      GatherExtends(o, e, id, s.scopes[id].regs[key], 0, NoArgs, rid, g);
      FinishEffect(o, g, id, key, rid);
    } else {
      ResolveNotBuilding(o, s, id, key, rid);
    }
  }

  /**
    The transient law: whatever an earlier resolve of the run returned, from whichever
    scope, a transient resolution returns something else.
   */
  lemma TransientNeverSeenBefore(
    o: Oracle, s: State, i: nat, interface: string, name: string, r: Resolution, ops: seq<Op>, t: State,
    j: nat, interface': string, name': string, q: Resolution, a: nat, key: Key)
    requires RunInv(s) && i < |s.scopes|
    requires r == Serve(o, s, i, interface, name) && t == Run(o, r.state, ops)
    requires AnsweredBy(t, j, interface', name', a, key) && t.scopes[a].regs[key].lifetime.Transient?
    requires t.scopes[a].regs[key].given.None? && q == Serve(o, t, j, interface', name') && q.outcome.Ok?
    ensures q.outcome != r.outcome
  {
    hide Serve, Run;
    ServeKeeps(o, s, i, interface, name);
    RunKeeps(o, r.state, ops);
    OwnedTransient(o, t, j, interface', name', a, key);
  }

  lemma OwnedTransient(o: Oracle, s: State, id: nat, interface: string, name: string, a: nat, key: Key)
    requires AnsweredBy(s, id, interface, name, a, key) && Serve(o, s, id, interface, name).outcome.Ok?
    requires s.scopes[a].regs[key].lifetime.Transient? && s.scopes[a].regs[key].given.None?
    ensures
      var r := Serve(o, s, id, interface, name);
      r.outcome.instance.Built? && s.calls <= r.outcome.instance.serial
  {
    hide Resolve;
    var n, rid := Numbered(s, id), s.scopes[id].counter + 1;
    OwnerNumbered(s, id, id, key);
    ResolveAtOwner(o, n, id, key, rid);
    TransientIsNew(o, n, a, key, rid, Resolve(o, n, a, key, rid));
  }

  // ---- Scoped services ----

  /** A scoped resolution is answered by, and leaves its instance in, the owner's own cache. */
  lemma ScopedStaysWithOwner(o: Oracle, s: State, id: nat, key: Key, rid: nat, a: nat, r: Resolution)
    requires WellFormed(s) && id < |s.scopes| && Owner(s, id, key) == Some(a)
    requires a < |s.scopes| && key in s.scopes[a].regs && s.scopes[a].regs[key].lifetime.Scoped?
    requires r == Resolve(o, s, id, key, rid) && r.outcome.Ok?
    ensures |r.state.scopes| == |s.scopes| && key in r.state.scopes[a].scoped
    ensures r.state.scopes[a].scoped[key] == r.outcome.instance
    ensures key in s.scopes[a].scoped ==> s.scopes[a].scoped[key] == r.outcome.instance
  {
    hide Resolve, Finish;
    ResolveAtOwner(o, s, id, key, rid);
    if Builds(s, a, key, rid) {
      ResolveBuilding(o, s, a, key, rid);
      FinishEffect(o, Gathered(o, s, a, key, rid), a, key, rid);
    } else {
      ResolveNotBuilding(o, s, a, key, rid);
    }
  }

  /**
    `create_scope` promises one instance per scope. What the code gives is one instance
    per owner: two scopes get the same object exactly when the same container registers
    the service for both.
   */
  lemma ScopedIsPerOwner(
    o: Oracle, s: State, i: nat, j: nat, key: Key, rid: nat, rid': nat, a: nat, b: nat, r: Resolution, q: Resolution)
    requires RunInv(s) && i < |s.scopes| && j < |s.scopes|
    requires Owner(s, i, key) == Some(a) && a < |s.scopes| && key in s.scopes[a].regs
    requires Owner(s, j, key) == Some(b) && b < |s.scopes| && key in s.scopes[b].regs
    requires s.scopes[a].regs[key].lifetime.Scoped? && s.scopes[b].regs[key].lifetime.Scoped?
    requires r == Resolve(o, s, i, key, rid) && r.outcome.Ok? && r.outcome.instance.Built?
    requires WellFormed(r.state) && |r.state.scopes| == |s.scopes|
    requires q == Resolve(o, r.state, j, key, rid') && q.outcome.Ok?
    ensures q.outcome == r.outcome <==> a == b
  {
    hide Resolve;
    var t := r.state;
    ResolveOnce(o, s, i, key, rid, r);
    ResolveOnce(o, t, j, key, rid', q);
    ResolveExtends(o, t, j, key, rid', q);
    ScopedStaysWithOwner(o, s, i, key, rid, a, r);
    UndoneSameTree(s, s, t);
    OwnerSameTree(s, t, j, key);
    UndoneAt(s, t, b);
    ScopedStaysWithOwner(o, t, j, key, rid', b, q);
    assert CachesGrew(t.scopes[a], q.state.scopes[a]);
    assert CacheLogged(q.state, a) && CacheLogged(q.state, b);
    if q.outcome == r.outcome {
      LoggedOwner(q.state, a, b, key, r.outcome.instance);
    }
  }

  lemma LoggedOwner(s: State, a: nat, b: nat, key: Key, x: Instance)
    requires BuiltOnce(s) && x.Built? && Logged(s, a, key, x) && Logged(s, b, key, x)
    ensures a == b
  {
    var i :| 0 <= i < |s.log| && s.log[i].scope == a && s.log[i].key == key && s.log[i].instance == x;
    var j :| 0 <= j < |s.log| && s.log[j].scope == b && s.log[j].key == key && s.log[j].instance == x;
    assert SameSerial(s.log[i], s.log[j]) && SameSerial(s.log[j], s.log[i]);
  }
}
