/**
  The vocabulary for root containers: the graphs that registrations span, what it takes to
  build a registration, what a cached instance vouches for, and how a plan is followed.
 */
module RootResolution {
  import opened Prelude
  import opened Graph
  import opened ContainerModel
  import opened ContainerGrowth

  /** A slot whose hint the resolver follows. */
  predicate FollowsHint(reg: Registration, slot: Slot) {
    slot.name !in reg.dependsOn && !slot.hasDefault && slot.hint.Some?
  }

  function HintKeys(reg: Registration, slots: seq<Slot>): seq<Key> {
    if slots == [] then []
    else if FollowsHint(reg, slots[0]) then [slots[0].hint.value] + HintKeys(reg, slots[1..])
    else HintKeys(reg, slots[1..])
  }

  lemma {:induction false} HintKeysMembers(reg: Registration, slots: seq<Slot>, k: Key)
    ensures k in HintKeys(reg, slots) <==>
            exists i :: 0 <= i < |slots| && FollowsHint(reg, slots[i]) && slots[i].hint.value == k
  {
    if slots != [] {
      HintKeysMembers(reg, slots[1..], k);
      assert forall i :: 0 < i < |slots| ==> slots[i] == slots[1..][i - 1];
      assert forall i :: 0 <= i < |slots[1..]| ==> slots[1..][i] == slots[i + 1];
    }
  }

  /** The graph the resolver walks: declared dependencies, then the hints it follows. */
  function EffectiveGraph(bp: map<Key, Registration>): Graph {
    map k | k in bp :: bp[k].dependsOn + HintKeys(bp[k], bp[k].slots)
  }

  /** `dependency_graph`: the declared dependencies alone. */
  function DeclaredGraph(bp: map<Key, Registration>): Graph {
    map k | k in bp :: bp[k].dependsOn
  }

  /** This slot receives a value: a dependency, a default or a registered hint. */
  predicate Gives(bp: map<Key, Registration>, reg: Registration, slot: Slot) {
    slot.name in reg.dependsOn || slot.hasDefault || (slot.hint.Some? && slot.hint.value in bp)
  }

  predicate Suppliable(bp: map<Key, Registration>, reg: Registration, name: string) {
    exists i :: 0 <= i < |reg.slots| && reg.slots[i].name == name && Gives(bp, reg, reg.slots[i])
  }

  /** Every declared dependency is registered, and the call binds with the slots that receive a value. */
  predicate Local(bp: map<Key, Registration>, reg: Registration) {
    && (forall i :: 0 <= i < |reg.dependsOn| ==> reg.dependsOn[i] in bp)
    && (forall i :: 0 <= i < |reg.slots| ==>
          SlotBinds(reg.slots[i], Suppliable(bp, reg, reg.slots[i].name), TakesAny(reg.slots)))
  }

  /** Everything registered that is reached from `key` can be built from what it needs. */
  ghost predicate LocalBelow(bp: map<Key, Registration>, key: Key) {
    forall n {:trigger Below(EffectiveGraph(bp), key, n)} ::
      Below(EffectiveGraph(bp), key, n) && n in bp ==> Local(bp, bp[n])
  }

  ghost predicate SingletonsBelowCached(bp: map<Key, Registration>, singletons: map<Key, Instance>, key: Key) {
    forall n {:trigger Below(EffectiveGraph(bp), key, n)} ::
      Below(EffectiveGraph(bp), key, n) && n in bp && bp[n].lifetime.Singleton? ==> n in singletons
  }

  ghost predicate Sound(bp: map<Key, Registration>, singletons: map<Key, Instance>, key: Key) {
    && AcyclicBelow(EffectiveGraph(bp), key) && LocalBelow(bp, key)
    && SingletonsBelowCached(bp, singletons, key)
  }

  /** What a completed build of `key` leaves behind. */
  ghost predicate Grounded(bp: map<Key, Registration>, singletons: map<Key, Instance>, key: Key) {
    key in bp && Sound(bp, singletons, key)
  }

  /** In a root container every cached key is grounded. */
  ghost predicate CacheGrounded(bp: map<Key, Registration>, scope: Scope) {
    forall k :: k in scope.singletons || k in scope.scoped ==> Grounded(bp, scope.singletons, k)
  }

  predicate RootWith(s: State, id: nat, bp: map<Key, Registration>) {
    WellFormed(s) && id < |s.scopes| && s.scopes[id].parent.None? && s.scopes[id].regs == bp
  }

  lemma RootKept(s: State, t: State, id: nat, bp: map<Key, Registration>)
    requires RootWith(s, id, bp) && Undone(s, t)
    ensures RootWith(t, id, bp)
  {
    UndoneMeasure(s, t);
    UndoneAt(s, t, id);
  }

  function Names(keys: seq<Key>): set<Key> {
    set k | k in keys
  }

  /** The want at position `p` of the plan, and the keys already resolved when it is met. */
  predicate OnPlan(reg: Registration, p: nat, args: Args) {
    && p <= PlanSize(reg)
    && args.deps.Keys == Names(reg.dependsOn[..if p < |reg.dependsOn| then p else |reg.dependsOn|])
  }

  lemma SupplyOnPlan(reg: Registration, p: nat, args: Args, instance: Instance)
    requires OnPlan(reg, p, args) && p < PlanSize(reg) && NeedOf(WantAt(reg, p), args).First?
    ensures OnPlan(reg, p + 1, Supply(WantAt(reg, p), args, instance))
    ensures WantAt(reg, p).Fill? ==> OnPlan(reg, p + 1, args)
  {
    if p < |reg.dependsOn| {
      assert reg.dependsOn[..p + 1] == reg.dependsOn[..p] + [reg.dependsOn[p]];
    }
  }

  lemma TakeOnPlan(reg: Registration, p: nat, args: Args)
    requires OnPlan(reg, p, args) && p < PlanSize(reg) && NeedOf(WantAt(reg, p), args).Take?
    ensures OnPlan(reg, p + 1, NeedOf(WantAt(reg, p), args).args)
  {
  }

  ghost predicate CycleBelow(g: Graph, n: Node) {
    exists c :: Below(g, n, c) && StrictlyBelow(g, c, c)
  }

  /** Only keys under construction are marked with the current resolve chain. */
  ghost predicate MarksVisited(s: State, id: nat, rid: nat)
    requires id < |s.scopes|
  {
    forall k :: (k, rid) in s.scopes[id].marks ==> k in s.visited
  }

  lemma MarksKept(s: State, t: State, id: nat, rid: nat)
    requires id < |s.scopes| && |t.scopes| == |s.scopes| && Undone(s, t) && MarksVisited(s, id, rid)
    ensures MarksVisited(t, id, rid)
  {
    UndoneAt(s, t, id);
  }
}
