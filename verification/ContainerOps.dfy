/**
  What each public operation of a container leaves behind, said field by field, and what that
  means for later resolves.
 */
module ContainerOps {
  import opened Prelude
  import opened ContainerModel
  import opened ContainerGrowth
  import opened SingletonOnce
  import opened ContainerRuns

  /** The key of a service: the interface, with the name after a colon if there is one. */
  predicate Names(key: Key, interface: string, name: string) {
    (name == "" && key == interface) || (name != "" && key == interface + ":" + name)
  }

  /** Everything but one container is as it was. */
  predicate OnlyAt(s: State, t: State, id: nat) {
    && |t.scopes| == |s.scopes| && t.visited == s.visited && t.calls == s.calls && t.log == s.log
    && forall i :: 0 <= i < |s.scopes| && i != id ==> t.scopes[i] == s.scopes[i]
  }

  // ---- register ----

  /**
    `register` refuses exactly a taken key that is unnamed or held under another name, and then
    changes nothing. Otherwise the container holds exactly the registration asked for, every other
    key is as before, and so is everything else but the status of that key. A ready-made object
    makes a singleton without parameters.
   */
  lemma RegisterMeans(
    o: Oracle, s: State, id: nat, interface: string, lifetime: Lifetime, name: string, dependsOn: seq<Key>,
    slots: seq<Slot>, given: Option<nat>, key: Key, answer: Answer, t: State)
    requires WellFormed(s) && id < |s.scopes| && Names(key, interface, name)
    requires (answer, t) == Apply(o, s, Register(id, interface, lifetime, name, dependsOn, slots, given))
    ensures answer == Done || answer == Duplicate
    ensures answer == Duplicate <==>
              key in s.scopes[id].regs && (name == "" || s.scopes[id].regs[key].name != name)
    ensures answer == Duplicate ==> t == s
    ensures answer == Done ==>
              var a, b := s.scopes[id], t.scopes[id];
              && OnlyAt(s, t, id)
              && b.parent == a.parent && b.marks == a.marks && b.singletons == a.singletons && b.scoped == a.scoped
              && b.aliases == a.aliases && b.counter == a.counter && b.since == a.since
              && (forall k :: k != key ==> (k in b.regs <==> k in a.regs) && (k in b.status <==> k in a.status))
              && (forall k :: k != key && k in a.regs ==> b.regs[k] == a.regs[k])
              && (forall k :: k != key && k in a.status ==> b.status[k] == a.status[k])
              && key in b.regs && key !in b.status
              && b.regs[key].name == name && b.regs[key].dependsOn == dependsOn && b.regs[key].given == given
              && (given.None? ==> b.regs[key].lifetime == lifetime && b.regs[key].slots == slots)
              && (given.Some? ==> b.regs[key].lifetime == Singleton && b.regs[key].slots == [])
  {
  }

  /** A later registration that would turn the key into something else than a singleton. */
  predicate Demotes(op: Op, a: nat, key: Key) {
    op.Register? && op.id == a && Names(key, op.interface, op.name) && !op.lifetime.Singleton? && op.given.None?
  }

  /** The key is a singleton of this container; it was registered under that name. */
  predicate SingletonAt(s: State, a: nat, key: Key, name: string) {
    && a < |s.scopes| && key in s.scopes[a].regs && s.scopes[a].regs[key].lifetime.Singleton?
    && s.scopes[a].regs[key].name == name
  }

  /** Only a reset or a later named registration can change what a key stands for. */
  lemma StaysSingleton(o: Oracle, s: State, op: Op, a: nat, key: Key, name: string)
    requires WellFormed(s) && SingletonAt(s, a, key, name) && op != Reset(a) && (name == "" || !Demotes(op, a, key))
    ensures SingletonAt(Apply(o, s, op).1, a, key, name)
  {
    hide Serve;
    var t := Apply(o, s, op).1;
    if op.id < |s.scopes| && op.Register? {
      var k := KeyOf(op.interface, op.name);
      RegisterMeans(o, s, op.id, op.interface, op.lifetime, op.name, op.dependsOn, op.slots, op.given, k,
                    Apply(o, s, op).0, t);
    } else if op.id < |s.scopes| && op.ResolveService? {
      ServeKeepsRegs(o, s, op.id, op.interface, op.name, a);
    }
  }

  lemma ServeKeepsRegs(o: Oracle, s: State, id: nat, interface: string, name: string, a: nat)
    requires WellFormed(s) && id < |s.scopes| && a < |s.scopes|
    ensures
      var t := Serve(o, s, id, interface, name).state;
      |t.scopes| == |s.scopes| && t.scopes[a].regs == s.scopes[a].regs && t.scopes[a].parent == s.scopes[a].parent
  {
    hide Resolve;
    UndoneAt(Numbered(s, id), Serve(o, s, id, interface, name).state, a);
  }

  /** The operations reset neither the container nor its parent, and do not demote the key if it is named. */
  predicate Keeping(ops: seq<Op>, a: nat, parent: Option<nat>, key: Key, name: string) {
    forall op :: op in ops ==> Spares(op, a, parent) && (name == "" || !Demotes(op, a, key))
  }

  lemma {:induction false} RunStaysSingleton(o: Oracle, s: State, ops: seq<Op>, a: nat, key: Key, name: string)
    requires RunInv(s) && SingletonAt(s, a, key, name) && Keeping(ops, a, s.scopes[a].parent, key, name)
    ensures SingletonAt(Run(o, s, ops), a, key, name)
    ensures Run(o, s, ops).scopes[a].parent == s.scopes[a].parent
    decreases |ops|
  {
    hide Apply, RunInv;
    if ops != [] {
      RunInvWellFormed(s);
      assert ops[0] in ops;
      StaysSingleton(o, s, ops[0], a, key, name);
      ApplyKeeps(o, s, ops[0]);
      ApplyKeepsAt(o, s, ops[0], a);
      RunStaysSingleton(o, Apply(o, s, ops[0]).1, ops[1..], a, key, name);
    }
  }

  /**
    Register a singleton, do anything that resets neither its container nor the parent (and does not
    re-register it, if it is named, as something else): any two successful resolves that the container
    answers, with anything of the kind between them, give one instance.
   */
  lemma RegisteredSingletonIsOne(
    o: Oracle, s: State, a: nat, interface: string, name: string, dependsOn: seq<Key>, slots: seq<Slot>,
    given: Option<nat>, key: Key, t: State, first: seq<Op>, u: State, i: nat, interface1: string, name1: string,
    r: Resolution, more: seq<Op>, v: State, j: nat, interface2: string, name2: string, q: Resolution)
    requires RunInv(s) && a < |s.scopes| && Names(key, interface, name)
    requires (Done, t) == Apply(o, s, Register(a, interface, Singleton, name, dependsOn, slots, given))
    requires Keeping(first, a, s.scopes[a].parent, key, name) && Keeping(more, a, s.scopes[a].parent, key, name)
    requires WellFormed(t) && u == Run(o, t, first) && AnsweredBy(u, i, interface1, name1, a, key)
    requires r == Serve(o, u, i, interface1, name1) && v == Run(o, r.state, more)
    requires AnsweredBy(v, j, interface2, name2, a, key) && q == Serve(o, v, j, interface2, name2)
    requires r.outcome.Ok? && q.outcome.Ok?
    ensures q.outcome == r.outcome
  {
    hide Apply, Serve, Run, RunInv;
    RunInvWellFormed(s);
    var op := Register(a, interface, Singleton, name, dependsOn, slots, given);
    RegisterMeans(o, s, a, interface, Singleton, name, dependsOn, slots, given, key, Done, t);
    ApplyKeeps(o, s, op);
    RunStaysSingleton(o, t, first, a, key, name);
    RunKeeps(o, t, first);
    ServeKeeps(o, u, i, interface1, name1);
    ServeKeepsRegs(o, u, i, interface1, name1, a);
    RunStaysSingleton(o, r.state, more, a, key, name);
    SingletonIsOneInstance(o, u, i, interface1, name1, r, more, v, j, interface2, name2, q, a, key);
  }

  // ---- alias ----

  /** An alias is refused unless its target is registered here; then only the alias changes. */
  lemma AliasMeans(o: Oracle, s: State, id: nat, from: Key, target: Key, answer: Answer, t: State)
    requires WellFormed(s) && id < |s.scopes| && (answer, t) == Apply(o, s, Alias(id, from, target))
    ensures answer == if target in s.scopes[id].regs then Done else AliasTargetMissing
    ensures answer != Done ==> t == s
    ensures answer == Done ==>
              && OnlyAt(s, t, id) && t.scopes[id] == s.scopes[id].(aliases := t.scopes[id].aliases)
              && from in t.scopes[id].aliases && t.scopes[id].aliases[from] == target
              && forall k :: k != from ==>
                   && (k in t.scopes[id].aliases <==> k in s.scopes[id].aliases)
                   && (k in s.scopes[id].aliases ==> t.scopes[id].aliases[k] == s.scopes[id].aliases[k])
  {
  }

  /** Asking for an alias is asking for its target, unless the alias is itself registered here. */
  lemma AliasResolves(o: Oracle, s: State, id: nat, interface: string, name: string, from: Key, target: Key)
    requires WellFormed(s) && id < |s.scopes| && Names(from, interface, name)
    requires from !in s.scopes[id].regs && from in s.scopes[id].aliases && s.scopes[id].aliases[from] == target
    requires target in s.scopes[id].regs
    ensures Serve(o, s, id, interface, name) == Serve(o, s, id, target, "")
  {
    hide Resolve;
  }

  /** A key without registration or alias here is asked of the parent; a registration here always wins. */
  lemma KeyLookup(s: State, id: nat, key: Key)
    requires WellFormed(s) && id < |s.scopes|
    ensures key in s.scopes[id].regs ==> ResolveKey(s, id, key) == key
    ensures key !in s.scopes[id].regs && key in s.scopes[id].aliases ==>
              ResolveKey(s, id, key) == s.scopes[id].aliases[key]
    ensures key !in s.scopes[id].regs && key !in s.scopes[id].aliases ==>
              ResolveKey(s, id, key) ==
              if s.scopes[id].parent.Some? then ResolveKey(s, s.scopes[id].parent.value, key) else key
  {
  }

  // ---- clear_scoped, reset, create_scope ----

  lemma ClearScopedMeans(o: Oracle, s: State, id: nat, t: State)
    requires WellFormed(s) && id < |s.scopes| && t == Apply(o, s, ClearScoped(id)).1
    ensures OnlyAt(s, t, id) && t.scopes[id] == s.scopes[id].(scoped := map[])
  {
  }

  /** A scoped service with nothing cached is built anew. */
  lemma ScopedBuiltAnew(o: Oracle, s: State, a: nat, key: Key, rid: nat, r: Resolution)
    requires WellFormed(s) && a < |s.scopes| && key in s.scopes[a].regs && key !in s.scopes[a].scoped
    requires s.scopes[a].regs[key].lifetime.Scoped? && s.scopes[a].regs[key].given.None?
    requires r == Resolve(o, s, a, key, rid) && r.outcome.Ok?
    ensures r.outcome.instance.Built? && s.calls <= r.outcome.instance.serial
  {
    hide Resolve, Finish, Gather;
    if Builds(s, a, key, rid) {
      ResolveBuilding(o, s, a, key, rid);
      var g := Gathered(o, s, a, key, rid);
      GatherExtends(o, Enter(s, a, key, rid), a, s.scopes[a].regs[key], 0, NoArgs, rid, g);
      FinishEffect(o, g, a, key, rid);
    } else {
      ResolveNotBuilding(o, s, a, key, rid);
    }
  }

  /** After `clear_scoped` of its owner a scoped service is a new object, whoever asks. */
  lemma ClearedIsRebuilt(
    o: Oracle, s: State, a: nat, t: State, id: nat, interface: string, name: string, key: Key, r: Resolution)
    requires RunInv(s) && a < |s.scopes| && t == Apply(o, s, ClearScoped(a)).1
    requires AnsweredBy(t, id, interface, name, a, key) && r == Serve(o, t, id, interface, name) && r.outcome.Ok?
    requires t.scopes[a].regs[key].lifetime.Scoped? && t.scopes[a].regs[key].given.None?
    ensures r.outcome.instance.Built? && s.calls <= r.outcome.instance.serial
  {
    hide Resolve;
    ClearScopedMeans(o, s, a, t);
    var n, rid := Numbered(t, id), t.scopes[id].counter + 1;
    OwnerNumbered(t, id, id, key);
    ResolveAtOwner(o, n, id, key, rid);
    ScopedBuiltAnew(o, n, a, key, rid, Resolve(o, n, a, key, rid));
  }

  /** `reset` empties this container and no other; what it cannot get from a parent is then missing. */
  lemma ResetMeans(o: Oracle, s: State, id: nat, t: State)
    requires WellFormed(s) && id < |s.scopes| && t == Apply(o, s, Reset(id)).1
    ensures OnlyAt(s, t, id) && t.scopes[id].parent == s.scopes[id].parent
    ensures t.scopes[id].marks == s.scopes[id].marks && t.scopes[id].counter == s.scopes[id].counter
    ensures t.scopes[id].regs == map[] && t.scopes[id].singletons == map[] && t.scopes[id].scoped == map[]
    ensures t.scopes[id].aliases == map[] && t.scopes[id].status == map[]
    ensures WellFormed(t) && (s.scopes[id].parent.None? ==>
              forall interface, name :: Serve(o, t, id, interface, name).outcome == Missing)
  {
    hide Resolve;
    if s.scopes[id].parent.None? {
      forall interface, name
        ensures Serve(o, t, id, interface, name).outcome == Missing
      {
        ResolveAbsent(o, Numbered(t, id), id, KeyOf(interface, name), t.scopes[id].counter + 1);
      }
    }
  }

  /** `create_scope` adds one empty container below this one. */
  lemma CreateScopeMeans(o: Oracle, s: State, id: nat, answer: Answer, t: State)
    requires WellFormed(s) && id < |s.scopes| && (answer, t) == Apply(o, s, CreateScope(id))
    ensures answer == Created(|s.scopes|) && |t.scopes| == |s.scopes| + 1 && t.scopes[..|s.scopes|] == s.scopes
    ensures t.visited == s.visited && t.calls == s.calls && t.log == s.log
    ensures
      var child := t.scopes[|s.scopes|];
      && child.parent == Some(id) && child.regs == map[] && child.singletons == map[] && child.scoped == map[]
      && child.aliases == map[] && child.marks == {} && child.status == map[]
  {
  }

  // ---- The status of a registration ----

  /**
    A resolution that builds marks its registration failed when it ends in a resolution error,
    and resolved when it has built a singleton.
   */
  lemma StatusMeans(o: Oracle, s: State, id: nat, key: Key, rid: nat, r: Resolution)
    requires Builds(s, id, key, rid) && r == Resolve(o, s, id, key, rid)
    ensures |r.state.scopes| == |s.scopes|
    ensures
      var status := r.state.scopes[id].status;
      && (r.outcome.Unresolved? ==> key in status && status[key] == BuildFailed)
      && (r.outcome.Ok? && s.scopes[id].regs[key].lifetime.Singleton? ==> key in status && status[key] == Resolved)
  {
    hide Resolve, Gather;
    ResolveBuilding(o, s, id, key, rid);
  }

  // ---- Which calls a factory accepts ----

  /**
    A call by keywords binds exactly if every ordinary parameter without a default is filled, every
    positional-only one has a default, and a keyword for a positional-only one or for `*args` is given
    only where a `**kwargs` takes it.
   */
  lemma BindsMeans(slots: seq<Slot>, params: map<string, Argument>)
    ensures Binds(slots, params) <==>
              && (forall i :: 0 <= i < |slots| ==>
                    slots[i].kind.Ordinary? && !slots[i].hasDefault ==> slots[i].name in params)
              && (forall i :: 0 <= i < |slots| ==> slots[i].kind.PositionalOnly? ==> slots[i].hasDefault)
              && (forall i :: 0 <= i < |slots| ==>
                    (slots[i].kind.PositionalOnly? || slots[i].kind.Positionals?) && slots[i].name in params ==>
                    exists j :: 0 <= j < |slots| && slots[j].kind.Keywords?)
  {
  }
}
