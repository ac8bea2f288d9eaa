/**
  The container as the source writes it: an object with dictionaries that a recursive
  `_resolve` updates in place, undoing its bookkeeping on every exit. Each method is
  proved to do to the whole tree of containers what `ContainerModel` and `ContainerRuns`
  say, so every law proved there holds of these objects.
 */
module Containers {
  import opened Prelude
  import opened ContainerModel
  import opened ContainerRuns

  /** The set of names one resolve chain carries along and shares between its calls. */
  class Trail {
    var visited: set<Key>

    constructor ()
      ensures visited == {}
    {
      visited := {};
    }
  }

  /** The outside world: user factories, of which the n-th call raises when `raises(n)`. */
  class Factories {
    const raises: Oracle
    var calls: nat
    var log: seq<Build>

    constructor (raises: Oracle)
      ensures this.raises == raises && calls == 0 && log == []
    {
      this.raises, calls, log := raises, 0, [];
    }

    /** Calls the factory of a registration with keyword arguments. */
    method Call(id: nat, key: Key, reg: Registration, params: map<string, Argument>) returns (made: Option<Instance>)
      modifies this
      ensures forall s: State ::
                (id < |s.scopes| && key in s.scopes[id].regs && s.scopes[id].regs[key] == reg &&
                 s.calls == old(calls) && s.log == old(log)) ==>
                  Construct(raises, s, id, key, params) == (made, s.(calls := calls, log := log))
    {
      if !Binds(reg.slots, params) {
        return None;
      }
      var n := calls;
      calls := calls + 1;
      if reg.given.None? && raises(n) {
        return None;
      }
      var instance := if reg.given.Some? then Given(reg.given.value) else Built(n);
      log := log + [Build(id, key, reg.lifetime, params, instance)];
      made := Some(instance);
    }
  }

  /** All containers of one tree, in the order of their creation. */
  class Tree {
    ghost var members: seq<Container>

    ghost predicate Valid()
      reads this
    {
      forall i :: 0 <= i < |members| ==>
        && members[i].tree == this && members[i].id == i
        && (members[i].parent != null ==>
              members[i].parent.id < i && members[members[i].parent.id] == members[i].parent)
    }

    constructor ()
      ensures Valid() && members == []
    {
      members := [];
    }

    ghost function View(trail: Trail, world: Factories): State
      reads this, members, trail, world
    {
      State(ScopesOf(members), trail.visited, world.calls, world.log)
    }

    /** The view between public operations, when no chain is under way. */
    ghost function Idle(world: Factories): State
      reads this, members, world
    {
      State(ScopesOf(members), {}, world.calls, world.log)
    }
  }

  ghost function ScopesOf(ms: seq<Container>): (scopes: seq<Scope>)
    reads ms
    ensures |scopes| == |ms|
  {
    if ms == [] then [] else ScopesOf(ms[..|ms| - 1]) + [ms[|ms| - 1].View()]
  }

  lemma {:induction false} ScopesAt(ms: seq<Container>, i: nat)
    requires i < |ms|
    ensures ScopesOf(ms)[i] == ms[i].View()
  {
    if i < |ms| - 1 {
      ScopesAt(ms[..|ms| - 1], i);
    }
  }

  lemma ScopesAll(ms: seq<Container>)
    ensures forall i :: 0 <= i < |ms| ==> ScopesOf(ms)[i] == ms[i].View()
  {
    forall i | 0 <= i < |ms|
      ensures ScopesOf(ms)[i] == ms[i].View()
    {
      ScopesAt(ms, i);
    }
  }

  class Container {
    const parent: Container?
    const id: nat
    ghost const tree: Tree
    var regs: map<Key, Registration>
    var marks: set<(Key, nat)>
    var status: map<Key, Status>
    var singletons: map<Key, Instance>
    var scoped: map<Key, Instance>
    var aliases: map<Key, Key>
    var counter: nat
    ghost var since: nat

    ghost function View(): Scope
      reads this
    {
      Scope(if parent == null then None else Some(parent.id), regs, marks, status, singletons, scoped, aliases, counter,
            since)
    }

    ghost predicate InTree()
      reads tree
    {
      tree.Valid() && id < |tree.members| && tree.members[id] == this
    }

    /** A new container joins the tree; `parent` is null for a root. */
    constructor (parent: Container?, id: nat, ghost tree: Tree)
      requires tree.Valid() && id == |tree.members|
      requires parent != null ==> parent.tree == tree && parent.InTree()
      modifies tree
      ensures InTree() && this.tree == tree && this.id == id && this.parent == parent
      ensures tree.members == old(tree.members) + [this]
      ensures View() == NewScope(if parent == null then None else Some(parent.id))
    {
      this.parent, this.id, this.tree := parent, id, tree;
      regs, marks, status, singletons, scoped, aliases, counter := map[], {}, map[], map[], map[], map[], 0;
      since := 0;
      new;
      tree.members := tree.members + [this];
    }

    lemma TreeWellFormed(trail: Trail, world: Factories)
      requires InTree()
      ensures WellFormed(tree.View(trail, world))
      ensures id < |tree.View(trail, world).scopes| && tree.View(trail, world).scopes[id] == View()
      ensures parent != null ==> parent.InTree() && tree.View(trail, world).scopes[parent.id] == parent.View()
    {
      ScopesAll(tree.members);
    }

    /** The cache lookups of `_resolve`. */
    method FindCached(key: Key, ghost trail: Trail, ghost world: Factories) returns (found: Option<Instance>)
      requires InTree() && key in regs
      ensures WellFormed(tree.View(trail, world)) && key in tree.View(trail, world).scopes[id].regs
      ensures found == Cached(tree.View(trail, world), id, key)
    {
      TreeWellFormed(trail, world);
      found := None;
      if regs[key].lifetime.Singleton? {
        if key in singletons {
          return Some(singletons[key]);
        }
        if parent != null && key in parent.singletons {
          return Some(parent.singletons[key]);
        }
      }
      if regs[key].lifetime.Scoped? {
        if key in scoped {
          return Some(scoped[key]);
        }
      }
    }

    /** `_resolve`, on this object and its ancestors. */
    method ResolveChain(key: Key, rid: nat, trail: Trail, world: Factories) returns (outcome: Outcome)
      requires InTree() && WellFormed(tree.View(trail, world)) && id < |tree.View(trail, world).scopes|
      modifies tree.members, trail, world
      ensures Resolution(outcome, tree.View(trail, world)) ==
              Resolve(world.raises, old(tree.View(trail, world)), id, key, rid)
      decreases Unvisited(tree.View(trail, world)), id, 0
    {
      hide Resolve, Gather, Finish, Enter, ScopesOf;
      ghost var o, s := world.raises, tree.View(trail, world);
      TreeWellFormed(trail, world);
      if key !in regs {
        ResolveAbsent(o, s, id, key, rid);
        if parent != null {
          outcome := parent.ResolveChain(key, rid, trail, world);
        } else {
          outcome := Missing;
        }
        return;
      }
      if key in trail.visited {
        ResolveNotBuilding(o, s, id, key, rid);
        return Cyclic;
      }
      if (key, rid) in marks {
        ResolveNotBuilding(o, s, id, key, rid);
        return Cyclic;
      }
      var found := FindCached(key, trail, world);
      if found.Some? {
        ResolveNotBuilding(o, s, id, key, rid);
        return Ok(found.value);
      }
      ResolveBuilding(o, s, id, key, rid);
      var reg := regs[key];
      Arm(key, rid, trail, world);
      var error, args := GatherArgs(reg, rid, trail, world);
      ghost var g := Gathered(o, s, id, key, rid);
      ScopesAt(tree.members, id);
      outcome := FinishBuild(key, rid, error, args, trail, world, g);
    }

    /** Arms both detectors. */
    method Arm(key: Key, rid: nat, trail: Trail, ghost world: Factories)
      requires InTree()
      modifies this`marks, trail
      ensures tree.View(trail, world) == Enter(old(tree.View(trail, world)), id, key, rid)
    {
      hide ScopesOf;
      ScopesAll(tree.members);
      ghost var before := ScopesOf(tree.members);
      trail.visited := trail.visited + {key};
      marks := marks + {(key, rid)};
      ScopesAll(tree.members);
      assert ScopesOf(tree.members) == before[id := View()];
    }

    /** The `finally` clause. */
    method Disarm(key: Key, rid: nat, trail: Trail, ghost world: Factories)
      requires InTree()
      modifies this`marks, trail
      ensures tree.View(trail, world) == Leave(old(tree.View(trail, world)), id, key, rid)
    {
      hide ScopesOf;
      ScopesAll(tree.members);
      ghost var before := ScopesOf(tree.members);
      trail.visited := trail.visited - {key};
      marks := marks - {(key, rid)};
      ScopesAll(tree.members);
      assert ScopesOf(tree.members) == before[id := View()];
    }

    method Fail(key: Key, ghost trail: Trail, ghost world: Factories)
      requires InTree()
      modifies this`status
      ensures tree.View(trail, world) == MarkFailed(old(tree.View(trail, world)), id, key)
    {
      hide ScopesOf;
      ScopesAll(tree.members);
      ghost var before := ScopesOf(tree.members);
      status := status[key := BuildFailed];
      ScopesAll(tree.members);
      assert ScopesOf(tree.members) == before[id := View()];
    }

    method Save(key: Key, instance: Instance, ghost trail: Trail, ghost world: Factories)
      requires InTree() && key in regs
      modifies this`status, this`singletons, this`scoped
      ensures
        var s := old(tree.View(trail, world));
        && id < |s.scopes| && key in s.scopes[id].regs
        && tree.View(trail, world) == Store(s, id, key, instance)
    {
      hide ScopesOf;
      ScopesAll(tree.members);
      ghost var before := ScopesOf(tree.members);
      if regs[key].lifetime.Singleton? {
        singletons := singletons[key := instance];
        status := status[key := Resolved];
      } else if regs[key].lifetime.Scoped? {
        scoped := scoped[key := instance];
      }
      ScopesAll(tree.members);
      assert ScopesOf(tree.members) == before[id := View()];
    }

    /** The rest of `_resolve` after the dependencies: construct, undo the bookkeeping, cache. */
    method FinishBuild(key: Key, rid: nat, error: Option<Outcome>, args: Args, trail: Trail, world: Factories,
                       ghost g: Gathering) returns (outcome: Outcome)
      requires InTree() && key in regs && g.state == tree.View(trail, world)
      requires id < |g.state.scopes| && key in g.state.scopes[id].regs
      requires g == if error.Some? then Blocked(error.value, g.state) else Ready(args, g.state)
      modifies this, trail, world
      ensures Resolution(outcome, tree.View(trail, world)) == Finish(world.raises, g, id, key, rid)
    {
      hide ScopesOf, Enter, Leave, Store, MarkFailed, Construct;
      ScopesAt(tree.members, id);
      if error.Some? {
        Disarm(key, rid, trail, world);
        if error.value.Cyclic? {
          outcome := Cyclic;
        } else {
          Fail(key, trail, world);
          outcome := Unresolved;
        }
      } else {
        var made := world.Call(id, key, regs[key], args.params);
        Disarm(key, rid, trail, world);
        if made.None? {
          Fail(key, trail, world);
          outcome := Unresolved;
        } else {
          Save(key, made.value, trail, world);
          outcome := Ok(made.value);
        }
      }
    }

    /** The two loops of `_resolve`: declared dependencies, then constructor slots. */
    method GatherArgs(reg: Registration, rid: nat, trail: Trail, world: Factories)
      returns (error: Option<Outcome>, args: Args)
      requires InTree() && WellFormed(tree.View(trail, world)) && id < |tree.View(trail, world).scopes|
      modifies tree.members, trail, world
      ensures (if error.Some? then Blocked(error.value, tree.View(trail, world))
               else Ready(args, tree.View(trail, world))) ==
              Gather(world.raises, old(tree.View(trail, world)), id, reg, 0, NoArgs, rid)
      decreases Unvisited(tree.View(trail, world)), id, 1
    {
      hide Resolve, Gather, ScopesOf, WellFormed, Unvisited;
      ghost var o, s := world.raises, tree.View(trail, world);
      args := NoArgs;
      for p := 0 to |reg.dependsOn|
        invariant WellFormed(tree.View(trail, world)) && id < |tree.View(trail, world).scopes|
        invariant Unvisited(tree.View(trail, world)) == Unvisited(s)
        invariant Gather(o, s, id, reg, 0, NoArgs, rid) == Gather(o, tree.View(trail, world), id, reg, p, args, rid)
      {
        ghost var t := tree.View(trail, world);
        NeedResolved(o, t, id, reg.dependsOn[p], rid);
        GatherFirst(o, t, id, reg, p, args, rid, Resolve(o, t, id, reg.dependsOn[p], rid));
        var outcome := ResolveChain(reg.dependsOn[p], rid, trail, world);
        if !outcome.Ok? {
          return Some(outcome), args;
        }
        args := args.(deps := args.deps[reg.dependsOn[p] := outcome.instance]);
      }
      for j := 0 to |reg.slots|
        invariant WellFormed(tree.View(trail, world)) && id < |tree.View(trail, world).scopes|
        invariant Unvisited(tree.View(trail, world)) == Unvisited(s)
        invariant Gather(o, s, id, reg, 0, NoArgs, rid) ==
                  Gather(o, tree.View(trail, world), id, reg, |reg.dependsOn| + j, args, rid)
      {
        ghost var t, p := tree.View(trail, world), |reg.dependsOn| + j;
        var slot := reg.slots[j];
        if slot.name in args.deps {
          GatherTake(o, t, id, reg, p, args, rid);
          args := args.(params := args.params[slot.name := Injected(args.deps[slot.name])]);
        } else if slot.hasDefault {
          GatherTake(o, t, id, reg, p, args, rid);
          args := args.(params := args.params[slot.name := DefaultValue]);
        } else if slot.hint.Some? {
          NeedResolved(o, t, id, slot.hint.value, rid);
          GatherFirst(o, t, id, reg, p, args, rid, Resolve(o, t, id, slot.hint.value, rid));
          var outcome := ResolveChain(slot.hint.value, rid, trail, world);
          if outcome.Ok? {
            args := args.(params := args.params[slot.name := Injected(outcome.instance)]);
          } else if !outcome.Missing? {
            return Some(outcome), args;
          }
        } else {
          GatherTake(o, t, id, reg, p, args, rid);
        }
      }
      GatherDone(o, tree.View(trail, world), id, reg, args, rid);
      error := None;
    }

    /** `_resolve_key`. */
    method FindKey(key: Key, ghost world: Factories) returns (k: Key)
      requires InTree()
      ensures WellFormed(tree.Idle(world)) && id < |tree.Idle(world).scopes|
      ensures k == ResolveKey(tree.Idle(world), id, key)
      decreases id
    {
      hide ScopesOf;
      IdleWellFormed(world);
      if key !in regs {
        if key in aliases {
          return aliases[key];
        }
        if parent != null {
          k := parent.FindKey(key, world);
          return;
        }
      }
      k := key;
    }

    lemma IdleWellFormed(world: Factories)
      requires InTree()
      ensures WellFormed(tree.Idle(world))
      ensures id < |tree.Idle(world).scopes| && tree.Idle(world).scopes[id] == View()
      ensures parent != null ==> parent.tree == tree && parent.InTree()
    {
      ScopesAll(tree.members);
    }

    /** `resolve`. */
    method ResolveService(interface: string, name: string, world: Factories) returns (outcome: Outcome)
      requires InTree()
      modifies tree.members, world
      ensures old(WellFormed(tree.Idle(world)) && id < |tree.Idle(world).scopes|)
      ensures Resolution(outcome, tree.Idle(world)) ==
              Serve(world.raises, old(tree.Idle(world)), id, interface, name)
    {
      hide ScopesOf, Resolve;
      IdleWellFormed(world);
      var key := FindKey(KeyOf(interface, name), world);
      ghost var s := tree.Idle(world);
      Count(world);
      var trail := new Trail();
      IdleWellFormed(world);
      outcome := ResolveChain(key, counter, trail, world);
    }

    method Count(ghost world: Factories)
      requires InTree()
      modifies this`counter
      ensures id < |old(tree.Idle(world)).scopes| && tree.Idle(world) == Numbered(old(tree.Idle(world)), id)
      ensures counter == old(tree.Idle(world)).scopes[id].counter + 1
    {
      hide ScopesOf;
      ScopesAll(tree.members);
      ghost var before := ScopesOf(tree.members);
      counter := counter + 1;
      ScopesAll(tree.members);
      assert ScopesOf(tree.members) == before[id := View()];
    }

    /** `register` and `register_instance`. */
    method Register(interface: string, lifetime: Lifetime, name: string, dependsOn: seq<Key>, slots: seq<Slot>,
                    given: Option<nat>, ghost world: Factories) returns (duplicate: bool)
      requires InTree()
      modifies this`regs, this`status
      ensures old(WellFormed(tree.Idle(world)))
      ensures (if duplicate then Duplicate else Done, tree.Idle(world)) ==
              Apply(world.raises, old(tree.Idle(world)),
                    Op.Register(id, interface, lifetime, name, dependsOn, slots, given))
    {
      hide ScopesOf;
      IdleWellFormed(world);
      ScopesAll(tree.members);
      ghost var before := ScopesOf(tree.members);
      var reg := MakeRegistration(lifetime, name, dependsOn, slots, given);
      var key := KeyOf(interface, name);
      if key in regs && !(name != "" && regs[key].name == name) {
        return true;
      }
      regs := regs[key := reg];
      status := status - {key};
      ScopesAll(tree.members);
      assert ScopesOf(tree.members) == before[id := View()];
      duplicate := false;
    }

    /** `clear_scoped`. */
    method ClearScoped(ghost world: Factories)
      requires InTree()
      modifies this`scoped
      ensures old(WellFormed(tree.Idle(world)))
      ensures (Done, tree.Idle(world)) == Apply(world.raises, old(tree.Idle(world)), Op.ClearScoped(id))
    {
      hide ScopesOf;
      IdleWellFormed(world);
      ScopesAll(tree.members);
      ghost var before := ScopesOf(tree.members);
      scoped := map[];
      ScopesAll(tree.members);
      assert ScopesOf(tree.members) == before[id := View()];
    }

    /** `alias`. */
    method AddAlias(from: Key, target: Key, ghost world: Factories) returns (missing: bool)
      requires InTree()
      modifies this`aliases
      ensures old(WellFormed(tree.Idle(world)))
      ensures (if missing then AliasTargetMissing else Done, tree.Idle(world)) ==
              Apply(world.raises, old(tree.Idle(world)), Op.Alias(id, from, target))
    {
      hide ScopesOf;
      IdleWellFormed(world);
      ScopesAll(tree.members);
      ghost var before := ScopesOf(tree.members);
      if target !in regs {
        return true;
      }
      aliases := aliases[from := target];
      ScopesAll(tree.members);
      assert ScopesOf(tree.members) == before[id := View()];
      missing := false;
    }

    /** `reset`: everything but the tree and the chain counter. */
    method ResetAll(ghost world: Factories)
      requires InTree()
      modifies this
      ensures old(WellFormed(tree.Idle(world)))
      ensures (Done, tree.Idle(world)) == Apply(world.raises, old(tree.Idle(world)), Op.Reset(id))
    {
      hide ScopesOf;
      IdleWellFormed(world);
      ScopesAll(tree.members);
      ghost var before := ScopesOf(tree.members);
      regs, status, singletons, scoped, aliases := map[], map[], map[], map[], map[];
      since := |world.log|;
      ScopesAll(tree.members);
      assert ScopesOf(tree.members) == before[id := View()];
    }

    /** `create_scope`; `next` is the number of containers so far. */
    method CreateScope(next: nat, ghost world: Factories) returns (child: Container)
      requires InTree() && next == |tree.members|
      modifies tree
      ensures child.InTree() && child.tree == tree && child.parent == this
      ensures tree.members == old(tree.members) + [child]
      ensures old(WellFormed(tree.Idle(world)))
      ensures (Created(child.id), tree.Idle(world)) ==
              Apply(world.raises, old(tree.Idle(world)), Op.CreateScope(id))
    {
      hide ScopesOf;
      IdleWellFormed(world);
      ScopesAll(tree.members);
      ghost var before := ScopesOf(tree.members);
      child := new Container(this, next, tree);
      ScopesAll(tree.members);
      assert ScopesOf(tree.members) == before + [NewScope(Some(id))];
    }
  }
}