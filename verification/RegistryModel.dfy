/**
  The runtime registry as values (services/runtime_discovery/registry.py): a dictionary by
  id, an index from names to ids, and what keeps the two inverse to each other.
 */
module RegistryModel {
  import opened Prelude

  /** Status and type are the values of their enumerations; `payload` is what the registry never inspects. */
  datatype Item = Item(
    id: string, name: string, kind: string, status: string, discovered: int, seen: int, payload: nat)

  datatype State = State(items: map<string, Item>, names: map<string, string>)

  const EMPTY := State(map[], map[])
  const BOUND := "bound"
  const ACTIVE := "active"

  datatype Op =
    | Register(item: Item, now: int)
    | Unregister(id: string)
    | Update(item: Item, now: int)
    | UpdateStatus(id: string, status: string, now: int)

  /** `find_by_name`, and the item a registration takes its identity from; an empty id counts as no entry. */
  function FindByName(s: State, name: string): Option<Item> {
    if name in s.names && s.names[name] != "" && s.names[name] in s.items then Some(s.items[s.names[name]]) else None
  }

  function Merged(earlier: Option<Item>, item: Item, now: int): Item {
    match earlier
    case None => item
    case Some(o) =>
      item.(id := o.id, discovered := o.discovered, seen := now,
            status := if o.status == BOUND || o.status == ACTIVE then o.status else item.status)
  }

  function Stored(s: State, item: Item): State {
    State(s.items[item.id := item], s.names[item.name := item.id])
  }

  /** An update of an unknown id raises and changes nothing. */
  function Apply(s: State, op: Op): State {
    match op
    case Register(item, now) => Stored(s, Merged(FindByName(s, item.name), item, now))
    case Unregister(id) =>
      if id in s.items then State(s.items - {id}, s.names - {s.items[id].name}) else s
    case Update(item, now) =>
      if item.id in s.items then Stored(s, item.(discovered := s.items[item.id].discovered, seen := now)) else s
    case UpdateStatus(id, status, now) =>
      if id in s.items then s.(items := s.items[id := s.items[id].(status := status, seen := now)]) else s
  }

  // ---- What each operation leaves behind ----

  /** `id` stands for what it stood for before. */
  predicate SameItem(s: State, t: State, id: string) {
    (id in t.items <==> id in s.items) && (id in s.items ==> t.items[id] == s.items[id])
  }

  predicate SameName(s: State, t: State, name: string) {
    (name in t.names <==> name in s.names) && (name in s.names ==> t.names[name] == s.names[name])
  }

  /** Under `id` and the item's name there is now a runtime with what the item says, and nothing else changed. */
  ghost predicate Holds(s: State, t: State, id: string, item: Item) {
    && id in t.items && t.items[id].id == id && item.name in t.names && t.names[item.name] == id
    && t.items[id].name == item.name && t.items[id].kind == item.kind && t.items[id].payload == item.payload
    && (forall other :: other != id ==> SameItem(s, t, other))
    && (forall other :: other != item.name ==> SameName(s, t, other))
  }

  /**
    Registering a name that is not known stores the item as it came. A known one keeps its id,
    its discovery time and a status of bound or active, and is seen now.
   */
  lemma RegisterMeans(s: State, item: Item, now: int)
    ensures
      var t := Apply(s, Register(item, now));
      if item.name in s.names && s.names[item.name] != "" && s.names[item.name] in s.items then
        var o := s.items[s.names[item.name]];
        && Holds(s, t, o.id, item) && t.items[o.id].discovered == o.discovered && t.items[o.id].seen == now
        && t.items[o.id].status == if o.status == "bound" || o.status == "active" then o.status else item.status
      else
        && Holds(s, t, item.id, item) && t.items[item.id].status == item.status
        && t.items[item.id].discovered == item.discovered && t.items[item.id].seen == item.seen
  {
  }

  /** Updating an unknown id changes nothing; a known one takes what the item says but for its discovery time. */
  lemma UpdateMeans(s: State, item: Item, now: int)
    ensures
      var t := Apply(s, Update(item, now));
      if item.id in s.items then
        && Holds(s, t, item.id, item) && t.items[item.id].status == item.status
        && t.items[item.id].discovered == s.items[item.id].discovered && t.items[item.id].seen == now
      else t == s
  {
  }

  /** A new status is written with the time; an unregistered id is gone together with the name it bore. */
  lemma OthersMean(s: State, id: string, status: string, now: int)
    ensures
      var t := Apply(s, UpdateStatus(id, status, now));
      && t.names == s.names && (forall other :: other != id ==> SameItem(s, t, other)) && (id !in s.items ==> t == s)
      && (id in s.items ==>
            id in t.items && t.items[id].(status := s.items[id].status, seen := s.items[id].seen) == s.items[id])
      && (id in s.items ==> t.items[id].status == status && t.items[id].seen == now)
    ensures
      var t := Apply(s, Unregister(id));
      && id !in t.items && (forall other :: other != id ==> SameItem(s, t, other))
      && (id in s.items ==> s.items[id].name !in t.names)
      && forall name :: !(id in s.items && name == s.items[id].name) ==> SameName(s, t, name)
  {
  }

  function RunFrom(s: State, ops: seq<Op>): State
    decreases |ops|
  {
    if ops == [] then s else RunFrom(Apply(s, ops[0]), ops[1..])
  }

  // ---- The two dictionaries are inverse ----

  predicate Inverse(s: State) {
    && (forall i :: i in s.items ==>
          s.items[i].id == i && s.items[i].name in s.names && s.names[s.items[i].name] == i)
    && (forall n :: n in s.names ==> s.names[n] in s.items && s.items[s.names[n]].name == n)
  }

  /** What a caller must see to before an operation. */
  predicate Proper(s: State, op: Op) {
    match op
    case Register(item, _) =>
      if item.name in s.names then s.names[item.name] != "" || item.id == "" else item.id !in s.items
    case Update(item, _) => item.id in s.items ==> item.name == s.items[item.id].name
    case _ => true
  }

  lemma RegisterExact(s: State, item: Item, now: int)
    requires Inverse(s)
    ensures Inverse(Apply(s, Register(item, now))) <==> Proper(s, Register(item, now))
  {
    var merged := Merged(FindByName(s, item.name), item, now);
    StoredExact(s, merged);
    if item.name !in s.names && item.id in s.items {
      assert s.items[item.id].name != item.name;
    }
  }

  /** Storing keeps the dictionaries inverse exactly if id and name belong together already, or are both new. */
  lemma StoredExact(s: State, item: Item)
    requires Inverse(s)
    ensures Inverse(Stored(s, item)) <==>
              if item.name in s.names then s.names[item.name] == item.id else item.id !in s.items
  {
    var s' := Stored(s, item);
    if item.name in s.names && s.names[item.name] != item.id {
      var j := s.names[item.name];
      assert s'.items[j].name == item.name && s'.names[item.name] != j;
    } else if item.name !in s.names && item.id in s.items {
      var n := s.items[item.id].name;
      assert s'.names[n] == item.id && s'.items[item.id].name != n;
    }
  }

  lemma UpdateExact(s: State, item: Item, now: int)
    requires Inverse(s)
    ensures Inverse(Apply(s, Update(item, now))) <==> Proper(s, Update(item, now))
  {
    if item.id in s.items {
      StoredExact(s, item.(discovered := s.items[item.id].discovered, seen := now));
    }
  }

  /** Every operation keeps the dictionaries inverse exactly when it is proper. */
  lemma StepExact(s: State, op: Op)
    requires Inverse(s)
    ensures Inverse(Apply(s, op)) <==> Proper(s, op)
  {
    match op
    case Register(item, now) => RegisterExact(s, item, now);
    case Update(item, now) => UpdateExact(s, item, now);
    case Unregister(id) => UnregisterKeeps(s, id);
    case UpdateStatus(id, status, now) =>
  }

  lemma UnregisterKeeps(s: State, id: string)
    requires Inverse(s)
    ensures Inverse(Apply(s, Unregister(id)))
  {
  }

  /** Each operation of the run is proper in the state it meets. */
  predicate ProperRun(s: State, ops: seq<Op>)
    decreases |ops|
  {
    ops == [] || (Proper(s, ops[0]) && ProperRun(Apply(s, ops[0]), ops[1..]))
  }

  /** The dictionaries are inverse in every state of the run. */
  predicate AlwaysInverse(s: State, ops: seq<Op>)
    decreases |ops|
  {
    Inverse(s) && (ops == [] || AlwaysInverse(Apply(s, ops[0]), ops[1..]))
  }

  lemma {:induction false} RunExact(s: State, ops: seq<Op>)
    requires Inverse(s)
    ensures AlwaysInverse(s, ops) <==> ProperRun(s, ops)
    ensures ProperRun(s, ops) ==> Inverse(RunFrom(s, ops))
    decreases |ops|
  {
    if ops != [] {
      StepExact(s, ops[0]);
      if Proper(s, ops[0]) {
        RunExact(Apply(s, ops[0]), ops[1..]);
      }
    }
  }

  // ---- Identity across re-registrations ----

  /** `name` stands for the runtime `id`, first seen at `discovered`. */
  predicate Identified(s: State, name: string, id: string, discovered: int) {
    name in s.names && s.names[name] == id && id in s.items && s.items[id].discovered == discovered
  }

  lemma StepIdentity(s: State, op: Op, name: string, id: string, discovered: int)
    requires Inverse(s) && Proper(s, op) && Identified(s, name, id, discovered)
    requires id != "" && op != Unregister(id)
    ensures Identified(Apply(s, op), name, id, discovered)
  {
    match op
    case Register(item, now) =>
      if item.name != name {
        assert item.name in s.names ==> s.names[item.name] != id;
      }
    case Unregister(other) =>
      if other in s.items {
        assert s.items[other].name != name;
      }
    case Update(item, now) =>
    case UpdateStatus(other, status, now) =>
  }

  /** A name keeps its id and discovery time over every proper run until that id is unregistered. */
  lemma {:induction false} IdentityKept(s: State, ops: seq<Op>, name: string, id: string, discovered: int)
    requires Inverse(s) && ProperRun(s, ops) && Identified(s, name, id, discovered)
    requires id != "" && Unregister(id) !in ops
    ensures Identified(RunFrom(s, ops), name, id, discovered)
    decreases |ops|
  {
    if ops != [] {
      StepIdentity(s, ops[0], name, id, discovered);
      StepExact(s, ops[0]);
      IdentityKept(Apply(s, ops[0]), ops[1..], name, id, discovered);
    }
  }

  /** A bound or active runtime stays so when it is discovered again. */
  lemma RediscoveryKeepsBinding(s: State, item: Item, now: int)
    requires Inverse(s) && item.name in s.names && s.names[item.name] != ""
    ensures
      var id := s.names[item.name];
      var after := Apply(s, Register(item, now)).items;
      && after.Keys == s.items.Keys
      && after[id].status == if s.items[id].status in {BOUND, ACTIVE} then s.items[id].status else item.status
  {
  }

  /** Looking up a name finds the one registered item that bears it, unless that item's id is empty. */
  lemma FindByNameExact(s: State, name: string, item: Item)
    requires Inverse(s)
    ensures FindByName(s, name) == Some(item) <==>
              item.id != "" && item.id in s.items && s.items[item.id] == item && item.name == name
  {
  }

  /** Renaming through `update` leaves the old name behind: it finds an item that no longer bears it. */
  lemma RenameLeavesStaleName()
    ensures
      var a := Item("1", "a", "custom", "discovered", 0, 0, 0);
      var s := RunFrom(EMPTY, [Register(a, 0), Update(a.(name := "b"), 1)]);
      !Inverse(s) && FindByName(s, "a").Some? && FindByName(s, "a").value.name == "b"
  {
    var a := Item("1", "a", "custom", "discovered", 0, 0, 0);
    var s1 := Apply(EMPTY, Register(a, 0));
    var s2 := Apply(s1, Update(a.(name := "b"), 1));
    var ops := [Register(a, 0), Update(a.(name := "b"), 1)];
    assert ops[1..][1..] == [] && RunFrom(s1, ops[1..]) == RunFrom(s2, []);
    assert s2.names["a"] == "1" && s2.items["1"].name == "b";
  }
}
