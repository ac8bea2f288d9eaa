/**
  The registry as the source writes it: dictionaries over runtime objects that are changed
  in place, including the caller's own object during `register`.
 */
module RuntimeRegistries {
  import opened Prelude
  import opened Tally
  import opened RegistryModel

  class Runtime {
    var id: string
    var name: string
    var kind: string
    var status: string
    var discovered: int
    var seen: int
    const payload: nat

    constructor (item: Item)
      ensures View() == item
    {
      id, name, kind, status := item.id, item.name, item.kind, item.status;
      discovered, seen, payload := item.discovered, item.seen, item.payload;
    }

    ghost function View(): Item
      reads this
    {
      Item(id, name, kind, status, discovered, seen, payload)
    }
  }

  ghost function ItemsView(runtimes: map<string, Runtime>): map<string, Item>
    reads runtimes.Values
  {
    map i | i in runtimes :: runtimes[i].View()
  }

  /** If the object is stored, it is stored once, under the id it carries. */
  ghost predicate UnderOwnId(runtimes: map<string, Runtime>, rt: Runtime)
    reads rt
  {
    forall i :: i in runtimes && runtimes[i] == rt ==> i == rt.id
  }

  /** If the object is stored, its name also still leads to it. */
  ghost predicate AtHome(runtimes: map<string, Runtime>, names: map<string, string>, rt: Runtime)
    reads rt
  {
    UnderOwnId(runtimes, rt) && (rt in runtimes.Values ==> rt.name in names && names[rt.name] == rt.id)
  }

  class RuntimeRegistry {
    var runtimes: map<string, Runtime>
    var names: map<string, string>

    constructor ()
      ensures View() == EMPTY
    {
      runtimes, names := map[], map[];
    }

    ghost function View(): State
      reads this, runtimes.Values
    {
      State(ItemsView(runtimes), names)
    }

    /** The first half of `register`: a runtime known by name lends its identity. */
    method Adopt(rt: Runtime, now: int)
      modifies rt
      ensures rt.View() == Merged(FindByName(old(View()), old(rt.name)), old(rt.View()), now)
      ensures old(AtHome(runtimes, names, rt)) ==> UnderOwnId(runtimes, rt)
    {
      var earlier := Find(rt.name);
      if earlier != null {
        rt.id := earlier.id;
        rt.discovered := earlier.discovered;
        rt.seen := now;
        if earlier.status == BOUND || earlier.status == ACTIVE {
          rt.status := earlier.status;
        }
      }
    }

    /**
      `register`, on whatever object the caller hands in. If that object is not stored already, or
      is stored under the id and name it carries, the registry does what the model does; an object
      that its caller renamed while it was stored ends up under two ids.
     */
    method Register(rt: Runtime, now: int)
      modifies this, rt
      ensures rt.View() == Merged(FindByName(old(View()), old(rt.name)), old(rt.View()), now)
      ensures runtimes == old(runtimes)[rt.id := rt] && names == old(names)[rt.name := rt.id]
      ensures old(AtHome(runtimes, names, rt)) ==>
                View() == Apply(old(View()), RegistryModel.Register(old(rt.View()), now))
    {
      ghost var s, item := View(), rt.View();
      MergedName(FindByName(s, rt.name), item, now);
      hide Merged, FindByName;
      Adopt(rt, now);
      if old(AtHome(runtimes, names, rt)) {
        ItemsChanged(s.items, runtimes, rt.id, rt);
      }
      hide ItemsView;
      runtimes := runtimes[rt.id := rt];
      names := names[rt.name := rt.id];
    }

    method Unregister(id: string) returns (found: bool)
      modifies this
      ensures View() == Apply(old(View()), RegistryModel.Unregister(id)) && found == (id in old(runtimes))
      ensures runtimes == old(runtimes) - {id}
    {
      found := id in runtimes;
      if found {
        var rt := runtimes[id];
        ItemsDropped(runtimes, id);
        runtimes := runtimes - {id};
        names := names - {rt.name};
      }
    }

    /** `ok` is false where the source raises for an unknown id; the object handed in may be any. */
    method Update(rt: Runtime, now: int) returns (ok: bool)
      modifies this, rt
      ensures ok == (rt.id in old(runtimes)) && rt.id == old(rt.id)
      ensures ok ==>
                && rt.View() == old(rt.View()).(discovered := old(View()).items[rt.id].discovered, seen := now)
                && runtimes == old(runtimes)[rt.id := rt] && names == old(names)[rt.name := rt.id]
      ensures !ok ==> rt.View() == old(rt.View()) && runtimes == old(runtimes) && names == old(names)
      ensures old(UnderOwnId(runtimes, rt)) ==>
                View() == Apply(old(View()), RegistryModel.Update(old(rt.View()), now))
    {
      ghost var s := View();
      ok := rt.id in runtimes;
      if ok {
        rt.discovered := runtimes[rt.id].discovered;
        rt.seen := now;
        if old(UnderOwnId(runtimes, rt)) {
          ItemsChanged(s.items, runtimes, rt.id, rt);
        }
        runtimes := runtimes[rt.id := rt];
        names := names[rt.name := rt.id];
      }
    }

    method UpdateStatus(id: string, status: string, now: int) returns (rt: Runtime?)
      modifies runtimes.Values
      ensures if id in runtimes then rt == runtimes[id] else rt == null
      ensures rt != null ==> rt.View() == old(View()).items[id].(status := status, seen := now)
      ensures forall i :: i in runtimes && runtimes[i] != rt ==> runtimes[i].View() == old(runtimes[i].View())
      ensures Unshared(runtimes) ==> View() == Apply(old(View()), RegistryModel.UpdateStatus(id, status, now))
    {
      ghost var s := View();
      rt := null;
      if id in runtimes {
        rt := runtimes[id];
        rt.status := status;
        rt.seen := now;
        if Unshared(runtimes) {
          ItemsChanged(s.items, runtimes, id, rt);
          assert runtimes[id := rt] == runtimes;
        }
      }
    }

    method Find(name: string) returns (rt: Runtime?)
      ensures rt == null <==> FindByName(View(), name).None?
      ensures rt != null ==> rt in runtimes.Values && FindByName(View(), name) == Some(rt.View())
    {
      rt := null;
      if name in names && names[name] != "" && names[name] in runtimes {
        rt := runtimes[names[name]];
      }
    }

    /** The counts by status and by type each tally all runtimes, so each sums to the total. */
    method Snapshot() returns (total: nat, byStatus: Counts, byKind: Counts)
      ensures total == |runtimes|
      ensures exists ids ::
                && Lists(ids, runtimes.Keys)
                && Tallies(byStatus, Labels(View().items, ids, StatusOf()))
                && Tallies(byKind, Labels(View().items, ids, KindOf()))
      ensures SumsTo(byStatus, total) && SumsTo(byKind, total)
    {
      hide Count, Sum, Occurrences, Tallies, Distinct, SumsTo, Labels, StatusOf, KindOf;
      total, byStatus, byKind := |runtimes|, map[], map[];
      NothingTallied(View().items);
      var rest := runtimes.Keys;
      ghost var items := View().items;
      ghost var ids: seq<string> := [];
      while rest != {}
        invariant rest <= runtimes.Keys && Distinct(ids) && |ids| + |rest| == total
        invariant forall i :: i in ids <==> i in runtimes && i !in rest
        invariant Tallies(byStatus, Labels(items, ids, StatusOf()))
        invariant Tallies(byKind, Labels(items, ids, KindOf()))
      {
        var i :| i in rest;
        rest := rest - {i};
        var rt := runtimes[i];
        LabelsRead(rt.View());
        TalliesStep(byStatus, items, ids, StatusOf(), i);
        TalliesStep(byKind, items, ids, KindOf(), i);
        byStatus := byStatus[rt.status := Count(byStatus, rt.status) + 1];
        byKind := byKind[rt.kind := Count(byKind, rt.kind) + 1];
        DistinctAppend(ids, i);
        ids := ids + [i];
      }
      SumsEverywhere(byStatus, Labels(items, ids, StatusOf()));
      SumsEverywhere(byKind, Labels(items, ids, KindOf()));
      assert Lists(ids, runtimes.Keys);
    }
  }

  /** The counts add up to `total`, over any list that leaves out no counted label. */
  ghost predicate SumsTo(c: Counts, total: nat) {
    forall ks :: Distinct(ks) && (forall k :: k in c ==> k in ks) ==> Sum(c, ks) == total
  }

  lemma SumsEverywhere(c: Counts, xs: seq<string>)
    requires Tallies(c, xs)
    ensures SumsTo(c, |xs|)
  {
    forall ks | Distinct(ks) && (forall k :: k in c ==> k in ks)
      ensures Sum(c, ks) == |xs|
    {
      SumAll(xs, c, ks);
    }
  }

  lemma NothingTallied(items: map<string, Item>)
    ensures Distinct<string>([])
    ensures Tallies(map[], Labels(items, [], StatusOf())) && Tallies(map[], Labels(items, [], KindOf()))
  {
  }

  lemma DistinctAppend(ids: seq<string>, i: string)
    requires Distinct(ids) && i !in ids
    ensures Distinct(ids + [i])
  {
  }

  lemma LabelsRead(item: Item)
    ensures StatusOf()(item) == item.status && KindOf()(item) == item.kind
  {
  }

  function StatusOf(): Item -> string {
    (item: Item) => item.status
  }

  function KindOf(): Item -> string {
    (item: Item) => item.kind
  }

  /** The labels of the listed items, in that order. */
  function Labels(items: map<string, Item>, ids: seq<string>, tag: Item -> string): (r: seq<string>)
    ensures |r| == |ids|
  {
    if ids == [] then []
    else
      var i := ids[|ids| - 1];
      Labels(items, ids[..|ids| - 1], tag) + [if i in items then tag(items[i]) else ""]
  }

  lemma TalliesStep(c: Counts, items: map<string, Item>, ids: seq<string>, tag: Item -> string, i: string)
    requires i in items && Tallies(c, Labels(items, ids, tag))
    ensures
      var l := tag(items[i]);
      Tallies(c[l := Count(c, l) + 1], Labels(items, ids + [i], tag))
  {
    var xs, l := Labels(items, ids, tag), tag(items[i]);
    assert (ids + [i])[..|ids|] == ids;
    assert Labels(items, ids + [i], tag) == xs + [l];
    assert (xs + [l])[..|xs|] == xs;
    var c' := c[l := Count(c, l) + 1];
    forall k
      ensures k in c' <==> k in xs + [l]
      ensures Count(c', k) == Occurrences(xs + [l], k)
    {
      assert Count(c, k) == Occurrences(xs, k);
    }
  }

  lemma MergedName(earlier: Option<Item>, item: Item, now: int)
    ensures Merged(earlier, item, now).name == item.name
  {
  }

  lemma ItemsChanged(was: map<string, Item>, held: map<string, Runtime>, id: string, rt: Runtime)
    requires forall i :: i in held <==> i in was
    requires forall i :: i in held && i != id ==> held[i].View() == was[i]
    ensures ItemsView(held[id := rt]) == was[id := rt.View()]
  {
  }

  lemma ItemsDropped(held: map<string, Runtime>, id: string)
    ensures ItemsView(held - {id}) == ItemsView(held) - {id}
  {
  }
}
