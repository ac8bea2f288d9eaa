/** The watcher as the source writes it: nested loops that append to a list, and a stored snapshot. */
module RuntimeWatchers {
  import opened Prelude
  import opened WatcherModel

  /** The changes found in one directory, of the names looked at so far. */
  ghost predicate Found(changes: seq<Change>, dir: string, current: Listing, previous: Listing, names: set<string>) {
    && Once(changes)
    && forall c :: c in changes <==>
         c.dir == dir && c.name in names && Verdict(Time(current, c.name), Time(previous, c.name)) == Some(c.kind)
  }

  function Time(listing: Listing, name: string): Option<real> {
    if name in listing then Some(listing[name]) else None
  }

  lemma FoundStep(
    changes: seq<Change>, dir: string, current: Listing, previous: Listing, names: set<string>, name: string)
    requires Found(changes, dir, current, previous, names) && name !in names
    ensures
      var v := Verdict(Time(current, name), Time(previous, name));
      Found(if v.None? then changes else changes + [Change(dir, name, v.value)], dir, current, previous, names + {name})
  {
  }

  /** The body of the outer loop of `_diff`. */
  method DiffDirectory(dir: string, current: Listing, previous: Listing) returns (changes: seq<Change>)
    ensures Found(changes, dir, current, previous, current.Keys + previous.Keys)
  {
    changes := [];
    ghost var names: set<string> := {};
    var created := current.Keys - previous.Keys;
    while created != {}
      invariant Found(changes, dir, current, previous, names)
      invariant created <= current.Keys - previous.Keys && names == current.Keys - previous.Keys - created
    {
      var name :| name in created;
      FoundStep(changes, dir, current, previous, names, name);
      changes := changes + [Change(dir, name, Created)];
      created, names := created - {name}, names + {name};
    }
    var deleted := previous.Keys - current.Keys;
    while deleted != {}
      invariant Found(changes, dir, current, previous, names)
      invariant deleted <= previous.Keys - current.Keys
      invariant names == (current.Keys - previous.Keys) + (previous.Keys - current.Keys - deleted)
    {
      var name :| name in deleted;
      FoundStep(changes, dir, current, previous, names, name);
      changes := changes + [Change(dir, name, Deleted)];
      deleted, names := deleted - {name}, names + {name};
    }
    var common := current.Keys * previous.Keys;
    while common != {}
      invariant Found(changes, dir, current, previous, names)
      invariant common <= current.Keys * previous.Keys
      invariant names == current.Keys + previous.Keys - common
    {
      var name :| name in common;
      FoundStep(changes, dir, current, previous, names, name);
      if current[name] != previous[name] {
        changes := changes + [Change(dir, name, Modified)];
      }
      common, names := common - {name}, names + {name};
    }
    assert names == current.Keys + previous.Keys;
  }

  /** The report restricted to some directories. */
  ghost predicate ReportsIn(changes: seq<Change>, current: Snapshot, previous: Snapshot, dirs: set<string>) {
    && Once(changes)
    && forall c :: c in changes <==>
         && c.dir in dirs
         && Verdict(TimeOf(current, c.dir, c.name), TimeOf(previous, c.dir, c.name)) == Some(c.kind)
  }

  lemma ReportsStep(
    changes: seq<Change>, current: Snapshot, previous: Snapshot, dirs: set<string>, dir: string, more: seq<Change>)
    requires ReportsIn(changes, current, previous, dirs) && dir !in dirs
    requires
      var c, p := ListingOf(current, dir), ListingOf(previous, dir);
      Found(more, dir, c, p, c.Keys + p.Keys)
    ensures ReportsIn(changes + more, current, previous, dirs + {dir})
  {
    var all := changes + more;
    forall i, j | 0 <= i < j < |all|
      ensures all[i].dir != all[j].dir || all[i].name != all[j].name
    {
      if i < |changes| <= j {
        assert all[i] in changes && all[j] in more;
      }
    }
  }

  method Diff(current: Snapshot, previous: Snapshot) returns (changes: seq<Change>)
    ensures Reports(changes, current, previous)
  {
    hide Found;
    changes := [];
    var all := current.Keys + previous.Keys;
    var rest := all;
    while rest != {}
      invariant rest <= all && ReportsIn(changes, current, previous, all - rest)
    {
      var dir :| dir in rest;
      var more := DiffDirectory(dir, ListingOf(current, dir), ListingOf(previous, dir));
      ReportsStep(changes, current, previous, all - rest, dir, more);
      rest := rest - {dir};
      assert all - rest == all - (rest + {dir}) + {dir};
      changes := changes + more;
    }
  }

  class RuntimeWatcher {
    var snapshots: Snapshot

    constructor ()
      ensures snapshots == map[]
    {
      snapshots := map[];
    }

    /** `current` is the snapshot that this poll takes of the watched directories. */
    method Poll(current: Snapshot) returns (changes: seq<Change>)
      modifies this
      ensures snapshots == current && Polled(old(snapshots), current, changes)
    {
      if snapshots == map[] {
        snapshots := current;
        return [];
      }
      changes := Diff(current, snapshots);
      snapshots := current;
    }
  }
}
