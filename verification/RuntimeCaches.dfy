/**
  The discovery cache as an object: a dictionary in memory, a file that must be able to
  stand in for it, a clock that moves on between any two readings, and writes that can
  fail. `hist` records what callers and eviction did; the disk counts the attempts to change
  it, so whether the latest attempt succeeded can be read off the disk.
 */
module RuntimeCaches {
  import opened Prelude
  import opened CacheModel

  class Clock {
    const step: nat -> nat
    var ticks: nat
    var now: int

    constructor (start: int, step: nat -> nat)
      ensures now == start
    {
      this.step, ticks, now := step, 0, start;
    }

    method Read() returns (t: int)
      modifies this
      ensures t == now && old(now) <= now
    {
      now := now + step(ticks);
      ticks := ticks + 1;
      t := now;
    }
  }

  /** The cache file; the n-th attempt to change it raises OSError when `fails(n)`. */
  class Disk {
    const fails: nat -> bool
    var attempts: nat
    var file: Option<seq<Entry>>

    constructor (file: Option<seq<Entry>>, fails: nat -> bool)
      ensures this.file == file
    {
      this.fails, attempts, this.file := fails, 0, file;
    }

    function Contents(): seq<Entry>
      reads this
    {
      if file.Some? then file.value else []
    }

    /** Write to a temporary file, then rename: the old contents survive a failure. */
    method Write(es: seq<Entry>) returns (ok: bool)
      modifies this
      ensures ok == !fails(old(attempts)) && attempts == old(attempts) + 1
      ensures file == if ok then Some(es) else old(file)
    {
      ok := !fails(attempts);
      attempts := attempts + 1;
      if ok {
        file := Some(es);
      }
    }

    method Unlink() returns (ok: bool)
      modifies this
      ensures ok == !fails(old(attempts)) && attempts == old(attempts) + 1
      ensures file == if ok then None else old(file)
    {
      ok := !fails(attempts);
      attempts := attempts + 1;
      if ok {
        file := None;
      }
    }
  }

  class RuntimeCache {
    const clock: Clock
    const disk: Disk
    const persistent: bool
    const maxEntries: int
    var entries: seq<Entry>
    ghost var hist: seq<Event>
    /** How many attempts to change the disk were made before this cache. */
    ghost const since: nat

    /** Memory is a dictionary that tracks the history; the file, if used, is a dictionary. */
    ghost predicate Sound()
      reads this, clock, disk
    {
      && Unique(entries) && Tracks(entries, Replay(hist), clock.now)
      && since <= disk.attempts && (persistent ==> Unique(disk.Contents()))
    }

    /** The latest attempt of this cache to change the disk, if it made any, succeeded. */
    ghost predicate Synced()
      reads disk
    {
      disk.attempts <= since || !disk.fails(disk.attempts - 1)
    }

    /** Unless the latest attempt failed, the file agrees with memory from now on. */
    ghost predicate Valid()
      reads this, clock, disk
    {
      Sound() && (persistent && Synced() ==> Agree(disk.Contents(), entries, clock.now))
    }

    /** `__init__` with a cache directory: loads what has not expired. */
    constructor Load(clock: Clock, disk: Disk, maxEntries: int)
      requires Unique(disk.Contents())
      modifies clock
      ensures this.clock == clock && this.disk == disk && persistent && this.maxEntries == maxEntries
      ensures Valid() && Synced() && old(clock.now) <= clock.now
      ensures Swept(disk.Contents(), entries, clock.now) && NoneExpired(entries, old(clock.now))
    {
      this.clock, this.disk, this.maxEntries, persistent, since := clock, disk, maxEntries, true, disk.attempts;
      entries, hist := [], [];
      new;
      LoadFile();
    }

    /** `__init__` without a cache directory: nothing is ever written. */
    constructor InMemory(clock: Clock, disk: Disk, maxEntries: int)
      ensures this.clock == clock && this.disk == disk && !persistent && this.maxEntries == maxEntries
      ensures Valid() && entries == [] && hist == []
    {
      this.clock, this.disk, this.maxEntries, persistent, since := clock, disk, maxEntries, false, disk.attempts;
      entries, hist := [], [];
    }

    /** `_load`: a stored entry counts as set when it is loaded. */
    method LoadFile()
      requires entries == [] && hist == [] && since <= disk.attempts && Unique(disk.Contents())
      modifies this`entries, this`hist, clock
      ensures Sound() && old(clock.now) <= clock.now
      ensures Swept(disk.Contents(), entries, clock.now) && NoneExpired(entries, old(clock.now))
      ensures Agree(disk.Contents(), entries, clock.now)
    {
      hide Tracks, Unique, Alive, Agree, Replay, Put;
      var data := disk.Contents();
      EmptySound(clock.now);
      for i := 0 to |data|
        invariant Sound() && old(clock.now) <= clock.now && Swept(data[..i], entries, clock.now)
        invariant NoneExpired(entries, old(clock.now))
      {
        hide Swept;
        ghost var was := clock.now;
        var t := clock.Read();
        UniquePrefix(data, i);
        TracksLater(entries, Replay(hist), was, t);
        SweptStep(data[..i], entries, data[i], was, t);
        if !Expired(data[i], t) {
          LoadOne(entries, hist, data[i], t);
          entries := Put(entries, data[i]);
          hist := hist + [Stored(data[i])];
        }
      }
      assert data[..|data|] == data;
      SweptAgree(data, entries, clock.now);
    }

    /**
      `clean_expired`: each entry is judged by its own reading of the clock. The sweep leaves
      `kept` and counts what it dropped; the save after it may drop more.
     */
    method CleanExpired() returns (removed: nat, ghost kept: seq<Entry>)
      requires Sound()
      modifies this`entries, clock, disk
      ensures Sound() && old(clock.now) <= clock.now
      ensures Swept(old(entries), entries, clock.now) && NoneExpired(entries, old(clock.now))
      ensures Swept(old(entries), kept, clock.now) && NoneExpired(kept, old(clock.now))
      ensures removed + |kept| == |old(entries)| && Swept(kept, entries, clock.now)
      ensures |entries| <= |kept| && (removed == 0 || !persistent ==> entries == kept)
      ensures removed == 0 ==> entries == old(entries)
      ensures removed == 0 || !persistent ==> disk.attempts == old(disk.attempts) && disk.file == old(disk.file)
      ensures removed > 0 && persistent ==>
                old(disk.attempts) < disk.attempts && (Synced() ==> disk.file == Some(entries))
      decreases |entries|, 0
    {
      hide Tracks, Unique, Alive;
      var rest := [];
      assert Swept([], rest, clock.now) by { SweptSelf([], clock.now); }
      for i := 0 to |entries|
        invariant entries == old(entries) && disk.attempts == old(disk.attempts) && disk.file == old(disk.file)
        invariant old(clock.now) <= clock.now && Swept(entries[..i], rest, clock.now)
        invariant NoneExpired(rest, old(clock.now))
      {
        hide Swept;
        ghost var was := clock.now;
        var t := clock.Read();
        UniquePrefix(entries, i);
        SweptStep(entries[..i], rest, entries[i], was, t);
        if !Expired(entries[i], t) {
          rest := rest + [entries[i]];
        }
      }
      assert entries[..|entries|] == entries;
      removed := |entries| - |rest|;
      TracksClean(entries, rest, Replay(hist), old(clock.now), clock.now);
      entries, kept := rest, rest;
      if removed > 0 {
        ghost var was := clock.now;
        Save();
        SweptLater(old(entries), rest, was, clock.now);
        SweptTransitive(old(entries), rest, entries, clock.now);
        SweptShorter(rest, entries, clock.now);
      } else {
        SweptSelf(rest, clock.now);
      }
    }

    /** `_save`: cleans first, which may itself save; the outermost call writes last. */
    method Save()
      requires Sound()
      modifies this`entries, clock, disk
      ensures Valid() && old(clock.now) <= clock.now && Swept(old(entries), entries, clock.now)
      ensures persistent ==> NoneExpired(entries, old(clock.now))
      ensures persistent ==> old(disk.attempts) < disk.attempts && (Synced() ==> disk.file == Some(entries))
      ensures !persistent ==>
                entries == old(entries) && disk.attempts == old(disk.attempts) && disk.file == old(disk.file)
      decreases |entries|, 1
    {
      hide Tracks, Alive;
      if !persistent {
        SweptSelf(entries, clock.now);
        return;
      }
      var removed, kept := CleanExpired();
      var ok := disk.Write(entries);
    }

    /** `clean_expired` called from outside: as above, and the file still stands in for memory. */
    method Clean() returns (removed: nat, ghost kept: seq<Entry>)
      requires Valid()
      modifies this`entries, clock, disk
      ensures Valid() && old(clock.now) <= clock.now
      ensures Swept(old(entries), entries, clock.now) && NoneExpired(entries, old(clock.now))
      ensures Swept(old(entries), kept, clock.now) && NoneExpired(kept, old(clock.now))
      ensures removed + |kept| == |old(entries)| && Swept(kept, entries, clock.now)
      ensures |entries| <= |kept| && (removed == 0 || !persistent ==> entries == kept)
      ensures removed == 0 ==> entries == old(entries)
      ensures removed == 0 || !persistent ==> disk.attempts == old(disk.attempts) && disk.file == old(disk.file)
      ensures removed > 0 && persistent ==>
                old(disk.attempts) < disk.attempts && (Synced() ==> disk.file == Some(entries))
    {
      hide Tracks, Unique, Alive, Swept;
      removed, kept := CleanExpired();
      if removed == 0 && persistent && Synced() {
        AgreeLater(disk.Contents(), entries, old(clock.now), clock.now);
      }
    }

    /**
      `get`: exactly the entry last stored under the key, if it was not removed since and has
      not expired by the reading `at` of the clock. Only finding an expired entry touches the disk.
     */
    method Get(key: string) returns (r: Option<Entry>, ghost at: int)
      requires Valid()
      modifies this, clock, disk
      ensures Valid() && old(clock.now) <= at <= clock.now && |entries| <= |old(entries)|
      ensures
        var m := Replay(old(hist));
        r == if key in m && !Expired(m[key], at) then Some(m[key].(hits := m[key].hits + 1)) else None
      ensures hist == if r.Some? then old(hist) + [Touched(key)] else old(hist)
      ensures r.Some? ==> entries == Put(old(entries), r.value)
      ensures r.None? ==> Find(entries, key).None?
      ensures
        if persistent && r.None? && Find(old(entries), key).Some? then
          old(disk.attempts) < disk.attempts && (Synced() ==> disk.file == Some(entries))
        else
          disk.attempts == old(disk.attempts) && disk.file == old(disk.file)
    {
      hide Tracks, Unique, Alive, Agree, Replay, Put, Find;
      var entry := Find(entries, key);
      at := clock.now;
      TracksAnswers(entries, Replay(hist), at, at, key);
      r := None;
      if entry.Some? {
        var t := clock.Read();
        TracksAnswers(entries, Replay(hist), at, t, key);
        TracksLater(entries, Replay(hist), at, t);
        if persistent && Synced() {
          AgreeLater(disk.Contents(), entries, at, t);
        }
        at := t;
        if Expired(entry.value, t) {
          DropExpired(entries, key, t);
          TracksClean(entries, Without(entries, {key}), Replay(hist), t, t);
          SweptUnique(entries, Without(entries, {key}), t);
          WithoutKey(entries, key);
          ghost var without := Without(entries, {key});
          entries := Without(entries, {key});
          Save();
          StillWithout(without, entries, key);
        } else {
          var hit := entry.value.(hits := entry.value.hits + 1);
          HitKeeps(entries, Replay(hist), disk.Contents(), key, t);
          ReplayNext(hist, Touched(key));
          entries := Put(entries, hit);
          hist := hist + [Touched(key)];
          r := Some(hit);
        }
      }
    }

    /**
      `set`: at most one entry makes room, only for a new key in a full cache, and it is one
      created no later than any other; then the entry is stored and the file rewritten.
     */
    method Set(entry: Entry)
      requires Valid()
      modifies this, clock, disk
      ensures Valid() && old(clock.now) <= clock.now
      ensures hist == StoredHist(old(hist), old(entries), entry, maxEntries)
      ensures Swept(StoredIn(old(entries), entry, maxEntries), entries, clock.now)
      ensures 1 <= maxEntries && |old(entries)| <= maxEntries ==> |entries| <= maxEntries
      ensures persistent ==>
                && NoneExpired(entries, old(clock.now))
                && old(disk.attempts) < disk.attempts && (Synced() ==> disk.file == Some(entries))
      ensures !persistent ==>
                && entries == StoredIn(old(entries), entry, maxEntries)
                && disk.attempts == old(disk.attempts) && disk.file == old(disk.file)
    {
      hide Tracks, Unique, Alive, Agree, Replay, Swept, Find, Put, Oldest, Without;
      if 1 <= maxEntries && |entries| <= maxEntries {
        StoreBound(entries, entry, maxEntries);
      }
      if |entries| >= maxEntries && Find(entries, entry.key).None? {
        EvictOne();
      }
      TracksPut(entries, Replay(hist), clock.now, entry);
      PutUnique(entries, entry);
      ReplayNext(hist, Stored(entry));
      entries := Put(entries, entry);
      hist := hist + [Stored(entry)];
      assert entries == StoredIn(old(entries), entry, maxEntries);
      Save();
      SweptShorter(StoredIn(old(entries), entry, maxEntries), entries, clock.now);
    }

    /** `_evict_one`. */
    method EvictOne()
      requires Sound()
      modifies this`entries, this`hist
      ensures Sound()
      ensures old(entries) == [] ==> entries == [] && hist == old(hist)
      ensures old(entries) != [] ==>
                var key := Oldest(old(entries)).key;
                entries == Without(old(entries), {key}) && hist == old(hist) + [Removed({key})]
    {
      if entries != [] {
        Remove({Oldest(entries).key});
      }
    }

    method Remove(keys: set<string>)
      requires Sound()
      modifies this`entries, this`hist
      ensures Sound() && entries == Without(old(entries), keys) && hist == old(hist) + [Removed(keys)]
    {
      hide Tracks, Unique;
      TracksWithout(entries, Replay(hist), clock.now, keys);
      WithoutUnique(entries, keys);
      ReplayNext(hist, Removed(keys));
      entries := Without(entries, keys);
      hist := hist + [Removed(keys)];
    }

    /** `invalidate`. */
    method Invalidate(key: string)
      requires Valid()
      modifies this, clock, disk
      ensures Valid() && old(clock.now) <= clock.now && hist == old(hist) + [Removed({key})]
      ensures Swept(Without(old(entries), {key}), entries, clock.now)
      ensures |entries| <= |old(entries)| && Find(entries, key).None?
      ensures persistent ==> old(disk.attempts) < disk.attempts && (Synced() ==> disk.file == Some(entries))
      ensures !persistent ==>
                && entries == Without(old(entries), {key})
                && disk.attempts == old(disk.attempts) && disk.file == old(disk.file)
    {
      hide Tracks, Unique, Alive, Agree, Replay;
      WithoutKey(entries, key);
      ghost var without := Without(entries, {key});
      Remove({key});
      Save();
      StillWithout(without, entries, key);
    }

    /** `invalidate_by_provider` and `invalidate_by_engine`: saves only if something matched. */
    method InvalidateWhere(p: Entry -> bool)
      requires Valid()
      modifies this, clock, disk
      ensures Valid() && old(clock.now) <= clock.now && |entries| <= |old(entries)|
      ensures
        var keys := KeysWhere(old(entries), p);
        hist == if keys == {} then old(hist) else old(hist) + [Removed(keys)]
      ensures forall e :: e in entries ==> e in old(entries) && !p(e)
      ensures Swept(Without(old(entries), KeysWhere(old(entries), p)), entries, clock.now)
      ensures
        if persistent && KeysWhere(old(entries), p) != {} then
          old(disk.attempts) < disk.attempts && (Synced() ==> disk.file == Some(entries))
        else
          disk.attempts == old(disk.attempts) && disk.file == old(disk.file)
    {
      hide Tracks, Alive, Agree, Replay;
      var keys := KeysWhere(entries, p);
      WithoutWhere(entries, p);
      WithoutShorter(entries, keys);
      if keys != {} {
        Remove(keys);
        Save();
      } else {
        SweptSelf(entries, clock.now);
      }
    }

    /** `invalidate_all`: empties memory and deletes the file. */
    method InvalidateAll()
      requires Valid()
      modifies this, disk
      ensures Valid() && entries == [] && hist == old(hist) + [Removed(Replay(old(hist)).Keys)]
      ensures Replay(hist) == map[]
      ensures persistent ==> disk.attempts == old(disk.attempts) + 1 && (Synced() ==> disk.file == None)
      ensures !persistent ==> disk.attempts == old(disk.attempts) && disk.file == old(disk.file)
    {
      ReplayNext(hist, Removed(Replay(hist).Keys));
      entries := [];
      hist := hist + [Removed(Replay(hist).Keys)];
      if persistent {
        var ok := disk.Unlink();
      }
    }
  }

  /**
    Restart equivalence at any moment at which the latest attempt to change the disk
    succeeded: a cache freshly loaded from the file answers every key, from then on, as the
    live one does, up to hit counts.
   */
  method Restart(live: RuntimeCache) returns (copy: RuntimeCache)
    requires live.Valid() && live.persistent
    modifies live.clock
    ensures copy.Valid() && copy.Synced() && copy.clock == live.clock && copy.disk == live.disk && live.Valid()
    ensures live.Synced() ==> AnswersAlike(copy.entries, live.entries, live.clock.now)
  {
    hide Tracks, Unique, Alive;
    ghost var was := live.clock.now;
    copy := new RuntimeCache.Load(live.clock, live.disk, live.maxEntries);
    var now := live.clock.now;
    TracksLater(live.entries, Replay(live.hist), was, now);
    if live.Synced() {
      AgreeLater(live.disk.Contents(), live.entries, was, now);
      AgreeAnswersAlike(copy.entries, live.entries, now);
    }
  }

  // ---- Whole runs ----

  /** One operation, whatever it is: what any of them keeps. */
  method Perform(cache: RuntimeCache, op: Op)
    requires cache.Valid()
    modifies cache, cache.clock, cache.disk
    ensures cache.Valid() && old(cache.clock.now) <= cache.clock.now
    ensures 1 <= cache.maxEntries && |old(cache.entries)| <= cache.maxEntries ==> |cache.entries| <= cache.maxEntries
    ensures old(cache.disk.attempts) <= cache.disk.attempts
    ensures cache.disk.attempts == old(cache.disk.attempts) ==> cache.disk.file == old(cache.disk.file)
    ensures Recounts(op, Point(old(cache.entries), old(cache.hist)), cache.hist, cache.maxEntries)
  {
    hide Tracks, Unique, Alive, Agree, Replay, Put, Find, Swept, NoneExpired, StoredHist, StoredIn, Without, KeysWhere;
    match op
    case DoGet(key) => var r, at := cache.Get(key);
    case DoSet(entry) => cache.Set(entry);
    case DoInvalidate(key) => cache.Invalidate(key);
    case DoInvalidateProvider(provider) => cache.InvalidateWhere(FromProvider(provider));
    case DoInvalidateEngine(name) => cache.InvalidateWhere(OfEngine(name));
    case DoInvalidateAll => cache.InvalidateAll();
    case DoClean => var removed, kept := cache.Clean();
  }

  /**
    Any operations, in any order: a cache that starts within its bound stays within it, and
    `trail` says what it held and had recorded at each point.
   */
  method PerformAll(cache: RuntimeCache, ops: seq<Op>) returns (ghost trail: seq<Point>)
    requires cache.Valid()
    modifies cache, cache.clock, cache.disk
    ensures cache.Valid() && old(cache.clock.now) <= cache.clock.now
    ensures 1 <= cache.maxEntries && |old(cache.entries)| <= cache.maxEntries ==> |cache.entries| <= cache.maxEntries
    ensures old(cache.disk.attempts) <= cache.disk.attempts
    ensures cache.disk.attempts == old(cache.disk.attempts) ==> cache.disk.file == old(cache.disk.file)
    ensures Trail(ops, trail, cache.maxEntries)
    ensures trail[0] == Point(old(cache.entries), old(cache.hist)) && trail[|ops|] == Point(cache.entries, cache.hist)
  {
    hide Tracks, Unique, Agree, Replay, Recounts;
    trail := [Point(cache.entries, cache.hist)];
    for i := 0 to |ops|
      invariant cache.Valid() && old(cache.clock.now) <= cache.clock.now
      invariant 1 <= cache.maxEntries && |old(cache.entries)| <= cache.maxEntries ==>
                  |cache.entries| <= cache.maxEntries
      invariant old(cache.disk.attempts) <= cache.disk.attempts
      invariant cache.disk.attempts == old(cache.disk.attempts) ==> cache.disk.file == old(cache.disk.file)
      invariant |trail| == i + 1 && trail[0] == Point(old(cache.entries), old(cache.hist))
      invariant trail[i] == Point(cache.entries, cache.hist)
      invariant forall j: nat :: j < i ==> Recounts(ops[j], trail[j], trail[j + 1].hist, cache.maxEntries)
    {
      Perform(cache, ops[i]);
      trail := trail + [Point(cache.entries, cache.hist)];
    }
  }

  /**
    What a lookup answers after any run: the entry that was stored last under the key, as long as
    no operation since replaced, removed or evicted it, unless it has expired by then.
   */
  method RunThenGet(cache: RuntimeCache, ops: seq<Op>, key: string)
    returns (r: Option<Entry>, ghost at: int, ghost trail: seq<Point>)
    requires cache.Valid()
    modifies cache, cache.clock, cache.disk
    ensures cache.Valid() && old(cache.clock.now) <= at <= cache.clock.now
    ensures Trail(ops, trail, cache.maxEntries) && trail[0] == Point(old(cache.entries), old(cache.hist))
    ensures
      var m := Replay(trail[|ops|].hist);
      r == if key in m && !Expired(m[key], at) then Some(m[key].(hits := m[key].hits + 1)) else None
    ensures forall i: nat, e ::
              (i < |ops| && ops[i] == DoSet(e) && e.key == key &&
               forall j :: i < j < |ops| ==> Spares(ops[j], trail[j], key, cache.maxEntries)) ==>
                WithoutHits(r) == if Expired(e, at) then None else Some(e.(hits := 0))
  {
    hide Tracks, Unique, Agree, Alive, Put, Find;
    trail := PerformAll(cache, ops);
    r, at := cache.Get(key);
    forall i: nat, e | i < |ops| && ops[i] == DoSet(e) && e.key == key &&
        forall j :: i < j < |ops| ==> Spares(ops[j], trail[j], key, cache.maxEntries)
      ensures WithoutHits(r) == if Expired(e, at) then None else Some(e.(hits := 0))
    {
      StoredStays(ops, trail, cache.maxEntries, i, |ops|, e);
    }
  }

  /**
    Restart equivalence over runs. A cache is loaded, any operations are performed on it, and
    a second cache is loaded from the file. If no write fails, or only if the last one did not,
    the second answers every key from then on as the first.
   */
  method LoadRunRestart(clock: Clock, disk: Disk, maxEntries: int, ops: seq<Op>)
    returns (live: RuntimeCache, copy: RuntimeCache)
    requires Unique(disk.Contents())
    modifies clock, disk
    ensures live.Valid() && copy.Valid() && live.clock == clock && live.disk == disk
    ensures old(disk.attempts) <= disk.attempts
    ensures
      disk.attempts == old(disk.attempts) || !disk.fails(disk.attempts - 1) ==>
        AnswersAlike(copy.entries, live.entries, clock.now)
    ensures (forall n :: !disk.fails(n)) ==> AnswersAlike(copy.entries, live.entries, clock.now)
  {
    hide Tracks, Unique, Alive, Agree, Replay, Swept, NoneExpired, AnswersAlike;
    live := new RuntimeCache.Load(clock, disk, maxEntries);
    var trail := PerformAll(live, ops);
    copy := Restart(live);
  }
}
