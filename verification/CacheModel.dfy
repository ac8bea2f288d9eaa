/**
  Values behind the discovery cache (services/runtime_discovery/cache.py): entries in
  dictionary order, what is still alive at a given time, and the history that says what a
  cache ought to hold.
 */
module CacheModel {
  import opened Prelude

  /** `payload` stands for the entry's data and runtime type, which the cache never inspects. */
  datatype Entry = Entry(
    key: string, name: string, provider: Option<string>, payload: nat, created: int, expires: int, hits: nat)

  predicate Expired(e: Entry, now: int) {
    now > e.expires
  }

  /** The entries of a dictionary, in insertion order: no key occurs twice. */
  predicate Unique(es: seq<Entry>) {
    forall i, j :: 0 <= i < j < |es| ==> es[i].key != es[j].key
  }

  function Find(es: seq<Entry>, k: string): Option<Entry> {
    if es == [] then None
    else if es[0].key == k then Some(es[0])
    else Find(es[1..], k)
  }

  /** Dictionary assignment: in place for a present key, at the end for a new one. */
  function Put(es: seq<Entry>, e: Entry): seq<Entry> {
    if es == [] then [e]
    else if es[0].key == e.key then [e] + es[1..]
    else [es[0]] + Put(es[1..], e)
  }

  function Keep(es: seq<Entry>, p: Entry -> bool): seq<Entry> {
    if es == [] then []
    else if p(es[0]) then [es[0]] + Keep(es[1..], p)
    else Keep(es[1..], p)
  }

  function AliveAt(t: int): Entry -> bool {
    (e: Entry) => !Expired(e, t)
  }

  function Alive(es: seq<Entry>, t: int): seq<Entry> {
    Keep(es, AliveAt(t))
  }

  function NotIn(ks: set<string>): Entry -> bool {
    (e: Entry) => e.key !in ks
  }

  function Without(es: seq<Entry>, ks: set<string>): seq<Entry> {
    Keep(es, NotIn(ks))
  }

  /** Hit counts change in memory without being written to disk. */
  function Bare(es: seq<Entry>): seq<Entry> {
    if es == [] then [] else [es[0].(hits := 0)] + Bare(es[1..])
  }

  /** What a lookup at time `t` may answer. */
  function Answer(es: seq<Entry>, k: string, t: int): Option<Entry> {
    match Find(es, k)
    case None => None
    case Some(e) => if Expired(e, t) then None else Some(e)
  }

  // ---- Dictionary facts ----

  lemma {:induction false} FindMember(es: seq<Entry>, k: string)
    ensures Find(es, k).Some? ==> Find(es, k).value in es && Find(es, k).value.key == k
    ensures Find(es, k).None? ==> forall e :: e in es ==> e.key != k
    ensures Unique(es) ==> forall e :: e in es && e.key == k ==> Find(es, k) == Some(e)
  {
    if es != [] {
      FindMember(es[1..], k);
    }
  }

  lemma {:induction false} PutFind(es: seq<Entry>, e: Entry, k: string)
    ensures Find(Put(es, e), k) == if k == e.key then Some(e) else Find(es, k)
  {
    if es != [] && es[0].key != e.key {
      PutFind(es[1..], e, k);
    }
  }

  lemma {:induction false} PutUnique(es: seq<Entry>, e: Entry)
    requires Unique(es)
    ensures Unique(Put(es, e))
    ensures |Put(es, e)| == if Find(es, e.key).Some? then |es| else |es| + 1
    ensures forall x :: x in Put(es, e) <==> x == e || (x in es && x.key != e.key)
  {
    if es != [] {
      if es[0].key == e.key {
        assert forall x :: x in Put(es, e) <==> x == e || x in es[1..];
        assert forall x :: x in es[1..] ==> x.key != e.key;
      } else {
        PutUnique(es[1..], e);
        assert es == [es[0]] + es[1..];
        var tail := Put(es[1..], e);
        assert forall x :: x in tail ==> x.key != es[0].key;
      }
    }
  }

  lemma {:induction false} KeepMembers(es: seq<Entry>, p: Entry -> bool)
    ensures forall e :: e in Keep(es, p) <==> e in es && p(e)
    ensures |Keep(es, p)| <= |es|
    ensures Unique(es) ==> Unique(Keep(es, p))
  {
    if es != [] {
      KeepMembers(es[1..], p);
      assert es == [es[0]] + es[1..];
      if Unique(es) {
        forall e | e in Keep(es[1..], p)
          ensures e.key != es[0].key
        {
          assert e in es[1..];
        }
      }
    }
  }

  /** Keeping everything that is asked for removes nothing. */
  lemma {:induction false} KeepAll(es: seq<Entry>, p: Entry -> bool)
    ensures |Keep(es, p)| == |es| <==> forall e :: e in es ==> p(e)
    ensures |Keep(es, p)| == |es| ==> Keep(es, p) == es
  {
    if es != [] {
      KeepAll(es[1..], p);
      KeepMembers(es[1..], p);
      assert es == [es[0]] + es[1..];
    }
  }

  lemma {:induction false} KeepFind(es: seq<Entry>, p: Entry -> bool, k: string)
    requires Unique(es)
    ensures Find(Keep(es, p), k) ==
            if Find(es, k).Some? && p(Find(es, k).value) then Find(es, k) else None
  {
    if es != [] {
      KeepFind(es[1..], p, k);
      FindMember(es[1..], k);
      if es[0].key == k {
        assert Find(es[1..], k).None?;
      }
    }
  }

  lemma {:induction false} KeepConcat(a: seq<Entry>, b: seq<Entry>, p: Entry -> bool)
    ensures Keep(a + b, p) == Keep(a, p) + Keep(b, p)
  {
    if a == [] {
      assert a + b == b;
    } else {
      KeepConcat(a[1..], b, p);
      assert (a + b)[1..] == a[1..] + b;
    }
  }

  lemma {:induction false} BareFind(es: seq<Entry>, k: string)
    ensures Find(Bare(es), k).Some? <==> Find(es, k).Some?
    ensures Find(es, k).Some? ==> Find(Bare(es), k).value == Find(es, k).value.(hits := 0)
  {
    if es != [] {
      BareFind(es[1..], k);
    }
  }

  /** What is alive later is alive now. */
  lemma {:induction false} AliveLater(es: seq<Entry>, now: int, t: int)
    requires now <= t
    ensures Alive(Alive(es, now), t) == Alive(es, t)
  {
    if es != [] {
      AliveLater(es[1..], now, t);
    }
  }

  lemma {:induction false} BareAlive(es: seq<Entry>, t: int)
    ensures Alive(Bare(es), t) == Bare(Alive(es, t))
  {
    if es != [] {
      BareAlive(es[1..], t);
    }
  }

  /** Replacing an entry by one that differs in hits only changes nothing on disk. */
  lemma {:induction false} BareHit(es: seq<Entry>, e: Entry)
    requires Find(es, e.key).Some? && Find(es, e.key).value.(hits := 0) == e.(hits := 0)
    ensures Bare(Put(es, e)) == Bare(es)
  {
    if es[0].key != e.key {
      BareHit(es[1..], e);
    }
  }

  // ---- Two stores that will always answer alike ----

  /** From `now` on the two stores hold the same entries, up to hit counts. */
  predicate Agree(a: seq<Entry>, b: seq<Entry>, now: int) {
    Bare(Alive(a, now)) == Bare(Alive(b, now))
  }

  lemma AgreeLater(a: seq<Entry>, b: seq<Entry>, now: int, t: int)
    requires now <= t && Agree(a, b, now)
    ensures Agree(a, b, t)
  {
    calc {
      Bare(Alive(a, t));
      { AliveLater(a, now, t); BareAlive(Alive(a, now), t); }
      Alive(Bare(Alive(a, now)), t);
      Alive(Bare(Alive(b, now)), t);
      { AliveLater(b, now, t); BareAlive(Alive(b, now), t); }
      Bare(Alive(b, t));
    }
  }

  function WithoutHits(e: Option<Entry>): Option<Entry> {
    match e
    case None => None
    case Some(x) => Some(x.(hits := 0))
  }

  /** From `now` on the two stores answer every key alike, up to hit counts. */
  ghost predicate AnswersAlike(a: seq<Entry>, b: seq<Entry>, now: int) {
    forall k, t :: now <= t ==> WithoutHits(Answer(a, k, t)) == WithoutHits(Answer(b, k, t))
  }

  lemma AnswerAlive(es: seq<Entry>, k: string, t: int)
    requires Unique(es)
    ensures Answer(es, k, t) == Find(Alive(es, t), k)
  {
    KeepFind(es, AliveAt(t), k);
  }

  /** Stores that agree give the same answers, at every later time. */
  lemma AgreeAnswers(a: seq<Entry>, b: seq<Entry>, now: int, t: int, k: string)
    requires Unique(a) && Unique(b) && Agree(a, b, now) && now <= t
    ensures WithoutHits(Answer(a, k, t)) == WithoutHits(Answer(b, k, t))
  {
    AgreeLater(a, b, now, t);
    AnswerAlive(a, k, t);
    AnswerAlive(b, k, t);
    BareFind(Alive(a, t), k);
    BareFind(Alive(b, t), k);
  }

  lemma AgreeAnswersAlike(a: seq<Entry>, b: seq<Entry>, now: int)
    requires Unique(a) && Unique(b) && Agree(a, b, now)
    ensures AnswersAlike(a, b, now)
  {
    forall k, t | now <= t
      ensures WithoutHits(Answer(a, k, t)) == WithoutHits(Answer(b, k, t))
    {
      AgreeAnswers(a, b, now, t, k);
    }
  }

  // ---- The history and what it says a cache holds ----

  datatype Event = Stored(entry: Entry) | Touched(key: string) | Removed(keys: set<string>)

  function Replayed(m: map<string, Entry>, ev: Event): map<string, Entry> {
    match ev
    case Stored(e) => m[e.key := e]
    case Touched(k) => if k in m then m[k := m[k].(hits := m[k].hits + 1)] else m
    case Removed(ks) => m - ks
  }

  /** The map a cache without expiry, eviction or disk would hold after these events. */
  function Replay(hist: seq<Event>): map<string, Entry> {
    if hist == [] then map[]
    else Replayed(Replay(hist[..|hist| - 1]), hist[|hist| - 1])
  }

  lemma ReplayNext(hist: seq<Event>, ev: Event)
    ensures Replay(hist + [ev]) == Replayed(Replay(hist), ev)
  {
    assert (hist + [ev])[..|hist|] == hist;
  }

  /** The store holds nothing but recorded entries, and misses only expired ones. */
  ghost predicate Tracks(es: seq<Entry>, m: map<string, Entry>, now: int) {
    && (forall e :: e in es ==> e.key in m && m[e.key] == e)
    && (forall k :: k in m && Find(es, k).None? ==> Expired(m[k], now))
  }

  /** A store that tracks a history answers every key exactly as the history does. */
  lemma TracksAnswers(es: seq<Entry>, m: map<string, Entry>, now: int, t: int, k: string)
    requires Unique(es) && Tracks(es, m, now) && now <= t
    ensures Answer(es, k, t) == if k in m && !Expired(m[k], t) then Some(m[k]) else None
  {
    FindMember(es, k);
  }

  lemma TracksPut(es: seq<Entry>, m: map<string, Entry>, now: int, e: Entry)
    requires Unique(es) && Tracks(es, m, now)
    ensures Tracks(Put(es, e), m[e.key := e], now)
  {
    PutUnique(es, e);
    forall k | k in m[e.key := e] && Find(Put(es, e), k).None?
      ensures Expired(m[e.key := e][k], now)
    {
      PutFind(es, e, k);
    }
  }

  lemma TracksWithout(es: seq<Entry>, m: map<string, Entry>, now: int, ks: set<string>)
    requires Unique(es) && Tracks(es, m, now)
    ensures Tracks(Without(es, ks), m - ks, now)
  {
    KeepMembers(es, NotIn(ks));
    forall k | k in m - ks && Find(Without(es, ks), k).None?
      ensures Expired((m - ks)[k], now)
    {
      KeepFind(es, NotIn(ks), k);
      FindMember(es, k);
    }
  }

  /** Dropping entries that have expired, and time passing, keep the history tracked. */
  lemma TracksClean(es: seq<Entry>, kept: seq<Entry>, m: map<string, Entry>, now: int, t: int)
    requires Unique(es) && Tracks(es, m, now) && now <= t
    requires Swept(es, kept, t)
    ensures Tracks(kept, m, t)
  {
    forall k | k in m && Find(kept, k).None?
      ensures Expired(m[k], t)
    {
      FindMember(es, k);
      FindMember(kept, k);
      KeepMembers(es, AliveAt(t));
      KeepMembers(kept, AliveAt(t));
    }
  }

  /** The entry under a key is that one, whatever its hits. */
  predicate Keeps(m: map<string, Entry>, e: Entry) {
    e.key in m && m[e.key].(hits := 0) == e.(hits := 0)
  }

  lemma KeepsNext(hist: seq<Event>, ev: Event, e: Entry)
    requires Keeps(Replay(hist), e)
    requires ev.Stored? ==> ev.entry.key != e.key
    requires ev.Removed? ==> e.key !in ev.keys
    ensures Keeps(Replay(hist + [ev]), e)
  {
    ReplayNext(hist, ev);
  }

  lemma KeepsStored(hist: seq<Event>, e: Entry)
    ensures Keeps(Replay(hist + [Stored(e)]), e)
  {
    ReplayNext(hist, Stored(e));
  }

  // ---- Sweeping out expired entries, one clock reading per entry ----

  /** Nothing had expired at that time. */
  predicate NoneExpired(es: seq<Entry>, t: int) {
    forall e :: e in es ==> !Expired(e, t)
  }

  /** `kept` is `src` without some entries that have expired by `now`. */
  ghost predicate Swept(src: seq<Entry>, kept: seq<Entry>, now: int) {
    && (forall e :: e in kept ==> e in src) && Unique(kept)
    && |kept| <= |src| && (|kept| == |src| ==> kept == src)
    && Alive(kept, now) == Alive(src, now)
  }

  lemma SweptSelf(es: seq<Entry>, now: int)
    requires Unique(es)
    ensures Swept(es, es, now)
  {
  }

  lemma SweptShorter(src: seq<Entry>, kept: seq<Entry>, now: int)
    requires Swept(src, kept, now)
    ensures |kept| <= |src|
  {
  }

  lemma SweptAgree(src: seq<Entry>, kept: seq<Entry>, now: int)
    requires Swept(src, kept, now)
    ensures Agree(src, kept, now)
  {
  }

  lemma EmptySound(now: int)
    ensures Unique([]) && Tracks([], Replay([]), now) && Swept([], [], now)
  {
  }

  lemma SweptStep(src: seq<Entry>, kept: seq<Entry>, e: Entry, now: int, t: int)
    requires Swept(src, kept, now) && now <= t && Unique(src + [e])
    ensures Swept(src + [e], if Expired(e, t) then kept else kept + [e], t)
    ensures forall x :: x in kept ==> x.key != e.key
  {
    AliveLater(kept, now, t);
    AliveLater(src, now, t);
    KeepConcat(src, [e], AliveAt(t));
    KeepConcat(kept, [e], AliveAt(t));
    assert (src + [e])[|src|] == e;
    forall x | x in kept
      ensures x.key != e.key
    {
      var i :| 0 <= i < |src| && src[i] == x;
      assert (src + [e])[i] == x;
    }
  }

  lemma SweptLater(src: seq<Entry>, kept: seq<Entry>, now: int, t: int)
    requires Swept(src, kept, now) && now <= t
    ensures Swept(src, kept, t)
  {
    AliveLater(kept, now, t);
    AliveLater(src, now, t);
  }

  lemma SweptTransitive(src: seq<Entry>, mid: seq<Entry>, kept: seq<Entry>, now: int)
    requires Swept(src, mid, now) && Swept(mid, kept, now)
    ensures Swept(src, kept, now)
  {
  }

  lemma {:induction false} PutNew(es: seq<Entry>, e: Entry)
    requires forall x :: x in es ==> x.key != e.key
    ensures Put(es, e) == es + [e]
  {
    if es != [] {
      PutNew(es[1..], e);
    }
  }

  lemma UniquePrefix(es: seq<Entry>, i: nat)
    requires Unique(es) && i < |es|
    ensures es[..i + 1] == es[..i] + [es[i]] && Unique(es[..i] + [es[i]])
  {
  }

  lemma SweptUnique(src: seq<Entry>, kept: seq<Entry>, now: int)
    requires Swept(src, kept, now)
    ensures Unique(kept)
  {
  }

  lemma WithoutUnique(es: seq<Entry>, ks: set<string>)
    requires Unique(es)
    ensures Unique(Without(es, ks))
  {
    KeepMembers(es, NotIn(ks));
  }

  lemma WithoutKey(es: seq<Entry>, k: string)
    requires Unique(es)
    ensures Find(Without(es, {k}), k).None? && |Without(es, {k})| <= |es|
  {
    KeepFind(es, NotIn({k}), k);
    FindMember(es, k);
    KeepMembers(es, NotIn({k}));
  }

  lemma WithoutShorter(es: seq<Entry>, ks: set<string>)
    requires Unique(es)
    ensures |Without(es, ks)| <= |es| && (ks == {} ==> Without(es, ks) == es)
  {
    KeepMembers(es, NotIn(ks));
    KeepAll(es, NotIn(ks));
  }

  /** Sweeping brings no key back. */
  lemma StillWithout(src: seq<Entry>, kept: seq<Entry>, k: string)
    requires Find(src, k).None? && forall e :: e in kept ==> e in src
    ensures Find(kept, k).None?
  {
    FindMember(src, k);
    FindMember(kept, k);
  }

  /** Removing one expired entry is a sweep. */
  lemma {:induction false} AliveWithoutExpired(es: seq<Entry>, k: string, now: int)
    requires Unique(es) && Find(es, k).Some? && Expired(Find(es, k).value, now)
    ensures Alive(Without(es, {k}), now) == Alive(es, now)
  {
    if es[0].key == k {
      FindMember(es[1..], k);
      KeepAll(es[1..], NotIn({k}));
    } else {
      AliveWithoutExpired(es[1..], k, now);
    }
  }

  lemma DropExpired(es: seq<Entry>, k: string, now: int)
    requires Unique(es) && Find(es, k).Some? && Expired(Find(es, k).value, now)
    ensures Swept(es, Without(es, {k}), now)
  {
    AliveWithoutExpired(es, k, now);
    KeepMembers(es, NotIn({k}));
    KeepAll(es, NotIn({k}));
  }

  /** A hit is invisible to the file and is what the history records. */
  lemma HitKeeps(es: seq<Entry>, m: map<string, Entry>, disk: seq<Entry>, k: string, now: int)
    requires Unique(es) && Tracks(es, m, now) && Find(es, k).Some?
    ensures
      var e := Find(es, k).value;
      var hit := e.(hits := e.hits + 1);
      && hit.key == k && k in m && m[k] == e
      && Unique(Put(es, hit)) && |Put(es, hit)| == |es|
      && Tracks(Put(es, hit), Replayed(m, Touched(k)), now)
      && (Agree(disk, es, now) ==> Agree(disk, Put(es, hit), now))
  {
    var e := Find(es, k).value;
    var hit := e.(hits := e.hits + 1);
    FindMember(es, k);
    PutUnique(es, hit);
    TracksPut(es, m, now, hit);
    BareHit(es, hit);
    BareAlive(es, now);
    BareAlive(Put(es, hit), now);
  }

  lemma TracksLater(es: seq<Entry>, m: map<string, Entry>, now: int, t: int)
    requires Unique(es) && Tracks(es, m, now) && now <= t
    ensures Tracks(es, m, t)
  {
    SweptSelf(es, t);
    TracksClean(es, es, m, now, t);
  }

  /** Loading one stored entry. */
  lemma LoadOne(es: seq<Entry>, hist: seq<Event>, e: Entry, now: int)
    requires Unique(es) && Tracks(es, Replay(hist), now) && forall x :: x in es ==> x.key != e.key
    ensures Put(es, e) == es + [e] && Unique(es + [e]) && Tracks(es + [e], Replay(hist + [Stored(e)]), now)
  {
    PutNew(es, e);
    PutUnique(es, e);
    TracksPut(es, Replay(hist), now, e);
    ReplayNext(hist, Stored(e));
  }

  // ---- Eviction ----

  /** The first of the entries created earliest. */
  function Oldest(es: seq<Entry>): Entry
    requires es != []
  {
    if |es| == 1 then es[0]
    else
      var rest := Oldest(es[1..]);
      if es[0].created <= rest.created then es[0] else rest
  }

  lemma {:induction false} OldestIsLeast(es: seq<Entry>)
    requires es != []
    ensures Oldest(es) in es && forall e :: e in es ==> Oldest(es).created <= e.created
  {
    if |es| > 1 {
      OldestIsLeast(es[1..]);
      assert es == [es[0]] + es[1..];
    }
  }

  /** Of several entries of least creation time the oldest is the first. */
  lemma {:induction false} OldestIsFirst(es: seq<Entry>) returns (i: nat)
    requires es != []
    ensures i < |es| && es[i] == Oldest(es) && forall j :: 0 <= j < |es| ==> es[i].created <= es[j].created
    ensures forall j :: 0 <= j < i ==> es[i].created < es[j].created
  {
    i := 0;
    if |es| > 1 {
      var k := OldestIsFirst(es[1..]);
      i := if es[0].created <= es[k + 1].created then 0 else k + 1;
    }
  }

  lemma {:induction false} WithoutOne(es: seq<Entry>, e: Entry)
    requires Unique(es) && e in es
    ensures |Without(es, {e.key})| == |es| - 1
  {
    KeepMembers(es[1..], NotIn({e.key}));
    if es[0] == e {
      KeepAll(es[1..], NotIn({e.key}));
    } else {
      assert e in es[1..];
      WithoutOne(es[1..], e);
    }
  }

  function FromProvider(provider: string): Entry -> bool {
    (e: Entry) => e.provider == Some(provider)
  }

  function OfEngine(name: string): Entry -> bool {
    (e: Entry) => e.name == name
  }

  /** The keys of the entries that satisfy `p`. */
  function KeysWhere(es: seq<Entry>, p: Entry -> bool): set<string> {
    set e | e in es && p(e) :: e.key
  }

  lemma WithoutWhere(es: seq<Entry>, p: Entry -> bool)
    ensures forall e :: e in Without(es, KeysWhere(es, p)) ==> e in es && !p(e)
    ensures KeysWhere(es, p) == {} ==> forall e :: e in es ==> !p(e)
  {
    KeepMembers(es, NotIn(KeysWhere(es, p)));
    forall e | e in es && p(e)
      ensures e.key in KeysWhere(es, p)
    {
    }
  }

  /** What `set` removes to make room: nothing unless a new key meets a full cache. */
  function Victim(es: seq<Entry>, key: string, max: int): Option<Entry> {
    if |es| >= max && Find(es, key).None? && es != [] then Some(Oldest(es)) else None
  }

  /** The history after storing `e`, with its eviction. */
  function StoredHist(hist: seq<Event>, es: seq<Entry>, e: Entry, max: int): seq<Event> {
    (if Victim(es, e.key, max).Some? then hist + [Removed({Victim(es, e.key, max).value.key})] else hist) + [Stored(e)]
  }

  function Room(es: seq<Entry>, key: string, max: int): seq<Entry> {
    if Victim(es, key, max).Some? then Without(es, {Victim(es, key, max).value.key}) else es
  }

  /** The entries after storing `e`, before any are swept out. */
  function StoredIn(es: seq<Entry>, e: Entry, max: int): seq<Entry> {
    Put(Room(es, e.key, max), e)
  }

  lemma VictimFound(es: seq<Entry>, key: string, max: int)
    requires Unique(es) && Victim(es, key, max).Some?
    ensures
      var v := Victim(es, key, max).value;
      v in es && v.key != key && Find(es, v.key) == Some(v)
  {
    OldestIsLeast(es);
    FindMember(es, key);
    FindMember(es, Oldest(es).key);
  }

  /** In a cache with room, or under a key that is there, storing keeps every other entry. */
  lemma StoreKeepsOthers(es: seq<Entry>, e: Entry, max: int)
    requires Unique(es) && (|es| < max || exists x :: x in es && x.key == e.key)
    ensures forall x :: x in StoredIn(es, e, max) <==> x == e || (x in es && x.key != e.key)
  {
    FindMember(es, e.key);
    PutUnique(es, e);
  }

  /** A new key in a full cache takes the place of exactly one entry, the first of least creation time. */
  lemma StoreEvictsOldest(es: seq<Entry>, e: Entry, max: int) returns (i: nat)
    requires Unique(es) && es != [] && |es| >= max && forall x :: x in es ==> x.key != e.key
    ensures i < |es| && (forall j :: 0 <= j < |es| ==> es[i].created <= es[j].created)
    ensures forall j :: 0 <= j < i ==> es[i].created < es[j].created
    ensures forall x :: x in StoredIn(es, e, max) <==> x == e || (x in es && x != es[i])
  {
    i := OldestIsFirst(es);
    FindMember(es, e.key);
    KeepMembers(es, NotIn({es[i].key}));
    PutUnique(Without(es, {es[i].key}), e);
  }

  /** A cache within its bound stays within it. */
  lemma StoreBound(es: seq<Entry>, e: Entry, max: int)
    requires Unique(es) && 1 <= max && |es| <= max
    ensures |StoredIn(es, e, max)| <= max
  {
    var victim := Victim(es, e.key, max);
    if victim.Some? {
      OldestIsLeast(es);
      WithoutOne(es, victim.value);
      KeepMembers(es, NotIn({victim.value.key}));
      PutUnique(Without(es, {victim.value.key}), e);
    } else {
      PutUnique(es, e);
    }
  }

  /** What is found after storing: the new entry, nothing for the victim, the old answer otherwise. */
  lemma StoredAnswer(es: seq<Entry>, e: Entry, max: int, k: string, t: int)
    requires Unique(es)
    ensures Answer(StoredIn(es, e, max), k, t) ==
            if k == e.key then (if Expired(e, t) then None else Some(e))
            else if Victim(es, e.key, max).Some? && k == Victim(es, e.key, max).value.key then None
            else Answer(es, k, t)
  {
    PutFind(Room(es, e.key, max), e, k);
    if Victim(es, e.key, max).Some? {
      KeepFind(es, NotIn({Victim(es, e.key, max).value.key}), k);
      FindMember(es, k);
    }
  }

  // ---- Runs of operations ----

  datatype Op =
    | DoGet(key: string)
    | DoSet(entry: Entry)
    | DoInvalidate(key: string)
    | DoInvalidateProvider(provider: string)
    | DoInvalidateEngine(name: string)
    | DoInvalidateAll
    | DoClean

  /** What a cache holds at some moment, and what it has recorded until then. */
  datatype Point = Point(entries: seq<Entry>, hist: seq<Event>)

  function RemovedHist(hist: seq<Event>, keys: set<string>): seq<Event> {
    if keys == {} then hist else hist + [Removed(keys)]
  }

  /** What an operation adds to the history; whether a `get` hits depends on the clock. */
  predicate Recounts(op: Op, at: Point, hist: seq<Event>, max: int) {
    match op
    case DoGet(key) => hist == at.hist || hist == at.hist + [Touched(key)]
    case DoSet(entry) => hist == StoredHist(at.hist, at.entries, entry, max)
    case DoInvalidate(key) => hist == at.hist + [Removed({key})]
    case DoInvalidateProvider(provider) => hist == RemovedHist(at.hist, KeysWhere(at.entries, FromProvider(provider)))
    case DoInvalidateEngine(name) => hist == RemovedHist(at.hist, KeysWhere(at.entries, OfEngine(name)))
    case DoInvalidateAll => hist == at.hist + [Removed(Replay(at.hist).Keys)]
    case DoClean => hist == at.hist
  }

  predicate StepRecounted(ops: seq<Op>, trail: seq<Point>, max: int, i: nat)
    requires i < |ops| && |trail| == |ops| + 1
  {
    Recounts(ops[i], trail[i], trail[i + 1].hist, max)
  }

  /** The points a cache passes through in a run. */
  predicate Trail(ops: seq<Op>, trail: seq<Point>, max: int) {
    |trail| == |ops| + 1 && forall i: nat :: i < |ops| ==> StepRecounted(ops, trail, max, i)
  }

  /** The operation neither replaces, removes nor evicts what is stored under the key. */
  predicate Spares(op: Op, at: Point, key: string, max: int) {
    match op
    case DoSet(entry) =>
      && entry.key != key
      && (Victim(at.entries, entry.key, max).Some? ==> Victim(at.entries, entry.key, max).value.key != key)
    case DoInvalidate(k) => k != key
    case DoInvalidateProvider(provider) => key !in KeysWhere(at.entries, FromProvider(provider))
    case DoInvalidateEngine(name) => key !in KeysWhere(at.entries, OfEngine(name))
    case DoInvalidateAll => false
    case _ => true
  }

  lemma SparedStays(op: Op, at: Point, hist: seq<Event>, max: int, e: Entry)
    requires Recounts(op, at, hist, max) && Spares(op, at, e.key, max) && Keeps(Replay(at.hist), e)
    ensures Keeps(Replay(hist), e)
  {
    hide Replay, Keeps, Victim, KeysWhere;
    match op
    case DoGet(key) =>
      KeepsNext(at.hist, Touched(key), e);
    case DoSet(entry) =>
      var victim := Victim(at.entries, entry.key, max);
      if victim.Some? {
        KeepsNext(at.hist, Removed({victim.value.key}), e);
        KeepsNext(at.hist + [Removed({victim.value.key})], Stored(entry), e);
      } else {
        KeepsNext(at.hist, Stored(entry), e);
      }
    case DoInvalidate(key) =>
      KeepsNext(at.hist, Removed({key}), e);
    case DoInvalidateProvider(provider) =>
      KeepsNext(at.hist, Removed(KeysWhere(at.entries, FromProvider(provider))), e);
    case DoInvalidateEngine(name) =>
      KeepsNext(at.hist, Removed(KeysWhere(at.entries, OfEngine(name))), e);
    case DoClean =>
  }

  /** What was stored at step `i` is still what the history says after step `j`, if every step between spared it. */
  lemma {:induction false} StoredStays(ops: seq<Op>, trail: seq<Point>, max: int, i: nat, j: nat, e: Entry)
    requires Trail(ops, trail, max) && i < j <= |ops| && ops[i] == DoSet(e)
    requires forall m :: i < m < j ==> Spares(ops[m], trail[m], e.key, max)
    ensures Keeps(Replay(trail[j].hist), e)
  {
    hide Replay, Keeps, Recounts, Spares;
    assert StepRecounted(ops, trail, max, j - 1);
    if j == i + 1 {
      StoredKept(ops[i], trail[i], trail[j].hist, max, e);
    } else {
      StoredStays(ops, trail, max, i, j - 1, e);
      SparedStays(ops[j - 1], trail[j - 1], trail[j].hist, max, e);
    }
  }

  lemma StoredKept(op: Op, at: Point, hist: seq<Event>, max: int, e: Entry)
    requires op == DoSet(e) && Recounts(op, at, hist, max)
    ensures Keeps(Replay(hist), e)
  {
    hide Replay, Keeps;
    var victim := Victim(at.entries, e.key, max);
    KeepsStored(if victim.Some? then at.hist + [Removed({victim.value.key})] else at.hist, e);
  }

  // ---- A restart can still be noticed ----

  lemma {:induction false} BareOldest(es: seq<Entry>)
    requires es != []
    ensures |Bare(es)| == |es| && Oldest(Bare(es)) == Oldest(es).(hits := 0)
  {
    if |es| > 1 {
      BareOldest(es[1..]);
    }
  }

  lemma AliveOne(e: Entry, t: int)
    ensures Alive([e], t) == if Expired(e, t) then [] else [e]
  {
    var es := [e];
    assert es[1..] == [];
    assert Keep(es, AliveAt(t)) == (if AliveAt(t)(es[0]) then [es[0]] else []) + Keep(es[1..], AliveAt(t));
  }

  /** Agreeing stores in which nothing has expired make the same room. */
  lemma SameVictim(a: seq<Entry>, b: seq<Entry>, now: int, key: string, max: int)
    requires Agree(a, b, now) && Alive(a, now) == a && Alive(b, now) == b
    ensures WithoutHits(Victim(a, key, max)) == WithoutHits(Victim(b, key, max))
  {
    BareFind(a, key);
    BareFind(b, key);
    if a != [] {
      BareOldest(a);
    }
    if b != [] {
      BareOldest(b);
    }
  }

  /** The key of the living entry that storing under `key` costs, if it costs one. */
  function Lost(es: seq<Entry>, key: string, max: int, now: int): Option<string> {
    match Victim(es, key, max)
    case None => None
    case Some(v) => if Expired(v, now) then None else Some(v.key)
  }

  lemma LostShows(a: seq<Entry>, b: seq<Entry>, e: Entry, max: int, now: int)
    requires Unique(a) && Unique(b) && AnswersAlike(a, b, now)
    requires Lost(a, e.key, max, now).Some? && Lost(b, e.key, max, now) != Lost(a, e.key, max, now)
    ensures !AnswersAlike(StoredIn(a, e, max), StoredIn(b, e, max), now)
    ensures !AnswersAlike(StoredIn(b, e, max), StoredIn(a, e, max), now)
  {
    var k := Lost(a, e.key, max, now).value;
    VictimFound(a, e.key, max);
    StoredAnswer(a, e, max, k, now);
    StoredAnswer(b, e, max, k, now);
    assert WithoutHits(Answer(a, k, now)) == WithoutHits(Answer(b, k, now));
    if Victim(b, e.key, max).Some? {
      VictimFound(b, e.key, max);
    }
    assert WithoutHits(Answer(StoredIn(a, e, max), k, now)) != WithoutHits(Answer(StoredIn(b, e, max), k, now));
  }

  lemma SameLoss(a: seq<Entry>, b: seq<Entry>, e: Entry, max: int, now: int, k: string, t: int)
    requires Unique(a) && Unique(b) && AnswersAlike(a, b, now) && now <= t
    requires Lost(a, e.key, max, now) == Lost(b, e.key, max, now)
    ensures WithoutHits(Answer(StoredIn(a, e, max), k, t)) == WithoutHits(Answer(StoredIn(b, e, max), k, t))
  {
    StoredAnswer(a, e, max, k, t);
    StoredAnswer(b, e, max, k, t);
    assert WithoutHits(Answer(a, k, t)) == WithoutHits(Answer(b, k, t));
    if Victim(a, e.key, max).Some? {
      VictimFound(a, e.key, max);
    }
    if Victim(b, e.key, max).Some? {
      VictimFound(b, e.key, max);
    }
  }

  /** Two stores that answer alike go on so after the same `set` exactly if it costs both the same living entry. */
  lemma SetStaysAlike(a: seq<Entry>, b: seq<Entry>, e: Entry, max: int, now: int)
    requires Unique(a) && Unique(b) && AnswersAlike(a, b, now)
    ensures AnswersAlike(StoredIn(a, e, max), StoredIn(b, e, max), now) <==>
              Lost(a, e.key, max, now) == Lost(b, e.key, max, now)
  {
    if Lost(a, e.key, max, now) == Lost(b, e.key, max, now) {
      forall k, t | now <= t
        ensures WithoutHits(Answer(StoredIn(a, e, max), k, t)) == WithoutHits(Answer(StoredIn(b, e, max), k, t))
      {
        SameLoss(a, b, e, max, now, k, t);
      }
    } else if Lost(a, e.key, max, now).Some? {
      LostShows(a, b, e, max, now);
    } else {
      assert AnswersAlike(b, a, now);
      LostShows(b, a, e, max, now);
    }
  }

  /** The oldest entry, while it lives, is also the oldest of the living. */
  lemma {:induction false} OldestAlive(es: seq<Entry>, now: int)
    requires es != [] && !Expired(Oldest(es), now)
    ensures Alive(es, now) != [] && Oldest(Alive(es, now)) == Oldest(es)
  {
    var rest := es[1..];
    if |es| == 1 {
      AliveOne(es[0], now);
      assert es == [es[0]];
    } else {
      var alive := Alive(rest, now);
      assert Alive(es, now) == (if Expired(es[0], now) then [] else [es[0]]) + alive;
      if es[0].created <= Oldest(rest).created {
        assert Alive(es, now)[1..] == alive;
        if alive != [] {
          OldestIsLeast(rest);
          OldestIsLeast(alive);
          KeepMembers(rest, AliveAt(now));
        }
      } else {
        OldestAlive(rest, now);
        assert !Expired(es[0], now) ==> Alive(es, now)[1..] == alive;
      }
    }
  }

  /** `copy` is what a restart at `now` makes of `live`: the living entries, up to hit counts. */
  predicate Restarted(live: seq<Entry>, copy: seq<Entry>, now: int) {
    Bare(copy) == Bare(Alive(live, now))
  }

  lemma RestartedAlike(live: seq<Entry>, copy: seq<Entry>, now: int)
    requires Unique(live) && Unique(copy) && Restarted(live, copy, now)
    ensures AnswersAlike(live, copy, now) && |copy| <= |live|
  {
    AliveLater(live, now, now);
    BareAlive(copy, now);
    BareAlive(Alive(live, now), now);
    AgreeAnswersAlike(live, copy, now);
    BareLength(copy);
    BareLength(Alive(live, now));
    KeepMembers(live, AliveAt(now));
  }

  lemma {:induction false} BareLength(es: seq<Entry>)
    ensures |Bare(es)| == |es|
  {
    if es != [] {
      BareLength(es[1..]);
    }
  }

  /** The live cache keeps what the restarted one keeps when the same entry is stored in both. */
  predicate SameRoom(live: seq<Entry>, copy: seq<Entry>, key: string, max: int, now: int)
    requires 1 <= max
  {
    if |copy| >= max && Find(copy, key).None? then
      Find(live, key).None? && live != [] && !Expired(Oldest(live), now)
    else
      |live| < max || Find(live, key).Some? || Expired(Oldest(live), now)
  }

  /**
    A restarted cache goes on like the live one exactly when: if the copy is full and lacks
    the key, the live cache lacks it too and its oldest entry is alive; otherwise the live cache
    has room, holds the key, or its oldest entry has expired.
   */
  lemma SetAfterRestart(live: seq<Entry>, copy: seq<Entry>, e: Entry, max: int, now: int)
    requires Unique(live) && Unique(copy) && Restarted(live, copy, now) && 1 <= max
    ensures AnswersAlike(StoredIn(live, e, max), StoredIn(copy, e, max), now) <==>
              SameRoom(live, copy, e.key, max, now)
  {
    RestartedAlike(live, copy, now);
    SetStaysAlike(live, copy, e, max, now);
    if copy != [] {
      CopyOldest(live, copy, now);
    }
  }

  /** The copy's oldest entry lives, and is the live cache's oldest whenever that one lives. */
  lemma CopyOldest(live: seq<Entry>, copy: seq<Entry>, now: int)
    requires Restarted(live, copy, now) && copy != []
    ensures live != [] && !Expired(Oldest(copy), now)
    ensures !Expired(Oldest(live), now) ==> Oldest(copy).key == Oldest(live).key
  {
    var alive := Alive(live, now);
    BareLength(copy);
    BareLength(alive);
    BareOldest(copy);
    BareOldest(alive);
    OldestIsLeast(alive);
    KeepMembers(live, AliveAt(now));
    if !Expired(Oldest(live), now) {
      OldestAlive(live, now);
    }
  }

  /**
    With an expired entry still in memory the next `set` can differ: it counts towards
    capacity, so the live cache evicts a living entry that a restarted one keeps.
   */
  lemma ExpiredEntryCostsALivingOne()
    ensures
      var a, b := Entry("a", "n", None, 0, 0, 100, 0), Entry("b", "n", None, 0, 1, 5, 0);
      var live, restarted := [a, b], [a];
      && Unique(live) && Agree(live, restarted, 10) && Answer(live, "a", 10) == Some(a)
      && Victim(live, "c", 2) == Some(a) && Victim(restarted, "c", 2) == None
  {
    var a, b := Entry("a", "n", None, 0, 0, 100, 0), Entry("b", "n", None, 0, 1, 5, 0);
    assert [a, b][1..] == [b] && [a][1..] == [] && [b][1..] == [];
    AliveOne(a, 10);
    AliveOne(b, 10);
    KeepConcat([a], [b], AliveAt(10));
    assert Alive([a, b], 10) == [a] by { assert [a, b] == [a] + [b]; }
    FindMember([a, b], "c");
    assert a.key == "a" && b.key == "b" && "a"[0] != "c"[0] && "b"[0] != "c"[0];
    assert Find([a, b], "c") == None && Find([a], "c") == None;
    assert Oldest([b]) == b && Oldest([a, b]) == a;
  }
}
