/**
  The execution log as the source writes it: a bounded deque and three indexes over shared
  record objects. Every query is proved to answer from the plain history of `LogModel`.
 */
module ExecutionLogs {
  import opened Prelude
  import opened Tally
  import opened LogModel

  class ExecutionRecord {
    const id: string
    const task: string
    const mission: string
    const provider: string
    const started: int
    var status: string
    var finished: Option<int>
    var duration: int
    var stdout: string
    var stderr: string
    var exitCode: Option<int>
    var error: string

    constructor (id: string, task: string, mission: string, provider: string, now: int)
      ensures View() == Opened(id, task, mission, provider, now)
      ensures this.id == id && this.task == task && this.mission == mission && this.provider == provider
      ensures started == now && status == "running" && finished == None
    {
      this.id, this.task, this.mission, this.provider, started := id, task, mission, provider, now;
      status, finished, duration, stdout, stderr, exitCode, error := "running", None, 0, "", "", None, "";
    }

    ghost function View(): Entry
      reads this
    {
      Entry(id, task, mission, provider, started, status, finished, duration, stdout, stderr, exitCode, error)
    }

    method Finish(c: Closing)
      modifies this
      ensures View() == Closed(old(View()), c)
      ensures status == c.status && finished == Some(c.finished) && started + duration == c.finished
      ensures stdout == c.stdout && stderr == c.stderr && exitCode == c.exitCode && error == c.error
    {
      status := c.status;
      finished := Some(c.finished);
      duration := c.finished - started;
      stdout, stderr, exitCode, error := c.stdout, c.stderr, c.exitCode, c.error;
    }
  }

  /** The objects are the records of these entries, in the same order. */
  ghost predicate Shows(rs: seq<ExecutionRecord>, es: seq<Entry>)
    reads rs
  {
    |rs| == |es| && forall i :: 0 <= i < |rs| ==> rs[i].View() == es[i]
  }

  type Index = map<string, seq<string>>

  function At(index: Index, key: string): seq<string> {
    if key in index then index[key] else []
  }

  function Extended(index: Index, key: string, id: string): Index {
    index[key := At(index, key) + [id]]
  }

  ghost predicate TasksIndexed(byTask: Index, log: seq<Entry>) {
    forall t :: At(byTask, t) == Ids(Keep(log, TaskIs(t)))
  }

  /** The empty mission id is never indexed. */
  ghost predicate MissionsIndexed(byMission: Index, log: seq<Entry>) {
    forall m :: At(byMission, m) == if m == "" then [] else Ids(Keep(log, MissionIs(m)))
  }

  /** The id dictionary holds exactly the records of the history, each under its own id. */
  ghost predicate IdsIndexed(byId: map<string, ExecutionRecord>, history: seq<ExecutionRecord>) {
    && (forall i :: 0 <= i < |history| ==> history[i].id in byId && byId[history[i].id] == history[i])
    && (forall k :: k in byId ==> byId[k] in history && byId[k].id == k)
    && (forall i, j :: 0 <= i < j < |history| ==> history[i] != history[j])
  }

  /** `append` to a deque of bounded length drops the oldest element when there is no room. */
  method Push<T>(ring: seq<T>, bound: nat, x: T) returns (r: seq<T>)
    ensures |ring| < bound ==> r == ring + [x]
    ensures |ring| >= bound ==> r == (ring + [x])[1..]
  {
    r := ring + [x];
    if |r| > bound {
      r := r[1..];
    }
  }

  class ExecutionLog {
    const bound: nat
    var ring: seq<ExecutionRecord>
    var byId: map<string, ExecutionRecord>
    var byTask: Index
    var byMission: Index
    /** Every record ever started, and what it says now. */
    ghost var history: seq<ExecutionRecord>
    ghost var log: seq<Entry>

    ghost predicate Valid()
      reads this, history
    {
      && Shows(history, log)
      && IdsIndexed(byId, history)
      && IsTail(ring, history, bound)
      && TasksIndexed(byTask, log)
      && MissionsIndexed(byMission, log)
    }

    constructor (bound: nat)
      ensures Valid() && log == [] && history == [] && this.bound == bound
    {
      this.bound := bound;
      ring, byId, byTask, byMission := [], map[], map[], map[];
      history, log := [], [];
    }

    /** `id` is the generated identifier, unlike any before it. */
    method Start(id: string, task: string, mission: string, provider: string, now: int) returns (rec: ExecutionRecord)
      requires Valid() && id !in byId
      modifies this
      ensures Valid() && rec.View() == Opened(id, task, mission, provider, now)
      ensures history == old(history) + [rec]
      ensures log == old(log) + [Opened(id, task, mission, provider, now)]
      ensures bound > 0 ==> |ring| > 0 && ring[|ring| - 1] == rec
    {
      hide Shows, TasksIndexed, MissionsIndexed, IdsIndexed, Extended, Keep, Ids, At, IsTail;
      rec := new ExecutionRecord(id, task, mission, provider, now);
      ghost var e := rec.View();
      LastAppend(ring, history, bound, rec);
      RecordStarted(byId, history, rec);
      TaskStarted(byTask, log, e);
      MissionStarted(byMission, log, e);
      ShowsAppend(history, log, rec);
      ring := Push(ring, bound, rec);
      TailEnd(ring, history, bound, rec);
      byId := byId[id := rec];
      byTask := Extended(byTask, task, id);
      if mission != "" {
        byMission := Extended(byMission, mission, id);
      }
      history, log := history + [rec], log + [e];
    }

    /** Finishing an unknown id changes nothing. */
    method Finish(id: string, c: Closing) returns (rec: ExecutionRecord?)
      requires Valid()
      modifies this, history
      ensures Valid() && history == old(history)
      ensures log == Finished(old(log), id, c)
      ensures if id in byId then rec == byId[id] else rec == null
    {
      hide TasksIndexed, MissionsIndexed, IdsIndexed, Last, Closed, Finished;
      RecordAt(byId, history, log, id);
      if id !in byId {
        assert Finished(log, id, c) == log;
        return null;
      }
      TasksFinished(byTask, log, id, c);
      MissionsFinished(byMission, log, id, c);
      rec := byId[id];
      rec.Finish(c);
      log := Finished(log, id, c);
      assert Shows(history, log);
      hide Shows;
    }

    method Get(id: string) returns (rec: ExecutionRecord?)
      requires Valid()
      ensures rec != null ==> rec in history && rec.id == id && rec.View() in log
      ensures rec == null ==> forall e :: e in log ==> e.id != id
    {
      rec := if id in byId then byId[id] else null;
    }

    method ListAll(limit: int) returns (rs: seq<ExecutionRecord>)
      requires Valid()
      ensures Shows(rs, Limited(Newest(Last(log, bound)), limit))
      ensures |rs| == SliceLength(if |log| <= bound then |log| else bound, limit) <= |log|
      ensures forall i :: 0 <= i < |rs| ==> rs[i].View() == log[|log| - 1 - i]
    {
      hide Shows, Last, IsTail, IdsIndexed, TasksIndexed, MissionsIndexed, Newest, Limited, SliceLength;
      ListedByIndex(log, bound, limit);
      ShowsLast(ring, history, log, bound);
      hide Valid;
      ShowsNewest(ring, Last(log, bound));
      ShowsLimited(Newest(ring), Newest(Last(log, bound)), limit);
      rs := Limited(Newest(ring), limit);
      ShownByIndex(rs, Limited(Newest(Last(log, bound)), limit));
    }

    method ForProvider(provider: string, limit: int) returns (rs: seq<ExecutionRecord>)
      requires Valid()
      ensures Shows(rs, Limited(Newest(Keep(Last(log, bound), ProviderIs(provider))), limit))
      ensures forall r :: r in rs ==> r in ring && r.provider == provider
      ensures limit >= |ring| ==> forall r :: r in ring && r.provider == provider ==> r in rs
    {
      hide Shows, Last, IsTail, Limited, IdsIndexed, TasksIndexed, MissionsIndexed, Keep;
      ghost var es := Last(log, bound);
      ShowsLast(ring, history, log, bound);
      ShownByIndex(ring, es);
      hide Valid;
      var found: seq<ExecutionRecord> := [];
      NothingKept(es);
      for i := 0 to |ring|
        invariant Shows(found, Keep(es[..i], ProviderIs(provider)))
        invariant |found| <= i && forall r :: r in found <==> r in ring[..i] && r.provider == provider
      {
        KeepNext(es, i, ProviderIs(provider));
        ShowsAppend(found, Keep(es[..i], ProviderIs(provider)), ring[i]);
        if ring[i].provider == provider {
          found := found + [ring[i]];
        }
      }
      assert ring[..|ring|] == ring;
      assert es[..|ring|] == es;
      ShowsNewest(found, Keep(es, ProviderIs(provider)));
      ShowsLimited(Newest(found), Newest(Keep(es, ProviderIs(provider))), limit);
      rs := Limited(Newest(found), limit);
      SliceMembers(found, limit);
    }

    method ByStatus(status: string, limit: int) returns (rs: seq<ExecutionRecord>)
      requires Valid()
      ensures Shows(rs, Limited(Newest(Keep(Last(log, bound), StatusIs(status))), limit))
      ensures forall r :: r in rs ==> r in ring && r.status == status
      ensures limit >= |ring| ==> forall r :: r in ring && r.status == status ==> r in rs
    {
      hide Shows, Last, IsTail, Limited, IdsIndexed, TasksIndexed, MissionsIndexed, Keep;
      ghost var es := Last(log, bound);
      ShowsLast(ring, history, log, bound);
      ShownByIndex(ring, es);
      hide Valid;
      var found: seq<ExecutionRecord> := [];
      NothingKept(es);
      for i := 0 to |ring|
        invariant Shows(found, Keep(es[..i], StatusIs(status)))
        invariant |found| <= i && forall r :: r in found <==> r in ring[..i] && r.status == status
      {
        KeepNext(es, i, StatusIs(status));
        ShowsAppend(found, Keep(es[..i], StatusIs(status)), ring[i]);
        if ring[i].status == status {
          found := found + [ring[i]];
        }
      }
      assert ring[..|ring|] == ring;
      assert es[..|ring|] == es;
      ShowsNewest(found, Keep(es, StatusIs(status)));
      ShowsLimited(Newest(found), Newest(Keep(es, StatusIs(status))), limit);
      rs := Limited(Newest(found), limit);
      SliceMembers(found, limit);
    }

    method Stats() returns (counts: Counts)
      requires Valid()
      ensures Summarises(counts, Last(log, bound))
    {
      hide Shows, Last, IsTail, IdsIndexed, TasksIndexed, MissionsIndexed, OnTop, Count;
      ghost var es := Last(log, bound);
      ShowsLast(ring, history, log, bound);
      ShownByIndex(ring, es);
      hide Valid;
      counts := map[TOTAL := |ring|];
      OnTopStart(|ring|);
      ghost var done: seq<string> := [];
      for i := 0 to |ring|
        invariant OnTop(counts, done, |ring|)
        invariant |done| == i && forall j :: 0 <= j < i ==> done[j] == ring[j].status
      {
        var status := ring[i].status;
        OnTopStep(counts, done, |ring|, status);
        counts, done := counts[status := Count(counts, status) + 1], done + [status];
      }
      assert done == Statuses(es);
    }

    /** The comprehension both per-id queries share. */
    method Fetch(ids: seq<string>, ghost es: seq<Entry>) returns (rs: seq<ExecutionRecord>)
      requires Valid() && ids == Ids(es) && forall e :: e in es ==> e in log
      ensures Shows(rs, Newest(es)) && forall r :: r in rs ==> r in history
    {
      var found: seq<ExecutionRecord> := [];
      for i := 0 to |ids|
        invariant |found| == i && forall j :: 0 <= j < i ==> found[j].View() == es[j] && found[j] in history
      {
        assert es[i] in log;
        if ids[i] in byId {
          found := found + [byId[ids[i]]];
        }
      }
      rs := Newest(found);
    }

    /** The objects fetched are exactly those of the history whose entries are listed. */
    lemma Represented(rs: seq<ExecutionRecord>, newest: seq<Entry>, es: seq<Entry>)
      requires Valid() && newest == Newest(es) && Shows(rs, newest)
      requires (forall e :: e in es ==> e in log) && forall r :: r in rs ==> r in history
      ensures forall r :: r in rs <==> r in history && r.View() in es
    {
      hide TasksIndexed, MissionsIndexed, IsTail;
      forall r | r in rs
        ensures r.View() in es
      {
        var i :| 0 <= i < |rs| && rs[i] == r;
        assert newest[i] == es[|es| - 1 - i];
      }
      forall r | r in history && r.View() in es
        ensures r in rs
      {
        var j :| 0 <= j < |es| && es[j] == r.View();
        var i := |es| - 1 - j;
        assert newest[i] == es[j] && rs[i].View() == r.View();
        SameRecord(rs[i], r);
      }
    }

    lemma SameRecord(a: ExecutionRecord, b: ExecutionRecord)
      requires Valid() && a in history && b in history && a.View() == b.View()
      ensures a == b
    {
      assert byId[a.id] == a && byId[b.id] == b;
    }

    /** Every run of the task, newest first, whether or not the deque still holds it. */
    method ForTask(task: string) returns (rs: seq<ExecutionRecord>)
      requires Valid()
      ensures Shows(rs, Newest(Keep(log, TaskIs(task))))
      ensures forall r :: r in rs <==> r in history && r.task == task
    {
      KeepMembers(log, TaskIs(task));
      rs := Fetch(At(byTask, task), Keep(log, TaskIs(task)));
      hide Keep, At, TasksIndexed, MissionsIndexed, IsTail, Ids;
      Represented(rs, Newest(Keep(log, TaskIs(task))), Keep(log, TaskIs(task)));
    }

    method ForMission(mission: string) returns (rs: seq<ExecutionRecord>)
      requires Valid()
      ensures Shows(rs, if mission == "" then [] else Newest(Keep(log, MissionIs(mission))))
      ensures forall r :: r in rs <==> r in history && r.mission == mission && mission != ""
    {
      KeepMembers(log, MissionIs(mission));
      ghost var es := if mission == "" then [] else Keep(log, MissionIs(mission));
      rs := Fetch(At(byMission, mission), es);
      hide Keep, At, TasksIndexed, MissionsIndexed, IsTail, Ids;
      Represented(rs, Newest(es), es);
    }
  }

  lemma TaskStarted(byTask: Index, log: seq<Entry>, e: Entry)
    requires TasksIndexed(byTask, log)
    ensures TasksIndexed(Extended(byTask, e.task, e.id), log + [e])
  {
    assert (log + [e])[..|log|] == log;
    forall t
      ensures At(Extended(byTask, e.task, e.id), t) == Ids(Keep(log + [e], TaskIs(t)))
    {
      IdsAppend(Keep(log, TaskIs(t)), e);
    }
  }

  lemma MissionStarted(byMission: Index, log: seq<Entry>, e: Entry)
    requires MissionsIndexed(byMission, log)
    ensures MissionsIndexed(if e.mission == "" then byMission else Extended(byMission, e.mission, e.id), log + [e])
  {
    var byMission' := if e.mission == "" then byMission else Extended(byMission, e.mission, e.id);
    assert (log + [e])[..|log|] == log;
    forall m
      ensures At(byMission', m) == if m == "" then [] else Ids(Keep(log + [e], MissionIs(m)))
    {
      var before := Keep(log, MissionIs(m));
      assert At(byMission, m) == if m == "" then [] else Ids(before);
      assert Keep(log + [e], MissionIs(m)) == before + if e.mission == m then [e] else [];
      IdsAppend(before, e);
      hide Keep, Ids;
    }
  }

  /** The record under an id is where the history has that id. */
  lemma RecordAt(byId: map<string, ExecutionRecord>, history: seq<ExecutionRecord>, log: seq<Entry>, id: string)
    requires Shows(history, log) && IdsIndexed(byId, history)
    ensures id !in byId ==> forall i :: 0 <= i < |log| ==> log[i].id != id
    ensures id in byId ==> byId[id] in history
    ensures id in byId ==> forall i :: 0 <= i < |log| ==> (history[i] == byId[id] <==> log[i].id == id)
  {
    forall i | 0 <= i < |log|
      ensures history[i].id == log[i].id
    {
      assert history[i].View() == log[i];
    }
  }

  lemma NothingKept(es: seq<Entry>)
    ensures forall p: Choice :: Shows([], Keep(es[..0], p))
  {
  }

  lemma KeepNext(es: seq<Entry>, i: nat, p: Choice)
    requires i < |es|
    ensures Keep(es[..i + 1], p) == Keep(es[..i], p) + if p(es[i]) then [es[i]] else []
  {
    assert es[..i + 1][..i] == es[..i];
  }

  lemma RecordStarted(byId: map<string, ExecutionRecord>, history: seq<ExecutionRecord>, rec: ExecutionRecord)
    requires IdsIndexed(byId, history) && rec.id !in byId
    ensures IdsIndexed(byId[rec.id := rec], history + [rec])
  {
  }

  lemma ShowsLast(ring: seq<ExecutionRecord>, rs: seq<ExecutionRecord>, es: seq<Entry>, bound: nat)
    requires Shows(rs, es) && IsTail(ring, rs, bound)
    ensures Shows(ring, Last(es, bound))
  {
    hide Last;
    var last := Last(es, bound);
    forall i | 0 <= i < |ring|
      ensures ring[i].View() == last[i]
    {
      assert ring[i] == rs[|rs| - |ring| + i];
    }
  }

  lemma SliceMembers(found: seq<ExecutionRecord>, limit: int)
    ensures
      var rs := Limited(Newest(found), limit);
      (forall r :: r in rs ==> r in found) && (limit >= |found| ==> forall r :: r in found ==> r in rs)
  {
    hide Limited, Newest;
    var newest := Newest(found);
    forall r | r in found
      ensures r in newest
    {
      var i :| 0 <= i < |found| && found[i] == r;
      assert newest[|found| - 1 - i] == r;
    }
    if limit >= |found| {
      assert Limited(newest, limit) == newest;
    }
  }

  lemma ShownByIndex(rs: seq<ExecutionRecord>, es: seq<Entry>)
    requires Shows(rs, es)
    ensures |rs| == |es| && forall i :: 0 <= i < |rs| ==> rs[i].View() == es[i]
  {
  }

  lemma ShowsAppend(rs: seq<ExecutionRecord>, es: seq<Entry>, r: ExecutionRecord)
    requires Shows(rs, es)
    ensures Shows(rs + [r], es + [r.View()]) && Shows(rs, es + [])
  {
  }

  lemma ShowsNewest(rs: seq<ExecutionRecord>, es: seq<Entry>)
    requires Shows(rs, es)
    ensures Shows(Newest(rs), Newest(es))
  {
    forall i | 0 <= i < |rs|
      ensures Newest(rs)[i].View() == Newest(es)[i]
    {
      assert rs[|rs| - 1 - i].View() == es[|rs| - 1 - i];
    }
  }

  lemma ShowsLimited(rs: seq<ExecutionRecord>, es: seq<Entry>, limit: int)
    requires Shows(rs, es)
    ensures Shows(Limited(rs, limit), Limited(es, limit))
  {
  }

  lemma IdsAppend(es: seq<Entry>, e: Entry)
    ensures Ids(es + [e]) == Ids(es) + [e.id] && Ids(es + []) == Ids(es)
  {
    assert es + [] == es;
  }

  lemma TasksFinished(byTask: Index, log: seq<Entry>, id: string, c: Closing)
    requires TasksIndexed(byTask, log)
    ensures TasksIndexed(byTask, Finished(log, id, c))
  {
    forall t
      ensures At(byTask, t) == Ids(Keep(Finished(log, id, c), TaskIs(t)))
    {
      StartChoicesSettled(t);
      FinishSeen(log, id, c, TaskIs(t));
    }
  }

  lemma MissionsFinished(byMission: Index, log: seq<Entry>, id: string, c: Closing)
    requires MissionsIndexed(byMission, log)
    ensures MissionsIndexed(byMission, Finished(log, id, c))
  {
    forall m
      ensures At(byMission, m) == if m == "" then [] else Ids(Keep(Finished(log, id, c), MissionIs(m)))
    {
      StartChoicesSettled(m);
      FinishSeen(log, id, c, MissionIs(m));
    }
  }
}
