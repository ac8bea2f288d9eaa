/**
  The execution log as a plain history (src/agentic_os/core/execution_log.py): every start
  ever made, oldest first, and what each query means over it.
 */
module LogModel {
  import opened Prelude
  import opened Tally

  datatype Closing = Closing(
    status: string, finished: int, stdout: string, stderr: string, exitCode: Option<int>, error: string)

  /** The fields a query selects by, and those that finishing changes; times are in milliseconds. */
  datatype Entry = Entry(
    id: string, task: string, mission: string, provider: string, started: int,
    status: string, finished: Option<int>, duration: int, stdout: string, stderr: string,
    exitCode: Option<int>, error: string)

  function Opened(id: string, task: string, mission: string, provider: string, now: int): Entry {
    Entry(id, task, mission, provider, now, "running", None, 0, "", "", None, "")
  }

  function Closed(e: Entry, c: Closing): Entry {
    e.(status := c.status, finished := Some(c.finished), duration := c.finished - e.started,
       stdout := c.stdout, stderr := c.stderr, exitCode := c.exitCode, error := c.error)
  }

  type Choice = Entry -> bool

  function Keep(es: seq<Entry>, p: Choice): seq<Entry> {
    if es == [] then []
    else Keep(es[..|es| - 1], p) + if p(es[|es| - 1]) then [es[|es| - 1]] else []
  }

  function TaskIs(t: string): Choice {
    (e: Entry) => e.task == t
  }

  function MissionIs(m: string): Choice {
    (e: Entry) => e.mission == m
  }

  function ProviderIs(p: string): Choice {
    (e: Entry) => e.provider == p
  }

  function StatusIs(s: string): Choice {
    (e: Entry) => e.status == s
  }

  function Newest<T>(xs: seq<T>): (r: seq<T>)
    ensures |r| == |xs| && forall i :: 0 <= i < |xs| ==> r[i] == xs[|xs| - 1 - i]
  {
    if xs == [] then [] else [xs[|xs| - 1]] + Newest(xs[..|xs| - 1])
  }

  /** A deque of bounded length keeps the last elements. */
  function Last<T>(xs: seq<T>, bound: nat): (r: seq<T>)
    ensures IsTail(r, xs, bound)
  {
    if |xs| <= bound then xs else xs[|xs| - bound..]
  }

  /** The last elements of `xs`, in order: as many as there are, and at most `bound`. */
  predicate IsTail<T(==)>(r: seq<T>, xs: seq<T>, bound: nat) {
    && |r| == (if |xs| <= bound then |xs| else bound)
    && forall i :: 0 <= i < |r| ==> r[i] == xs[|xs| - |r| + i]
  }

  /** The slice `xs[:limit]`, where a negative limit counts from the end. */
  function Limited<T>(xs: seq<T>, limit: int): (r: seq<T>)
    ensures |r| == SliceLength(|xs|, limit) && forall i :: 0 <= i < |r| ==> r[i] == xs[i]
  {
    if limit >= |xs| then xs
    else if limit >= 0 then xs[..limit]
    else if -limit <= |xs| then xs[..|xs| + limit]
    else []
  }

  function SliceLength(n: nat, limit: int): (m: nat)
    ensures m <= n && (limit >= 0 ==> m <= limit)
    ensures m < n && limit >= 0 ==> m == limit
    ensures limit < 0 && m > 0 ==> n - m == -limit
  {
    if limit >= n then n else if limit >= 0 then limit else if n + limit >= 0 then n + limit else 0
  }

  function Ids(es: seq<Entry>): (r: seq<string>)
    ensures |r| == |es| && forall i :: 0 <= i < |es| ==> r[i] == es[i].id
  {
    if es == [] then [] else Ids(es[..|es| - 1]) + [es[|es| - 1].id]
  }

  /** The history after the execution `id` finished. */
  function Finished(es: seq<Entry>, id: string, c: Closing): (r: seq<Entry>)
    ensures |r| == |es|
    ensures forall i :: 0 <= i < |es| ==> r[i] == if es[i].id == id then Closed(es[i], c) else es[i]
  {
    if es == [] then []
    else
      var e := es[|es| - 1];
      Finished(es[..|es| - 1], id, c) + [if e.id == id then Closed(e, c) else e]
  }

  // ---- Laws ----

  lemma {:induction false} KeepMembers(es: seq<Entry>, p: Choice)
    ensures forall e :: e in Keep(es, p) <==> e in es && p(e)
  {
    if es != [] {
      KeepMembers(es[..|es| - 1], p);
      assert es == es[..|es| - 1] + [es[|es| - 1]];
    }
  }

  /** Every chosen entry is kept, behind those chosen before it. */
  lemma {:induction false} KeepIndex(es: seq<Entry>, p: Choice, i: nat)
    requires i < |es| && p(es[i])
    ensures |Keep(es[..i], p)| < |Keep(es, p)| && Keep(es, p)[|Keep(es[..i], p)|] == es[i]
  {
    var k := |es| - 1;
    if i < k {
      KeepIndex(es[..k], p, i);
      assert es[..k][..i] == es[..i];
    }
  }

  /** As many entries are kept as there are positions chosen. */
  lemma {:induction false} KeepCount(es: seq<Entry>, p: Choice)
    ensures |Keep(es, p)| == |set i: nat | i < |es| && p(es[i])|
  {
    var chosen := set i: nat | i < |es| && p(es[i]);
    if es != [] {
      var k := |es| - 1;
      KeepCount(es[..k], p);
      var before := set i: nat | i < |es[..k]| && p(es[..k][i]);
      assert chosen == before + if p(es[k]) then {k} else {};
    }
  }

  /** Each field of a finished execution; what the start fixed stays, and other executions are untouched. */
  lemma FinishedMeans(es: seq<Entry>, id: string, c: Closing, i: nat)
    requires i < |es|
    ensures
      var e, f := es[i], Finished(es, id, c)[i];
      && (f.id, f.task, f.mission, f.provider, f.started) == (e.id, e.task, e.mission, e.provider, e.started)
      && (e.id != id ==> f == e)
      && (e.id == id ==> f.status == c.status && f.finished == Some(c.finished) && f.started + f.duration == c.finished)
      && (e.id == id ==> f.stdout == c.stdout && f.stderr == c.stderr && f.exitCode == c.exitCode && f.error == c.error)
  {
  }

  /** The deque after one more append is again the tail of the history. */
  lemma LastAppend<T>(r: seq<T>, xs: seq<T>, bound: nat, x: T)
    requires IsTail(r, xs, bound)
    ensures IsTail(if |r| < bound then r + [x] else (r + [x])[1..], xs + [x], bound)
  {
  }

  lemma TailEnd<T>(r: seq<T>, xs: seq<T>, bound: nat, x: T)
    requires IsTail(r, xs + [x], bound)
    ensures |r| <= bound && (bound > 0 ==> |r| > 0 && r[|r| - 1] == x)
  {
  }

  /** A listing of the bounded history, newest first: entry `i` is the `i`-th from the end. */
  lemma ListedByIndex(log: seq<Entry>, bound: nat, limit: int)
    ensures
      var listed := Limited(Newest(Last(log, bound)), limit);
      && |listed| == SliceLength(if |log| <= bound then |log| else bound, limit) <= |log|
      && forall i :: 0 <= i < |listed| ==> listed[i] == log[|log| - 1 - i]
  {
    var last := Last(log, bound);
    hide Last, Limited, Newest;
    var listed := Limited(Newest(last), limit);
    forall i | 0 <= i < |listed|
      ensures listed[i] == log[|log| - 1 - i]
    {
      assert Newest(last)[i] == last[|last| - 1 - i];
    }
  }

  /** A choice that finishing cannot change, because it reads only what a start fixed. */
  ghost predicate Settled(p: Choice) {
    forall e, c :: p(Closed(e, c)) == p(e)
  }

  /** Queries by task, mission or provider show a finish without re-indexing anything. */
  lemma {:induction false} FinishSeen(es: seq<Entry>, id: string, c: Closing, p: Choice)
    requires Settled(p)
    ensures Keep(Finished(es, id, c), p) == Finished(Keep(es, p), id, c)
    ensures Ids(Keep(Finished(es, id, c), p)) == Ids(Keep(es, p))
  {
    if es != [] {
      var k := |es| - 1;
      FinishSeen(es[..k], id, c, p);
      assert Finished(es, id, c)[..k] == Finished(es[..k], id, c);
      FinishedSplit(Keep(es[..k], p), if p(es[k]) then [es[k]] else [], id, c);
    }
    IdsFinished(Keep(es, p), id, c);
  }

  lemma FinishedSplit(a: seq<Entry>, b: seq<Entry>, id: string, c: Closing)
    ensures Finished(a + b, id, c) == Finished(a, id, c) + Finished(b, id, c)
  {
  }

  lemma IdsFinished(es: seq<Entry>, id: string, c: Closing)
    ensures Ids(Finished(es, id, c)) == Ids(es)
  {
  }

  lemma FinishSeenInRing(es: seq<Entry>, id: string, c: Closing, bound: nat)
    ensures Last(Finished(es, id, c), bound) == Finished(Last(es, bound), id, c)
  {
    hide Last, Finished, Closed;
    var a, b := Last(Finished(es, id, c), bound), Finished(Last(es, bound), id, c);
    assert |a| == |b|;
    forall i | 0 <= i < |a|
      ensures a[i] == b[i]
    {
      assert a[i] == Finished(es, id, c)[|es| - |a| + i];
      assert Last(es, bound)[i] == es[|es| - |a| + i];
    }
  }

  lemma StartChoicesSettled(t: string)
    ensures Settled(TaskIs(t)) && Settled(MissionIs(t)) && Settled(ProviderIs(t))
  {
  }

  // ---- Statistics ----

  function Statuses(es: seq<Entry>): (r: seq<string>)
    ensures |r| == |es| && forall i :: 0 <= i < |es| ==> r[i] == es[i].status
  {
    if es == [] then [] else Statuses(es[..|es| - 1]) + [es[|es| - 1].status]
  }

  const TOTAL := "total"

  /** A count per status, added on top of the size entered under the word "total". */
  ghost predicate OnTop(c: Counts, xs: seq<string>, size: nat) {
    && (forall k :: k in c <==> k == TOTAL || k in xs)
    && (forall k :: Count(c, k) == Occurrences(xs, k) + if k == TOTAL then size else 0)
  }

  lemma OnTopStep(c: Counts, xs: seq<string>, size: nat, x: string)
    requires OnTop(c, xs, size)
    ensures OnTop(c[x := Count(c, x) + 1], xs + [x], size)
  {
    var c' := c[x := Count(c, x) + 1];
    assert (xs + [x])[..|xs|] == xs;
    forall k
      ensures k in c' <==> k == TOTAL || k in xs + [x]
      ensures Count(c', k) == Occurrences(xs + [x], k) + if k == TOTAL then size else 0
    {
      assert Count(c, k) == Occurrences(xs, k) + if k == TOTAL then size else 0;
    }
  }

  lemma OnTopStart(size: nat)
    ensures OnTop(map[TOTAL := size], [], size)
  {
  }

  /** What `stats` returns. */
  ghost predicate Summarises(c: Counts, es: seq<Entry>) {
    OnTop(c, Statuses(es), |es|)
  }

  /** The status counts sum to the reported total exactly when no record has the status "total". */
  lemma StatsAddUp(c: Counts, es: seq<Entry>, ks: seq<string>)
    requires Summarises(c, es)
    requires Distinct(ks) && forall k :: k in ks <==> k in c && k != TOTAL
    ensures Sum(c, ks) == Count(c, TOTAL) <==> forall e :: e in es ==> e.status != TOTAL
  {
    var xs := Statuses(es);
    SumAllBut(xs, c, ks, TOTAL);
    assert TOTAL in xs <==> exists e :: e in es && e.status == TOTAL;
  }
}
