/**
  Polling for file changes (services/runtime_discovery/watcher.py): what a list of changes
  says about two snapshots, and what the reports of a whole run of polls add up to.
 */
module WatcherModel {
  import opened Prelude

  /** The modification times of one directory's files. */
  type Listing = map<string, real>

  /** A listing for each directory that could be read. */
  type Snapshot = map<string, Listing>

  datatype Kind = Created | Modified | Deleted

  datatype Change = Change(dir: string, name: string, kind: Kind)

  datatype File = File(dir: string, name: string)

  function ListingOf(s: Snapshot, dir: string): Listing {
    if dir in s then s[dir] else map[]
  }

  /** The modification time of a file, if the snapshot has it. */
  function TimeOf(s: Snapshot, dir: string, name: string): Option<real> {
    if name in ListingOf(s, dir) then Some(ListingOf(s, dir)[name]) else None
  }

  function Files(s: Snapshot): set<File> {
    set dir, name | dir in s && name in s[dir] :: File(dir, name)
  }

  /** What one file's two modification times call for. */
  function Verdict(now: Option<real>, before: Option<real>): Option<Kind> {
    if now.Some? && before.None? then Some(Created)
    else if now.None? && before.Some? then Some(Deleted)
    else if now != before then Some(Modified)
    else None
  }

  /** No file occurs twice in the list. */
  predicate Once(changes: seq<Change>) {
    forall i, j :: 0 <= i < j < |changes| ==> changes[i].dir != changes[j].dir || changes[i].name != changes[j].name
  }

  /** The list holds the verdict on every file, once each, and nothing else. */
  ghost predicate Reports(changes: seq<Change>, current: Snapshot, previous: Snapshot) {
    && Once(changes)
    && forall c :: c in changes <==>
         Verdict(TimeOf(current, c.dir, c.name), TimeOf(previous, c.dir, c.name)) == Some(c.kind)
  }

  /** What one poll may report: an empty snapshot counts as none yet, and then nothing is compared. */
  ghost predicate Polled(previous: Snapshot, current: Snapshot, changes: seq<Change>) {
    if previous == map[] then changes == [] else Reports(changes, current, previous)
  }

  // ---- One report ----

  lemma FilesTimes(s: Snapshot, dir: string, name: string)
    ensures File(dir, name) in Files(s) <==> TimeOf(s, dir, name).Some?
  {
  }

  /** Every file has the same modification time in both, or is in neither. */
  ghost predicate SameTimes(a: Snapshot, b: Snapshot) {
    forall dir, name :: TimeOf(a, dir, name) == TimeOf(b, dir, name)
  }

  /** A report is empty exactly when nothing changed. */
  lemma SilentIffSame(changes: seq<Change>, current: Snapshot, previous: Snapshot)
    requires Reports(changes, current, previous)
    ensures changes == [] <==> SameTimes(current, previous)
  {
    forall dir, name | changes == []
      ensures TimeOf(current, dir, name) == TimeOf(previous, dir, name)
    {
      VerdictExact(TimeOf(current, dir, name), TimeOf(previous, dir, name));
      forall kind
        ensures Verdict(TimeOf(current, dir, name), TimeOf(previous, dir, name)) != Some(kind)
      {
        assert Change(dir, name, kind) !in changes;
      }
    }
    if changes != [] {
      var c := changes[0];
      assert c in changes;
      VerdictExact(TimeOf(current, c.dir, c.name), TimeOf(previous, c.dir, c.name));
    }
  }

  lemma VerdictExact(now: Option<real>, before: Option<real>)
    ensures Verdict(now, before) == None <==> now == before
  {
  }

  predicate Has(s: Snapshot, dir: string, name: string) {
    dir in s && name in s[dir]
  }

  /**
    Which kind of change is reported: created for a file that only the current snapshot has, deleted
    for one that only the previous snapshot has, modified for one that both have with different times.
   */
  lemma ReportKinds(changes: seq<Change>, current: Snapshot, previous: Snapshot, dir: string, name: string)
    requires Reports(changes, current, previous)
    ensures Change(dir, name, Created) in changes <==> Has(current, dir, name) && !Has(previous, dir, name)
    ensures Change(dir, name, Deleted) in changes <==> !Has(current, dir, name) && Has(previous, dir, name)
    ensures Change(dir, name, Modified) in changes <==>
              Has(current, dir, name) && Has(previous, dir, name) && current[dir][name] != previous[dir][name]
  {
    forall kind
      ensures Change(dir, name, kind) in changes <==>
                Verdict(TimeOf(current, dir, name), TimeOf(previous, dir, name)) == Some(kind)
    {
      var c := Change(dir, name, kind);
      assert c in changes <==> Verdict(TimeOf(current, c.dir, c.name), TimeOf(previous, c.dir, c.name)) == Some(c.kind);
    }
  }

  function ReplayOne(files: set<File>, c: Change): set<File> {
    match c.kind
    case Created => files + {File(c.dir, c.name)}
    case Deleted => files - {File(c.dir, c.name)}
    case Modified => files
  }

  function Replay(files: set<File>, changes: seq<Change>): set<File> {
    if changes == [] then files else ReplayOne(Replay(files, changes[..|changes| - 1]), changes[|changes| - 1])
  }

  /** If no file occurs twice, replaying decides each file by the one change that names it. */
  lemma {:induction false} ReplayMember(files: set<File>, changes: seq<Change>, f: File)
    requires Once(changes)
    ensures f in Replay(files, changes) <==>
              || Change(f.dir, f.name, Created) in changes
              || (f in files && Change(f.dir, f.name, Deleted) !in changes)
  {
    if changes != [] {
      var k := |changes| - 1;
      ReplayMember(files, changes[..k], f);
      assert changes == changes[..k] + [changes[k]];
      if changes[k].dir == f.dir && changes[k].name == f.name {
        assert forall kind :: Change(f.dir, f.name, kind) !in changes[..k];
      }
    }
  }

  /** A report takes the files of the previous snapshot to those of the current one. */
  lemma ReportReplays(changes: seq<Change>, current: Snapshot, previous: Snapshot)
    requires Reports(changes, current, previous)
    ensures Replay(Files(previous), changes) == Files(current)
  {
    forall f: File
      ensures f in Replay(Files(previous), changes) <==> f in Files(current)
    {
      ReplayMember(Files(previous), changes, f);
      FilesTimes(previous, f.dir, f.name);
      FilesTimes(current, f.dir, f.name);
    }
  }

  /** A poll that meets an empty snapshot hides every file that appeared in between. */
  lemma PollReplaysExactly(changes: seq<Change>, current: Snapshot, previous: Snapshot)
    requires Polled(previous, current, changes)
    ensures Replay(Files(previous), changes) == Files(current) <==> (previous != map[] || Files(current) == {})
  {
    if previous != map[] {
      ReportReplays(changes, current, previous);
    }
  }

  // ---- Whole runs ----

  /** A run of polls: `snaps[k]` is the snapshot the k-th poll took, `reports[k]` what it returned. */
  ghost predicate Run(snaps: seq<Snapshot>, reports: seq<seq<Change>>) {
    && |snaps| == |reports|
    && forall k: nat :: k < |snaps| ==> Polled(Before(snaps, k), snaps[k], reports[k])
  }

  /** The watcher starts with an empty snapshot. */
  function Before(snaps: seq<Snapshot>, k: nat): Snapshot
    requires k <= |snaps|
  {
    if k == 0 then map[] else snaps[k - 1]
  }

  /** The changes of all polls after the first, in order. */
  function Joined(reports: seq<seq<Change>>, n: nat): seq<Change>
    requires n < |reports|
  {
    if n == 0 then [] else Joined(reports, n - 1) + reports[n]
  }

  lemma {:induction false} ReplayJoin(files: set<File>, a: seq<Change>, b: seq<Change>)
    ensures Replay(files, a + b) == Replay(Replay(files, a), b)
  {
    if b == [] {
      assert a + b == a;
    } else {
      var k := |b| - 1;
      ReplayJoin(files, a, b[..k]);
      assert (a + b)[..|a| + k] == a + b[..k];
    }
  }

  /** After poll `n`, the reports replayed onto the first snapshot give the current files. */
  predicate Telescopes(snaps: seq<Snapshot>, reports: seq<seq<Change>>, n: nat)
    requires |snaps| == |reports| && n < |snaps|
  {
    Replay(Files(snaps[0]), Joined(reports, n)) == Files(snaps[n])
  }

  /** No poll up to `n` finds files right after a snapshot in which no directory could be read. */
  predicate NeverBlind(snaps: seq<Snapshot>, n: nat)
    requires n < |snaps|
  {
    forall k: nat :: 0 < k <= n ==> snaps[k - 1] != map[] || Files(snaps[k]) == {}
  }

  lemma TelescopeStep(snaps: seq<Snapshot>, reports: seq<seq<Change>>, n: nat)
    requires Run(snaps, reports) && 0 < n < |snaps| && Telescopes(snaps, reports, n - 1)
    ensures Telescopes(snaps, reports, n) <==> (snaps[n - 1] != map[] || Files(snaps[n]) == {})
  {
    ReplayJoin(Files(snaps[0]), Joined(reports, n - 1), reports[n]);
    assert Before(snaps, n) == snaps[n - 1];
    PollReplaysExactly(reports[n], snaps[n], snaps[n - 1]);
  }

  /** The reports account for the current files throughout a run exactly when no poll of it was blind. */
  lemma {:induction false} TelescopesExactly(snaps: seq<Snapshot>, reports: seq<seq<Change>>, n: nat)
    requires Run(snaps, reports) && n < |snaps|
    ensures (forall k: nat :: k <= n ==> Telescopes(snaps, reports, k)) <==> NeverBlind(snaps, n)
  {
    if n > 0 {
      TelescopesExactly(snaps, reports, n - 1);
      if NeverBlind(snaps, n - 1) {
        TelescopeStep(snaps, reports, n);
      }
    }
  }

  /** In particular, while every snapshot has at least one readable directory. */
  lemma ReadableTelescopes(snaps: seq<Snapshot>, reports: seq<seq<Change>>, n: nat)
    requires Run(snaps, reports) && n < |snaps|
    requires forall k :: 0 <= k < |snaps| ==> snaps[k] != map[]
    ensures Telescopes(snaps, reports, n)
  {
    TelescopesExactly(snaps, reports, n);
  }

  /** A directory that becomes readable brings its files in without a single report. */
  lemma BlindPoll()
    ensures
      var seen: Snapshot := map["bin" := map["tool" := 1.0]];
      && Run([map[], seen], [[], []])
      && !Telescopes([map[], seen], [[], []], 1)
  {
    var seen: Snapshot := map["bin" := map["tool" := 1.0]];
    var snaps, reports: seq<seq<Change>> := [map[], seen], [[], []];
    forall k: nat | k < |snaps|
      ensures Polled(Before(snaps, k), snaps[k], reports[k])
    {
    }
    assert Run(snaps, reports);
    assert File("bin", "tool") in Files(seen);
    TelescopesExactly(snaps, reports, 1);
    TelescopesExactly(snaps, reports, 0);
  }
}
