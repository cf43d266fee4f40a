/**
 What becomes of deallocated pages and obsolete files (photondb/src/page_store/jobs/flush.rs,
 jobs/reclaim.rs, jobs/cleanup.rs, recover.rs).

 The invariant of the store says that versions keep every page they have to keep.  Here is the other
 direction: they keep nothing else.  The one exception are groups that were revived: a compaction takes
 the active pages of the groups it moves from the version it started with, so pages that a flush
 deactivated meanwhile are active again; and a restart finds groups that had been dropped as empty when
 their file is still listed but the records that emptied them are not.
 */
module PageStoreDead {
  import opened Options
  import opened PageStore
  import opened PageStoreInv
  import opened PageStoreSteps
  import opened PageStoreJobs
  import opened PageStoreRecovery
  import opened PageStoreTheorems

  /** The groups that a step revives. */
  ghost function Revives(s: State, step: Step): set<GroupId> {
    match step
    case CompactInstallStep =>
      if s.job.Some? && s.job.value.from + 1 < |s.versions|
      then set g | g in s.versions[s.job.value.from].groups &&
        Moved(s, s.versions[s.job.value.from], s.job.value.victims, g)
      else {}
    case RestartStep(_, groups, _) => if |s.versions| > 0 then groups.Keys - Current(s).groups.Keys else {}
    case _ => {}
  }

  /** The groups that the first `n` steps of a run revived. */
  ghost function Revived(states: seq<State>, steps: seq<Step>, n: nat): set<GroupId>
    requires n <= |steps| && n <= |states|
  {
    if n == 0 then {} else Revived(states, steps, n - 1) + Revives(states[n - 1], steps[n - 1])
  }

  // ----- The invariant

  /** The active pages of a group that was not revived are pages that the version has to keep. */
  ghost predicate SharpVersion(pages: Pages, dead: Deads, v: Version, T: set<GroupId>) {
    forall a {:trigger Holds(v, a)} :: Holds(v, a) && a.group !in T ==> Kept(pages, dead, v.first, a)
  }

  ghost predicate Sharp(s: State, T: set<GroupId>) {
    forall k {:trigger s.versions[k]} :: 0 <= k < |s.versions| ==> SharpVersion(s.pages, s.dead, s.versions[k], T)
  }

  ghost predicate Dealloced(meta: map<FileId, FileMeta>, files: set<FileId>, a: Addr) {
    exists f :: f in files && f in meta && a in meta[f].dealloc
  }

  ghost predicate Stores(m: FileMeta, a: Addr) {
    a.group in m.groups && a in m.groups[a.group]
  }

  /** A listed file records every deallocation that a later flush made in a listed group. */
  ghost predicate CoveredAt(s: State, T: set<GroupId>, h: GroupId, a: Addr)
    requires |s.versions| > 0
  {
    var v := Current(s);
    (h, a) in s.dead && h < v.first && h != a.group && a.group in v.groups && a.group !in T ==>
      Dealloced(s.meta, v.files, a)
  }

  ghost predicate Covered(s: State, T: set<GroupId>)
    requires |s.versions| > 0
  {
    forall h, a {:trigger CoveredAt(s, T, h, a)} :: CoveredAt(s, T, h, a)
  }

  /** No file stores a page that its own buffer deallocated. */
  ghost predicate StoredAlive(dead: Deads, m: FileMeta) {
    forall g, a :: g in m.groups && a in m.groups[g] ==> (g, a) !in dead
  }

  ghost predicate AllAlive(s: State) {
    forall f {:trigger f in s.meta} :: f in s.meta ==> StoredAlive(s.dead, s.meta[f])
  }

  /** The deallocations that a file records are in groups below `first`. */
  ghost predicate Older(m: FileMeta, first: GroupId) {
    forall a :: a in m.dealloc ==> a.group < first
  }

  ghost predicate OlderIn(meta: map<FileId, FileMeta>, v: Version, f: FileId) {
    f in v.files && f in meta ==> Older(meta[f], v.first)
  }

  ghost predicate AllOlder(s: State) {
    forall k, f {:trigger OlderIn(s.meta, s.versions[k], f)} :: 0 <= k < |s.versions| ==>
      OlderIn(s.meta, s.versions[k], f)
  }

  /** What a version no longer lists, it declares obsolete. */
  ghost predicate Replaced(vs: seq<Version>, k: nat) {
    k + 1 < |vs| ==> vs[k].files - vs[k + 1].files <= vs[k + 1].obsoleted
  }

  /** A file on disk is listed by a version in use, or waits for the cleanup of one, or is being built. */
  ghost predicate Wanted(s: State, f: FileId) {
    || (exists k :: s.cleaned <= k < |s.versions| && f in s.versions[k].files)
    || (exists k :: s.cleaned < k < |s.versions| && f in s.versions[k].obsoleted)
    || (s.job.Some? && s.job.value.file == f)
  }

  ghost predicate Tidy(s: State) {
    && (forall k: nat {:trigger Replaced(s.versions, k)} :: Replaced(s.versions, k))
    && (forall f {:trigger Wanted(s, f)} :: f in s.disk ==> Wanted(s, f))
  }

  /** The output of a compaction records the deallocations of its victims in the groups of its version. */
  ghost predicate JobRecords(s: State) {
    match s.job
    case None => true
    case Some(j) =>
      j.from < |s.versions| && j.file in s.meta ==>
        forall a {:trigger a in s.meta[j.file].dealloc} ::
          a in s.meta[j.file].dealloc <==> a.group in s.versions[j.from].groups && Dealloced(s.meta, j.victims, a)
  }

  datatype Part = ActivePages | Deallocations | StoredPages | RecordedGroups | Disk | Output

  ghost predicate PartOk(s: State, T: set<GroupId>, part: Part)
    requires |s.versions| > 0
  {
    match part
    case ActivePages => Sharp(s, T)
    case Deallocations => Covered(s, T)
    case StoredPages => AllAlive(s)
    case RecordedGroups => AllOlder(s)
    case Disk => Tidy(s)
    case Output => JobRecords(s)
  }

  ghost predicate Exact(s: State, T: set<GroupId>) {
    |s.versions| > 0 && forall part {:trigger PartOk(s, T, part)} :: PartOk(s, T, part)
  }

  lemma Parts(s: State, T: set<GroupId>)
    requires Exact(s, T)
    ensures Sharp(s, T) && Covered(s, T) && AllAlive(s) && AllOlder(s) && Tidy(s) && JobRecords(s)
  {
    assert PartOk(s, T, ActivePages) && PartOk(s, T, Deallocations) && PartOk(s, T, StoredPages);
    assert PartOk(s, T, RecordedGroups) && PartOk(s, T, Disk) && PartOk(s, T, Output);
  }

  lemma Together(s: State, T: set<GroupId>)
    requires |s.versions| > 0 && Sharp(s, T) && Covered(s, T) && AllAlive(s) && AllOlder(s) && Tidy(s) && JobRecords(s)
    ensures Exact(s, T)
  {
  }

  // ----- Steps that touch no file and no version

  lemma SameExact(s: State, s': State, T: set<GroupId>)
    requires Exact(s, T) && s'.pages == s.pages && s'.dead == s.dead && s'.meta == s.meta && s'.disk == s.disk
    requires s'.versions == s.versions && s'.cleaned == s.cleaned && s'.job == s.job
    ensures Exact(s', T)
  {
    Parts(s, T);
    forall h, a
      ensures CoveredAt(s', T, h, a)
    {
      assert CoveredAt(s, T, h, a);
    }
    forall k, f | 0 <= k < |s'.versions|
      ensures OlderIn(s'.meta, s'.versions[k], f)
    {
      assert OlderIn(s.meta, s.versions[k], f);
    }
    SameTidy(s, s');
    Together(s', T);
  }

  lemma SameTidy(s: State, s': State)
    requires Tidy(s) && s'.disk == s.disk && s'.versions == s.versions && s'.cleaned == s.cleaned && s'.job == s.job
    ensures Tidy(s')
  {
    forall k: nat
      ensures Replaced(s'.versions, k)
    {
      assert Replaced(s.versions, k);
    }
    forall f | f in s'.disk
      ensures Wanted(s', f)
    {
      assert Wanted(s, f);
    }
  }

  // ----- Publications

  lemma PublishedSharp(s: State, id: Id, a: Addr, n: nat, s': State, T: set<GroupId>)
    requires Inv(s) && Sharp(s, T) && Publication(s, id, a, n) && s' == Observe(Published(s, id, a, n))
    ensures Sharp(s', T)
  {
    forall k | 0 <= k < |s'.versions|
      ensures SharpVersion(s'.pages, s'.dead, s'.versions[k], T)
    {
      var v := s.versions[k];
      assert SharpVersion(s.pages, s.dead, v, T);
      OrderedFirst(s.versions, k, |s.versions| - 1);
      forall x | Holds(v, x) && x.group !in T
        ensures Kept(s'.pages, s'.dead, v.first, x)
      {
        PublishedClean(s, id, a, n, v.first, x);
      }
    }
  }

  lemma PublishedExact(s: State, id: Id, a: Addr, n: nat, s': State, T: set<GroupId>)
    requires Inv(s) && Exact(s, T) && Publication(s, id, a, n) && s' == Observe(Published(s, id, a, n))
    ensures Exact(s', T)
  {
    Parts(s, T);
    PublishedShape(s, id, a, n, s');
    PublishedSharp(s, id, a, n, s', T);
    SameTidy(s, s');
    forall h, x
      ensures CoveredAt(s', T, h, x)
    {
      assert CoveredAt(s, T, h, x);
    }
    forall f | f in s'.meta
      ensures StoredAlive(s'.dead, s'.meta[f])
    {
      assert StoredAlive(s.dead, s.meta[f]);
      assert FileOk(s.pages, s.dead, s.meta[f], Current(s).first);
    }
    forall k, f | 0 <= k < |s'.versions|
      ensures OlderIn(s'.meta, s'.versions[k], f)
    {
      assert OlderIn(s.meta, s.versions[k], f);
    }
    Together(s', T);
  }

  // ----- Flush

  /** Which pages are active after a flush: those that were and that the buffer does not deallocate, and those of
      the buffer itself that it does not deallocate. */
  lemma FlushActive(s: State, s': State, file: FileId, a: Addr)
    requires Inv(s) && Flush(s, s', file)
    ensures Holds(Current(s'), a) <==>
            || (Holds(Current(s), a) && (Current(s).first, a) !in s.dead)
            || (a in s.pages && a.group == Current(s).first && (Current(s).first, a) !in s.dead)
  {
    assert VersionOk(s, s.versions[|s.versions| - 1]);
    if a.group in Current(s).groups {
      assert GroupOk(s.meta, Current(s), a.group);
    }
    FlushedHolds(s, Current(s), file, a);
  }

  lemma FlushedHolds(s: State, v: Version, file: FileId, a: Addr)
    requires a.group in v.groups ==> a.group < v.first
    ensures Holds(FlushVersion(s, v, file, v.first), a) <==>
            || (Holds(v, a) && (v.first, a) !in s.dead)
            || (a in s.pages && a.group == v.first && (v.first, a) !in s.dead)
  {
    var g := v.first;
    assert a.group != g ==> (a in ForeignDealloc(s, g) <==> (g, a) in s.dead);
    assert a.group == g ==> (a in FlushedPages(s, g) <==> a in s.pages && (g, a) !in s.dead);
    if a.group in v.groups && a in v.groups[a.group].active && a !in ForeignDealloc(s, g) {
      assert a in v.groups[a.group].active - ForeignDealloc(s, g);
    }
  }

  lemma OwnGroupClean(s: State, a: Addr, f: GroupId)
    requires Chains(s) && f <= a.group
    ensures Clean(s.dead, f, a)
  {
    forall g: GroupId | g < f
      ensures (g, a) !in s.dead
    {
      if (g, a) in s.dead {
        var x := DeadIsOlder(s, g, a);
      }
    }
  }

  lemma FlushedKept(s: State, s': State, file: FileId, T: set<GroupId>, a: Addr)
    requires Inv(s) && Sharp(s, T) && Flush(s, s', file) && Holds(Current(s'), a) && a.group !in T
    ensures Kept(s.pages, s.dead, Current(s).first + 1, a)
  {
    var v := Current(s);
    FlushActive(s, s', file, a);
    assert SharpVersion(s.pages, s.dead, s.versions[|s.versions| - 1], T);
    if a.group == v.first {
      OwnGroupClean(s, a, v.first);
    }
    forall g: GroupId | g < v.first + 1
      ensures (g, a) !in s.dead
    {
      assert g < v.first || g == v.first;
    }
  }

  lemma FlushSharp(s: State, s': State, file: FileId, T: set<GroupId>)
    requires Inv(s) && Sharp(s, T) && Flush(s, s', file)
    ensures Sharp(s', T)
  {
    forall k | 0 <= k < |s'.versions|
      ensures SharpVersion(s'.pages, s'.dead, s'.versions[k], T)
    {
      if k < |s.versions| {
        assert SharpVersion(s.pages, s.dead, s.versions[k], T);
      } else {
        forall a | Holds(s'.versions[k], a) && a.group !in T
          ensures Kept(s.pages, s.dead, s'.versions[k].first, a)
        {
          FlushedKept(s, s', file, T, a);
        }
      }
    }
  }

  lemma FlushCovered(s: State, s': State, file: FileId, T: set<GroupId>, h: GroupId, a: Addr)
    requires Inv(s) && Covered(s, T) && Flush(s, s', file)
    ensures CoveredAt(s', T, h, a)
  {
    var v, w := Current(s), Current(s');
    if (h, a) in s.dead && h < w.first && h != a.group && a.group in w.groups && a.group !in T {
      var x := DeadIsOlder(s, h, a);
      if h == v.first {
        assert a in s'.meta[file].dealloc;
      } else {
        assert a.group in v.groups;
        assert CoveredAt(s, T, h, a);
        var f :| f in v.files && f in s.meta && a in s.meta[f].dealloc;
        assert Needed(s.meta[f], Deactivate(v.groups, ForeignDealloc(s, v.first)));
        assert f in w.files && f in s'.meta && a in s'.meta[f].dealloc;
      }
    }
  }

  lemma FlushAlive(s: State, s': State, file: FileId)
    requires Inv(s) && AllAlive(s) && Flush(s, s', file)
    ensures AllAlive(s')
  {
    forall f | f in s'.meta
      ensures StoredAlive(s'.dead, s'.meta[f])
    {
      if f != file {
        assert StoredAlive(s.dead, s.meta[f]);
      }
    }
  }

  lemma FlushOlder(s: State, s': State, file: FileId)
    requires Inv(s) && AllOlder(s) && Flush(s, s', file)
    ensures AllOlder(s')
  {
    var g := Current(s).first;
    var m := FileMeta(map[g := FlushedPages(s, g)], ForeignDealloc(s, g));
    ForeignOlder(s, g);
    forall k, f | 0 <= k < |s'.versions|
      ensures OlderIn(s'.meta, s'.versions[k], f)
    {
      var j := if k < |s.versions| then k else |s.versions| - 1;
      assert VersionOk(s, s.versions[j]);
      assert OlderIn(s.meta, s.versions[j], f);
      NewFileOlder(s.meta, s.versions[j], f, file, m, s'.versions[k]);
    }
  }

  lemma ForeignOlder(s: State, g: GroupId)
    requires Chains(s)
    ensures forall a :: a in ForeignDealloc(s, g) ==> a.group < g
  {
    forall a | a in ForeignDealloc(s, g)
      ensures a.group < g
    {
      var x := DeadIsOlder(s, g, a);
    }
  }

  lemma NewFileOlder(meta: map<FileId, FileMeta>, v: Version, f: FileId, file: FileId, m: FileMeta, w: Version)
    requires OlderIn(meta, v, f) && v.first <= w.first && w.files <= v.files + {file} &&
             (file in w.files ==> Older(m, w.first))
    ensures OlderIn(meta[file := m], w, f)
  {
  }

  /** A new version that lists a new file beside those it does not declare obsolete. */
  lemma AppendedTidy(s: State, s': State, w: Version, file: FileId)
    requires Tidy(s) && |s.versions| > 0 && s.cleaned < |s.versions| && s'.versions == s.versions + [w] &&
             s'.cleaned == s.cleaned
    requires Current(s).files - w.files <= w.obsoleted && file in w.files && s'.disk <= s.disk + {file}
    requires s.job.Some? && s'.job != s.job ==> s.job.value.file == file
    ensures Tidy(s')
  {
    forall k: nat
      ensures Replaced(s'.versions, k)
    {
      assert Replaced(s.versions, k);
    }
    forall f | f in s'.disk
      ensures Wanted(s', f)
    {
      if f == file {
        assert f in s'.versions[|s.versions|].files;
      } else {
        assert Wanted(s, f);
        if k :| s.cleaned <= k < |s.versions| && f in s.versions[k].files {
          assert f in s'.versions[k].files;
        } else if k :| s.cleaned < k < |s.versions| && f in s.versions[k].obsoleted {
          assert f in s'.versions[k].obsoleted;
        }
      }
    }
  }

  lemma FlushExact(s: State, s': State, file: FileId, T: set<GroupId>)
    requires Inv(s) && Exact(s, T) && Flush(s, s', file)
    ensures Exact(s', T)
  {
    Parts(s, T);
    FlushSharp(s, s', file, T);
    FlushAlive(s, s', file);
    FlushOlder(s, s', file);
    AppendedTidy(s, s', Current(s'), file);
    FlushRecords(s, s', file);
    forall h, a
      ensures CoveredAt(s', T, h, a)
    {
      FlushCovered(s, s', file, T, h, a);
    }
    Together(s', T);
  }

  lemma FlushRecords(s: State, s': State, file: FileId)
    requires Inv(s) && JobRecords(s) && Flush(s, s', file)
    ensures JobRecords(s')
  {
    if s.job.Some? {
      var j := s.job.value;
      assert VersionOk(s, s.versions[j.from]);
      forall a
        ensures Dealloced(s'.meta, j.victims, a) <==> Dealloced(s.meta, j.victims, a)
      {
      }
    }
  }

  // ----- Compaction

  lemma CompactStartTidy(s: State, s': State, k: nat, victims: set<FileId>, file: FileId)
    requires Tidy(s) && CompactStart(s, s', k, victims, file)
    ensures Tidy(s')
  {
    forall i: nat
      ensures Replaced(s'.versions, i)
    {
      assert Replaced(s.versions, i);
    }
    forall f | f in s'.disk
      ensures Wanted(s', f)
    {
      assert f != file ==> Wanted(s, f);
    }
  }

  lemma CompactStartAlive(s: State, s': State, k: nat, victims: set<FileId>, file: FileId)
    requires Inv(s) && AllAlive(s) && CompactStart(s, s', k, victims, file)
    ensures AllAlive(s')
  {
    forall f | f in s'.meta
      ensures StoredAlive(s'.dead, s'.meta[f])
    {
      if f != file {
        assert StoredAlive(s.dead, s.meta[f]);
      } else {
        CompactedAlive(s, s.versions[k], victims);
      }
    }
  }

  lemma CompactedAlive(s: State, v: Version, victims: set<FileId>)
    requires AllAlive(s)
    ensures StoredAlive(s.dead, CompactedMeta(s, v, victims))
  {
    var m := CompactedMeta(s, v, victims);
    forall g, a | g in m.groups && a in m.groups[g]
      ensures (g, a) !in s.dead
    {
      assert a in MovedPages(s, v, g);
      var f := v.groups[g].file;
      assert f in s.meta && StoredAlive(s.dead, s.meta[f]);
    }
  }

  lemma CompactStartRecords(s: State, s': State, k: nat, victims: set<FileId>, file: FileId)
    requires Inv(s) && CompactStart(s, s', k, victims, file)
    ensures JobRecords(s')
  {
    NewIdIsFree(s);
    assert VersionOk(s, s.versions[k]);
    forall a
      ensures Dealloced(s'.meta, victims, a) <==> Dealloced(s.meta, victims, a)
    {
    }
  }

  lemma CompactStartExact(s: State, s': State, k: nat, victims: set<FileId>, file: FileId, T: set<GroupId>)
    requires Inv(s) && Exact(s, T) && CompactStart(s, s', k, victims, file)
    ensures Exact(s', T)
  {
    Parts(s, T);
    NewIdIsFree(s);
    CompactStartTidy(s, s', k, victims, file);
    CompactStartAlive(s, s', k, victims, file);
    CompactStartRecords(s, s', k, victims, file);
    assert VersionOk(s, s.versions[|s.versions| - 1]);
    forall h, a
      ensures CoveredAt(s', T, h, a)
    {
      assert CoveredAt(s, T, h, a);
    }
    forall i, f | 0 <= i < |s'.versions|
      ensures OlderIn(s'.meta, s'.versions[i], f)
    {
      assert VersionOk(s, s.versions[i]);
      assert OlderIn(s.meta, s.versions[i], f);
    }
    Together(s', T);
  }

  lemma InstallSharp(s: State, s': State, T: set<GroupId>)
    requires Inv(s) && Sharp(s, T) && CompactInstall(s, s')
    ensures Sharp(s', T + Revives(s, CompactInstallStep))
  {
    var T' := T + Revives(s, CompactInstallStep);
    forall k | 0 <= k < |s'.versions|
      ensures SharpVersion(s'.pages, s'.dead, s'.versions[k], T')
    {
      var j := if k < |s.versions| then k else |s.versions| - 1;
      assert SharpVersion(s.pages, s.dead, s.versions[j], T);
      if k == |s.versions| {
        InstalledSharp(s, s.job.value, T, T');
      }
    }
  }

  lemma InstalledSharp(s: State, j: Job, T: set<GroupId>, T': set<GroupId>)
    requires j.from < |s.versions| && s.job == Some(j) && T' == T + Revives(s, CompactInstallStep)
    requires SharpVersion(s.pages, s.dead, Current(s), T)
    ensures SharpVersion(s.pages, s.dead, CompactVersion(s, Current(s), j), T')
  {
    var v, v0 := Current(s), s.versions[j.from];
    var w := CompactVersion(s, v, j);
    forall a | Holds(w, a) && a.group !in T'
      ensures Kept(s.pages, s.dead, w.first, a)
    {
      assert !Moved(s, v0, j.victims, a.group) || j.from == |s.versions| - 1;
      assert Holds(v, a);
    }
  }

  /** A deallocation that a victim records, in a group that is still listed, is in a group that the compaction
      knew. */
  lemma VictimRecord(meta: map<FileId, FileMeta>, v0: Version, v: Version, f: FileId, a: Addr)
    requires Advanced(meta, v0, v) && a.group in v.groups && GroupOk(meta, v, a.group)
    requires f in v0.files && f in meta && a in meta[f].dealloc && OlderIn(meta, v0, f)
    ensures a.group in v0.groups
  {
  }

  /** What the files of the compacted version record. */
  lemma InstallRecords(s: State, j: Job, a: Addr)
    requires |s.versions| > 0 && s.job == Some(j) && j.from < |s.versions| && j.file in s.meta && JobRecords(s)
    requires j.victims <= s.versions[j.from].files && Advanced(s.meta, s.versions[j.from], Current(s))
    requires a.group in Current(s).groups && GroupOk(s.meta, Current(s), a.group)
    requires forall f :: f in j.victims ==> OlderIn(s.meta, s.versions[j.from], f)
    requires Dealloced(s.meta, Current(s).files, a)
    ensures Dealloced(s.meta, CompactVersion(s, Current(s), j).files, a)
  {
    var f :| f in Current(s).files && f in s.meta && a in s.meta[f].dealloc;
    var w := CompactVersion(s, Current(s), j);
    if f in j.victims {
      VictimRecord(s.meta, s.versions[j.from], Current(s), f, a);
      assert Dealloced(s.meta, j.victims, a);
      assert j.file in w.files && a in s.meta[j.file].dealloc;
    } else {
      assert f in w.files;
    }
  }

  /** A group of the compacted version that was not revived was listed before. */
  lemma InstallGroup(s: State, j: Job, g: GroupId)
    requires |s.versions| > 0 && s.job == Some(j) && j.from < |s.versions|
    requires g in CompactVersion(s, Current(s), j).groups && g !in Revives(s, CompactInstallStep)
    ensures g in Current(s).groups
  {
  }

  lemma InstallCovered(s: State, s': State, T: set<GroupId>, h: GroupId, a: Addr)
    requires Inv(s) && Covered(s, T) && AllOlder(s) && JobRecords(s) && CompactInstall(s, s')
    ensures CoveredAt(s', T + Revives(s, CompactInstallStep), h, a)
  {
    var j, n := s.job.value, |s.versions|;
    var w := CompactVersion(s, Current(s), j);
    if (h, a) in s.dead && h < w.first && h != a.group && a.group in w.groups && a.group !in T &&
       a.group !in Revives(s, CompactInstallStep) {
      InstallGroup(s, j, a.group);
      assert CoveredAt(s, T, h, a);
      assert VersionOk(s, s.versions[n - 1]);
      assert Advanced(s.meta, s.versions[j.from], s.versions[n - 1]);
      assert GroupOk(s.meta, Current(s), a.group);
      forall f | f in j.victims
        ensures OlderIn(s.meta, s.versions[j.from], f)
      {
      }
      InstallRecords(s, j, a);
    }
  }

  lemma InstallOlder(s: State, s': State, T: set<GroupId>)
    requires Inv(s) && Exact(s, T) && CompactInstall(s, s')
    ensures AllOlder(s')
  {
    Parts(s, T);
    var j, n := s.job.value, |s.versions|;
    OrderedFirst(s.versions, j.from, n - 1);
    assert VersionOk(s, s.versions[j.from]);
    forall a | a in s.meta[j.file].dealloc
      ensures a.group < Current(s).first
    {
      assert GroupOk(s.meta, s.versions[j.from], a.group);
    }
    forall k, f | 0 <= k < |s'.versions|
      ensures OlderIn(s'.meta, s'.versions[k], f)
    {
      assert OlderIn(s.meta, s.versions[if k < n then k else n - 1], f);
    }
  }

  lemma InstallExact(s: State, s': State, T: set<GroupId>, T': set<GroupId>)
    requires Inv(s) && Exact(s, T) && CompactInstall(s, s') && T' == T + Revives(s, CompactInstallStep)
    ensures Exact(s', T')
  {
    Parts(s, T);
    InstallSharp(s, s', T);
    InstallOlder(s, s', T);
    AppendedTidy(s, s', Current(s'), s.job.value.file);
    forall h, a
      ensures CoveredAt(s', T', h, a)
    {
      InstallCovered(s, s', T, h, a);
    }
    Together(s', T');
  }

  // ----- Cleanup

  lemma CleanupTidy(s: State, s': State)
    requires Tidy(s) && Cleanup(s, s')
    ensures Tidy(s')
  {
    var c := s.cleaned;
    forall k: nat
      ensures Replaced(s'.versions, k)
    {
      assert Replaced(s.versions, k);
    }
    assert Replaced(s.versions, c);
    forall f | f in s'.disk
      ensures Wanted(s', f)
    {
      assert Wanted(s, f);
      if f in s.versions[c].files {
        assert f in s'.versions[c + 1].files;
      }
    }
  }

  lemma CleanupExact(s: State, s': State, T: set<GroupId>)
    requires Inv(s) && Exact(s, T) && Cleanup(s, s')
    ensures Exact(s', T)
  {
    Parts(s, T);
    CleanupTidy(s, s');
    forall h, a
      ensures CoveredAt(s', T, h, a)
    {
      assert CoveredAt(s, T, h, a);
    }
    forall k, f | 0 <= k < |s'.versions|
      ensures OlderIn(s'.meta, s'.versions[k], f)
    {
      assert OlderIn(s.meta, s.versions[k], f);
    }
    Together(s', T);
  }

  // ----- Restart

  /** A page that recovery finds active in a group that the version had is one that the version had to keep. */
  lemma RestartKept(s: State, s': State, next: FileId, groups: map<GroupId, Group>, table: map<Id, Addr>,
                    T: set<GroupId>, a: Addr)
    requires Inv(s) && Exact(s, T) && Restart(s, s', next, groups, table)
    requires Holds(Current(s'), a) && a.group in Current(s).groups && a.group !in T
    ensures Kept(s.pages, s.dead, Current(s).first, a)
  {
    Parts(s, T);
    var v := Current(s);
    var f :| LastStore(s, v.files, a.group, f);
    assert a in s.meta[f].groups[a.group] && a !in AllDealloc(s, v.files);
    assert FileOk(s.pages, s.dead, s.meta[f], v.first);
    assert StoredAlive(s.dead, s.meta[f]);
    forall h: GroupId | h < v.first
      ensures (h, a) !in s.dead
    {
      assert CoveredAt(s, T, h, a);
    }
  }

  lemma RestartSharp(s: State, s': State, next: FileId, groups: map<GroupId, Group>, table: map<Id, Addr>,
                     T: set<GroupId>)
    requires Inv(s) && Exact(s, T) && Restart(s, s', next, groups, table)
    ensures Sharp(s', T + Revives(s, RestartStep(next, groups, table)))
  {
    Parts(s, T);
    var v' := Current(s');
    forall a | Holds(v', a) && a.group !in T + Revives(s, RestartStep(next, groups, table))
      ensures Kept(s'.pages, s'.dead, v'.first, a)
    {
      RestartKept(s, s', next, groups, table, T, a);
      RestartClean(s, s', next, groups, table, a);
      RestartGroup(s, s', next, groups, table, a.group);
    }
  }

  /** The records of the listed files are those that a restart finds. */
  lemma CoveredStays(s: State, s': State, T: set<GroupId>, T': set<GroupId>, h: GroupId, a: Addr)
    requires |s.versions| > 0 && |s'.versions| > 0 && CoveredAt(s, T, h, a)
    requires (h, a) in s'.dead ==> (h, a) in s.dead && h < Current(s).first
    requires a.group in Current(s').groups && a.group !in T' ==> a.group in Current(s).groups && a.group !in T
    requires Current(s').files == Current(s).files
    requires forall f :: f in Current(s).files && f in s.meta ==> f in s'.meta && s'.meta[f] == s.meta[f]
    ensures CoveredAt(s', T', h, a)
  {
    if Dealloced(s.meta, Current(s).files, a) {
      var f :| f in Current(s).files && f in s.meta && a in s.meta[f].dealloc;
      assert f in s'.meta && a in s'.meta[f].dealloc;
    }
  }

  lemma RestartCovered(s: State, s': State, next: FileId, groups: map<GroupId, Group>, table: map<Id, Addr>,
                       T: set<GroupId>, T': set<GroupId>)
    requires |s.versions| > 0 && Covered(s, T) && Restart(s, s', next, groups, table)
    requires T' == T + (groups.Keys - Current(s).groups.Keys)
    ensures Covered(s', T')
  {
    forall h, a
      ensures CoveredAt(s', T', h, a)
    {
      assert CoveredAt(s, T, h, a);
      CoveredStays(s, s', T, T', h, a);
    }
  }

  lemma RestartOlder(s: State, s': State, next: FileId, groups: map<GroupId, Group>, table: map<Id, Addr>)
    requires Inv(s) && AllOlder(s) && Restart(s, s', next, groups, table)
    ensures AllOlder(s')
  {
    var n := |s.versions| - 1;
    forall k, f | 0 <= k < |s'.versions|
      ensures OlderIn(s'.meta, s'.versions[k], f)
    {
      assert OlderIn(s.meta, s.versions[n], f);
      if f in s'.meta {
        forall a | a in s.meta[f].dealloc
          ensures a.group < next
        {
          DeallocNumber(s, f, a);
        }
      }
    }
  }

  lemma DeallocNumber(s: State, f: FileId, a: Addr)
    requires Inv(s) && f in s.meta && a in s.meta[f].dealloc
    ensures a in s.pages && (a.group < Current(s).first ==> exists m :: m in Current(s).files && a.group <= m)
  {
    assert FileOk(s.pages, s.dead, s.meta[f], Current(s).first);
    var g: GroupId :| g < Current(s).first && (g, a) in s.dead;
    var x := DeadIsOlder(s, g, a);
    assert Numbered(s.pages, Current(s), a);
  }

  lemma RestartTidy(s: State, s': State, next: FileId, groups: map<GroupId, Group>, table: map<Id, Addr>)
    requires Restart(s, s', next, groups, table)
    ensures Tidy(s') && JobRecords(s')
  {
    forall f | f in s'.disk
      ensures Wanted(s', f)
    {
      assert f in s'.versions[0].files;
    }
  }

  lemma RestartAlive(s: State, s': State, next: FileId, groups: map<GroupId, Group>, table: map<Id, Addr>)
    requires AllAlive(s) && Restart(s, s', next, groups, table)
    ensures AllAlive(s')
  {
    forall f | f in s'.meta
      ensures StoredAlive(s'.dead, s'.meta[f])
    {
      assert StoredAlive(s.dead, s.meta[f]);
    }
  }

  lemma RestartExact(s: State, s': State, next: FileId, groups: map<GroupId, Group>, table: map<Id, Addr>,
                     T: set<GroupId>,
                     T': set<GroupId>)
    requires Inv(s) && Exact(s, T) && Restart(s, s', next, groups, table)
    requires T' == T + Revives(s, RestartStep(next, groups, table))
    ensures Exact(s', T')
  {
    Parts(s, T);
    RestartSharp(s, s', next, groups, table, T);
    RestartOlder(s, s', next, groups, table);
    RestartTidy(s, s', next, groups, table);
    RestartAlive(s, s', next, groups, table);
    RestartCovered(s, s', next, groups, table, T, T');
    Together(s', T');
  }

  // ----- Runs

  lemma QuietExact(s: State, s': State, step: Step, T: set<GroupId>)
    requires Exact(s, T) && Next(s, s', step)
    requires step.AllocStep? || step.FinishStep? || step.SealStep? || step.InstallBufferStep? || step.TakeFileIdStep? ||
             step.PinStep? || step.UnpinStep?
    ensures Exact(s', T)
  {
    SameExact(s, s', T);
  }

  lemma PublishExact(s: State, s': State, step: Step, T: set<GroupId>)
    requires Inv(s) && Exact(s, T) && Next(s, s', step) && (step.PublishNewStep? || step.PublishOverStep?)
    ensures Exact(s', T)
  {
    assert TxnOk(s, step.t);
    PublishedExact(s, step.id, step.a, if step.PublishNewStep? then 0 else step.n, s', T);
  }

  lemma StepExact(s: State, s': State, step: Step, T: set<GroupId>, T': set<GroupId>)
    requires Inv(s) && Exact(s, T) && Next(s, s', step) && T' == T + Revives(s, step)
    ensures Exact(s', T')
  {
    match step
    case CompactInstallStep => InstallExact(s, s', T, T');
    case RestartStep(next, groups, table) => RestartExact(s, s', next, groups, table, T, T');
    case _ =>
      NothingRevived(s, step, T);
      PlainExact(s, s', step, T);
  }

  lemma NothingRevived(s: State, step: Step, T: set<GroupId>)
    requires !step.CompactInstallStep? && !step.RestartStep?
    ensures T + Revives(s, step) == T
  {
  }

  /** The steps that revive nothing. */
  lemma PlainExact(s: State, s': State, step: Step, T: set<GroupId>)
    requires Inv(s) && Exact(s, T) && Next(s, s', step) && !step.CompactInstallStep? && !step.RestartStep?
    ensures Exact(s', T)
  {
    match step
    case PublishNewStep(_, _, _) => PublishExact(s, s', step, T);
    case PublishOverStep(_, _, _, _) => PublishExact(s, s', step, T);
    case FlushStep(file) => FlushExact(s, s', file, T);
    case CompactStartStep(k, victims, file) => CompactStartExact(s, s', k, victims, file, T);
    case CleanupStep => CleanupExact(s, s', T);
    case _ => QuietExact(s, s', step, T);
  }

  lemma InitExact(s: State)
    requires Init(s)
    ensures Exact(s, {})
  {
    forall k: nat
      ensures Replaced(s.versions, k)
    {
    }
    Together(s, {});
  }

  lemma {:induction false} EveryStateExact(states: seq<State>, steps: seq<Step>, n: nat)
    requires IsRun(states, steps) && n < |states|
    ensures Exact(states[n], Revived(states, steps, n))
  {
    if n == 0 {
      InitExact(states[0]);
    } else {
      EveryStateExact(states, steps, n - 1);
      RunStepExact(states, steps, n, Revived(states, steps, n - 1));
    }
  }

  lemma RunStepExact(states: seq<State>, steps: seq<Step>, n: nat, T: set<GroupId>)
    requires IsRun(states, steps) && 0 < n < |states| && Exact(states[n - 1], T)
    ensures Exact(states[n], T + Revives(states[n - 1], steps[n - 1]))
  {
    EveryStateInv(states, steps, n - 1);
    assert Next(states[n - 1], states[n - 1 + 1], steps[n - 1]);
    StepExact(states[n - 1], states[n], steps[n - 1], T, T + Revives(states[n - 1], steps[n - 1]));
  }

  /** In every run, the active pages of every version, in groups that were not revived, are exactly the pages of
      flushed buffers that no flushed buffer deallocated. */
  lemma ActivePagesExact(states: seq<State>, steps: seq<Step>, n: nat, k: nat, a: Addr)
    requires IsRun(states, steps) && n < |states| && k < |states[n].versions| && a.group !in Revived(states, steps, n)
    ensures var s, v := states[n], states[n].versions[k];
            a.group in v.groups && a in v.groups[a.group].active <==>
              && a in s.pages && a.group < v.first
              && forall h: GroupId {:trigger (h, a) in s.dead} :: h < v.first ==> (h, a) !in s.dead
  {
    EveryStateExact(states, steps, n);
    Parts(states[n], Revived(states, steps, n));
    EveryStateInv(states, steps, n);
    var s, v := states[n], states[n].versions[k];
    assert SharpVersion(s.pages, s.dead, v, Revived(states, steps, n));
    assert VersionOk(s, v);
    assert Holds(v, a) <==> Kept(s.pages, s.dead, v.first, a);
  }

  /** Every flush in every run takes out exactly the pages that its buffer deallocated and drops groups that are
      then empty. */
  lemma FlushTakesOut(states: seq<State>, steps: seq<Step>, n: nat, a: Addr)
    requires IsRun(states, steps) && n < |steps| && steps[n].FlushStep?
    ensures |states[n].versions| > 0 && states[n + 1].versions != []
    ensures var s, v, w := states[n], Current(states[n]), Current(states[n + 1]);
            && (a.group in w.groups && a in w.groups[a.group].active <==>
                  && (v.first, a) !in s.dead
                  && ((a.group in v.groups && a in v.groups[a.group].active) || (a in s.pages && a.group == v.first)))
            && (a.group in w.groups ==> w.groups[a.group].active != {})
  {
    EveryStateInv(states, steps, n);
    assert Next(states[n], states[n + 1], steps[n]);
    FlushActive(states[n], states[n + 1], steps[n].file, a);
  }

  /** Every flush in every run lists, beside its own file, exactly the files that store a listed group or record
      a deallocation in one, and declares the others obsolete. */
  lemma FlushListsFiles(states: seq<State>, steps: seq<Step>, n: nat, f: FileId)
    requires IsRun(states, steps) && n < |steps| && steps[n].FlushStep?
    ensures |states[n].versions| > 0 && states[n + 1].versions != [] && Current(states[n]).files <= states[n].meta.Keys
    ensures var s, v, w := states[n], Current(states[n]), Current(states[n + 1]);
            && (f in w.files <==>
                  || f == steps[n].file
                  || (&& f in v.files
                      && ((exists g :: g in s.meta[f].groups && g in w.groups)
                          || (exists a :: a in s.meta[f].dealloc && a.group in w.groups))))
            && (f in w.obsoleted <==> f in v.files && f !in w.files)
  {
    EveryStateInv(states, steps, n);
    EveryStateExact(states, steps, n);
    Parts(states[n], Revived(states, steps, n));
    assert Next(states[n], states[n + 1], steps[n]);
    var s := states[n];
    assert VersionOk(s, s.versions[|s.versions| - 1]);
    assert OlderIn(s.meta, s.versions[|s.versions| - 1], f);
    FlushedFiles(s, Current(s), steps[n].file, f);
  }

  lemma FlushedFiles(s: State, v: Version, file: FileId, f: FileId)
    requires v.files <= s.meta.Keys && file !in s.meta && Below(s.meta, v) && OlderIn(s.meta, v, f)
    ensures var w := FlushVersion(s, v, file, v.first);
            && (f in w.files <==> f == file || (f in v.files && Needed(s.meta[f], w.groups)))
            && (f in w.obsoleted <==> f in v.files && f !in w.files)
  {
    var kept := Deactivate(v.groups, ForeignDealloc(s, v.first));
    var w := FlushVersion(s, v, file, v.first);
    if f in v.files {
      assert Needed(s.meta[f], kept) <==> Needed(s.meta[f], w.groups);
    }
  }

  /** In every state of every run, a file on disk is listed by a version that is not cleaned up yet, or was
      declared obsolete by one, or is the output of the running compaction. */
  lemma DiskIsTidy(states: seq<State>, steps: seq<Step>, n: nat, f: FileId)
    requires IsRun(states, steps) && n < |states| && f in states[n].disk
    ensures var s := states[n];
            || (exists k :: s.cleaned <= k < |s.versions| && f in s.versions[k].files)
            || (exists k :: s.cleaned < k < |s.versions| && f in s.versions[k].obsoleted)
            || (s.job.Some? && s.job.value.file == f)
  {
    EveryStateExact(states, steps, n);
    Parts(states[n], Revived(states, steps, n));
    assert Wanted(states[n], f);
  }

  /** The bitmaps that recovery builds agree with those of the version before the stop, in every group that was
      listed and not revived. */
  lemma BitmapsAgree(states: seq<State>, steps: seq<Step>, n: nat, a: Addr)
    requires IsRun(states, steps) && n < |steps| && steps[n].RestartStep? && |states[n].versions| > 0
    requires a.group in Current(states[n]).groups && a.group !in Revived(states, steps, n)
    ensures states[n + 1].versions != []
    ensures var v, w := Current(states[n]), Current(states[n + 1]);
            a in v.groups[a.group].active <==> a.group in w.groups && a in w.groups[a.group].active
  {
    EveryStateInv(states, steps, n);
    EveryStateExact(states, steps, n);
    Parts(states[n], Revived(states, steps, n));
    assert Next(states[n], states[n + 1], steps[n]);
    var s, s' := states[n], states[n + 1];
    var step := steps[n];
    assert SharpVersion(s.pages, s.dead, s.versions[|s.versions| - 1], Revived(states, steps, n));
    assert VersionOk(s, s.versions[|s.versions| - 1]);
    assert Holds(Current(s), a) <==> Kept(s.pages, s.dead, Current(s).first, a);
    if Holds(Current(s), a) {
      RestartHolds(s, s', step.next, step.groups, step.table, a);
    }
    if Holds(Current(s'), a) {
      RestartKept(s, s', step.next, step.groups, step.table, Revived(states, steps, n), a);
    }
  }

  // ----- What is revived

  /** A compaction makes a dead page active, in a group that was not revived before, exactly when it moves the group,
      the page was active in the version it started with, and a buffer flushed since then deallocated it. */
  lemma CompactionRevivesIff(states: seq<State>, steps: seq<Step>, n: nat, a: Addr)
    requires IsRun(states, steps) && n < |steps| && steps[n] == CompactInstallStep
    requires a.group !in Revived(states, steps, n)
    ensures var s := states[n];
            && s.job.Some? && s.job.value.from < |s.versions| && states[n + 1].versions != []
            && var v0, v, w := s.versions[s.job.value.from], Current(s), Current(states[n + 1]);
            (Holds(w, a) && !Kept(s.pages, s.dead, w.first, a) <==>
               && Moved(s, v0, s.job.value.victims, a.group) && a in v0.groups[a.group].active
               && exists h: GroupId :: v0.first <= h < v.first && (h, a) in s.dead)
  {
    var s := states[n];
    EveryStateInv(states, steps, n);
    EveryStateExact(states, steps, n);
    Parts(s, Revived(states, steps, n));
    assert Next(s, states[n + 1], steps[n]);
    var j := s.job.value;
    assert SharpVersion(s.pages, s.dead, s.versions[j.from], Revived(states, steps, n));
    assert SharpVersion(s.pages, s.dead, s.versions[|s.versions| - 1], Revived(states, steps, n));
    OrderedFirst(s.versions, j.from, |s.versions| - 1);
    RevivedBy(s, j, a);
  }

  lemma RevivedBy(s: State, j: Job, a: Addr)
    requires |s.versions| > 0 && j.from < |s.versions| && s.versions[j.from].first <= Current(s).first
    requires Holds(Current(s), a) ==> Kept(s.pages, s.dead, Current(s).first, a)
    requires Holds(s.versions[j.from], a) ==> Kept(s.pages, s.dead, s.versions[j.from].first, a)
    ensures var v0, w := s.versions[j.from], CompactVersion(s, Current(s), j);
            Holds(w, a) && !Kept(s.pages, s.dead, w.first, a) <==>
              && Moved(s, v0, j.victims, a.group) && a in v0.groups[a.group].active
              && exists h: GroupId :: v0.first <= h < w.first && (h, a) in s.dead
  {
    var v0, w := s.versions[j.from], CompactVersion(s, Current(s), j);
    if Moved(s, v0, j.victims, a.group) {
      assert Holds(w, a) <==> Holds(v0, a);
      if Holds(v0, a) && !Kept(s.pages, s.dead, w.first, a) {
        var h: GroupId :| h < w.first && (h, a) in s.dead;
        assert v0.first <= h;
      }
    } else {
      assert Holds(w, a) <==> Holds(Current(s), a);
    }
  }

  /** A restart makes a dead page active, in a group that was not revived before, exactly when the group is no longer
      listed, a listed file still stores the page, and no listed file records its deallocation. */
  lemma RestartRevivesIff(states: seq<State>, steps: seq<Step>, n: nat, a: Addr)
    requires IsRun(states, steps) && n < |steps| && steps[n].RestartStep? && a.group !in Revived(states, steps, n)
    ensures |states[n].versions| > 0 && states[n + 1].versions != []
    ensures var s, v, w := states[n], Current(states[n]), Current(states[n + 1]);
            Holds(w, a) && !Kept(s.pages, s.dead, v.first, a) <==>
              && a.group !in v.groups && !Dealloced(s.meta, v.files, a)
              && exists f :: f in v.files && f in s.meta && Stores(s.meta[f], a)
  {
    var s := states[n];
    EveryStateInv(states, steps, n);
    EveryStateExact(states, steps, n);
    Parts(s, Revived(states, steps, n));
    assert Next(s, states[n + 1], steps[n]);
    var step := steps[n];
    RestartActive(s, states[n + 1], step.next, step.groups, step.table, a);
    assert VersionOk(s, s.versions[|s.versions| - 1]);
    assert Kept(s.pages, s.dead, Current(s).first, a) ==> Holds(Current(s), a);
    if Holds(Current(states[n + 1]), a) && a.group in Current(s).groups {
      RestartKept(s, states[n + 1], step.next, step.groups, step.table, Revived(states, steps, n), a);
    }
  }

  /** The pages that recovery finds active. */
  lemma RestartActive(s: State, s': State, next: FileId, groups: map<GroupId, Group>, table: map<Id, Addr>, a: Addr)
    requires Inv(s) && Restart(s, s', next, groups, table)
    ensures Holds(Current(s'), a) <==>
            && !Dealloced(s.meta, Current(s).files, a)
            && exists f :: f in Current(s).files && f in s.meta && Stores(s.meta[f], a)
  {
    var files := Current(s).files;
    assert a in AllDealloc(s, files) <==> Dealloced(s.meta, files, a);
    if Holds(Current(s'), a) {
      var f :| LastStore(s, files, a.group, f);
      assert groups[a.group] == Group(f, s.meta[f].groups[a.group].Keys - AllDealloc(s, files));
    }
    if f :| f in files && f in s.meta && Stores(s.meta[f], a) {
      OnlyStore(s, a.group, f);
      if !Dealloced(s.meta, files, a) {
        assert a in s.meta[f].groups[a.group].Keys - AllDealloc(s, files);
      }
    }
  }

  lemma OnlyStore(s: State, g: GroupId, f: FileId)
    requires Inv(s) && f in Current(s).files && f in s.meta && g in s.meta[f].groups
    ensures LastStore(s, Current(s).files, g, f)
  {
    forall h | h in Current(s).files && h in s.meta && g in s.meta[h].groups
      ensures h == f
    {
      assert h != f ==> Apart(s.meta, f, h);
    }
  }
}
