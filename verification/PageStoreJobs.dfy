/** Flushes and compactions keep the invariant of the page store. */
module PageStoreJobs {
  import opened PageStore
  import opened PageStoreInv
  import opened PageStoreSteps

  // ----- New files and new versions

  /** A new file does not disturb the versions that are there. */
  lemma NewFileVersion(s: State, s': State, file: FileId, v: Version)
    requires VersionOk(s, v) && file !in s.meta && s'.pages == s.pages && s'.dead == s.dead
    requires s'.meta.Keys == s.meta.Keys + {file} && forall f :: f in s.meta ==> s'.meta[f] == s.meta[f]
    ensures VersionOk(s', v)
  {
    forall g | g in v.groups
      ensures GroupOk(s'.meta, v, g)
    {
      assert GroupOk(s.meta, v, g);
    }
  }

  lemma NewFileAdvanced(meta: map<FileId, FileMeta>, meta': map<FileId, FileMeta>, file: FileId, v: Version, w: Version)
    requires Advanced(meta, v, w) && file !in meta && w.files <= meta.Keys
    requires meta'.Keys == meta.Keys + {file} && forall f :: f in meta ==> meta'[f] == meta[f]
    ensures Advanced(meta', v, w)
  {
  }

  lemma NewFileFlushes(s: State, meta': map<FileId, FileMeta>, file: FileId)
    requires Flushes(s.meta, s.versions) && Versions(s) && file !in s.meta
    requires meta'.Keys == s.meta.Keys + {file} && forall f :: f in s.meta ==> meta'[f] == s.meta[f]
    ensures Flushes(meta', s.versions)
  {
    forall j, k | 0 <= j <= k < |s.versions| && FlushedOnly(s.versions, j, k)
      ensures Advanced(meta', s.versions[j], s.versions[k])
    {
      assert Advanced(s.meta, s.versions[j], s.versions[k]);
      NewFileAdvanced(s.meta, meta', file, s.versions[j], s.versions[k]);
    }
  }

  lemma LaterFirstFile(pages: map<Addr, Id>, dead: set<(GroupId, Addr)>, m: FileMeta, f: GroupId, f': GroupId)
    requires FileOk(pages, dead, m, f) && f <= f'
    ensures FileOk(pages, dead, m, f')
  {
  }

  /** One more file beside files that are as they should be. */
  lemma AddedFile(s: State, s': State, file: FileId, m: FileMeta)
    requires |s.versions| > 0 && |s'.versions| > 0 && Current(s).first <= Current(s').first
    requires Files(s) && FileOk(s'.pages, s'.dead, m, Current(s').first)
    requires s'.pages == s.pages && s'.dead == s.dead && s'.meta == s.meta[file := m]
    ensures Files(s')
  {
    forall f | f in s'.meta
      ensures FileOk(s'.pages, s'.dead, s'.meta[f], Current(s').first)
    {
      if f != file {
        LaterFirstFile(s.pages, s.dead, s.meta[f], Current(s).first, Current(s').first);
      }
    }
  }

  /** One more version at the end. */
  lemma AppendedGone(vs: seq<Version>, w: Version)
    requires Gone(vs) && |vs| > 0 && w.obsoleted !! w.files
    requires forall j :: 0 <= j < |vs| ==> vs[j].obsoleted !! w.files
    ensures Gone(vs + [w])
  {
    var vs' := vs + [w];
    forall j, k | 0 <= j <= k < |vs'|
      ensures GoneIn(vs'[j], vs'[k])
    {
      if k < |vs| {
        assert GoneIn(vs[j], vs[k]);
      }
    }
  }

  lemma AppendedOrdered(vs: seq<Version>, w: Version)
    requires Ordered(vs) && |vs| > 0 && w.first == vs[|vs| - 1].first + if w.flush then 1 else 0
    ensures Ordered(vs + [w])
  {
    forall k: nat
      ensures Successive(vs + [w], k)
    {
      assert Successive(vs, k);
    }
  }

  // ----- Flush

  lemma FlushGroups(s: State, s': State, file: FileId, g: GroupId)
    requires |s.versions| > 0 && Flush(s, s', file) && file !in s.meta && VersionOk(s, Current(s))
    requires g in FlushVersion(s, Current(s), file, Current(s).first).groups
    ensures GroupOk(s'.meta, FlushVersion(s, Current(s), file, Current(s).first), g)
  {
    var v := Current(s);
    if g in v.groups {
      assert GroupOk(s.meta, v, g);
    }
  }

  lemma FlushComplete(s: State, file: FileId, a: Addr)
    requires |s.versions| > 0 && Complete(s.pages, s.dead, Current(s))
    requires forall g :: g in Current(s).groups ==> g < Current(s).first
    requires Kept(s.pages, s.dead, Current(s).first + 1, a)
    ensures Holds(FlushVersion(s, Current(s), file, Current(s).first), a)
  {
    var v := Current(s);
    var g := v.first;
    assert (g, a) !in s.dead;
    if a.group == g {
      assert a in FlushedPages(s, g);
    } else {
      assert Kept(s.pages, s.dead, g, a);
      assert Holds(v, a);
      assert a in v.groups[a.group].active - ForeignDealloc(s, g);
    }
  }

  lemma FlushHome(s: State, s': State, file: FileId)
    requires |s.versions| > 0 && Flush(s, s', file) && file !in s.meta && VersionOk(s, Current(s))
    ensures var w := FlushVersion(s, Current(s), file, Current(s).first); Home(s'.meta, w) && Below(s'.meta, w)
  {
    var v := Current(s);
    var w := FlushVersion(s, v, file, v.first);
    forall g | g in v.groups
      ensures g < v.first
    {
      assert GroupOk(s.meta, v, g);
    }
    forall g, f | g in w.groups && f in w.files && f in s'.meta && g in s'.meta[f].groups
      ensures w.groups[g].file == f
    {
      if f != file {
        assert f in v.files && g in s.meta[f].groups && g < v.first;
      }
    }
  }

  lemma FlushVersionOk(s: State, s': State, file: FileId)
    requires |s.versions| > 0 && Flush(s, s', file) && file !in s.meta && VersionOk(s, Current(s))
    ensures VersionOk(s', FlushVersion(s, Current(s), file, Current(s).first))
  {
    var v := Current(s);
    var w := FlushVersion(s, v, file, v.first);
    FlushHome(s, s', file);
    forall g | g in w.groups
      ensures GroupOk(s'.meta, w, g)
    {
      FlushGroups(s, s', file, g);
    }
    forall g | g in v.groups
      ensures g < v.first
    {
      assert GroupOk(s.meta, v, g);
    }
    forall a | Kept(s'.pages, s'.dead, w.first, a)
      ensures Holds(w, a)
    {
      FlushComplete(s, file, a);
    }
  }

  /** A flush advances every version from which only flushes led to the current one. */
  lemma FlushAdvances(s: State, s': State, file: FileId, u: Version)
    requires |s.versions| > 0 && Flush(s, s', file) && file !in s.meta && VersionOk(s, Current(s))
    requires Advanced(s.meta, u, Current(s)) && u.files <= s.meta.Keys
    ensures Advanced(s'.meta, u, FlushVersion(s, Current(s), file, Current(s).first))
  {
  }

  lemma FlushFlushes(s: State, s': State, file: FileId)
    requires Inv(s) && Flush(s, s', file)
    ensures Flushes(s'.meta, s'.versions)
  {
    var w := FlushVersion(s, Current(s), file, Current(s).first);
    var n := |s.versions|;
    NewFileFlushes(s, s'.meta, file);
    forall j, k | 0 <= j <= k < |s'.versions| && FlushedOnly(s'.versions, j, k)
      ensures Advanced(s'.meta, s'.versions[j], s'.versions[k])
    {
      if k < n {
        assert FlushedOnly(s.versions, j, k) by {
          forall i | j < i <= k && i < |s.versions|
            ensures s.versions[i].flush
          {
            assert s'.versions[i] == s.versions[i];
          }
        }
        assert Advanced(s'.meta, s.versions[j], s.versions[k]);
      } else if j < n {
        assert FlushedOnly(s.versions, j, n - 1) by {
          forall i | j < i <= n - 1 && i < |s.versions|
            ensures s.versions[i].flush
          {
            assert s'.versions[i] == s.versions[i];
          }
        }
        assert Advanced(s.meta, s.versions[j], s.versions[n - 1]);
        assert VersionOk(s, s.versions[j]) && VersionOk(s, s.versions[n - 1]);
        FlushAdvances(s, s', file, s.versions[j]);
      } else {
        assert s'.versions[k] == w;
      }
    }
  }

  /** The file a flush writes for the buffer `f`. */
  lemma FlushedFile(s: State, m: FileMeta, f: GroupId)
    requires m == FileMeta(map[f := FlushedPages(s, f)], ForeignDealloc(s, f))
    ensures FileOk(s.pages, s.dead, m, f + 1)
  {
    forall a | a in ForeignDealloc(s, f)
      ensures !Clean(s.dead, f + 1, a)
    {
      assert (f, a) in s.dead;
    }
  }

  lemma FlushFiles(s: State, s': State, file: FileId)
    requires |s.versions| > 0 && Files(s) && Flush(s, s', file) && file !in s.meta
    ensures Files(s')
  {
    var f := Current(s).first;
    var m := FileMeta(map[f := FlushedPages(s, f)], ForeignDealloc(s, f));
    FlushedFile(s, m, f);
    AddedFile(s, s', file, m);
  }

  lemma FlushVersions(s: State, s': State, file: FileId)
    requires Versions(s) && |s.versions| > 0 && Flush(s, s', file) && file !in s.meta
    ensures Versions(s')
  {
    assert VersionOk(s, s.versions[|s.versions| - 1]);
    FlushVersionOk(s, s', file);
    forall k | 0 <= k < |s'.versions|
      ensures VersionOk(s', s'.versions[k])
    {
      if k < |s.versions| {
        assert VersionOk(s, s.versions[k]);
        NewFileVersion(s, s', file, s.versions[k]);
      }
    }
  }

  lemma FlushGone(s: State, s': State, file: FileId)
    requires Versions(s) && Gone(s.versions) && |s.versions| > 0 && Flush(s, s', file) && file !in s.meta
    ensures Gone(s'.versions)
  {
    var v := Current(s);
    var w := FlushVersion(s, v, file, v.first);
    forall j | 0 <= j < |s.versions|
      ensures s.versions[j].obsoleted !! w.files
    {
      assert GoneIn(s.versions[j], s.versions[|s.versions| - 1]);
      assert VersionOk(s, s.versions[j]);
    }
    assert VersionOk(s, s.versions[|s.versions| - 1]);
    AppendedGone(s.versions, w);
  }

  lemma FlushDisk(s: State, s': State, file: FileId)
    requires OnDisk(s) && s.cleaned < |s.versions| && Flush(s, s', file) && file !in s.meta
    ensures OnDisk(s')
  {
    forall k | s'.cleaned <= k < |s'.versions|
      ensures s'.versions[k].files <= s'.disk
    {
      if k < |s.versions| {
        assert s.versions[k].files <= s.disk;
      } else {
        assert Current(s).files <= s.disk;
      }
    }
  }

  lemma FlushTxns(s: State, s': State, file: FileId)
    requires |s.versions| > 0 && Txns(s) && Flush(s, s', file) && file !in s.meta
    ensures Txns(s')
  {
    forall t | t in s'.txns
      ensures TxnOk(s', t)
    {
      assert TxnOk(s, t);
    }
  }

  lemma AppendedGuards(s: State, s': State)
    requires Guards(s) && s'.guards == s.guards && s'.pages == s.pages && s'.dead == s.dead && s'.cleaned == s.cleaned
    requires s.versions <= s'.versions
    ensures Guards(s')
  {
    forall g | g in s'.guards
      ensures GuardOk(s', s'.guards[g])
    {
      assert GuardOk(s, s.guards[g]);
    }
  }

  lemma FlushJob(s: State, s': State, file: FileId)
    requires Inv(s) && Flush(s, s', file) && s.job.Some?
    ensures JobOk(s', s'.job.value)
  {
    var j := s.job.value;
    var v := s.versions[j.from];
    assert VersionOk(s, v);
    assert VersionOk(s, s.versions[|s.versions| - 1]);
    forall k | 0 <= k < |s'.versions|
      ensures j.file !in s'.versions[k].files && j.file !in s'.versions[k].obsoleted
    {
      var k0 := if k < |s.versions| then k else |s.versions| - 1;
      assert j.file !in s.versions[k0].files && j.file !in s.versions[k0].obsoleted;
    }
    forall g
      ensures Moved(s', v, j.victims, g) <==> Moved(s, v, j.victims, g)
    {
    }
  }

  lemma FlushSingle(s: State, s': State, file: FileId)
    requires Inv(s) && Flush(s, s', file)
    ensures Single(s'.meta, Current(s'))
  {
    assert VersionOk(s, s.versions[|s.versions| - 1]);
    var m := FileMeta(map[Current(s).first := FlushedPages(s, Current(s).first)], ForeignDealloc(s, Current(s).first));
    FlushedSingle(s.meta, Current(s), m, Current(s'), file);
  }

  /** The new file stores one group, and the listed files store older ones. */
  lemma FlushedSingle(meta: map<FileId, FileMeta>, v: Version, m: FileMeta, w: Version, file: FileId)
    requires Single(meta, v) && Below(meta, v) && v.files <= meta.Keys && file !in meta
    requires w.files <= v.files + {file} && m.groups.Keys == {v.first}
    ensures Single(meta[file := m], w)
  {
    forall f, h | f in w.files && h in w.files && f != h
      ensures Apart(meta[file := m], f, h)
    {
      assert f != file && h != file ==> Apart(meta, f, h);
    }
  }

  lemma FlushNumbers(s: State, s': State, file: FileId)
    requires Inv(s) && Flush(s, s', file)
    ensures Numbers(s')
  {
    FlushSingle(s, s', file);
    forall a
      ensures Numbered(s'.pages, Current(s'), a)
    {
      assert file in Current(s').files && Current(s).first <= file;
    }
    forall f
      ensures FileNumber(s'.meta, f, s'.nextFile)
    {
      assert FileNumber(s.meta, f, s.nextFile);
    }
  }

  lemma TakeFileIdInv(s: State, s': State)
    requires Inv(s) && TakeFileId(s, s')
    ensures Inv(s')
  {
    assert FileNumber(s.meta, s.nextFile, s.nextFile);
    forall f
      ensures FileNumber(s'.meta, f, s'.nextFile)
    {
      assert FileNumber(s.meta, f, s.nextFile);
    }
    forall a
      ensures Numbered(s'.pages, Current(s'), a)
    {
      assert Numbered(s.pages, Current(s), a);
    }
    SameTxns(s, s');
    SameChains(s, s');
    SameVersions(s, s');
    AppendedGuards(s, s');
    PublishedJob(s, s');
  }

  lemma FlushInv(s: State, s': State, file: FileId)
    requires Inv(s) && Flush(s, s', file)
    ensures Inv(s')
  {
    FlushTxns(s, s', file);
    FlushNumbers(s, s', file);
    AppendedOrdered(s.versions, FlushVersion(s, Current(s), file, Current(s).first));
    SameChains(s, s');
    FlushFiles(s, s', file);
    FlushVersions(s, s', file);
    FlushGone(s, s', file);
    FlushFlushes(s, s', file);
    FlushDisk(s, s', file);
    AppendedGuards(s, s');
    if s.job.Some? {
      FlushJob(s, s', file);
    }
  }

  // ----- Compaction

  /** The compaction finds every page table it needs: the "Must exists" panics are unreachable. */
  lemma MovedHome(s: State, v: Version, victims: set<FileId>, g: GroupId)
    requires VersionOk(s, v) && victims <= v.files && Moved(s, v, victims, g)
    ensures v.groups[g].file in victims && v.groups[g].file in s.meta && g in s.meta[v.groups[g].file].groups
    ensures v.groups[g].active <= MovedPages(s, v, g).Keys
  {
    assert GroupOk(s.meta, v, g);
  }

  lemma CompactedGroup(s: State, v: Version, victims: set<FileId>, g: GroupId)
    requires |s.versions| > 0 && Files(s) && VersionOk(s, v) && victims <= v.files && v.first <= Current(s).first
    requires g in CompactedMeta(s, v, victims).groups
    ensures g < Current(s).first
    ensures var m := CompactedMeta(s, v, victims);
            forall a {:trigger a in m.groups[g]} :: a in m.groups[g] ==>
              a.group == g && a in s.pages && m.groups[g][a] == s.pages[a]
  {
    assert GroupOk(s.meta, v, g);
    MovedHome(s, v, victims, g);
    assert FileOk(s.pages, s.dead, s.meta[v.groups[g].file], Current(s).first);
  }

  lemma CompactedDealloc(s: State, v: Version, victims: set<FileId>, a: Addr)
    requires |s.versions| > 0 && Files(s) && a in CompactedMeta(s, v, victims).dealloc
    ensures !Clean(s.dead, Current(s).first, a)
  {
    var f :| f in victims && f in s.meta && a in s.meta[f].dealloc;
    assert FileOk(s.pages, s.dead, s.meta[f], Current(s).first);
  }

  lemma CompactedFile(s: State, v: Version, victims: set<FileId>)
    requires |s.versions| > 0 && Files(s) && VersionOk(s, v) && victims <= v.files && v.first <= Current(s).first
    ensures FileOk(s.pages, s.dead, CompactedMeta(s, v, victims), Current(s).first)
  {
    var m := CompactedMeta(s, v, victims);
    forall g | g in m.groups
      ensures g < Current(s).first
      ensures forall a {:trigger a in m.groups[g]} :: a in m.groups[g] ==>
              a.group == g && a in s.pages && m.groups[g][a] == s.pages[a]
    {
      CompactedGroup(s, v, victims, g);
    }
    forall a | a in m.dealloc
      ensures !Clean(s.dead, Current(s).first, a)
    {
      CompactedDealloc(s, v, victims, a);
    }
  }

  lemma StartedJob(s: State, s': State, k: nat, victims: set<FileId>, file: FileId)
    requires Inv(s) && CompactStart(s, s', k, victims, file)
    ensures JobOk(s', s'.job.value)
  {
    var v := s.versions[k];
    assert VersionOk(s, v);
    NewIdIsFree(s);
    forall i | 0 <= i < |s'.versions|
      ensures file !in s'.versions[i].files && file !in s'.versions[i].obsoleted
    {
      assert VersionOk(s, s.versions[i]);
    }
    forall g
      ensures Moved(s', v, victims, g) <==> Moved(s, v, victims, g)
    {
    }
    forall g | Moved(s', v, victims, g)
      ensures g in s'.meta[file].groups && v.groups[g].active <= s'.meta[file].groups[g].Keys
    {
      MovedHome(s, v, victims, g);
    }
  }

  lemma CompactStartFiles(s: State, s': State, k: nat, victims: set<FileId>, file: FileId)
    requires Inv(s) && CompactStart(s, s', k, victims, file)
    ensures Files(s')
  {
    var v := s.versions[k];
    assert VersionOk(s, v);
    OrderedFirst(s.versions, k, |s.versions| - 1);
    CompactedFile(s, v, victims);
    AddedFile(s, s', file, CompactedMeta(s, v, victims));
  }

  lemma CompactStartVersions(s: State, s': State, k: nat, victims: set<FileId>, file: FileId)
    requires Versions(s) && CompactStart(s, s', k, victims, file) && file !in s.meta
    ensures Versions(s')
  {
    forall i | 0 <= i < |s'.versions|
      ensures VersionOk(s', s'.versions[i])
    {
      assert VersionOk(s, s.versions[i]);
      NewFileVersion(s, s', file, s.versions[i]);
    }
  }

  lemma CompactStartInv(s: State, s': State, k: nat, victims: set<FileId>, file: FileId)
    requires Inv(s) && CompactStart(s, s', k, victims, file)
    ensures Inv(s')
  {
    SameTxns(s, s');
    SameChains(s, s');
    CompactStartFiles(s, s', k, victims, file);
    NewIdIsFree(s);
    CompactStartVersions(s, s', k, victims, file);
    NewFileFlushes(s, s'.meta, file);
    AppendedGuards(s, s');
    StartedJob(s, s', k, victims, file);
    CompactStartNumbers(s, s', k, victims, file);
  }

  lemma NewIdIsFree(s: State)
    requires |s.versions| > 0 && Numbers(s)
    ensures s.nextFile !in s.meta
  {
    assert FileNumber(s.meta, s.nextFile, s.nextFile);
  }

  /** The output has a larger id than its victims, and so than the groups it takes over. */
  lemma CompactStartNumbers(s: State, s': State, k: nat, victims: set<FileId>, file: FileId)
    requires Inv(s) && CompactStart(s, s', k, victims, file)
    ensures Numbers(s')
  {
    var v := s.versions[k];
    assert VersionOk(s, v) && VersionOk(s, s.versions[|s.versions| - 1]);
    NewIdIsFree(s);
    VictimNumbers(s, victims);
    CompactedNumbers(s, v, victims, file);
    AddedNumbers(s, s', file, CompactedMeta(s, v, victims));
  }

  lemma AddedNumbers(s: State, s': State, file: FileId, m: FileMeta)
    requires |s.versions| > 0 && Numbers(s) && Current(s).files <= s.meta.Keys && file == s.nextFile && file !in s.meta
    requires forall g :: g in m.groups ==> g <= file
    requires s'.meta == s.meta[file := m] && s'.pages == s.pages && s'.versions == s.versions
    requires s'.nextFile == file + 1 && s'.flushFile == s.flushFile
    requires s'.job.Some? ==> forall f :: f in s'.job.value.victims ==> f < s'.job.value.file
    ensures Numbers(s')
  {
    forall f
      ensures FileNumber(s'.meta, f, s'.nextFile)
    {
      assert FileNumber(s.meta, f, s.nextFile);
    }
    forall a
      ensures Numbered(s'.pages, Current(s'), a)
    {
      assert Numbered(s.pages, Current(s), a);
    }
    SingleStays(s.meta, Current(s), s'.meta, Current(s'));
  }

  lemma VictimNumbers(s: State, victims: set<FileId>)
    requires |s.versions| > 0 && Numbers(s) && victims <= s.meta.Keys
    ensures forall f :: f in victims ==> f < s.nextFile
  {
    forall f | f in victims
      ensures f < s.nextFile
    {
      assert FileNumber(s.meta, f, s.nextFile);
    }
  }

  lemma CompactedNumbers(s: State, v: Version, victims: set<FileId>, file: FileId)
    requires |s.versions| > 0 && Numbers(s) && victims <= s.meta.Keys && file == s.nextFile
    ensures forall g :: g in CompactedMeta(s, v, victims).groups ==> g <= file
  {
    forall g | g in CompactedMeta(s, v, victims).groups
      ensures g <= file
    {
      var f :| f in victims && f in s.meta && g in s.meta[f].groups;
      assert FileNumber(s.meta, f, s.nextFile);
    }
  }

  /** The groups of the compacted version, each in a listed file. */
  lemma CompactGroups(s: State, j: Job, g: GroupId)
    requires |s.versions| > 0 && JobOk(s, j) && VersionOk(s, Current(s)) && VersionOk(s, s.versions[j.from])
    requires Advanced(s.meta, s.versions[j.from], Current(s))
    requires g in CompactVersion(s, Current(s), j).groups
    ensures GroupOk(s.meta, CompactVersion(s, Current(s), j), g)
  {
    var v, v0 := Current(s), s.versions[j.from];
    if Moved(s, v0, j.victims, g) {
      assert GroupOk(s.meta, v0, g);
    } else {
      assert GroupOk(s.meta, v, g);
    }
  }

  lemma CompactHome(s: State, j: Job, g: GroupId, f: FileId)
    requires |s.versions| > 0 && JobOk(s, j) && VersionOk(s, Current(s)) && VersionOk(s, s.versions[j.from])
    requires Advanced(s.meta, s.versions[j.from], Current(s))
    requires var w := CompactVersion(s, Current(s), j);
             g in w.groups && f in w.files && f in s.meta && g in s.meta[f].groups
    ensures CompactVersion(s, Current(s), j).groups[g].file == f
  {
    var v, v0 := Current(s), s.versions[j.from];
    if f == j.file {
      assert Moved(s, v0, j.victims, g);
    } else if Moved(s, v0, j.victims, g) {
      MovedElsewhere(s, j, g, f);
    }
  }

  /** A moved group is in no listed file besides the victims. */
  lemma MovedElsewhere(s: State, j: Job, g: GroupId, f: FileId)
    requires |s.versions| > 0 && JobOk(s, j) && VersionOk(s, s.versions[j.from])
    requires Advanced(s.meta, s.versions[j.from], Current(s)) && Moved(s, s.versions[j.from], j.victims, g)
    requires f in Current(s).files && f in s.meta && f !in j.victims
    ensures g !in s.meta[f].groups
  {
    var v0 := s.versions[j.from];
    MovedHome(s, v0, j.victims, g);
    assert GroupOk(s.meta, v0, g);
  }

  lemma CompactComplete(s: State, j: Job, a: Addr)
    requires |s.versions| > 0 && JobOk(s, j) && VersionOk(s, Current(s)) && VersionOk(s, s.versions[j.from])
    requires Advanced(s.meta, s.versions[j.from], Current(s))
    requires Kept(s.pages, s.dead, Current(s).first, a)
    ensures Holds(CompactVersion(s, Current(s), j), a)
  {
    var v, v0 := Current(s), s.versions[j.from];
    assert Holds(v, a);
    if Moved(s, v0, j.victims, a.group) {
      assert GroupOk(s.meta, v0, a.group);
      assert Kept(s.pages, s.dead, v0.first, a);
      assert Holds(v0, a);
    }
  }

  lemma CompactVersionOk(s: State, j: Job)
    requires |s.versions| > 0 && JobOk(s, j) && VersionOk(s, Current(s)) && VersionOk(s, s.versions[j.from])
    requires Advanced(s.meta, s.versions[j.from], Current(s))
    ensures VersionOk(s, CompactVersion(s, Current(s), j))
  {
    var v, v0 := Current(s), s.versions[j.from];
    var w := CompactVersion(s, v, j);
    forall g | g in w.groups
      ensures GroupOk(s.meta, w, g)
    {
      CompactGroups(s, j, g);
    }
    forall g, f | g in w.groups && f in w.files && f in s.meta && g in s.meta[f].groups
      ensures w.groups[g].file == f
    {
      CompactHome(s, j, g, f);
    }
    forall f, g | f in w.files && f in s.meta && g in s.meta[f].groups
      ensures g < w.first
    {
      if f == j.file {
        assert Moved(s, v0, j.victims, g);
        assert GroupOk(s.meta, v0, g);
      }
    }
    forall a | Kept(s.pages, s.dead, w.first, a)
      ensures Holds(w, a)
    {
      CompactComplete(s, j, a);
    }
  }

  lemma InstallVersions(s: State, s': State)
    requires Inv(s) && CompactInstall(s, s')
    ensures Versions(s')
  {
    var j := s.job.value;
    var n := |s.versions|;
    assert VersionOk(s, s.versions[n - 1]) && VersionOk(s, s.versions[j.from]);
    assert Advanced(s.meta, s.versions[j.from], s.versions[n - 1]);
    CompactVersionOk(s, j);
    forall k | 0 <= k < |s'.versions|
      ensures VersionOk(s', s'.versions[k])
    {
      var v := s'.versions[k];
      assert k < n ==> VersionOk(s, s.versions[k]);
      assert VersionOk(s, v);
    }
  }

  lemma InstallGone(s: State, s': State)
    requires Inv(s) && CompactInstall(s, s')
    ensures Gone(s'.versions) && OnDisk(s')
  {
    var j := s.job.value;
    var n := |s.versions|;
    var w := CompactVersion(s, Current(s), j);
    forall i | 0 <= i < n
      ensures s.versions[i].obsoleted !! w.files
    {
      assert GoneIn(s.versions[i], s.versions[n - 1]);
    }
    AppendedGone(s.versions, w);
    assert s.versions[n - 1].files <= s.disk;
  }

  lemma InstallFlushes(s: State, s': State)
    requires Inv(s) && CompactInstall(s, s')
    ensures Flushes(s'.meta, s'.versions)
  {
    var n := |s.versions|;
    forall j | 0 <= j < n
      ensures !FlushedOnly(s'.versions, j, n)
    {
      assert !s'.versions[n].flush;
    }
    forall j, k | 0 <= j <= k < |s'.versions| && FlushedOnly(s'.versions, j, k)
      ensures Advanced(s'.meta, s'.versions[j], s'.versions[k])
    {
      if k < n {
        assert FlushedOnly(s.versions, j, k) by {
          forall i | j < i <= k && i < |s.versions|
            ensures s.versions[i].flush
          {
            assert s'.versions[i] == s.versions[i];
          }
        }
        assert Advanced(s.meta, s.versions[j], s.versions[k]);
      }
    }
  }

  lemma CompactInstallInv(s: State, s': State)
    requires Inv(s) && CompactInstall(s, s')
    ensures Inv(s')
  {
    SameTxns(s, s');
    AppendedOrdered(s.versions, CompactVersion(s, Current(s), s.job.value));
    SameChains(s, s');
    InstallVersions(s, s');
    InstallGone(s, s');
    InstallFlushes(s, s');
    AppendedGuards(s, s');
    InstallNumbers(s, s');
  }

  /** The output takes the place of its victims as the file with the largest id. */
  lemma InstallNumbers(s: State, s': State)
    requires Inv(s) && CompactInstall(s, s')
    ensures Numbers(s')
  {
    var j := s.job.value;
    InstallSingle(s, s');
    forall a
      ensures Numbered(s'.pages, Current(s'), a)
    {
      assert Numbered(s.pages, Current(s), a);
      if a in s.pages && a.group < Current(s).first {
        var f :| f in Current(s).files && a.group <= f;
        assert (if f in j.victims then j.file else f) in Current(s').files;
      }
    }
    forall f
      ensures FileNumber(s'.meta, f, s'.nextFile)
    {
      assert FileNumber(s.meta, f, s.nextFile);
    }
  }

  lemma InstallSingle(s: State, s': State)
    requires Inv(s) && CompactInstall(s, s')
    ensures Single(s'.meta, Current(s'))
  {
    var j := s.job.value;
    var n := |s.versions|;
    assert VersionOk(s, s.versions[j.from]);
    assert Advanced(s.meta, s.versions[j.from], s.versions[n - 1]);
    forall f | f in Current(s).files && f in s.meta && f !in j.victims
      ensures Apart(s.meta, f, j.file) && Apart(s.meta, j.file, f)
    {
      OutputApart(s, j, f);
    }
    forall f, h | f in Current(s').files && h in Current(s').files && f != h
      ensures Apart(s'.meta, f, h)
    {
      assert f != j.file && h != j.file ==> Apart(s.meta, f, h);
    }
  }

  lemma OutputApart(s: State, j: Job, f: FileId)
    requires |s.versions| > 0 && JobOk(s, j) && VersionOk(s, s.versions[j.from])
    requires Advanced(s.meta, s.versions[j.from], Current(s))
    requires f in Current(s).files && f in s.meta && f !in j.victims
    ensures Apart(s.meta, f, j.file) && Apart(s.meta, j.file, f)
  {
    forall g | g in s.meta[j.file].groups
      ensures g !in s.meta[f].groups
    {
      assert Moved(s, s.versions[j.from], j.victims, g);
      MovedElsewhere(s, j, g, f);
    }
  }
}
