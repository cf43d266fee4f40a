/**
 The manifest: version edits, rolling, replay and file ids
 (photondb/src/page_store/manifest.rs, recover.rs, jobs/flush.rs, jobs/reclaim.rs).
 */
module Manifest {

  type FileId = nat

  /** A version edit: files that are new and files that are deleted. */
  datatype Edit = Edit(added: seq<FileId>, deleted: seq<FileId>)

  /** The summary that recovery computes from a list of edits. */
  datatype Summary = Summary(active: set<FileId>, obsoleted: set<FileId>)

  function Apply(s: Summary, e: Edit): Summary {
    var deleted := set f | f in e.deleted;
    Summary(s.active + (set f | f in e.added) - deleted, s.obsoleted + deleted)
  }

  function Replay(edits: seq<Edit>): Summary {
    if edits == [] then Summary({}, {}) else Apply(Replay(edits[..|edits| - 1]), edits[|edits| - 1])
  }

  /** `apply_version_edits`. */
  method ApplyVersionEdits(edits: seq<Edit>) returns (summary: Summary)
    ensures summary == Replay(edits)
  {
    var active: set<FileId>, obsoleted: set<FileId> := {}, {};
    for i := 0 to |edits|
      invariant Summary(active, obsoleted) == Replay(edits[..i])
    {
      var e := edits[i];
      ghost var before := Summary(active, obsoleted);
      for j := 0 to |e.added|
        invariant active == before.active + (set f | f in e.added[..j]) && obsoleted == before.obsoleted
      {
        active := active + {e.added[j]};
      }
      assert e.added[..|e.added|] == e.added;
      ghost var grown := active;
      for j := 0 to |e.deleted|
        invariant active == grown - (set f | f in e.deleted[..j]) &&
                  obsoleted == before.obsoleted + (set f | f in e.deleted[..j])
      {
        active := active - {e.deleted[j]};
        obsoleted := obsoleted + {e.deleted[j]};
      }
      assert e.deleted[..|e.deleted|] == e.deleted;
      assert edits[..i + 1][..i] == edits[..i];
    }
    assert edits[..|edits|] == edits;
    summary := Summary(active, obsoleted);
  }

  /** The largest id, 0 for the empty set. */
  ghost function Largest(s: set<FileId>): (m: FileId)
    ensures forall x :: x in s ==> x <= m
    ensures s != {} ==> m in s
    ensures s == {} ==> m == 0
  {
    if s == {} then 0
    else
      var x :| x in s;
      var m := Largest(s - {x});
      assert forall y :: y in s ==> y == x || y in s - {x};
      if s == {x} then x else if x <= m then m else x
  }

  /** `FilesSummary::next_file_id`. */
  ghost function NextId(s: Summary): FileId {
    Largest(s.active + s.obsoleted) + 1
  }

  ghost function IdsOf(q: seq<FileId>): set<FileId> {
    set f | f in q
  }

  /** Every id that the edits mention. */
  ghost function Known(edits: seq<Edit>): set<FileId> {
    Replay(edits).active + Replay(edits).obsoleted
  }

  ghost predicate Below(ids: set<FileId>, n: FileId) {
    forall x {:trigger x in ids} :: x in ids ==> x < n
  }

  lemma KnownRecorded(edits: seq<Edit>, e: Edit, snapshot: Edit, rolled: bool, files: set<FileId>, n: FileId)
    requires Replay(edits).active == files && Lists(snapshot.added, files) && IdsOf(snapshot.deleted) !! files
    requires Below(Known(edits), n) && Below(IdsOf(e.added) + IdsOf(e.deleted) + IdsOf(snapshot.deleted), n)
    ensures Below(Known(Recorded(edits, e, snapshot, rolled)), n)
  {
    ReplayRecorded(edits, e, snapshot, rolled, FileSet(files, IdsOf(snapshot.deleted)));
    var more := IdsOf(e.added) + IdsOf(e.deleted) + IdsOf(snapshot.deleted);
    forall x | x in Known(Recorded(edits, e, snapshot, rolled))
      ensures x < n
    {
      assert x in Known(edits) || x in more;
    }
  }

  /** The manifest object: the edits of the current manifest file, its size, and the id counter.  `files` is
      the file set of the current version, `issued` every id that was handed out. */
  class ManifestLog {
    const maxSize: nat
    var nextFileId: FileId
    var edits: seq<Edit>
    var size: nat
    var open: bool
    ghost var files: set<FileId>
    ghost var issued: set<FileId>

    /** The replay of the current manifest is the current file set, and no id that was handed out or that
        the manifest mentions will be handed out again. */
    ghost predicate Valid()
      reads this
    {
      && Replay(edits).active == files
      && Below(issued, nextFileId) && Below(Known(edits), nextFileId)
    }

    /** `open` and the reset of the id counter by recovery. */
    constructor (maxSize: nat, edits: seq<Edit>, next: FileId)
      requires next == NextId(Replay(edits))
      ensures Valid() && this.maxSize == maxSize && this.edits == edits && issued == {} && !open
    {
      this.maxSize := maxSize;
      this.edits, size, open, nextFileId := edits, 0, false, next;
      files, issued := Replay(edits).active, {};
    }

    /** `next_file_id`: an id that was never handed out and that the manifest does not mention. */
    method NextFileId() returns (id: FileId)
      requires Valid()
      modifies `nextFileId, `issued
      ensures Valid() && id !in old(issued) && id !in Known(edits) && issued == old(issued) + {id}
      ensures Below(old(issued), id) && Below(Known(edits), id)
    {
      id := nextFileId;
      nextFileId := nextFileId + 1;
      issued := issued + {id};
    }

    /** `record_version_edit`: append to the current file, or start a new one with a snapshot when
        no file is open or the file is too large.  Either way the manifest replays to the edited file set. */
    method RecordVersionEdit(e: Edit, written: nat, snapshot: Edit, baseWritten: nat) returns (rolled: bool)
      requires Valid() && Lists(snapshot.added, files) && IdsOf(snapshot.deleted) !! files
      requires Below(IdsOf(e.added) + IdsOf(e.deleted) + IdsOf(snapshot.deleted), nextFileId)
      modifies `edits, `size, `open, `files
      ensures Valid() && files == old(files) + IdsOf(e.added) - IdsOf(e.deleted)
      ensures Replay(edits).active == old(Replay(edits).active) + IdsOf(e.added) - IdsOf(e.deleted)
      ensures IdsOf(e.deleted) <= Replay(edits).obsoleted
      ensures rolled <==> !old(open) || old(size) > maxSize
      ensures if rolled then edits == [snapshot, e] else old(edits) <= edits
      ensures open && size <= (if old(open) then maxSize else 0) + baseWritten + written
    {
      rolled := !open || size > maxSize;
      ReplayRecorded(edits, e, snapshot, rolled, FileSet(files, IdsOf(snapshot.deleted)));
      KnownRecorded(edits, e, snapshot, rolled, files, nextFileId);
      if rolled {
        edits := [snapshot];
        edits := edits + [e];
        size := baseWritten + written;
      } else {
        edits := edits + [e];
        size := size + written;
      }
      open := true;
      files := files + IdsOf(e.added) - IdsOf(e.deleted);
    }
  }

  function Recorded(edits: seq<Edit>, e: Edit, snapshot: Edit, rolled: bool): seq<Edit> {
    if rolled then [snapshot, e] else edits + [e]
  }

  // ----- The jobs

  /** What the manifest needs to know of the current version: its files, and those it made obsolete. */
  datatype FileSet = FileSet(files: set<FileId>, obsoleted: set<FileId>)

  datatype Compaction = Idle | Running(file: FileId, victims: set<FileId>)
  datatype Flushing = Waiting | Building(file: FileId)

  /** `recorded` holds every file id ever recorded, `group` is the next buffer to flush and `flushed`
      every group id ever recorded. */
  datatype State = State(
    nextId: FileId,
    edits: seq<Edit>,
    open: bool,
    version: FileSet,
    flush: Flushing,
    compaction: Compaction,
    group: nat,
    recorded: set<FileId>,
    flushed: set<nat>)

  ghost predicate Lists(q: seq<FileId>, s: set<FileId>) {
    forall x :: x in q <==> x in s
  }

  /** `version_snapshot`: the files of the version, and the files that it made obsolete. */
  ghost predicate Snapshot(v: FileSet, e: Edit) {
    Lists(e.added, v.files) && Lists(e.deleted, v.obsoleted)
  }

  ghost predicate FlushAlloc(s: State, s': State) {
    s.flush == Waiting && s' == s.(nextId := s.nextId + 1, flush := Building(s.nextId))
  }

  /** The flush job records its file and the files it makes obsolete, and installs the version. */
  ghost predicate FlushRecord(s: State, s': State, obsoleted: set<FileId>, e: Edit, snapshot: Edit, rolled: bool) {
    && s.flush.Building? && obsoleted <= s.version.files
    && e.added == [s.flush.file] && Lists(e.deleted, obsoleted) && Snapshot(s.version, snapshot)
    && (!s.open ==> rolled)
    && s' == s.(edits := Recorded(s.edits, e, snapshot, rolled), open := true,
                version := FileSet(s.version.files - obsoleted + {s.flush.file}, obsoleted),
                flush := Waiting, group := s.group + 1,
                recorded := s.recorded + {s.flush.file}, flushed := s.flushed + {s.group})
  }

  /** The reclaim job picks victims from the version it holds, which may be older than the current
      one; some of them may be obsolete by now. */
  ghost predicate CompactAlloc(s: State, s': State, victims: set<FileId>) {
    && s.compaction == Idle && victims <= s.recorded
    && s' == s.(nextId := s.nextId + 1, compaction := Running(s.nextId, victims))
  }

  ghost predicate CompactRecord(s: State, s': State, e: Edit, snapshot: Edit, rolled: bool) {
    && s.compaction.Running?
    && e.added == [s.compaction.file] && Lists(e.deleted, s.compaction.victims) && Snapshot(s.version, snapshot)
    && (!s.open ==> rolled)
    && s' == s.(edits := Recorded(s.edits, e, snapshot, rolled), open := true,
                version := FileSet(s.version.files - s.compaction.victims + {s.compaction.file}, s.compaction.victims),
                compaction := Idle,
                recorded := s.recorded + {s.compaction.file})
  }

  /** A crash and `recover`: the jobs are gone, ids and buffers continue after everything recorded. */
  ghost predicate Restart(s: State, s': State) {
    var r := Replay(s.edits);
    s' == s.(nextId := NextId(r), open := false, version := FileSet(r.active, {}),
             flush := Waiting, compaction := Idle, group := NextId(r))
  }

  ghost predicate Init(s: State) {
    s == State(1, [], false, FileSet({}, {}), Waiting, Idle, 1, {}, {})
  }

  datatype Step =
    | FlushAllocStep
    | FlushRecordStep(obsoleted: set<FileId>, e: Edit, snapshot: Edit, rolled: bool)
    | CompactAllocStep(victims: set<FileId>)
    | CompactRecordStep(e: Edit, snapshot: Edit, rolled: bool)
    | RestartStep

  ghost predicate Next(s: State, s': State, step: Step) {
    match step
    case FlushAllocStep => FlushAlloc(s, s')
    case FlushRecordStep(o, e, snapshot, rolled) => FlushRecord(s, s', o, e, snapshot, rolled)
    case CompactAllocStep(victims) => CompactAlloc(s, s', victims)
    case CompactRecordStep(e, snapshot, rolled) => CompactRecord(s, s', e, snapshot, rolled)
    case RestartStep => Restart(s, s')
  }

  // ----- The invariant

  /** The newest recorded file is still listed while a job with an older id has not recorded. */
  ghost predicate NewestListed(s: State) {
    && (s.flush.Building? && s.flush.file < Largest(s.recorded) ==> Largest(s.recorded) in s.version.files)
    && (s.compaction.Running? && s.compaction.file < Largest(s.recorded) ==> Largest(s.recorded) in s.version.files)
  }

  /** The manifest replays to the current version and mentions the newest id that was recorded. */
  ghost predicate Replayed(s: State) {
    && Replay(s.edits).active == s.version.files
    && s.version.files <= s.recorded && s.version.obsoleted <= s.recorded && s.version.obsoleted !! s.version.files
    && Replay(s.edits).obsoleted <= s.recorded
    && (s.recorded != {} ==> Largest(s.recorded) in Replay(s.edits).active + Replay(s.edits).obsoleted)
  }

  ghost predicate FlushIds(s: State) {
    s.flush.Building? ==> s.flush.file < s.nextId && s.flush.file !in s.recorded && s.group <= s.flush.file
  }

  ghost predicate CompactionIds(s: State) {
    s.compaction.Running? ==>
      && s.compaction.file < s.nextId && s.compaction.file !in s.recorded
      && (forall x :: x in s.compaction.victims ==> x < s.compaction.file)
      && s.compaction.victims <= s.recorded
  }

  ghost predicate BothIds(s: State) {
    s.flush.Building? && s.compaction.Running? ==>
      && s.flush.file != s.compaction.file
      && (Largest(s.recorded) <= s.flush.file || Largest(s.recorded) <= s.compaction.file)
  }

  ghost predicate Ids(s: State) {
    && (forall x :: x in s.recorded ==> x < s.nextId)
    && FlushIds(s) && CompactionIds(s) && BothIds(s)
    && s.group <= s.nextId
    && (forall g :: g in s.flushed ==> g <= Largest(s.recorded))
  }

  ghost predicate Inv(s: State) {
    Replayed(s) && Ids(s) && NewestListed(s)
  }

  lemma ReplayRecorded(edits: seq<Edit>, e: Edit, snapshot: Edit, rolled: bool, v: FileSet)
    requires Replay(edits).active == v.files && Snapshot(v, snapshot) && v.obsoleted !! v.files
    ensures var r := Replay(Recorded(edits, e, snapshot, rolled));
            && r.active == v.files + (set f | f in e.added) - (set f | f in e.deleted)
            && r.obsoleted == (if rolled then v.obsoleted else Replay(edits).obsoleted) + (set f | f in e.deleted)
  {
    if rolled {
      assert [snapshot, e][..1] == [snapshot] && [snapshot][..0] == [];
      assert Replay([snapshot]) == Apply(Summary({}, {}), snapshot);
    } else {
      assert (edits + [e])[..|edits|] == edits;
    }
  }

  lemma LargestAdded(s: set<FileId>, x: FileId)
    ensures Largest(s + {x}) == if Largest(s) < x || s == {} then x else Largest(s)
  {
  }

  /** The largest id after one more file was recorded. */
  lemma LargestRecorded(s: State, x: FileId)
    requires Ids(s)
    ensures Largest(s.recorded + {x}) == if Largest(s.recorded) < x || s.recorded == {} then x else Largest(s.recorded)
    ensures Largest(s.recorded + {x}) >= x && Largest(s.recorded + {x}) >= Largest(s.recorded)
  {
    LargestAdded(s.recorded, x);
  }

  lemma Displayed(q: seq<FileId>, s: set<FileId>)
    requires Lists(q, s)
    ensures (set f | f in q) == s
  {
  }

  /** A file `x` is recorded and the files `gone` are deleted. */
  lemma RecordReplays(s: State, s': State, x: FileId, gone: set<FileId>, e: Edit, snapshot: Edit, rolled: bool)
    requires Replayed(s) && gone <= s.recorded && x !in gone && NewestListed(s)
    requires Largest(s.recorded) > x && s.recorded != {} ==> Largest(s.recorded) in s.version.files
    requires e.added == [x] && Lists(e.deleted, gone) && Snapshot(s.version, snapshot)
    requires s'.edits == Recorded(s.edits, e, snapshot, rolled) && s'.recorded == s.recorded + {x}
    requires s'.version == FileSet(s.version.files - gone + {x}, gone)
    ensures Replayed(s')
  {
    ReplayRecorded(s.edits, e, snapshot, rolled, s.version);
    LargestAdded(s.recorded, x);
    Displayed(e.deleted, gone);
    assert (set f | f in e.added) == {x};
    var r := Replay(s'.edits);
    assert r.active == s.version.files + {x} - gone;
    assert r.active == s'.version.files;
    var l := Largest(s'.recorded);
    if l != x {
      assert l == Largest(s.recorded) && l in s.version.files;
      assert l in r.active || l in gone;
    }
  }

  lemma FlushRecordInv(s: State, s': State, obsoleted: set<FileId>, e: Edit, snapshot: Edit, rolled: bool)
    requires Inv(s) && FlushRecord(s, s', obsoleted, e, snapshot, rolled)
    ensures Inv(s')
  {
    LargestRecorded(s, s.flush.file);
    RecordReplays(s, s', s.flush.file, obsoleted, e, snapshot, rolled);
    FlushNewest(s, s', obsoleted);
  }

  lemma FlushNewest(s: State, s': State, obsoleted: set<FileId>)
    requires Inv(s) && s.flush.Building? && obsoleted <= s.version.files && s'.flush == Waiting
    requires s'.compaction == s.compaction && s'.recorded == s.recorded + {s.flush.file}
    requires s'.version == FileSet(s.version.files - obsoleted + {s.flush.file}, obsoleted)
    ensures NewestListed(s')
  {
    LargestRecorded(s, s.flush.file);
  }

  lemma CompactRecordInv(s: State, s': State, e: Edit, snapshot: Edit, rolled: bool)
    requires Inv(s) && CompactRecord(s, s', e, snapshot, rolled)
    ensures Inv(s')
  {
    LargestRecorded(s, s.compaction.file);
    RecordReplays(s, s', s.compaction.file, s.compaction.victims, e, snapshot, rolled);
  }

  lemma StepInv(s: State, s': State, step: Step)
    requires Inv(s) && Next(s, s', step)
    ensures Inv(s')
  {
    match step
    case FlushAllocStep =>
    case FlushRecordStep(o, e, snapshot, rolled) => FlushRecordInv(s, s', o, e, snapshot, rolled);
    case CompactAllocStep(victims) =>
    case CompactRecordStep(e, snapshot, rolled) => CompactRecordInv(s, s', e, snapshot, rolled);
    case RestartStep => RecoveredIdIsNew(s);
  }

  ghost predicate IsRun(states: seq<State>, steps: seq<Step>) {
    && |states| == |steps| + 1
    && Init(states[0])
    && forall i :: 0 <= i < |steps| ==> Next(states[i], states[i + 1], steps[i])
  }

  lemma {:induction false} EveryStateInv(states: seq<State>, steps: seq<Step>, n: nat)
    requires IsRun(states, steps) && n < |states|
    ensures Inv(states[n])
  {
    if n > 0 {
      EveryStateInv(states, steps, n - 1);
      assert Next(states[n - 1], states[n - 1 + 1], steps[n - 1]);
      StepInv(states[n - 1], states[n], steps[n - 1]);
    }
  }

  lemma RecoveredIdIsNew(s: State)
    requires Inv(s)
    ensures forall x :: x in s.recorded ==> x < NextId(Replay(s.edits))
    ensures forall g :: g in s.flushed ==> g < NextId(Replay(s.edits))
  {
  }

  /** For every interleaving of flushes, compactions and restarts, and every choice of points where
      the manifest rolls: replaying the current manifest gives exactly the files of the current
      version, and the next id after recovery is larger than every file id and group id ever
      recorded. */
  lemma ReplayGivesCurrentVersion(states: seq<State>, steps: seq<Step>, n: nat)
    requires IsRun(states, steps) && n < |states|
    ensures var s := states[n];
            && Replay(s.edits).active == s.version.files
            && (forall x :: x in s.recorded ==> x < NextId(Replay(s.edits)))
            && (forall g :: g in s.flushed ==> g < NextId(Replay(s.edits)))
  {
    EveryStateInv(states, steps, n);
    RecoveredIdIsNew(states[n]);
  }
}
