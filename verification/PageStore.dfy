/**
 The life cycle of pages in the page store, as a state machine
 (photondb/src/page_store/page_txn.rs, buffer_set.rs, version.rs, recover.rs, jobs/flush.rs,
 jobs/reclaim.rs, jobs/cleanup.rs).

 One step is one allocation, one commit or abort of a transaction, one seal or installation of a
 buffer, one installation of a version (made under the manifest lock), one turn of the cleanup
 job, the creation or release of a guard, or a stop of the whole store followed by its recovery.
 */
module PageStore {
  import opened Options
  import D = Data

  type Id = D.Id
  type GroupId = nat
  type FileId = nat
  type TxnId = nat
  type GuardId = nat

  /** A page address: the id of the write buffer, which becomes the group id, and the offset. */
  datatype Addr = Addr(group: GroupId, offset: nat)

  /** Addresses are compared as `group << 32 | offset`. */
  predicate Less(a: Addr, b: Addr) {
    a.group < b.group || (a.group == b.group && a.offset < b.offset)
  }

  /** The order of addresses is that of the 64-bit words that hold them. */
  lemma LessIsNumeric(a: Addr, b: Addr)
    requires a.offset < 0x1_0000_0000 && b.offset < 0x1_0000_0000
    ensures Less(a, b) <==> a.group * 0x1_0000_0000 + a.offset < b.group * 0x1_0000_0000 + b.offset
  {
    if a.group < b.group {
      assert (a.group + 1) * 0x1_0000_0000 <= b.group * 0x1_0000_0000;
    } else if b.group < a.group {
      assert (b.group + 1) * 0x1_0000_0000 <= a.group * 0x1_0000_0000;
    }
  }

  /** A page group of a version: where it is stored and which of its pages are active. */
  datatype Group = Group(file: FileId, active: set<Addr>)

  /** What a page file holds: page tables per group, and dealloc pages. */
  datatype FileMeta = FileMeta(groups: map<GroupId, map<Addr, Id>>, dealloc: set<Addr>)

  datatype Version = Version(first: GroupId, groups: map<GroupId, Group>, files: set<FileId>, obsoleted: set<FileId>,
                             flush: bool)

  /** A compaction in progress: the version it started from, its victims and its output file. */
  datatype Job = Job(from: nat, victims: set<FileId>, file: FileId)

  /** A pinned guard and every address that was reachable from the page table since the pin. */
  datatype Guard = Guard(ver: nat, seen: set<Addr>)

  datatype Txn = Txn(buffer: GroupId, pages: set<Addr>)

  /** The write buffers are those with ids from `bufMin` to `bufNext`.  `pages` holds every page ever
      committed, with its page id; its address names its buffer.  `dead` holds the dealloc records
      as pairs of the buffer they are in and the address they list.

      `chain[id]` are the pages of a logical page, newest first; its head is the table entry.
      `heads[id]` lists all table entries the id ever had, and `chainAt[a]` the chain that began at
      `a` when it was published.  `meta` keeps the contents of every file built since the store was
      opened, `disk` the files that exist.  `nextFile` is the manifest's counter of file ids, `flushFile`
      the id that the flush job has taken for its next file. */
  datatype State = State(
    pages: map<Addr, Id>,
    dead: set<(GroupId, Addr)>,
    sealed: set<GroupId>,
    bufMin: GroupId,
    bufNext: GroupId,
    taken: set<Addr>,
    txns: map<TxnId, Txn>,
    chain: map<Id, seq<Addr>>,
    heads: map<Id, seq<Addr>>,
    chainAt: map<Addr, seq<Addr>>,
    meta: map<FileId, FileMeta>,
    disk: set<FileId>,
    versions: seq<Version>,
    cleaned: nat,
    job: Option<Job>,
    guards: map<GuardId, Guard>,
    nextFile: FileId,
    flushFile: Option<FileId>)

  const FIRST_GROUP: GroupId := 1

  function Current(s: State): Version
    requires |s.versions| > 0
  {
    s.versions[|s.versions| - 1]
  }

  /** Everything reachable from the page table. */
  ghost function Live(s: State): set<Addr> {
    set id, a | id in s.chain && a in s.chain[id] :: a
  }

  // ----- Transactions

  /** `alloc_page` in the open buffer; the first allocation makes the transaction a writer. */
  ghost predicate Alloc(s: State, s': State, t: TxnId, a: Addr) {
    && s.bufMin <= a.group < s.bufNext && a.group !in s.sealed
    && a !in s.taken
    && (t in s.txns ==> s.txns[t].buffer == a.group)
    && s' == s.(taken := s.taken + {a},
                txns := s.txns[t := Txn(a.group, (if t in s.txns then s.txns[t].pages else {}) + {a})])
  }

  /** Page `a` becomes the head of `id` with the given chain; `dealloc` is recorded in its buffer. */
  ghost function Publish(s: State, id: Id, a: Addr, chain: seq<Addr>, dealloc: seq<Addr>): State {
    s.(pages := s.pages[a := id],
       dead := s.dead + (set x | x in dealloc :: (a.group, x)),
       chain := s.chain[id := chain],
       heads := s.heads[id := (if id in s.heads then s.heads[id] else []) + [a]],
       chainAt := s.chainAt[a := chain])
  }

  /** `insert_page`, with the commit that makes the page known. */
  ghost predicate CanInsert(s: State, t: TxnId, id: Id, a: Addr) {
    t in s.txns && a in s.txns[t].pages && a !in s.pages && id !in s.chain
  }

  /** The CAS of `update_page` (`n` is 0) or `replace_page`: the new page replaces the first `n`
      pages of the chain, which are recorded as deallocated in the same buffer. */
  ghost predicate CanReplace(s: State, t: TxnId, id: Id, a: Addr, n: nat) {
    && t in s.txns && a in s.txns[t].pages && a !in s.pages
    && id in s.chain && |s.chain[id]| > 0 && n <= |s.chain[id]|
    && Less(s.chain[id][0], a)
  }

  /** The publications of one commit become visible together; guards see what is reachable. */
  ghost function Observe(s: State): State {
    s.(guards := map g | g in s.guards :: s.guards[g].(seen := s.guards[g].seen + Live(s)))
  }

  /** A page of a transaction is published.  A split publishes its new page and then its delta in
      two such steps of one transaction; nothing refers to the new page in between. */
  ghost predicate PublishNew(s: State, s': State, t: TxnId, id: Id, a: Addr) {
    CanInsert(s, t, id, a) && s' == Observe(Publish(s, id, a, [a], []))
  }

  ghost predicate PublishOver(s: State, s': State, t: TxnId, id: Id, a: Addr, n: nat) {
    CanReplace(s, t, id, a, n) && s' == Observe(Publish(s, id, a, [a] + s.chain[id][n..], s.chain[id][..n]))
  }

  /** `commit` or drop: the writer leaves; pages that were not published are tombstones. */
  ghost predicate Finish(s: State, s': State, t: TxnId) {
    t in s.txns && s' == s.(txns := map u | u in s.txns && u != t :: s.txns[u])
  }

  // ----- Buffers

  ghost predicate Seal(s: State, s': State) {
    s.bufNext > 0 && s.bufNext - 1 !in s.sealed && s' == s.(sealed := s.sealed + {s.bufNext - 1})
  }

  ghost predicate InstallBuffer(s: State, s': State) {
    s.bufNext > 0 && s.bufNext - 1 in s.sealed && s' == s.(bufNext := s.bufNext + 1)
  }

  // ----- Flush

  /** `is_flushable`: sealed and without writers. */
  ghost predicate Flushable(s: State, g: GroupId) {
    g in s.sealed && forall t :: t in s.txns ==> s.txns[t].buffer != g
  }

  /** The pages written to the file: those not deallocated in their own buffer. */
  ghost function FlushedPages(s: State, g: GroupId): map<Addr, Id> {
    map a | a in s.pages && a.group == g && (g, a) !in s.dead :: s.pages[a]
  }

  /** The dealloc pages of older groups (`collect_dealloc_pages_and_stats`). */
  ghost function ForeignDealloc(s: State, g: GroupId): set<Addr> {
    set d | d in s.dead && d.0 == g && d.1.group != g :: d.1
  }

  /** `apply_dealloc_pages`, then `retain` of the groups that are not empty. */
  ghost function Deactivate(groups: map<GroupId, Group>, dead: set<Addr>): map<GroupId, Group> {
    map g | g in groups && groups[g].active - dead != {} :: groups[g].(active := groups[g].active - dead)
  }

  /** A file is needed while one of its groups, or a group that its dealloc pages refer to, exists
      (`drain_obsoleted_files`). */
  ghost predicate Needed(m: FileMeta, groups: map<GroupId, Group>) {
    || (exists g :: g in m.groups && g in groups)
    || (exists a :: a in m.dealloc && a.group in groups)
  }

  ghost function NeededFiles(s: State, files: set<FileId>, groups: map<GroupId, Group>): set<FileId> {
    set f | f in files && f in s.meta && Needed(s.meta[f], groups)
  }

  /** The version after the flush of buffer `g` into `file` (`save_and_install_version`). */
  ghost function FlushVersion(s: State, v: Version, file: FileId, g: GroupId): Version
  {
    var kept := Deactivate(v.groups, ForeignDealloc(s, g));
    var pages := FlushedPages(s, g);
    var files := NeededFiles(s, v.files, kept);
    Version(v.first + 1,
            if pages == map[] then kept else kept[g := Group(file, pages.Keys)],
            files + {file}, v.files - files, true)
  }

  /** The flush job takes a file id from the manifest before it builds the file. */
  ghost predicate TakeFileId(s: State, s': State) {
    s.flushFile == None && s' == s.(flushFile := Some(s.nextFile), nextFile := s.nextFile + 1)
  }

  ghost predicate Flush(s: State, s': State, file: FileId) {
    && |s.versions| > 0
    && var v := Current(s);
    && Flushable(s, v.first) && v.first + 1 < s.bufNext
    && s.flushFile == Some(file)
    && s' == s.(meta := s.meta[file := FileMeta(map[v.first := FlushedPages(s, v.first)], ForeignDealloc(s, v.first))],
                disk := s.disk + {file},
                versions := s.versions + [FlushVersion(s, v, file, v.first)],
                flushFile := None)
  }

  // ----- Compaction

  /** The groups that `compact_file` carries over: those of the victims that the version has. */
  ghost predicate Moved(s: State, v: Version, victims: set<FileId>, g: GroupId) {
    g in v.groups && exists f :: f in victims && f in s.meta && g in s.meta[f].groups
  }

  ghost function MovedGroups(s: State, v: Version, victims: set<FileId>, file: FileId): map<GroupId, Group> {
    map g | g in v.groups && Moved(s, v, victims, g) :: Group(file, v.groups[g].active)
  }

  /** The pages of a moved group, found through the page table of its file. */
  ghost function MovedPages(s: State, v: Version, g: GroupId): map<Addr, Id>
    requires g in v.groups
  {
    var f := v.groups[g].file;
    var table := if f in s.meta && g in s.meta[f].groups then s.meta[f].groups[g] else map[];
    map a | a in table && a in v.groups[g].active :: table[a]
  }

  ghost function CompactedMeta(s: State, v: Version, victims: set<FileId>): FileMeta {
    FileMeta(map g | g in v.groups && Moved(s, v, victims, g) :: MovedPages(s, v, g),
             set f, a | f in victims && f in s.meta && a in s.meta[f].dealloc && a.group in v.groups :: a)
  }

  /** `compact_files` builds the output from a version that the reclaim job holds; all later
      versions come from flushes, since there is one reclaim job. */
  ghost predicate CompactStart(s: State, s': State, k: nat, victims: set<FileId>, file: FileId) {
    && s.job == None && s.cleaned <= k < |s.versions|
    && (forall j :: k < j < |s.versions| ==> s.versions[j].flush)
    && var v := s.versions[k];
    && victims <= v.files && file == s.nextFile
    && s' == s.(meta := s.meta[file := CompactedMeta(s, v, victims)],
                disk := s.disk + {file},
                job := Some(Job(k, victims, file)),
                nextFile := file + 1)
  }

  ghost function CompactVersion(s: State, v: Version, job: Job): Version
    requires job.from < |s.versions|
  {
    Version(v.first,
            v.groups + MovedGroups(s, s.versions[job.from], job.victims, job.file),
            (v.files - job.victims) + {job.file},
            job.victims, false)
  }

  ghost predicate CompactInstall(s: State, s': State) {
    && s.job.Some? && |s.versions| > 0 && s.job.value.from < |s.versions|
    && s' == s.(versions := s.versions + [CompactVersion(s, Current(s), s.job.value)], job := None)
  }

  // ----- Guards and cleanup

  ghost predicate Pin(s: State, s': State, g: GuardId) {
    && g !in s.guards && |s.versions| > 0
    && s' == s.(guards := s.guards[g := Guard(|s.versions| - 1, Live(s))])
  }

  ghost predicate Unpin(s: State, s': State, g: GuardId) {
    g in s.guards && s' == s.(guards := map h | h in s.guards && h != g :: s.guards[h])
  }

  /** The version `n` and all before it are released: no guard and no job holds one of them. */
  ghost predicate Released(s: State, n: nat) {
    && (forall g :: g in s.guards ==> s.guards[g].ver > n)
    && (s.job.Some? ==> s.job.value.from > n)
  }

  /** One turn of `CleanupCtx::run`: once the version before is released, its buffers and the
      obsoleted files go. */
  ghost predicate Cleanup(s: State, s': State) {
    && s.cleaned + 1 < |s.versions| && Released(s, s.cleaned)
    && var v := s.versions[s.cleaned + 1];
    s' == s.(cleaned := s.cleaned + 1,
             bufMin := if v.flush then v.first else s.bufMin,
             disk := s.disk - v.obsoleted)
  }

  // ----- Restart

  /** The page tables of the listed files give `a` to page `id`. */
  ghost predicate Recorded(s: State, files: set<FileId>, id: Id, a: Addr) {
    exists f, g :: f in files && f in s.meta && g in s.meta[f].groups && a in s.meta[f].groups[g] &&
      s.meta[f].groups[g][a] == id
  }

  /** `recover_file` keeps the largest address of each page id. */
  ghost predicate Recovers(s: State, files: set<FileId>, id: Id, r: Option<Addr>) {
    match r
    case None => forall a :: !Recorded(s, files, id, a)
    case Some(m) => Recorded(s, files, id, m) && forall a :: Recorded(s, files, id, a) ==> a == m || Less(a, m)
  }

  function Entry(table: map<Id, Addr>, id: Id): Option<Addr> {
    if id in table then Some(table[id]) else None
  }

  /** Files are recovered in ascending order, so the last one that stores a group gives it its place. */
  ghost predicate LastStore(s: State, files: set<FileId>, g: GroupId, f: FileId) {
    && f in files && f in s.meta && g in s.meta[f].groups
    && forall h :: h in files && h in s.meta && g in s.meta[h].groups ==> h <= f
  }

  ghost function AllDealloc(s: State, files: set<FileId>): set<Addr> {
    set f, a | f in files && f in s.meta && a in s.meta[f].dealloc :: a
  }

  /** The groups that `FileInfoBuilder` builds: the pages stored, without those that some listed file
      deallocates, and without the groups that are then empty. */
  ghost predicate Rebuilt(s: State, files: set<FileId>, groups: map<GroupId, Group>) {
    && (forall g, f {:trigger LastStore(s, files, g, f)} :: LastStore(s, files, g, f) ==>
          var active := s.meta[f].groups[g].Keys - AllDealloc(s, files);
          if active == {} then g !in groups else g in groups && groups[g] == Group(f, active))
    && (forall g {:trigger g in groups} :: g in groups ==> exists f :: LastStore(s, files, g, f))
  }

  /** The table entries of an id up to the last one in a buffer below `f`. */
  function EntriesBelow(heads: seq<Addr>, f: GroupId): seq<Addr> {
    if heads == [] || heads[|heads| - 1].group < f then heads else EntriesBelow(heads[..|heads| - 1], f)
  }

  /** The store after a stop at any moment and a recovery from the files of the current version: what was
      not flushed is gone, unlisted files are removed, and buffers and files are numbered from `next` on,
      which is above the listed files. */
  ghost function Restarted(s: State, next: FileId, groups: map<GroupId, Group>, table: map<Id, Addr>): State
    requires |s.versions| > 0
  {
    var files, f := Current(s).files, Current(s).first;
    State((map a | a in s.pages && a.group < f :: s.pages[a]),
          (set d | d in s.dead && d.0 < f),
          {}, next, next + 1, {}, map[],
          (map id | id in table && table[id] in s.chainAt :: s.chainAt[table[id]]),
          (map id | id in table && id in s.heads :: EntriesBelow(s.heads[id], f)),
          (map a | a in s.chainAt && a.group < f :: s.chainAt[a]),
          (map m | m in s.meta && m in files :: s.meta[m]),
          files,
          [Version(next, groups, files, {}, true)], 0, None, map[], next, None)
  }

  ghost predicate Restart(s: State, s': State, next: FileId, groups: map<GroupId, Group>, table: map<Id, Addr>) {
    && |s.versions| > 0
    && FIRST_GROUP <= next && (forall f :: f in Current(s).files ==> f < next)
    && Rebuilt(s, Current(s).files, groups)
    && (forall id {:trigger Entry(table, id)} :: Recovers(s, Current(s).files, id, Entry(table, id)))
    && s' == Restarted(s, next, groups, table)
  }

  // ----- Runs

  datatype Step =
    | AllocStep(t: TxnId, a: Addr)
    | PublishNewStep(t: TxnId, id: Id, a: Addr)
    | PublishOverStep(t: TxnId, id: Id, a: Addr, n: nat)
    | FinishStep(t: TxnId)
    | SealStep
    | InstallBufferStep
    | TakeFileIdStep
    | FlushStep(file: FileId)
    | CompactStartStep(k: nat, victims: set<FileId>, file: FileId)
    | CompactInstallStep
    | PinStep(g: GuardId)
    | UnpinStep(g: GuardId)
    | CleanupStep
    | RestartStep(next: FileId, groups: map<GroupId, Group>, table: map<Id, Addr>)

  ghost predicate Next(s: State, s': State, step: Step) {
    match step
    case AllocStep(t, a) => Alloc(s, s', t, a)
    case PublishNewStep(t, id, a) => PublishNew(s, s', t, id, a)
    case PublishOverStep(t, id, a, n) => PublishOver(s, s', t, id, a, n)
    case FinishStep(t) => Finish(s, s', t)
    case SealStep => Seal(s, s')
    case InstallBufferStep => InstallBuffer(s, s')
    case TakeFileIdStep => TakeFileId(s, s')
    case FlushStep(file) => Flush(s, s', file)
    case CompactStartStep(k, victims, file) => CompactStart(s, s', k, victims, file)
    case CompactInstallStep => CompactInstall(s, s')
    case PinStep(g) => Pin(s, s', g)
    case UnpinStep(g) => Unpin(s, s', g)
    case CleanupStep => Cleanup(s, s')
    case RestartStep(next, groups, table) => Restart(s, s', next, groups, table)
  }

  /** A new store: one empty buffer and one empty version. */
  ghost predicate Init(s: State) {
    s == State(map[], {}, {}, FIRST_GROUP, FIRST_GROUP + 1, {}, map[],
               map[], map[], map[], map[], {}, [Version(FIRST_GROUP, map[], {}, {}, true)], 0, None, map[],
               FIRST_GROUP, None)
  }

  // ----- Reading

  /** `read_page`: the page is in a buffer that the version still reaches, or its group is listed
      with the page active and its file listed and present. */
  ghost predicate Resolves(s: State, v: Version, a: Addr) {
    if v.first <= a.group then
      s.bufMin <= a.group < s.bufNext && a in s.pages
    else
      && a.group in v.groups && a in v.groups[a.group].active
      && v.groups[a.group].file in v.files && v.groups[a.group].file in s.disk
  }
}
