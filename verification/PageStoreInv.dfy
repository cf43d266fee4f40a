/**
 The invariant of the page store; that every step keeps it is shown in `PageStoreSteps`,
 `PageStoreJobs` and `PageStoreRecovery`.

 The central fact: deallocations of flushed groups are final, and a version keeps every page of
 the groups flushed before it that no flushed group has deallocated.  Pages that a guard can meet
 are among those.
 */
module PageStoreInv {
  import opened PageStore

  type Pages = map<Addr, Id>
  type Deads = set<(GroupId, Addr)>

  /** No buffer below `f` deallocates the page. */
  ghost predicate Clean(dead: Deads, f: GroupId, a: Addr) {
    forall g: GroupId {:trigger (g, a) in dead} :: g < f ==> (g, a) !in dead
  }

  /** The page was flushed before group `f` and is not deallocated by a group before `f`. */
  ghost predicate Kept(pages: Pages, dead: Deads, f: GroupId, a: Addr) {
    a in pages && a.group < f && Clean(dead, f, a)
  }

  // ----- Buffers and transactions

  ghost predicate Shape(s: State) {
    && s.cleaned < |s.versions|
    && FIRST_GROUP <= s.bufMin == s.versions[s.cleaned].first
    && Current(s).first < s.bufNext
    && (forall g :: s.bufMin <= g < s.bufNext - 1 ==> g in s.sealed)
    && (forall g :: g in s.sealed ==> g < s.bufNext)
    && (forall a {:trigger a in s.pages} :: a in s.pages ==> a.group < s.bufNext)
  }

  ghost predicate TxnOk(s: State, t: TxnId)
    requires t in s.txns && |s.versions| > 0
  {
    Current(s).first <= s.txns[t].buffer < s.bufNext && forall a :: a in s.txns[t].pages ==> a.group == s.txns[t].buffer
  }

  ghost predicate Txns(s: State)
    requires |s.versions| > 0
  {
    forall t {:trigger TxnOk(s, t)} :: t in s.txns ==> TxnOk(s, t)
  }

  /** A version is a step behind or level with its successor. */
  ghost predicate Successive(vs: seq<Version>, k: nat) {
    k + 1 < |vs| ==> vs[k + 1].first == vs[k].first + if vs[k + 1].flush then 1 else 0
  }

  ghost predicate Ordered(vs: seq<Version>) {
    forall k: nat {:trigger Successive(vs, k)} :: Successive(vs, k)
  }

  lemma {:induction false} OrderedFirst(vs: seq<Version>, j: nat, k: nat)
    requires Ordered(vs) && j <= k < |vs|
    ensures vs[j].first <= vs[k].first
  {
    if j < k {
      assert Successive(vs, k - 1);
      OrderedFirst(vs, j, k - 1);
    }
  }

  // ----- Chains

  /** The `i`th table entry of `id`: it was published under `id`, its chain consists of entries that
      `id` had before, and a page of its chain is deallocated only together with a later entry in
      the same buffer. */
  ghost predicate HeadOk(pages: Pages, dead: Deads, chainAt: map<Addr, seq<Addr>>, heads: seq<Addr>, id: Id, i: nat)
    requires i < |heads|
  {
    var h := heads[i];
    && h in pages && pages[h] == id && h in chainAt
    && |chainAt[h]| > 0 && chainAt[h][0] == h && Descending(chainAt[h])
    && (forall k :: 0 <= k < i ==> Less(heads[k], h))
    && (forall x :: x in chainAt[h] ==> x in heads[..i + 1])
    && (forall x, g {:trigger (g, x) in dead} :: x in chainAt[h] && (g, x) in dead ==> LaterIn(heads, i, g))
  }

  ghost predicate Descending(c: seq<Addr>) {
    forall i, j :: 0 <= i < j < |c| ==> Less(c[j], c[i])
  }

  ghost predicate LaterIn(heads: seq<Addr>, i: nat, g: GroupId) {
    exists k :: i < k < |heads| && heads[k].group == g
  }

  ghost predicate IdOk(s: State, id: Id) {
    && id in s.heads && |s.heads[id]| > 0 && id in s.chain
    && var last := s.heads[id][|s.heads[id]| - 1];
    && last in s.chainAt && s.chainAt[last] == s.chain[id]
  }

  ghost predicate Chains(s: State) {
    && s.heads.Keys == s.chain.Keys
    && (forall id {:trigger IdOk(s, id)} :: id in s.chain ==> IdOk(s, id))
    && (forall id, i {:trigger HeadOk(s.pages, s.dead, s.chainAt, s.heads[id], id, i)} ::
          id in s.heads && 0 <= i < |s.heads[id]| ==> HeadOk(s.pages, s.dead, s.chainAt, s.heads[id], id, i))
    && (forall a {:trigger a in s.pages} :: a in s.pages ==> s.pages[a] in s.heads && a in s.heads[s.pages[a]])
    && (forall a {:trigger a in s.chainAt} :: a in s.chainAt ==> a in s.pages)
    && (forall d {:trigger d in s.dead} :: d in s.dead ==> d.1 in s.pages)
  }

  // ----- Files and versions

  /** A file holds pages of flushed groups, with their page ids, and lists deallocations that flushed
      groups made. */
  ghost predicate FileOk(pages: Pages, dead: Deads, m: FileMeta, f: GroupId) {
    && (forall g {:trigger g in m.groups} :: g in m.groups ==> g < f)
    && (forall g, a :: g in m.groups && a in m.groups[g] ==> a.group == g && a in pages && m.groups[g][a] == pages[a])
    && (forall a :: a in m.dealloc ==> !Clean(dead, f, a))
  }

  ghost predicate Files(s: State)
    requires |s.versions| > 0
  {
    forall f {:trigger f in s.meta} :: f in s.meta ==> FileOk(s.pages, s.dead, s.meta[f], Current(s).first)
  }

  ghost predicate GroupOk(meta: map<FileId, FileMeta>, v: Version, g: GroupId)
    requires g in v.groups
  {
    var f := v.groups[g].file;
    && g < v.first && f in v.files && f in meta && g in meta[f].groups
    && v.groups[g].active <= meta[f].groups[g].Keys
  }

  /** A listed file that stores a listed group is the one the group is read from. */
  ghost predicate Home(meta: map<FileId, FileMeta>, v: Version) {
    forall g, f :: g in v.groups && f in v.files && f in meta && g in meta[f].groups ==> v.groups[g].file == f
  }

  ghost predicate Below(meta: map<FileId, FileMeta>, v: Version) {
    forall f, g :: f in v.files && f in meta && g in meta[f].groups ==> g < v.first
  }

  ghost predicate Holds(v: Version, a: Addr) {
    a.group in v.groups && a in v.groups[a.group].active
  }

  /** A version keeps every page that is kept at its first buffer. */
  ghost predicate Complete(pages: Pages, dead: Deads, v: Version) {
    forall a {:trigger Holds(v, a)} {:trigger Kept(pages, dead, v.first, a)} :: Kept(pages, dead, v.first, a) ==>
      Holds(v, a)
  }

  ghost predicate VersionOk(s: State, v: Version) {
    && v.files <= s.meta.Keys && v.obsoleted <= s.meta.Keys
    && (forall g {:trigger GroupOk(s.meta, v, g)} :: g in v.groups ==> GroupOk(s.meta, v, g))
    && Home(s.meta, v) && Below(s.meta, v)
    && Complete(s.pages, s.dead, v)
  }

  ghost predicate Versions(s: State) {
    forall k {:trigger s.versions[k]} :: 0 <= k < |s.versions| ==> VersionOk(s, s.versions[k])
  }

  /** Files that a version declared obsolete are in no later version. */
  ghost predicate GoneIn(x: Version, y: Version) {
    x.obsoleted !! y.files
  }

  ghost predicate Gone(vs: seq<Version>) {
    forall j, k {:trigger GoneIn(vs[j], vs[k])} :: 0 <= j <= k < |vs| ==> GoneIn(vs[j], vs[k])
  }

  ghost predicate OnDisk(s: State) {
    && s.disk <= s.meta.Keys
    && forall k {:trigger s.versions[k]} :: s.cleaned <= k < |s.versions| ==> s.versions[k].files <= s.disk
  }

  // ----- Guards and the compaction job

  ghost predicate GuardOk(s: State, g: Guard) {
    && s.cleaned <= g.ver < |s.versions|
    && forall a {:trigger a in g.seen} :: a in g.seen ==> a in s.pages && Clean(s.dead, s.versions[g.ver].first, a)
  }

  ghost predicate Guards(s: State) {
    forall g {:trigger s.guards[g]} :: g in s.guards ==> GuardOk(s, s.guards[g])
  }

  /** What a flush after version `v` may have changed: old groups stay in their files, new groups and
      new files are beyond `v`. */
  ghost predicate Advanced(meta: map<FileId, FileMeta>, v: Version, w: Version) {
    && (forall g {:trigger g in w.groups} :: g in w.groups ==>
          (g in v.groups && v.groups[g].file == w.groups[g].file) || w.groups[g].file !in v.files)
    && (forall f, g :: f in w.files && f !in v.files && f in meta && g in meta[f].groups ==> v.first <= g)
    && v.first <= w.first
  }

  ghost predicate FlushedOnly(vs: seq<Version>, j: nat, k: nat) {
    forall i :: j < i <= k && i < |vs| ==> vs[i].flush
  }

  ghost predicate Flushes(meta: map<FileId, FileMeta>, vs: seq<Version>) {
    forall j, k {:trigger Advanced(meta, vs[j], vs[k])} ::
      0 <= j <= k < |vs| && FlushedOnly(vs, j, k) ==> Advanced(meta, vs[j], vs[k])
  }

  ghost predicate JobOk(s: State, j: Job) {
    && s.cleaned <= j.from < |s.versions|
    && j.file in s.meta && j.file in s.disk
    && (forall k {:trigger s.versions[k]} :: 0 <= k < |s.versions| ==>
       j.file !in s.versions[k].files && j.file !in s.versions[k].obsoleted)
    && var v := s.versions[j.from];
    && j.victims <= v.files && j.file !in j.victims
    && FlushedOnly(s.versions, j.from, |s.versions| - 1)
    && (forall g {:trigger Moved(s, v, j.victims, g)} :: Moved(s, v, j.victims, g) ==>
          g in s.meta[j.file].groups && v.groups[g].active <= s.meta[j.file].groups[g].Keys)
    && (forall g {:trigger g in s.meta[j.file].groups} :: g in s.meta[j.file].groups ==> Moved(s, v, j.victims, g))
  }

  // ----- File ids

  /** File ids are below the counter, and no file stores a group with a larger number than its own. */
  ghost predicate FileNumber(meta: map<FileId, FileMeta>, f: FileId, next: FileId) {
    f in meta ==> f < next && forall g :: g in meta[f].groups ==> g <= f
  }

  /** A flushed page is in a group with a number no larger than that of some listed file. */
  ghost predicate Numbered(pages: Pages, v: Version, a: Addr) {
    a in pages && a.group < v.first ==> exists f :: f in v.files && a.group <= f
  }

  /** No two listed files store the same group. */
  ghost predicate Single(meta: map<FileId, FileMeta>, v: Version) {
    forall f, h {:trigger Apart(meta, f, h)} :: f in v.files && h in v.files && f != h ==> Apart(meta, f, h)
  }

  ghost predicate Apart(meta: map<FileId, FileMeta>, f: FileId, h: FileId) {
    f in meta && h in meta ==> meta[f].groups.Keys !! meta[h].groups.Keys
  }

  ghost predicate Reserved(s: State)
    requires |s.versions| > 0
  {
    && Current(s).first <= s.nextFile
    && (s.flushFile.Some? ==> Current(s).first <= s.flushFile.value < s.nextFile && s.flushFile.value !in s.meta)
    && (s.job.Some? ==> forall f :: f in s.job.value.victims ==> f < s.job.value.file)
  }

  ghost predicate Numbers(s: State)
    requires |s.versions| > 0
  {
    && Reserved(s)
    && (forall f {:trigger FileNumber(s.meta, f, s.nextFile)} :: FileNumber(s.meta, f, s.nextFile))
    && (forall a {:trigger Numbered(s.pages, Current(s), a)} :: Numbered(s.pages, Current(s), a))
    && Single(s.meta, Current(s))
  }

  ghost predicate Inv(s: State) {
    && Shape(s)
    && Numbers(s)
    && Txns(s)
    && Ordered(s.versions)
    && Chains(s)
    && Files(s)
    && Versions(s)
    && Gone(s.versions)
    && Flushes(s.meta, s.versions)
    && OnDisk(s)
    && Guards(s)
    && (s.job.Some? ==> JobOk(s, s.job.value))
  }

  // ----- What the invariant gives

  /** A reachable page is committed and deallocated nowhere. */
  lemma LiveIsClean(s: State, a: Addr, f: GroupId)
    requires Chains(s) && a in Live(s)
    ensures a in s.pages && Clean(s.dead, f, a)
  {
    var id :| id in s.chain && a in s.chain[id];
    assert IdOk(s, id);
    var i := |s.heads[id]| - 1;
    assert HeadOk(s.pages, s.dead, s.chainAt, s.heads[id], id, i);
    var k :| 0 <= k < i + 1 && s.heads[id][..i + 1][k] == a;
    assert HeadOk(s.pages, s.dead, s.chainAt, s.heads[id], id, k);
    forall g: GroupId
      ensures (g, a) !in s.dead
    {
      assert !LaterIn(s.heads[id], i, g);
    }
  }

  /** A pinned guard can read every address it can have met: the missing-buffer, missing-file and
      missing-page panics of `read_page` are unreachable. */
  lemma PinnedGuardResolves(s: State, g: GuardId, a: Addr)
    requires Inv(s) && g in s.guards && a in s.guards[g].seen
    ensures Resolves(s, s.versions[s.guards[g].ver], a)
  {
    var k := s.guards[g].ver;
    assert GuardOk(s, s.guards[g]);
    var v := s.versions[k];
    if v.first <= a.group {
      OrderedFirst(s.versions, s.cleaned, k);
    } else {
      assert Kept(s.pages, s.dead, v.first, a);
      assert VersionOk(s, v);
      assert Holds(v, a);
      assert GroupOk(s.meta, v, a.group);
    }
  }
}
