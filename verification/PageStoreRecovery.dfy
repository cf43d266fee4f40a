/**
 Recovery of the page store from the files of the current version
 (photondb/src/page_store/recover.rs): what it finds, and that the store it builds is as good as one
 that was never stopped.
 */
module PageStoreRecovery {
  import opened Options
  import opened PageStore
  import opened PageStoreInv
  import opened PageStoreSteps

  // ----- The recovered page table

  /** The last table entry of `id` that was committed to a buffer below `f`. */
  function LastBelow(heads: seq<Addr>, f: GroupId): Option<Addr> {
    if heads == [] then None
    else if heads[|heads| - 1].group < f then Some(heads[|heads| - 1])
    else LastBelow(heads[..|heads| - 1], f)
  }

  lemma {:induction false} LastBelowAt(heads: seq<Addr>, f: GroupId) returns (i: nat)
    ensures LastBelow(heads, f).None? ==> forall k :: 0 <= k < |heads| ==> heads[k].group >= f
    ensures LastBelow(heads, f).Some? ==> i < |heads| && heads[i] == LastBelow(heads, f).value && heads[i].group < f
    ensures LastBelow(heads, f).Some? ==> forall k :: i < k < |heads| ==> heads[k].group >= f
  {
    if heads == [] {
      i := 0;
    } else if heads[|heads| - 1].group < f {
      i := |heads| - 1;
    } else {
      i := LastBelowAt(heads[..|heads| - 1], f);
    }
  }

  ghost function Entries(s: State, id: Id): seq<Addr> {
    if id in s.heads then s.heads[id] else []
  }

  /** A page of the chain of the last flushed entry is kept: it could only be deallocated together
      with a later entry, and that would be flushed too. */
  lemma LastEntryChainKept(s: State, id: Id, i: nat, x: Addr)
    requires Inv(s) && id in s.heads && i < |s.heads[id]|
    requires var f := Current(s).first; s.heads[id][i].group < f && forall k :: i < k < |s.heads[id]| ==>
             s.heads[id][k].group >= f
    requires s.heads[id][i] in s.chainAt && x in s.chainAt[s.heads[id][i]]
    ensures Kept(s.pages, s.dead, Current(s).first, x) && s.pages[x] == id
  {
    var heads, f := s.heads[id], Current(s).first;
    assert HeadOk(s.pages, s.dead, s.chainAt, heads, id, i);
    var k :| 0 <= k < i + 1 && heads[..i + 1][k] == x;
    assert HeadOk(s.pages, s.dead, s.chainAt, heads, id, k);
    assert k < i ==> Less(heads[k], heads[i]);
    forall g: GroupId | g < f
      ensures (g, x) !in s.dead
    {
      assert !LaterIn(heads, i, g);
    }
  }

  lemma KeptIsRecorded(s: State, a: Addr)
    requires Inv(s) && Kept(s.pages, s.dead, Current(s).first, a)
    ensures Recorded(s, Current(s).files, s.pages[a], a)
  {
    var v := Current(s);
    assert VersionOk(s, s.versions[|s.versions| - 1]);
    assert Holds(v, a);
    assert GroupOk(s.meta, v, a.group);
    var f := v.groups[a.group].file;
    assert FileOk(s.pages, s.dead, s.meta[f], v.first);
    assert a in s.meta[f].groups[a.group];
  }

  lemma RecordedIsEntry(s: State, id: Id, a: Addr)
    requires Inv(s) && Recorded(s, Current(s).files, id, a)
    ensures id in s.heads && a in s.heads[id] && a.group < Current(s).first
  {
    var f, g :| f in Current(s).files && f in s.meta && g in s.meta[f].groups && a in s.meta[f].groups[g] &&
      s.meta[f].groups[g][a] == id;
    assert FileOk(s.pages, s.dead, s.meta[f], Current(s).first);
    assert a.group == g && a in s.pages && s.pages[a] == id;
  }

  /** Recovery from the files of the current version gives each page id the address set by its last
      update among the flushed buffers. */
  lemma RecoveryFindsLastEntry(s: State, id: Id)
    requires Inv(s)
    ensures Recovers(s, Current(s).files, id, LastBelow(Entries(s, id), Current(s).first))
  {
    var f := Current(s).first;
    var heads := Entries(s, id);
    var i := LastBelowAt(heads, f);
    forall a | Recorded(s, Current(s).files, id, a)
      ensures LastBelow(heads, f).Some? && (a == heads[i] || Less(a, heads[i]))
    {
      RecordedIsEntry(s, id, a);
      var k :| 0 <= k < |heads| && heads[k] == a;
      assert heads[k].group < f;
      assert HeadOk(s.pages, s.dead, s.chainAt, s.heads[id], id, i);
    }
    if LastBelow(heads, f).Some? {
      assert HeadOk(s.pages, s.dead, s.chainAt, s.heads[id], id, i);
      assert heads[i] == s.chainAt[heads[i]][0];
      LastEntryChainKept(s, id, i, heads[i]);
      KeptIsRecorded(s, heads[i]);
    }
  }

  /** The page is active in the groups that recovery builds: a listed file stores it, and no listed
      file deallocates it (`maintain_active_pages`). */
  ghost predicate RecoveredActive(s: State, files: set<FileId>, a: Addr) {
    && (exists f :: f in files && f in s.meta && a.group in s.meta[f].groups && a in s.meta[f].groups[a.group])
    && forall f :: f in files && f in s.meta ==> a !in s.meta[f].dealloc
  }

  /** Every page of every recovered chain can be read after recovery. */
  lemma RecoveredChainIsReadable(s: State, id: Id, x: Addr)
    requires Inv(s)
    requires var m := LastBelow(Entries(s, id), Current(s).first);
             m.Some? && m.value in s.chainAt && x in s.chainAt[m.value]
    ensures RecoveredActive(s, Current(s).files, x)
  {
    var f := Current(s).first;
    var i := LastBelowAt(Entries(s, id), f);
    LastEntryChainKept(s, id, i, x);
    KeptIsRecorded(s, x);
    var p, g :| p in Current(s).files && p in s.meta && g in s.meta[p].groups && x in s.meta[p].groups[g];
    assert FileOk(s.pages, s.dead, s.meta[p], f);
    forall q | q in Current(s).files && q in s.meta
      ensures x !in s.meta[q].dealloc
    {
      assert FileOk(s.pages, s.dead, s.meta[q], f);
    }
  }

  lemma RecoversOne(s: State, files: set<FileId>, id: Id, q: Option<Addr>, r: Option<Addr>)
    requires Recovers(s, files, id, q) && Recovers(s, files, id, r)
    ensures q == r
  {
    if q.Some? {
      assert Recorded(s, files, id, q.value);
    }
    if r.Some? {
      assert Recorded(s, files, id, r.value);
    }
  }

  // ----- What a restart keeps

  /** The entries below `f` come first. */
  lemma {:induction false} EntriesBelowAre(heads: seq<Addr>, f: GroupId) returns (n: nat)
    ensures n <= |heads| && EntriesBelow(heads, f) == heads[..n]
    ensures LastBelow(heads, f) == if n == 0 then None else Some(heads[n - 1])
    ensures n > 0 ==> heads[n - 1].group < f
    ensures forall k :: n <= k < |heads| ==> heads[k].group >= f
  {
    if heads == [] || heads[|heads| - 1].group < f {
      n := |heads|;
    } else {
      n := EntriesBelowAre(heads[..|heads| - 1], f);
      assert heads[..|heads| - 1][..n] == heads[..n];
    }
  }

  /** The recovered entries of an id, in terms of the entries it had. */
  lemma RecoveredEntries(s: State, s': State, next: FileId, groups: map<GroupId, Group>, table: map<Id, Addr>,
                         id: Id) returns (n: nat)
    requires Inv(s) && Restart(s, s', next, groups, table) && id in table
    ensures id in s.heads && 0 < n <= |s.heads[id]| && s.heads[id][n - 1] == table[id] && table[id] in s.chainAt
    ensures id in s'.heads && s'.heads[id] == s.heads[id][..n]
    ensures forall k :: 0 <= k < |s.heads[id]| ==> (s.heads[id][k].group < Current(s).first <==> k < n)
  {
    var f := Current(s).first;
    RecoveryFindsLastEntry(s, id);
    assert Recovers(s, Current(s).files, id, Entry(table, id));
    RecoversOne(s, Current(s).files, id, Entry(table, id), LastBelow(Entries(s, id), f));
    n := EntriesBelowAre(Entries(s, id), f);
    assert HeadOk(s.pages, s.dead, s.chainAt, s.heads[id], id, n - 1);
  }

  /** An id with a flushed entry is recovered. */
  lemma FlushedIsRecovered(s: State, s': State, next: FileId, groups: map<GroupId, Group>, table: map<Id, Addr>, id: Id,
                           k: nat)
    requires Inv(s) && Restart(s, s', next, groups, table)
    requires id in s.heads && k < |s.heads[id]| && s.heads[id][k].group < Current(s).first
    ensures id in table
  {
    RecoveryFindsLastEntry(s, id);
    assert Recovers(s, Current(s).files, id, Entry(table, id));
    RecoversOne(s, Current(s).files, id, Entry(table, id), LastBelow(Entries(s, id), Current(s).first));
    var n := EntriesBelowAre(Entries(s, id), Current(s).first);
  }

  /** A page is deallocated in a buffer that is not older than its own, and that holds a page. */
  lemma DeadIsOlder(s: State, g: GroupId, x: Addr) returns (a: Addr)
    requires Chains(s) && (g, x) in s.dead
    ensures x in s.pages && x.group <= g && a in s.pages && a.group == g
  {
    assert (g, x).1 in s.pages;
    var id := s.pages[x];
    var k :| 0 <= k < |s.heads[id]| && s.heads[id][k] == x;
    assert HeadOk(s.pages, s.dead, s.chainAt, s.heads[id], id, k);
    assert x == s.chainAt[x][0];
    assert LaterIn(s.heads[id], k, g);
    var i :| k < i < |s.heads[id]| && s.heads[id][i].group == g;
    assert HeadOk(s.pages, s.dead, s.chainAt, s.heads[id], id, i);
    a := s.heads[id][i];
  }

  lemma RestartHead(s: State, s': State, next: FileId, groups: map<GroupId, Group>, table: map<Id, Addr>, id: Id,
                    i: nat)
    requires Inv(s) && Restart(s, s', next, groups, table) && id in s'.heads && i < |s'.heads[id]|
    ensures HeadOk(s'.pages, s'.dead, s'.chainAt, s'.heads[id], id, i)
  {
    var n := RecoveredEntries(s, s', next, groups, table, id);
    var heads, heads' := s.heads[id], s'.heads[id];
    var h := heads'[i];
    assert h == heads[i] && heads'[..i + 1] == heads[..i + 1];
    assert HeadOk(s.pages, s.dead, s.chainAt, heads, id, i);
    assert h in s'.chainAt && s'.chainAt[h] == s.chainAt[h];
    forall x, g | x in s.chainAt[h] && (g, x) in s'.dead
      ensures LaterIn(heads', i, g)
    {
      assert (g, x) in s.dead && LaterIn(heads, i, g);
      var k :| i < k < |heads| && heads[k].group == g;
      assert heads'[k].group == g;
    }
  }

  lemma RestartId(s: State, s': State, next: FileId, groups: map<GroupId, Group>, table: map<Id, Addr>, id: Id)
    requires Inv(s) && Restart(s, s', next, groups, table)
    ensures id in s'.chain <==> id in table
    ensures id in s'.heads <==> id in table
    ensures id in s'.chain ==> IdOk(s', id)
  {
    if id in table {
      var n := RecoveredEntries(s, s', next, groups, table, id);
    }
  }

  lemma RestartIds(s: State, s': State, next: FileId, groups: map<GroupId, Group>, table: map<Id, Addr>)
    requires Inv(s) && Restart(s, s', next, groups, table)
    ensures s'.heads.Keys == s'.chain.Keys
    ensures forall id {:trigger IdOk(s', id)} :: id in s'.chain ==> IdOk(s', id)
  {
    forall id
      ensures id in s'.chain <==> id in s'.heads
      ensures id in s'.chain ==> IdOk(s', id)
    {
      RestartId(s, s', next, groups, table, id);
    }
  }

  lemma RestartHeads(s: State, s': State, next: FileId, groups: map<GroupId, Group>, table: map<Id, Addr>)
    requires Inv(s) && Restart(s, s', next, groups, table)
    ensures forall id, i {:trigger HeadOk(s'.pages, s'.dead, s'.chainAt, s'.heads[id], id, i)} ::
              id in s'.heads && 0 <= i < |s'.heads[id]| ==> HeadOk(s'.pages, s'.dead, s'.chainAt, s'.heads[id], id, i)
  {
    forall id, i | id in s'.heads && 0 <= i < |s'.heads[id]|
      ensures HeadOk(s'.pages, s'.dead, s'.chainAt, s'.heads[id], id, i)
    {
      RestartHead(s, s', next, groups, table, id, i);
    }
  }

  lemma RestartPages(s: State, s': State, next: FileId, groups: map<GroupId, Group>, table: map<Id, Addr>)
    requires Inv(s) && Restart(s, s', next, groups, table)
    ensures forall a {:trigger a in s'.pages} :: a in s'.pages ==> s'.pages[a] in s'.heads && a in s'.heads[s'.pages[a]]
  {
    forall a | a in s'.pages
      ensures s'.pages[a] in s'.heads && a in s'.heads[s'.pages[a]]
    {
      RestartPage(s, s', next, groups, table, a);
    }
  }

  lemma RestartChains(s: State, s': State, next: FileId, groups: map<GroupId, Group>, table: map<Id, Addr>)
    requires Inv(s) && Restart(s, s', next, groups, table)
    ensures Chains(s')
  {
    RestartIds(s, s', next, groups, table);
    RestartHeads(s, s', next, groups, table);
    RestartPages(s, s', next, groups, table);
    RestartDead(s, s', next, groups, table);
  }

  lemma RestartDead(s: State, s': State, next: FileId, groups: map<GroupId, Group>, table: map<Id, Addr>)
    requires Inv(s) && Restart(s, s', next, groups, table)
    ensures forall d {:trigger d in s'.dead} :: d in s'.dead ==> d.1 in s'.pages
    ensures forall a {:trigger a in s'.chainAt} :: a in s'.chainAt ==> a in s'.pages
  {
    forall d | d in s'.dead
      ensures d.1 in s'.pages
    {
      var a := DeadIsOlder(s, d.0, d.1);
    }
  }

  lemma RestartPage(s: State, s': State, next: FileId, groups: map<GroupId, Group>, table: map<Id, Addr>, a: Addr)
    requires Inv(s) && Restart(s, s', next, groups, table) && a in s'.pages
    ensures s'.pages[a] in s'.heads && a in s'.heads[s'.pages[a]]
  {
    var id := s.pages[a];
    var k :| 0 <= k < |s.heads[id]| && s.heads[id][k] == a;
    FlushedIsRecovered(s, s', next, groups, table, id, k);
    var n := RecoveredEntries(s, s', next, groups, table, id);
    assert s.heads[id][..n][k] == a;
  }

  /** The flushed deallocations are those that the recovered store knows. */
  lemma RestartClean(s: State, s': State, next: FileId, groups: map<GroupId, Group>, table: map<Id, Addr>, a: Addr)
    requires Inv(s) && Restart(s, s', next, groups, table)
    ensures Clean(s'.dead, next, a) <==> Clean(s.dead, Current(s).first, a)
  {
    forall g: GroupId | (g, a) in s'.dead
      ensures g < next
    {
      var x := DeadIsOlder(s, g, a);
      assert Numbered(s.pages, Current(s), x);
    }
    forall g: GroupId | (g, a) in s.dead && g < Current(s).first
      ensures (g, a) in s'.dead
    {
    }
  }

  lemma RestartFiles(s: State, s': State, next: FileId, groups: map<GroupId, Group>, table: map<Id, Addr>)
    requires Inv(s) && Restart(s, s', next, groups, table)
    ensures Files(s')
  {
    forall f | f in s'.meta
      ensures FileOk(s'.pages, s'.dead, s'.meta[f], next)
    {
      assert FileNumber(s.meta, f, s.nextFile);
      forall a | a in s.meta[f].dealloc
        ensures !Clean(s'.dead, next, a)
      {
        assert FileOk(s.pages, s.dead, s.meta[f], Current(s).first);
        RestartClean(s, s', next, groups, table, a);
      }
      RestartFile(s.pages, s.dead, s.meta[f], Current(s).first, s'.pages, s'.dead, next);
    }
  }

  lemma RestartFile(pages: Pages, dead: Deads, m: FileMeta, f: GroupId, pages': Pages, dead': Deads, next: FileId)
    requires FileOk(pages, dead, m, f) && (forall g :: g in m.groups ==> g < next)
    requires forall a :: a in pages && a.group < f ==> a in pages' && pages'[a] == pages[a]
    requires forall a :: a in m.dealloc ==> !Clean(dead', next, a)
    ensures FileOk(pages', dead', m, next)
  {
  }

  /** A page that a version has to keep is active in the recovered groups. */
  lemma RestartHolds(s: State, s': State, next: FileId, groups: map<GroupId, Group>, table: map<Id, Addr>, a: Addr)
    requires Inv(s) && Restart(s, s', next, groups, table) && Kept(s.pages, s.dead, Current(s).first, a)
    ensures a.group in groups && a in groups[a.group].active
  {
    var v := Current(s);
    assert VersionOk(s, s.versions[|s.versions| - 1]);
    assert Holds(v, a) && GroupOk(s.meta, v, a.group);
    var f := v.groups[a.group].file;
    assert LastStore(s, v.files, a.group, f) by {
      forall h | h in v.files && h in s.meta && a.group in s.meta[h].groups
        ensures h == f
      {
        assert h != f ==> Apart(s.meta, f, h);
      }
    }
    forall m | m in v.files && m in s.meta
      ensures a !in s.meta[m].dealloc
    {
      assert FileOk(s.pages, s.dead, s.meta[m], v.first);
    }
    assert a in s.meta[f].groups[a.group].Keys - AllDealloc(s, v.files);
  }

  lemma RestartGroup(s: State, s': State, next: FileId, groups: map<GroupId, Group>, table: map<Id, Addr>, g: GroupId)
    requires Inv(s) && Restart(s, s', next, groups, table) && g in groups
    ensures GroupOk(s'.meta, Current(s'), g)
  {
    var f :| LastStore(s, Current(s).files, g, f);
    assert FileNumber(s.meta, f, s.nextFile);
  }

  lemma RestartVersion(s: State, s': State, next: FileId, groups: map<GroupId, Group>, table: map<Id, Addr>)
    requires Inv(s) && Restart(s, s', next, groups, table)
    ensures VersionOk(s', Current(s'))
  {
    var v := Current(s');
    assert VersionOk(s, s.versions[|s.versions| - 1]);
    forall g | g in groups
      ensures GroupOk(s'.meta, v, g)
    {
      RestartGroup(s, s', next, groups, table, g);
    }
    forall f, g | f in v.files && f in s'.meta && g in s'.meta[f].groups
      ensures g < next
    {
      assert FileNumber(s.meta, f, s.nextFile);
    }
    forall g, f | g in groups && f in v.files && f in s'.meta && g in s'.meta[f].groups
      ensures groups[g].file == f
    {
      assert GroupOk(s'.meta, v, g);
      assert f != groups[g].file ==> Apart(s.meta, f, groups[g].file);
    }
    forall a | Kept(s'.pages, s'.dead, v.first, a)
      ensures Holds(v, a)
    {
      RestartClean(s, s', next, groups, table, a);
      RestartHolds(s, s', next, groups, table, a);
    }
  }

  lemma RestartNumbers(s: State, s': State, next: FileId, groups: map<GroupId, Group>, table: map<Id, Addr>)
    requires Inv(s) && Restart(s, s', next, groups, table)
    ensures Numbers(s')
  {
    SingleStays(s.meta, Current(s), s'.meta, Current(s'));
    forall a
      ensures Numbered(s'.pages, Current(s'), a)
    {
      assert Numbered(s.pages, Current(s), a);
    }
    forall f
      ensures FileNumber(s'.meta, f, s'.nextFile)
    {
      assert FileNumber(s.meta, f, s.nextFile);
    }
  }

  lemma RestartShape(s: State, s': State, next: FileId, groups: map<GroupId, Group>, table: map<Id, Addr>)
    requires Inv(s) && Restart(s, s', next, groups, table)
    ensures Shape(s')
  {
    forall a | a in s'.pages
      ensures a.group < next
    {
      assert Numbered(s.pages, Current(s), a);
    }
  }

  /** The recovered store is one that a run could have: everything that the invariant promises holds in it. */
  lemma RestartInv(s: State, s': State, next: FileId, groups: map<GroupId, Group>, table: map<Id, Addr>)
    requires Inv(s) && Restart(s, s', next, groups, table)
    ensures Inv(s')
  {
    RestartShape(s, s', next, groups, table);
    RestartNumbers(s, s', next, groups, table);
    RestartChains(s, s', next, groups, table);
    RestartFiles(s, s', next, groups, table);
    RestartVersion(s, s', next, groups, table);
    assert VersionOk(s, s.versions[|s.versions| - 1]);
  }

  /** After a restart every page id has the chain of its last flushed update, no other id has a chain, and
      every page of every chain can be read from a listed file that is there. */
  lemma RestartReads(s: State, s': State, next: FileId, groups: map<GroupId, Group>, table: map<Id, Addr>, id: Id)
    requires Inv(s) && Restart(s, s', next, groups, table)
    ensures var last := LastBelow(Entries(s, id), Current(s).first);
            && (id in s'.chain <==> last.Some?)
            && (id in s'.chain ==> last.value in s.chainAt && s'.chain[id] == s.chainAt[last.value])
    ensures id in s'.chain ==> forall x :: x in s'.chain[id] ==> Resolves(s', Current(s'), x)
  {
    RestartInv(s, s', next, groups, table);
    RestartId(s, s', next, groups, table, id);
    RecoveryFindsLastEntry(s, id);
    assert Recovers(s, Current(s).files, id, Entry(table, id));
    RecoversOne(s, Current(s).files, id, Entry(table, id), LastBelow(Entries(s, id), Current(s).first));
    if id in s'.chain {
      forall x | x in s'.chain[id]
        ensures Resolves(s', Current(s'), x)
      {
        LiveResolves(s', x, id);
      }
    }
  }

  /** The current version can read everything that the page table reaches. */
  lemma LiveResolves(s: State, x: Addr, id: Id)
    requires Inv(s) && id in s.chain && x in s.chain[id]
    ensures Resolves(s, Current(s), x)
  {
    var v := Current(s);
    assert x in Live(s);
    LiveIsClean(s, x, v.first);
    if v.first <= x.group {
      OrderedFirst(s.versions, s.cleaned, |s.versions| - 1);
    } else {
      assert VersionOk(s, s.versions[|s.versions| - 1]);
      assert Kept(s.pages, s.dead, v.first, x);
      assert Holds(v, x) && GroupOk(s.meta, v, x.group);
      assert v.files <= s.disk;
    }
  }
}
