/**
 The loops of the flush job and of recovery (photondb/src/page_store/jobs/flush.rs,
 photondb/src/page_store/recover.rs), proved against the functions that `PageStore` uses for a
 whole step.
 */
module StoreJobs {
  import opened Options
  import opened PageStore
  import opened PageStoreRecovery
  import opened PageStoreTheorems

  ghost function AddrSet(s: seq<Addr>): set<Addr> {
    set a | a in s
  }

  lemma AddrSetNext(s: seq<Addr>, i: nat)
    requires i < |s|
    ensures AddrSet(s[..i + 1]) == AddrSet(s[..i]) + {s[i]}
  {
  }

  // ----- Deactivating pages

  ghost predicate GroupLess(groups: map<GroupId, Group>, groups': map<GroupId, Group>, dead: set<Addr>, g: GroupId) {
    && (g in groups <==> g in groups')
    && (g in groups && g in groups' ==> groups'[g] == groups[g].(active := groups[g].active - dead))
  }

  /** Every group loses the pages of `dead` from its active ones. */
  ghost predicate GroupsLess(groups: map<GroupId, Group>, groups': map<GroupId, Group>, dead: set<Addr>) {
    forall g {:trigger GroupLess(groups, groups', dead, g)} :: GroupLess(groups, groups', dead, g)
  }

  /** Pages are active only in the group of their address. */
  ghost predicate AtHome(groups: map<GroupId, Group>) {
    forall g, a {:trigger a in groups[g].active} :: g in groups && a in groups[g].active ==> a.group == g
  }

  lemma OneDead(groups: map<GroupId, Group>, groups': map<GroupId, Group>, dead: set<Addr>, a: Addr)
    requires AtHome(groups) && GroupsLess(groups, groups', dead)
    ensures GroupLess(groups, groups', dead, a.group)
    ensures var next := if a.group in groups'
            then groups'[a.group := groups'[a.group].(active := groups'[a.group].active - {a})] else groups';
            GroupsLess(groups, next, dead + {a})
  {
    var next := if a.group in groups'
      then groups'[a.group := groups'[a.group].(active := groups'[a.group].active - {a})] else groups';
    var dead' := dead + {a};
    forall g
      ensures GroupLess(groups, next, dead', g)
    {
      assert GroupLess(groups, groups', dead, g);
      if g in groups {
        assert groups[g].active - dead' == groups[g].active - dead - {a};
        if g != a.group {
          assert a !in groups[g].active;
          assert groups[g].active - dead - {a} == groups[g].active - dead;
        }
      }
    }
    assert GroupLess(groups, groups', dead, a.group);
  }

  /** `apply_dealloc_pages`, and with the lists of all files `maintain_active_pages`. */
  method ApplyDeallocPages(groups: map<GroupId, Group>, dealloc: seq<Addr>) returns (r: map<GroupId, Group>)
    requires AtHome(groups)
    ensures GroupsLess(groups, r, AddrSet(dealloc))
  {
    r := groups;
    assert AddrSet(dealloc[..0]) == {};
    forall g
      ensures GroupLess(groups, r, {}, g)
    {
      assert g in groups ==> groups[g].active - {} == groups[g].active;
    }
    for i := 0 to |dealloc|
      invariant GroupsLess(groups, r, AddrSet(dealloc[..i]))
    {
      var a := dealloc[i];
      OneDead(groups, r, AddrSet(dealloc[..i]), a);
      AddrSetNext(dealloc, i);
      if a.group in r {
        r := r[a.group := r[a.group].(active := r[a.group].active - {a})];
      }
    }
    assert dealloc[..|dealloc|] == dealloc;
  }

  // ----- Dropping what is not needed

  /** `retain`: groups without active pages go. */
  function NotEmpty(groups: map<GroupId, Group>): map<GroupId, Group> {
    map g | g in groups && groups[g].active != {} :: groups[g]
  }

  /** The two loops together are the `Deactivate` of a flush step. */
  lemma RetainIsDeactivate(groups: map<GroupId, Group>, r: map<GroupId, Group>, dead: set<Addr>)
    requires GroupsLess(groups, r, dead)
    ensures NotEmpty(r) == Deactivate(groups, dead)
  {
    forall g
      ensures GroupLess(groups, r, dead, g)
    {
    }
    assert forall g :: g in NotEmpty(r) <==> g in Deactivate(groups, dead) by {
      forall g
        ensures g in NotEmpty(r) <==> g in Deactivate(groups, dead)
      {
        assert GroupLess(groups, r, dead, g);
      }
    }
    forall g | g in NotEmpty(r)
      ensures NotEmpty(r)[g] == Deactivate(groups, dead)[g]
    {
      assert GroupLess(groups, r, dead, g);
    }
  }

  ghost predicate HasGroup(m: FileMeta, groups: map<GroupId, Group>) {
    exists g :: g in m.groups && g in groups
  }

  ghost predicate Refers(m: FileMeta, groups: map<GroupId, Group>) {
    exists a :: a in m.dealloc && a.group in groups
  }

  /** Whether one of the file's groups is among the given ones. */
  method AnyGroup(m: FileMeta, groups: map<GroupId, Group>) returns (r: bool)
    ensures r <==> HasGroup(m, groups)
  {
    r := false;
    var todo := m.groups.Keys;
    while todo != {} && !r
      invariant todo <= m.groups.Keys
      invariant r ==> HasGroup(m, groups)
      invariant !r ==> forall g :: g in m.groups && g in groups ==> g in todo
      decreases |todo|
    {
      var g :| g in todo;
      todo := todo - {g};
      r := g in groups;
    }
  }

  /** Whether one of the groups that the file's dealloc pages refer to is among the given ones. */
  method AnyReferenced(m: FileMeta, groups: map<GroupId, Group>) returns (r: bool)
    ensures r <==> Refers(m, groups)
  {
    r := false;
    var todo := m.dealloc;
    while todo != {} && !r
      invariant todo <= m.dealloc
      invariant r ==> Refers(m, groups)
      invariant !r ==> forall a :: a in m.dealloc && a.group in groups ==> a in todo
      decreases |todo|
    {
      var a :| a in todo;
      todo := todo - {a};
      r := a.group in groups;
    }
  }

  /** The files none of whose groups is left. */
  method EmptyFiles(meta: map<FileId, FileMeta>, files: set<FileId>,
                    groups: map<GroupId, Group>) returns (empty: set<FileId>)
    requires files <= meta.Keys
    ensures forall f {:trigger f in empty} :: f in empty <==> f in files && !HasGroup(meta[f], groups)
  {
    empty := {};
    var todo := files;
    while todo != {}
      invariant todo <= files
      invariant forall f {:trigger f in empty} :: f in empty <==> f in files && f !in todo && !HasGroup(meta[f], groups)
      decreases |todo|
    {
      var f :| f in todo;
      var found := AnyGroup(meta[f], groups);
      todo := todo - {f};
      if !found {
        empty := empty + {f};
      }
    }
  }

  /** Those of the empty files whose dealloc pages refer to no group. */
  method Unreferenced(meta: map<FileId, FileMeta>, empty: set<FileId>,
                      groups: map<GroupId, Group>) returns (r: set<FileId>)
    requires empty <= meta.Keys
    ensures forall f {:trigger f in r} :: f in r <==> f in empty && !Refers(meta[f], groups)
  {
    r := {};
    var todo := empty;
    while todo != {}
      invariant todo <= empty
      invariant forall f {:trigger f in r} :: f in r <==> f in empty && f !in todo && !Refers(meta[f], groups)
      decreases |todo|
    {
      var f :| f in todo;
      var found := AnyReferenced(meta[f], groups);
      todo := todo - {f};
      if !found {
        r := r + {f};
      }
    }
  }

  /** `drain_obsoleted_files`: exactly the files that are not needed are obsolete. */
  method DrainObsoletedFiles(meta: map<FileId, FileMeta>, files: set<FileId>,
                             groups: map<GroupId, Group>) returns (obsoleted: set<FileId>)
    requires files <= meta.Keys
    ensures forall f {:trigger f in obsoleted} :: f in obsoleted <==> f in files && !Needed(meta[f], groups)
  {
    var empty := EmptyFiles(meta, files, groups);
    obsoleted := Unreferenced(meta, empty, groups);
    forall f | f in files
      ensures Needed(meta[f], groups) <==> HasGroup(meta[f], groups) || Refers(meta[f], groups)
    {
    }
  }

  // ----- Dealloc records of a buffer

  /** `collect_dealloc_pages_and_stats`: pages of older groups are kept for the file, pages of the
      buffer itself are skipped when it is written. */
  method CollectDeallocPages(records: seq<seq<Addr>>, group: GroupId) returns (dealloc: seq<Addr>, skip: set<Addr>)
    ensures forall a :: a in dealloc <==> a.group != group && exists i :: 0 <= i < |records| && a in records[i]
    ensures forall a :: a in skip <==> a.group == group && exists i :: 0 <= i < |records| && a in records[i]
  {
    dealloc, skip := [], {};
    for i := 0 to |records|
      invariant forall a :: a in dealloc <==> a.group != group && exists k :: 0 <= k < i && a in records[k]
      invariant forall a :: a in skip <==> a.group == group && exists k :: 0 <= k < i && a in records[k]
    {
      var d, p := Partition(records[i], group);
      dealloc, skip := dealloc + d, skip + p;
    }
  }

  method Partition(record: seq<Addr>, group: GroupId) returns (dealloc: seq<Addr>, skip: set<Addr>)
    ensures forall a :: a in dealloc <==> a in record && a.group != group
    ensures forall a :: a in skip <==> a in record && a.group == group
  {
    dealloc, skip := [], {};
    for i := 0 to |record|
      invariant forall a :: a in dealloc <==> a in record[..i] && a.group != group
      invariant forall a :: a in skip <==> a in record[..i] && a.group == group
    {
      assert record[..i + 1] == record[..i] + [record[i]];
      if record[i].group != group {
        dealloc := dealloc + [record[i]];
      } else {
        skip := skip + {record[i]};
      }
    }
    assert record[..|record|] == record;
  }

  // ----- Recovering the page table

  type Pair = (Addr, Id)

  ghost predicate Largest(entries: seq<Pair>, id: Id, r: Option<Addr>) {
    match r
    case None => forall a :: (a, id) !in entries
    case Some(m) => (m, id) in entries && forall a :: (a, id) in entries ==> a == m || Less(a, m)
  }

  /** The page tables of all files in any order: each id keeps its largest address. */
  method RecoverPageTable(entries: seq<Pair>) returns (table: map<Id, Addr>)
    ensures forall id {:trigger Entry(table, id)} :: Largest(entries, id, Entry(table, id))
  {
    table := map[];
    for i := 0 to |entries|
      invariant forall id {:trigger Entry(table, id)} :: Largest(entries[..i], id, Entry(table, id))
    {
      var (a, id) := entries[i];
      ghost var before := table;
      if id !in table || Less(table[id], a) {
        table := table[id := a];
      }
      forall x
        ensures Largest(entries[..i + 1], x, Entry(table, x))
      {
        assert Largest(entries[..i], x, Entry(before, x));
        LargestNext(entries, i, x, Entry(before, x));
      }
    }
    assert entries[..|entries|] == entries;
  }

  lemma LargestNext(entries: seq<Pair>, i: nat, x: Id, r: Option<Addr>)
    requires i < |entries| && Largest(entries[..i], x, r)
    ensures var (a, id) := entries[i];
            Largest(entries[..i + 1], x, if x == id && (r.None? || Less(r.value, a)) then Some(a) else r)
  {
    var (a, id) := entries[i];
    assert entries[..i + 1] == entries[..i] + [entries[i]];
    forall b
      ensures (b, x) in entries[..i + 1] <==> (b, x) in entries[..i] || (b == a && x == id)
    {
    }
    if r.Some? {
      assert (r.value, x) in entries[..i + 1];
    }
  }

  /** What the loop computes from the page tables of the listed files is what recovery should find. */
  lemma LoopRecovers(s: State, files: set<FileId>, entries: seq<Pair>, id: Id, r: Option<Addr>)
    requires forall a {:trigger Recorded(s, files, id, a)} :: (a, id) in entries <==> Recorded(s, files, id, a)
    requires Largest(entries, id, r)
    ensures Recovers(s, files, id, r)
  {
  }

  /** After any run, recovery from the files of the current version gives every page id the address of
      its last update among the flushed buffers. */
  lemma RecoveryAfterAnyRun(states: seq<State>, steps: seq<Step>, n: nat, entries: seq<Pair>, table: map<Id, Addr>,
                            id: Id)
    requires IsRun(states, steps) && n < |states| && |states[n].versions| > 0
    requires forall a {:trigger Recorded(states[n], Current(states[n]).files, id, a)} ::
               (a, id) in entries <==> Recorded(states[n], Current(states[n]).files, id, a)
    requires Largest(entries, id, Entry(table, id))
    ensures Entry(table, id) == LastBelow(Entries(states[n], id), Current(states[n]).first)
  {
    EveryStateInv(states, steps, n);
    var s := states[n];
    RecoveryFindsLastEntry(s, id);
    LoopRecovers(s, Current(s).files, entries, id, Entry(table, id));
    RecoversOne(s, Current(s).files, id, Entry(table, id), LastBelow(Entries(s, id), Current(s).first));
  }
}
