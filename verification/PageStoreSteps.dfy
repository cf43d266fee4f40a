/** Every step of the page store keeps its invariant. */
module PageStoreSteps {
  import opened PageStore
  import opened PageStoreInv

  // ----- Steps that touch no pages, files or versions

  /** Only transactions, seals, buffers or guards differ. */
  ghost predicate SameStore(s: State, s': State) {
    && s'.pages == s.pages && s'.dead == s.dead && s'.chain == s.chain && s'.heads == s.heads && s'.chainAt == s.chainAt
    && s'.meta == s.meta && s'.disk == s.disk && s'.versions == s.versions && s'.cleaned == s.cleaned && s'.job == s.job
    && s'.nextFile == s.nextFile && s'.flushFile == s.flushFile
  }

  lemma SameChains(s: State, s': State)
    requires Chains(s) && s'.pages == s.pages && s'.dead == s.dead
    requires s'.chain == s.chain && s'.heads == s.heads && s'.chainAt == s.chainAt
    ensures Chains(s')
  {
    forall id | id in s'.chain
      ensures IdOk(s', id)
    {
      assert IdOk(s, id);
    }
  }

  lemma SameVersions(s: State, s': State)
    requires |s.versions| > 0 && Files(s) && Versions(s)
    requires s'.pages == s.pages && s'.dead == s.dead && s'.meta == s.meta && s'.versions == s.versions
    ensures Files(s') && Versions(s')
  {
    forall k | 0 <= k < |s'.versions|
      ensures VersionOk(s', s'.versions[k])
    {
      assert VersionOk(s, s.versions[k]);
    }
  }

  lemma SameJob(s: State, s': State)
    requires SameStore(s, s') && (s.job.Some? ==> JobOk(s, s.job.value))
    ensures s'.job.Some? ==> JobOk(s', s'.job.value)
  {
    if s.job.Some? {
      var j := s.job.value;
      forall g
        ensures Moved(s', s.versions[j.from], j.victims, g) <==> Moved(s, s.versions[j.from], j.victims, g)
      {
      }
    }
  }

  lemma SameStoreInv(s: State, s': State)
    requires Inv(s) && SameStore(s, s')
    requires Shape(s') && (|s'.versions| > 0 ==> Txns(s')) && Guards(s')
    ensures Inv(s')
  {
    SameChains(s, s');
    SameVersions(s, s');
    SameJob(s, s');
    SameNumbers(s, s');
  }

  /** What files store does not change while they are listed. */
  lemma SingleStays(meta: map<FileId, FileMeta>, v: Version, meta': map<FileId, FileMeta>, v': Version)
    requires Single(meta, v) && v'.files <= v.files
    requires forall f :: f in v'.files && f in meta' ==> f in meta && meta'[f] == meta[f]
    ensures Single(meta', v')
  {
    forall f, h | f in v'.files && h in v'.files && f != h
      ensures Apart(meta', f, h)
    {
      assert Apart(meta, f, h);
    }
  }

  /** New pages go to buffers that are not flushed. */
  lemma SameNumbers(s: State, s': State)
    requires |s.versions| > 0 && Numbers(s)
    requires s'.meta == s.meta && s'.versions == s.versions && s'.job == s.job && s'.nextFile == s.nextFile &&
             s'.flushFile == s.flushFile
    requires forall a {:trigger a in s'.pages} :: a in s'.pages && a !in s.pages ==> Current(s).first <= a.group
    ensures Numbers(s')
  {
    forall a
      ensures Numbered(s'.pages, Current(s'), a)
    {
      assert Numbered(s.pages, Current(s), a);
    }
    forall f
      ensures FileNumber(s'.meta, f, s'.nextFile)
    {
      assert FileNumber(s.meta, f, s.nextFile);
    }
  }

  lemma AllocInv(s: State, s': State, t: TxnId, a: Addr)
    requires Inv(s) && Alloc(s, s', t, a)
    ensures Inv(s')
  {
    forall u | u in s'.txns
      ensures TxnOk(s', u)
    {
      assert u in s.txns ==> TxnOk(s, u);
    }
    SameGuards(s, s');
    SameStoreInv(s, s');
  }

  lemma SameGuards(s: State, s': State)
    requires Guards(s) && SameStore(s, s') && s'.guards == s.guards
    ensures Guards(s')
  {
    forall g | g in s'.guards
      ensures GuardOk(s', s'.guards[g])
    {
      assert GuardOk(s, s.guards[g]);
    }
  }

  lemma FinishInv(s: State, s': State, t: TxnId)
    requires Inv(s) && Finish(s, s', t)
    ensures Inv(s')
  {
    forall u | u in s'.txns
      ensures TxnOk(s', u)
    {
      assert TxnOk(s, u);
    }
    SameGuards(s, s');
    SameStoreInv(s, s');
  }

  lemma SealInv(s: State, s': State)
    requires Inv(s) && Seal(s, s')
    ensures Inv(s')
  {
    forall u | u in s'.txns
      ensures TxnOk(s', u)
    {
      assert TxnOk(s, u);
    }
    SameGuards(s, s');
    SameStoreInv(s, s');
  }

  lemma InstallBufferInv(s: State, s': State)
    requires Inv(s) && InstallBuffer(s, s')
    ensures Inv(s')
  {
    forall u | u in s'.txns
      ensures TxnOk(s', u)
    {
      assert TxnOk(s, u);
    }
    SameGuards(s, s');
    SameStoreInv(s, s');
  }

  lemma SameTxns(s: State, s': State)
    requires |s.versions| > 0 && Txns(s) && s'.txns == s.txns && s'.bufNext == s.bufNext
    requires |s'.versions| > 0 && Current(s').first == Current(s).first
    ensures Txns(s')
  {
    forall u | u in s'.txns
      ensures TxnOk(s', u)
    {
      assert TxnOk(s, u);
    }
  }

  lemma PinInv(s: State, s': State, g: GuardId)
    requires Inv(s) && Pin(s, s', g)
    ensures Inv(s')
  {
    forall h | h in s'.guards
      ensures GuardOk(s', s'.guards[h])
    {
      if h == g {
        forall a | a in s'.guards[g].seen
          ensures a in s.pages && Clean(s.dead, Current(s).first, a)
        {
          LiveIsClean(s, a, Current(s).first);
        }
      } else {
        assert GuardOk(s, s.guards[h]);
      }
    }
    SameTxns(s, s');
    SameStoreInv(s, s');
  }

  lemma UnpinInv(s: State, s': State, g: GuardId)
    requires Inv(s) && Unpin(s, s', g)
    ensures Inv(s')
  {
    forall h | h in s'.guards
      ensures GuardOk(s', s'.guards[h])
    {
      assert GuardOk(s, s.guards[h]);
    }
    SameTxns(s, s');
    SameStoreInv(s, s');
  }

  // ----- Publications

  /** A publication of page `a` under `id`: the new chain is `a` followed by a suffix of the old one,
      and the deallocated pages are the prefix before it. */
  ghost predicate Publication(s: State, id: Id, a: Addr, n: nat) {
    && a !in s.pages && |s.versions| > 0 && Current(s).first <= a.group < s.bufNext
    && (id in s.chain ==> |s.chain[id]| > 0 && n <= |s.chain[id]| && Less(s.chain[id][0], a))
  }

  ghost function NewChain(s: State, id: Id, a: Addr, n: nat): seq<Addr>
    requires id in s.chain ==> n <= |s.chain[id]|
  {
    if id in s.chain then [a] + s.chain[id][n..] else [a]
  }

  ghost function Published(s: State, id: Id, a: Addr, n: nat): State
    requires id in s.chain ==> n <= |s.chain[id]|
  {
    Publish(s, id, a, NewChain(s, id, a, n), if id in s.chain then s.chain[id][..n] else [])
  }

  lemma OldChainFacts(s: State, id: Id, x: Addr)
    requires Chains(s) && id in s.chain && x in s.chain[id]
    ensures id in s.heads && x in s.heads[id] && x in s.pages && s.pages[x] == id
    ensures forall g: GroupId {:trigger (g, x) in s.dead} :: (g, x) !in s.dead
    ensures Descending(s.chain[id])
  {
    assert IdOk(s, id);
    var i := |s.heads[id]| - 1;
    assert HeadOk(s.pages, s.dead, s.chainAt, s.heads[id], id, i);
    var k :| 0 <= k < i + 1 && s.heads[id][..i + 1][k] == x;
    assert HeadOk(s.pages, s.dead, s.chainAt, s.heads[id], id, k);
    forall g: GroupId
      ensures (g, x) !in s.dead
    {
      assert !LaterIn(s.heads[id], i, g);
    }
  }

  /** Entries of other ids: their chains are not touched. */
  lemma OtherHead(s: State, id: Id, a: Addr, n: nat, o: Id, i: nat)
    requires Chains(s) && Publication(s, id, a, n) && o in s.heads && o != id && i < |s.heads[o]|
    ensures var s1 := Published(s, id, a, n); HeadOk(s1.pages, s1.dead, s1.chainAt, s1.heads[o], o, i)
  {
    var s1 := Published(s, id, a, n);
    var heads := s.heads[o];
    assert HeadOk(s.pages, s.dead, s.chainAt, heads, o, i);
    forall x, g | x in s1.chainAt[heads[i]] && (g, x) in s1.dead
      ensures LaterIn(heads, i, g)
    {
      var k :| 0 <= k < i + 1 && heads[..i + 1][k] == x;
      assert HeadOk(s.pages, s.dead, s.chainAt, heads, o, k);
      if (g, x) !in s.dead {
        OldChainFacts(s, id, x);
      }
    }
  }

  /** Earlier entries of the same id: what is deallocated now is deallocated together with `a`. */
  lemma EarlierHead(s: State, id: Id, a: Addr, n: nat, i: nat)
    requires Chains(s) && Publication(s, id, a, n) && id in s.heads && i < |s.heads[id]|
    ensures var s1 := Published(s, id, a, n);
            i < |s1.heads[id]| && HeadOk(s1.pages, s1.dead, s1.chainAt, s1.heads[id], id, i)
  {
    var s1 := Published(s, id, a, n);
    var heads, heads1 := s.heads[id], s1.heads[id];
    assert heads1 == heads + [a];
    assert HeadOk(s.pages, s.dead, s.chainAt, heads, id, i);
    assert heads1[..i + 1] == heads[..i + 1];
    forall x, g | x in s1.chainAt[heads[i]] && (g, x) in s1.dead
      ensures LaterIn(heads1, i, g)
    {
      if (g, x) in s.dead {
        assert LaterIn(heads, i, g);
        var k :| i < k < |heads| && heads[k].group == g;
        assert heads1[k].group == g;
      } else {
        assert heads1[|heads|].group == g;
      }
    }
  }

  lemma NewChainItems(s: State, id: Id, a: Addr, n: nat, x: Addr)
    requires Chains(s) && Publication(s, id, a, n) && x in NewChain(s, id, a, n) && x != a
    ensures id in s.chain && x in s.chain[id] && x !in s.chain[id][..n]
  {
    var c := s.chain[id];
    var k :| 0 <= k < |c[n..]| && c[n..][k] == x;
    assert c[n + k] == x;
    OldChainFacts(s, id, x);
    forall j | 0 <= j < n
      ensures c[..n][j] != x
    {
      assert Less(c[n + k], c[j]);
    }
  }

  lemma NewChainDescends(s: State, id: Id, a: Addr, n: nat)
    requires Chains(s) && Publication(s, id, a, n)
    ensures Descending(NewChain(s, id, a, n))
  {
    if id in s.chain {
      var c := s.chain[id];
      OldChainFacts(s, id, c[0]);
      var d := NewChain(s, id, a, n);
      forall i, j | 0 <= i < j < |d|
        ensures Less(d[j], d[i])
      {
        assert d[j] == c[n + j - 1];
        assert n + j - 1 > 0 ==> Less(c[n + j - 1], c[0]);
      }
    }
  }

  lemma NewHeadGrows(s: State, id: Id, a: Addr, n: nat)
    requires Chains(s) && Publication(s, id, a, n) && id in s.chain
    ensures id in s.heads && forall k :: 0 <= k < |s.heads[id]| ==> Less(s.heads[id][k], a)
  {
    assert IdOk(s, id);
    var heads := s.heads[id];
    var last := |heads| - 1;
    assert HeadOk(s.pages, s.dead, s.chainAt, heads, id, last);
    forall k | 0 <= k < |heads|
      ensures Less(heads[k], a)
    {
      assert k < last ==> Less(heads[k], heads[last]);
    }
  }

  /** The new entry. */
  lemma NewHead(s: State, id: Id, a: Addr, n: nat)
    requires Chains(s) && Publication(s, id, a, n)
    ensures var s1 := Published(s, id, a, n);
            id in s1.heads && HeadOk(s1.pages, s1.dead, s1.chainAt, s1.heads[id], id, |s1.heads[id]| - 1)
  {
    var s1 := Published(s, id, a, n);
    var heads1 := s1.heads[id];
    var i := |heads1| - 1;
    assert heads1[i] == a && heads1[..i + 1] == heads1;
    NewChainDescends(s, id, a, n);
    if id in s.chain {
      NewHeadGrows(s, id, a, n);
    }
    forall x | x in NewChain(s, id, a, n)
      ensures x in heads1
    {
      if x != a {
        NewChainItems(s, id, a, n, x);
        OldChainFacts(s, id, x);
      }
    }
    forall x, g | x in NewChain(s, id, a, n)
      ensures (g, x) !in s1.dead
    {
      if x != a {
        NewChainItems(s, id, a, n, x);
        OldChainFacts(s, id, x);
      } else if id in s.chain && x in s.chain[id][..n] {
        OldChainFacts(s, id, x);
      }
    }
  }

  lemma PublishedHeads(s: State, id: Id, a: Addr, n: nat, o: Id, i: nat)
    requires Chains(s) && Publication(s, id, a, n)
    requires var s1 := Published(s, id, a, n); o in s1.heads && i < |s1.heads[o]|
    ensures var s1 := Published(s, id, a, n); HeadOk(s1.pages, s1.dead, s1.chainAt, s1.heads[o], o, i)
  {
    var s1 := Published(s, id, a, n);
    if o != id {
      OtherHead(s, id, a, n, o, i);
    } else if i == |s1.heads[id]| - 1 {
      NewHead(s, id, a, n);
    } else {
      EarlierHead(s, id, a, n, i);
    }
  }

  lemma PublishedIds(s: State, id: Id, a: Addr, n: nat, o: Id)
    requires Chains(s) && Publication(s, id, a, n) && o in Published(s, id, a, n).chain
    ensures IdOk(Published(s, id, a, n), o)
  {
    if o != id {
      assert IdOk(s, o);
      var i := |s.heads[o]| - 1;
      assert HeadOk(s.pages, s.dead, s.chainAt, s.heads[o], o, i);
    }
  }

  lemma PublishedChains(s: State, id: Id, a: Addr, n: nat)
    requires Chains(s) && Publication(s, id, a, n)
    ensures Chains(Published(s, id, a, n))
  {
    var s1 := Published(s, id, a, n);
    forall o | o in s1.chain
      ensures IdOk(s1, o)
    {
      PublishedIds(s, id, a, n, o);
    }
    forall o, i | o in s1.heads && 0 <= i < |s1.heads[o]|
      ensures HeadOk(s1.pages, s1.dead, s1.chainAt, s1.heads[o], o, i)
    {
      PublishedHeads(s, id, a, n, o, i);
    }
    forall d | d in s1.dead
      ensures d.1 in s1.pages
    {
      if d !in s.dead {
        OldChainFacts(s, id, d.1);
      }
    }
    forall x | x in s1.pages
      ensures s1.pages[x] in s1.heads && x in s1.heads[s1.pages[x]]
    {
      if x != a {
        assert x in s.pages;
      }
    }
  }

  lemma PublishedClean(s: State, id: Id, a: Addr, n: nat, f: GroupId, x: Addr)
    requires Publication(s, id, a, n) && f <= a.group
    ensures Clean(Published(s, id, a, n).dead, f, x) <==> Clean(s.dead, f, x)
  {
    var s1 := Published(s, id, a, n);
    if Clean(s1.dead, f, x) {
      forall g: GroupId | g < f
        ensures (g, x) !in s.dead
      {
        assert (g, x) !in s1.dead;
      }
    }
  }

  lemma PublishedVersion(s: State, id: Id, a: Addr, n: nat, s': State, k: nat)
    requires Publication(s, id, a, n) && k < |s.versions| && VersionOk(s, s.versions[k]) && Ordered(s.versions)
    requires var s1 := Published(s, id, a, n); s'.pages == s1.pages && s'.dead == s1.dead && s'.meta == s.meta
    ensures VersionOk(s', s.versions[k])
  {
    var v := s.versions[k];
    OrderedFirst(s.versions, k, |s.versions| - 1);
    forall x | Kept(s'.pages, s'.dead, v.first, x)
      ensures Holds(v, x)
    {
      PublishedClean(s, id, a, n, v.first, x);
      assert Kept(s.pages, s.dead, v.first, x);
    }
  }

  lemma PublishedVersions(s: State, id: Id, a: Addr, n: nat, s': State)
    requires Publication(s, id, a, n) && Versions(s) && Ordered(s.versions) && s'.versions == s.versions
    requires var s1 := Published(s, id, a, n); s'.pages == s1.pages && s'.dead == s1.dead && s'.meta == s.meta
    ensures Versions(s')
  {
    forall k | 0 <= k < |s'.versions|
      ensures VersionOk(s', s'.versions[k])
    {
      assert VersionOk(s, s.versions[k]);
      PublishedVersion(s, id, a, n, s', k);
    }
  }

  lemma PublishedFiles(s: State, id: Id, a: Addr, n: nat, s': State)
    requires Publication(s, id, a, n) && Files(s)
    requires var s1 := Published(s, id, a, n);
             s'.pages == s1.pages && s'.dead == s1.dead && s'.meta == s.meta && s'.versions == s.versions
    ensures Files(s')
  {
    forall f | f in s'.meta
      ensures FileOk(s'.pages, s'.dead, s'.meta[f], Current(s').first)
    {
      forall x | x in s.meta[f].dealloc
        ensures !Clean(s'.dead, Current(s).first, x)
      {
        PublishedClean(s, id, a, n, Current(s).first, x);
      }
    }
  }

  lemma PublishedGuards(s: State, id: Id, a: Addr, n: nat, s': State)
    requires Inv(s) && Publication(s, id, a, n) && s' == Observe(Published(s, id, a, n)) &&
             Chains(Published(s, id, a, n))
    ensures Guards(s')
  {
    var s1 := Published(s, id, a, n);
    forall g | g in s'.guards
      ensures GuardOk(s', s'.guards[g])
    {
      assert GuardOk(s, s.guards[g]);
      PublishedGuard(s, id, a, n, s.guards[g], s', s'.guards[g]);
    }
  }

  lemma PublishedGuard(s: State, id: Id, a: Addr, n: nat, g: Guard, s': State, g': Guard)
    requires Publication(s, id, a, n) && Chains(Published(s, id, a, n)) && Ordered(s.versions) && GuardOk(s, g)
    requires var s1 := Published(s, id, a, n);
             && s'.pages == s1.pages && s'.dead == s1.dead && s'.versions == s.versions && s'.cleaned == s.cleaned
             && g' == g.(seen := g.seen + Live(s1))
    ensures GuardOk(s', g')
  {
    var f := s.versions[g.ver].first;
    OrderedFirst(s.versions, g.ver, |s.versions| - 1);
    forall x | x in g'.seen
      ensures x in s'.pages && Clean(s'.dead, f, x)
    {
      PublishedSeen(s, id, a, n, g.seen, f, x);
    }
  }

  lemma PublishedSeen(s: State, id: Id, a: Addr, n: nat, seen: set<Addr>, f: GroupId, x: Addr)
    requires Publication(s, id, a, n) && Chains(Published(s, id, a, n)) && f <= a.group
    requires forall y {:trigger y in seen} :: y in seen ==> y in s.pages && Clean(s.dead, f, y)
    requires x in seen + Live(Published(s, id, a, n))
    ensures x in Published(s, id, a, n).pages && Clean(Published(s, id, a, n).dead, f, x)
  {
    if x in seen {
      PublishedClean(s, id, a, n, f, x);
    } else {
      LiveIsClean(Published(s, id, a, n), x, f);
    }
  }

  lemma ObservedChains(s1: State)
    requires Chains(s1)
    ensures Chains(Observe(s1))
  {
    SameChains(s1, Observe(s1));
  }

  lemma PublishInv(s: State, id: Id, a: Addr, n: nat, s': State)
    requires Inv(s) && Publication(s, id, a, n) && s' == Observe(Published(s, id, a, n))
    ensures Inv(s')
  {
    SameTxns(s, s');
    PublishedChains(s, id, a, n);
    ObservedChains(Published(s, id, a, n));
    PublishedShape(s, id, a, n, s');
    PublishedGuards(s, id, a, n, s');
    PublishedFiles(s, id, a, n, s');
    PublishedVersions(s, id, a, n, s');
    PublishedJob(s, s');
    PublishedNumbers(s, id, a, n, s');
  }

  lemma PublishedShape(s: State, id: Id, a: Addr, n: nat, s': State)
    requires Publication(s, id, a, n) && Shape(s) && s' == Observe(Published(s, id, a, n))
    ensures Shape(s') && s'.versions == s.versions && s'.meta == s.meta && s'.disk == s.disk &&
            s'.cleaned == s.cleaned && s'.job == s.job
  {
  }

  lemma PublishedNumbers(s: State, id: Id, a: Addr, n: nat, s': State)
    requires Publication(s, id, a, n) && Numbers(s) && s' == Observe(Published(s, id, a, n))
    ensures Numbers(s')
  {
    assert s'.pages == s.pages[a := id];
    SameNumbers(s, s');
  }

  lemma PublishedJob(s: State, s': State)
    requires s'.meta == s.meta && s'.disk == s.disk && s'.versions == s.versions && s'.cleaned == s.cleaned &&
             s'.job == s.job
    requires s.job.Some? ==> JobOk(s, s.job.value)
    ensures s'.job.Some? ==> JobOk(s', s'.job.value)
  {
    if s.job.Some? {
      var j := s.job.value;
      forall g
        ensures Moved(s', s.versions[j.from], j.victims, g) <==> Moved(s, s.versions[j.from], j.victims, g)
      {
      }
    }
  }

  lemma PublishNewInv(s: State, s': State, t: TxnId, id: Id, a: Addr)
    requires Inv(s) && PublishNew(s, s', t, id, a)
    ensures Inv(s')
  {
    assert TxnOk(s, t);
    PublishInv(s, id, a, 0, s');
  }

  lemma PublishOverInv(s: State, s': State, t: TxnId, id: Id, a: Addr, n: nat)
    requires Inv(s) && PublishOver(s, s', t, id, a, n)
    ensures Inv(s')
  {
    assert TxnOk(s, t);
    PublishInv(s, id, a, n, s');
  }

  // ----- Cleanup

  /** The turn of the cleanup job meets neither of its panics: buffers are released in order, and no
      removed file is listed by a version that is still visible. */
  lemma CleanupIsSafe(s: State, s': State)
    requires Inv(s) && Cleanup(s, s')
    ensures s.versions[s.cleaned + 1].flush ==> s.bufMin + 1 == s.versions[s.cleaned + 1].first
    ensures forall k :: s.cleaned < k < |s.versions| ==> s.versions[s.cleaned + 1].obsoleted !! s.versions[k].files
  {
    assert Successive(s.versions, s.cleaned);
    forall k | s.cleaned < k < |s.versions|
      ensures s.versions[s.cleaned + 1].obsoleted !! s.versions[k].files
    {
      assert GoneIn(s.versions[s.cleaned + 1], s.versions[k]);
    }
  }

  lemma CleanupDisk(s: State, s': State)
    requires Inv(s) && Cleanup(s, s')
    ensures OnDisk(s')
  {
    CleanupIsSafe(s, s');
    forall k | s'.cleaned <= k < |s'.versions|
      ensures s'.versions[k].files <= s'.disk
    {
      assert s.versions[k].files <= s.disk;
    }
  }

  lemma CleanupInv(s: State, s': State)
    requires Inv(s) && Cleanup(s, s')
    ensures Inv(s')
  {
    CleanupIsSafe(s, s');
    CleanupDisk(s, s');
    assert Successive(s.versions, s.cleaned);
    SameChains(s, s');
    SameVersions(s, s');
    SameTxns(s, s');
    SameNumbers(s, s');
    forall g | g in s'.guards
      ensures GuardOk(s', s'.guards[g])
    {
      assert GuardOk(s, s.guards[g]);
    }
    if s.job.Some? {
      CleanupJob(s, s');
    }
  }

  lemma CleanupJob(s: State, s': State)
    requires Inv(s) && Cleanup(s, s') && s.job.Some?
    ensures JobOk(s', s'.job.value)
  {
    var j := s.job.value;
    assert j.file !in s.versions[s.cleaned + 1].obsoleted;
    forall g
      ensures Moved(s', s.versions[j.from], j.victims, g) <==> Moved(s, s.versions[j.from], j.victims, g)
    {
    }
  }
}
