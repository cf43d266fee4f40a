/**
 The invariant of the tree protocol and its preservation by every step.

 `Aux` is bookkeeping that the program does not store: which range and level each page id has,
 the list of entries behind each inner chain, and what each id was last published as in its
 parent (epoch and range).  The theorems quantify over the states of a run only; the bookkeeping
 is rebuilt along the run.
 */
module TreeInvariant {
  import opened Options
  import opened Data
  import opened Pages
  import opened LeafChain
  import opened InnerChain
  import opened TreeProtocol

  /** Epoch and range under which a page id stands in its parent. */
  datatype Published = Published(epoch: nat, range: Range)

  /** Range, level (0 for leaves), chain and, for inner pages, the list of entries behind it. */
  datatype Node = Node(rng: Range, level: nat, chain: seq<Body>, ents: seq<Entry>)

  datatype Aux = Aux(
    nodes: map<Id, Node>,
    pub: map<Id, Published>,
    parent: map<Id, Id>,
    left: map<Id, Id>)

  ghost predicate PageOk(mem: map<Addr, Page>, x: Addr) {
    x in mem ==>
      mem[x].next < x && (mem[x].next == 0 || mem[x].next in mem) && (mem[x].next == 0 ==> mem[x].len == 1)
  }

  /** Every page points to an older, smaller address, so chains end. */
  ghost predicate MemOk(s: State) {
    0 !in s.mem && forall x: Addr {:trigger PageOk(s.mem, x)} :: PageOk(s.mem, x)
  }

  ghost predicate Domains(s: State, a: Aux) {
    && ROOT_ID in s.table && NAN_ID !in s.table && ROOT_ID in a.pub
    && s.table.Keys == a.nodes.Keys
    && a.pub.Keys <= s.table.Keys
    && forall id :: id in s.table ==> s.table[id] in s.mem
  }

  ghost predicate Chains(s: State, a: Aux)
    requires Domains(s, a)
  {
    forall id :: id in s.table ==> a.nodes[id].chain == Chain(s.mem, s.table[id])
  }

  /** A leaf chain holds versions of its range, and older ones beyond a pending cut. */
  ghost predicate LeafNode(chain: seq<Body>, r: Range) {
    && LeafOk(chain)
    && forall v :: v in Contents(chain) ==> r.lo <= v.key.raw && (SplitLimit(chain) == None ==> Below(v.key.raw, r.hi))
  }

  ghost predicate NodeOk(n: Node) {
    && |n.chain| > 0
    && Below(n.rng.lo, n.rng.hi)
    && (SplitLimit(n.chain) == None || SplitLimit(n.chain) == n.rng.hi)
    && (if n.level == 0 then LeafNode(n.chain, n.rng) && n.ents == [] else Represents(n.chain, n.ents, n.rng))
  }

  ghost predicate Nodes(s: State, a: Aux)
    requires Domains(s, a)
  {
    forall id {:trigger NodeOk(a.nodes[id])} :: id in s.table ==> NodeOk(a.nodes[id])
  }

  ghost predicate RootOk(s: State, a: Aux)
    requires Domains(s, a)
  {
    a.nodes[ROOT_ID].rng == FULL_RANGE && a.pub[ROOT_ID] == Published(0, FULL_RANGE) && Top(s, ROOT_ID).epoch == 0
  }

  ghost predicate Settled(s: State, a: Aux, id: Id)
    requires Domains(s, a) && id in a.pub
  {
    Top(s, id).epoch == a.pub[id].epoch && a.nodes[id].rng == a.pub[id].range
  }

  /** The page was split and its parent does not know yet: the epoch is one ahead, the split
      delta is on top, and the right page is untouched and unknown to anyone. */
  ghost predicate Pending(s: State, a: Aux, id: Id)
    requires Domains(s, a) && id in a.pub
  {
    && id != ROOT_ID
    && Top(s, id).epoch == a.pub[id].epoch + 1
    && Top(s, id).body.SplitDelta?
    && var d := Top(s, id).body;
    && var r := d.right.id;
    && d.right.epoch == 0
    && r in s.table && r !in a.pub && r in a.left && a.left[r] == id
    && a.nodes[id].rng == Range(a.pub[id].range.lo, Some(d.splitKey))
    && a.nodes[r].rng == Range(d.splitKey, a.pub[id].range.hi)
    && a.nodes[r].level == a.nodes[id].level
    && Top(s, r).epoch == 0
  }

  /** A page is as its parent knows it, or exactly one split ahead. */
  ghost predicate InStep(s: State, a: Aux, id: Id)
    requires Domains(s, a) && id in a.pub
  {
    Settled(s, a, id) || Pending(s, a, id)
  }

  ghost predicate PublishedOk(s: State, a: Aux)
    requires Domains(s, a)
  {
    forall id {:trigger InStep(s, a, id)} :: id in a.pub ==> InStep(s, a, id)
  }

  /** The entry at `i` of inner page `q` is how its child is published. */
  ghost predicate ChildOk(s: State, a: Aux, q: Id, i: nat)
    requires Domains(s, a) && q in s.table && i < |a.nodes[q].ents|
  {
    var e := a.nodes[q].ents[i];
    var c := e.index.id;
    && c in a.pub && c != ROOT_ID
    && a.pub[c] == Published(e.index.epoch, Range(e.key, EndOf(a.nodes[q].ents, i, a.nodes[q].rng.hi)))
    && c in a.parent && a.parent[c] == q
    && a.nodes[c].level + 1 == a.nodes[q].level
  }

  ghost predicate Children(s: State, a: Aux)
    requires Domains(s, a)
  {
    forall q, i {:trigger ChildOk(s, a, q, i)} :: q in s.table && 0 <= i < |a.nodes[q].ents| ==> ChildOk(s, a, q, i)
  }

  predicate Apart(x: Range, y: Range) {
    (x.hi.Some? && x.hi.value <= y.lo) || (y.hi.Some? && y.hi.value <= x.lo)
  }

  predicate SideBySide(x: Node, y: Node) {
    x.level == y.level ==> Apart(x.rng, y.rng)
  }

  /** Pages of one level do not overlap, and the root is alone on top. */
  ghost predicate Levels(s: State, a: Aux)
    requires Domains(s, a)
  {
    && (forall x, y {:trigger SideBySide(a.nodes[x], a.nodes[y])} ::
          x in s.table && y in s.table && x != y ==> SideBySide(a.nodes[x], a.nodes[y]))
    && forall x :: x in s.table && x != ROOT_ID ==> a.nodes[x].level < a.nodes[ROOT_ID].level
  }

  /** The index and range of a cursor are what its parent page says, as long as that page is
      where the descent saw it. */
  ghost predicate ParentCurrent(s: State, a: Aux, c: Cursor)
    requires Domains(s, a)
  {
    && c.parent.Some?
    && var p := c.parent.value;
    && p.id in a.pub && p.addr in s.mem && p.addr <= s.table[p.id] && s.mem[p.addr].epoch <= a.pub[p.id].epoch
    && (s.table[p.id] == p.addr ==>
          exists i :: 0 <= i < |a.nodes[p.id].ents| && a.nodes[p.id].ents[i] == Entry(c.range.lo, c.index)
                      && EndOf(a.nodes[p.id].ents, i, a.nodes[p.id].rng.hi) == c.range.hi)
  }

  /** What a cursor may rely on at any later time: an id is never withdrawn, and its epoch tells
      its range. */
  ghost predicate CursorOk(s: State, a: Aux, c: Cursor)
    requires Domains(s, a)
  {
    && Contains(c.range, c.key)
    && c.index.id in a.pub
    && c.index.epoch <= a.pub[c.index.id].epoch
    && (c.index.epoch == a.pub[c.index.id].epoch ==> c.range == a.pub[c.index.id].range)
    && (c.index.id == ROOT_ID ==> c == Cursor(c.key, ROOT_INDEX, FULL_RANGE, None))
    && (c.index.id != ROOT_ID ==> ParentCurrent(s, a, c))
  }

  ghost predicate ViewOk(s: State, a: Aux, v: View)
    requires Domains(s, a)
  {
    var id := v.cursor.index.id;
    && v.cursor in s.cursors && id in s.table
    && v.addr in s.mem && v.addr <= s.table[id]
    && s.mem[v.addr].epoch == v.cursor.index.epoch
    && (id != ROOT_ID || s.table[id] == v.addr ==> (TierOf(s.mem[v.addr].body) == Leaf <==> a.nodes[id].level == 0))
  }

  ghost predicate StaleOk(s: State, a: Aux, w: View)
    requires Domains(s, a)
  {
    var id := w.cursor.index.id;
    && w.cursor in s.cursors && id in a.pub && id != ROOT_ID
    && w.addr in s.mem && w.addr <= s.table[id]
    && w.cursor.index.epoch < s.mem[w.addr].epoch <= Top(s, id).epoch
    && (s.mem[w.addr].epoch == a.pub[id].epoch + 1 ==> w.addr == s.table[id])
  }

  ghost predicate Locals(s: State, a: Aux)
    requires Domains(s, a)
  {
    && (forall c {:trigger CursorOk(s, a, c)} :: c in s.cursors ==> CursorOk(s, a, c))
    && (forall v {:trigger ViewOk(s, a, v)} :: v in s.views ==> ViewOk(s, a, v))
    && (forall w {:trigger StaleOk(s, a, w)} :: w in s.stale ==> StaleOk(s, a, w))
  }

  /** Leaves hold only versions that were written, and no version was written twice. */
  ghost predicate Recorded(s: State, a: Aux)
    requires Domains(s, a)
  {
    KeyUnique(s.written)
    && forall id {:trigger Contents(a.nodes[id].chain)} :: id in s.table ==> Contents(a.nodes[id].chain) <= s.written
  }

  /** The structural invariant. */
  ghost predicate Inv(s: State, a: Aux) {
    && MemOk(s)
    && Domains(s, a)
    && Chains(s, a)
    && Nodes(s, a)
    && Recorded(s, a)
    && RootOk(s, a)
    && PublishedOk(s, a)
    && Children(s, a)
    && Levels(s, a)
    && Locals(s, a)
  }

  /** The leaf that owns a raw key answers every read at or above the safe LSN like the
      multi-version map. */
  ghost predicate SameAnswers(S: set<Version>, W: set<Version>, r: Range, safe: Lsn) {
    forall raw: RawKey, lsn: Lsn {:trigger Newest(S, raw, lsn)} :: Contains(r, raw) && safe <= lsn ==>
      Visible(Newest(S, raw, lsn)) == Visible(Newest(W, raw, lsn))
  }

  ghost predicate AnswersLikeMap(s: State, a: Aux, id: Id)
    requires Domains(s, a) && id in s.table
  {
    SameAnswers(Contents(a.nodes[id].chain), s.written, a.nodes[id].rng, s.safe)
  }

  /** The refinement invariant. */
  ghost predicate DataInv(s: State, a: Aux)
    requires Domains(s, a)
  {
    forall id {:trigger AnswersLikeMap(s, a, id)} :: id in s.table && a.nodes[id].level == 0 ==>
      AnswersLikeMap(s, a, id)
  }

  // ----- Chains in memory

  ghost predicate Extends(s: State, mem: map<Addr, Page>) {
    0 !in mem && forall x :: x in s.mem ==> x in mem && mem[x] == s.mem[x]
  }

  /** Published pages never change, so neither do the chains they start. */
  lemma {:induction false} ChainFrame(s: State, mem: map<Addr, Page>, addr: Addr)
    requires MemOk(s) && Extends(s, mem)
    requires addr in s.mem || addr == 0
    ensures Chain(mem, addr) == Chain(s.mem, addr)
    decreases addr
  {
    if addr in s.mem {
      assert PageOk(s.mem, addr);
      ChainFrame(s, mem, s.mem[addr].next);
    }
  }

  lemma ChainOfTop(s: State, a: Aux, id: Id)
    requires MemOk(s) && Domains(s, a) && Chains(s, a) && id in s.table
    ensures a.nodes[id].chain == [Top(s, id).body] + Chain(s.mem, Top(s, id).next)
    ensures Top(s, id).next == 0 ==> a.nodes[id].chain == [Top(s, id).body]
  {
    assert PageOk(s.mem, s.table[id]);
  }

  lemma TopTier(s: State, a: Aux, id: Id)
    requires MemOk(s) && Domains(s, a) && Chains(s, a) && Nodes(s, a) && id in s.table
    ensures TierOf(Top(s, id).body) == Leaf <==> a.nodes[id].level == 0
  {
    ChainOfTop(s, a, id);
    assert NodeOk(a.nodes[id]);
    assert a.nodes[id].chain[0] == Top(s, id).body;
  }

  lemma ChainStep(s: State, addr: Addr)
    requires MemOk(s) && addr in s.mem
    ensures s.mem[addr].next < addr && (s.mem[addr].next == 0 || s.mem[addr].next in s.mem)
    ensures Chain(s.mem, addr) == [s.mem[addr].body] + Chain(s.mem, s.mem[addr].next)
    ensures s.mem[addr].next == 0 ==> |Chain(s.mem, addr)| == 1
  {
    assert PageOk(s.mem, addr);
  }

  lemma DropLater(b: Body, rest: seq<Body>, n: nat)
    requires 0 < n <= |rest|
    ensures ([b] + rest)[n..] == rest[n - 1..] && ([b] + rest)[n + 1..] == rest[n..]
  {
  }

  /** Skipping `n` pages drops `n` bodies. */
  lemma {:induction false} SkipChain(s: State, addr: Addr, n: nat)
    requires MemOk(s) && addr in s.mem && n < |Chain(s.mem, addr)|
    ensures Skip(s.mem, addr, n) in s.mem && Skip(s.mem, addr, n) <= addr
    ensures Chain(s.mem, Skip(s.mem, addr, n)) == Chain(s.mem, addr)[n..]
    ensures Chain(s.mem, s.mem[Skip(s.mem, addr, n)].next) == Chain(s.mem, addr)[n + 1..]
    decreases n
  {
    var next := s.mem[addr].next;
    ChainStep(s, addr);
    if n == 0 {
      assert Skip(s.mem, addr, 0) == addr;
      assert Chain(s.mem, addr)[1..] == Chain(s.mem, next);
    } else {
      assert Skip(s.mem, addr, n) == Skip(s.mem, next, n - 1);
      SkipChain(s, next, n - 1);
      DropLater(s.mem[addr].body, Chain(s.mem, next), n);
    }
  }

  // ----- A new page on top of, or instead of, one chain

  /** `s'` differs from `s` in one table entry that now points to a new page. */
  ghost predicate Repointed(s: State, s': State, id: Id, new_: Addr, page: Page) {
    && id in s.table && Fresh(s, new_, s.table[id])
    && page.next < new_ && (page.next == 0 || page.next in s.mem) && (page.next == 0 ==> page.len == 1)
    && s'.mem == s.mem[new_ := page] && s'.table == s.table[id := new_]
    && s'.cursors == s.cursors && s'.views == s.views && s'.stale == s.stale
  }

  lemma RepointedChains(s: State, a: Aux, s': State, id: Id, new_: Addr, page: Page)
    requires MemOk(s) && Domains(s, a) && Chains(s, a) && Repointed(s, s', id, new_, page)
    ensures MemOk(s')
    ensures Chain(s'.mem, new_) == [page.body] + Chain(s.mem, page.next)
    ensures forall x :: x in s.table && x != id ==> Chain(s'.mem, s'.table[x]) == a.nodes[x].chain
  {
    forall x | x in s.table && x != id
      ensures Chain(s'.mem, s'.table[x]) == a.nodes[x].chain
    {
      ChainFrame(s, s'.mem, s.table[x]);
    }
    ChainFrame(s, s'.mem, page.next);
    forall x: Addr
      ensures PageOk(s'.mem, x)
    {
      assert PageOk(s.mem, x);
    }
  }

  ghost function WithChain(a: Aux, id: Id, chain: seq<Body>): Aux
    requires id in a.nodes
  {
    a.(nodes := a.nodes[id := a.nodes[id].(chain := chain)])
  }

  /** Two bookkeepings that differ in chains only. */
  ghost predicate SameShape(a: Aux, a': Aux) {
    && a'.nodes.Keys == a.nodes.Keys && a'.pub == a.pub && a'.parent == a.parent && a'.left == a.left
    && forall x :: x in a.nodes ==> a'.nodes[x] == a.nodes[x].(chain := a'.nodes[x].chain)
  }

  lemma WithChainShape(a: Aux, id: Id, chain: seq<Body>)
    requires id in a.nodes
    ensures SameShape(a, WithChain(a, id, chain))
  {
  }

  lemma ContentCursor(s: State, a: Aux, s': State, a': Aux, id: Id, new_: Addr, page: Page, c: Cursor)
    requires Domains(s, a) && Domains(s', a') && CursorOk(s, a, c) && Repointed(s, s', id, new_, page) &&
             SameShape(a, a')
    ensures CursorOk(s', a', c)
  {
  }

  lemma ContentLocals(s: State, a: Aux, s': State, a': Aux, id: Id, new_: Addr, page: Page)
    requires Domains(s, a) && Domains(s', a') && Locals(s, a) && Repointed(s, s', id, new_, page)
    requires page.epoch == Top(s, id).epoch && (id in a.pub ==> Settled(s, a, id)) && SameShape(a, a')
    ensures Locals(s', a')
  {
    forall c | c in s'.cursors
      ensures CursorOk(s', a', c)
    {
      ContentCursor(s, a, s', a', id, new_, page, c);
    }
    forall v | v in s'.views
      ensures ViewOk(s', a', v)
    {
      assert ViewOk(s, a, v);
    }
    forall w | w in s'.stale
      ensures StaleOk(s', a', w)
    {
      assert StaleOk(s, a, w);
    }
  }

  lemma ContentPublished(s: State, a: Aux, s': State, a': Aux, id: Id, new_: Addr, page: Page)
    requires Domains(s, a) && Domains(s', a') && PublishedOk(s, a) && Repointed(s, s', id, new_, page)
    requires page.epoch == Top(s, id).epoch && (id in a.pub ==> Settled(s, a, id)) && SameShape(a, a')
    ensures PublishedOk(s', a')
  {
    forall x | x in a'.pub
      ensures InStep(s', a', x)
    {
      assert InStep(s, a, x);
    }
  }

  lemma SameChildren(s: State, a: Aux, s': State, a': Aux)
    requires Domains(s, a) && Domains(s', a') && Children(s, a) && SameShape(a, a')
    ensures Children(s', a')
  {
    forall q, i | q in s'.table && 0 <= i < |a'.nodes[q].ents|
      ensures ChildOk(s', a', q, i)
    {
      assert ChildOk(s, a, q, i);
    }
  }

  lemma SameLevels(s: State, a: Aux, s': State, a': Aux)
    requires Domains(s, a) && Domains(s', a') && Levels(s, a) && SameShape(a, a')
    ensures Levels(s', a')
  {
    forall x, y | x in s'.table && y in s'.table && x != y
      ensures SideBySide(a'.nodes[x], a'.nodes[y])
    {
      assert SideBySide(a.nodes[x], a.nodes[y]);
    }
  }

  lemma ContentMemory(s: State, a: Aux, s': State, id: Id, new_: Addr, page: Page)
    requires MemOk(s) && Domains(s, a) && Chains(s, a) && RootOk(s, a) && Repointed(s, s', id, new_, page)
    requires page.epoch == Top(s, id).epoch
    ensures var a' := WithChain(a, id, [page.body] + Chain(s.mem, page.next));
            MemOk(s') && Domains(s', a') && Chains(s', a') && RootOk(s', a')
  {
    RepointedChains(s, a, s', id, new_, page);
  }

  lemma ContentNodes(s: State, a: Aux, s': State, id: Id, chain: seq<Body>)
    requires Domains(s, a) && Nodes(s, a) && id in s.table && s'.table.Keys == s.table.Keys
    requires Domains(s', WithChain(a, id, chain))
    requires NodeOk(a.nodes[id].(chain := chain))
    ensures Nodes(s', WithChain(a, id, chain))
  {
    forall x | x in s'.table
      ensures NodeOk(WithChain(a, id, chain).nodes[x])
    {
      assert x == id || NodeOk(a.nodes[x]);
    }
  }

  lemma ContentRecorded(s: State, a: Aux, s': State, id: Id, chain: seq<Body>)
    requires Domains(s, a) && Recorded(s, a) && id in s.table && s'.table.Keys == s.table.Keys
    requires Domains(s', WithChain(a, id, chain))
    requires s.written <= s'.written && KeyUnique(s'.written) && Contents(chain) <= s'.written
    ensures Recorded(s', WithChain(a, id, chain))
  {
  }

  /** Steps that change neither epoch nor range of a page keep the invariant. */
  lemma ContentStep(s: State, a: Aux, s': State, id: Id, new_: Addr, page: Page) returns (a': Aux)
    requires Inv(s, a) && Repointed(s, s', id, new_, page)
    requires page.epoch == Top(s, id).epoch && (id in a.pub ==> Settled(s, a, id))
    requires NodeOk(a.nodes[id].(chain := [page.body] + Chain(s.mem, page.next)))
    requires s.written <= s'.written && KeyUnique(s'.written)
    requires Contents([page.body] + Chain(s.mem, page.next)) <= s'.written
    ensures a' == WithChain(a, id, [page.body] + Chain(s.mem, page.next))
    ensures Inv(s', a')
  {
    a' := WithChain(a, id, [page.body] + Chain(s.mem, page.next));
    WithChainShape(a, id, [page.body] + Chain(s.mem, page.next));
    ContentMemory(s, a, s', id, new_, page);
    ContentNodes(s, a, s', id, [page.body] + Chain(s.mem, page.next));
    ContentRecorded(s, a, s', id, [page.body] + Chain(s.mem, page.next));
    ContentPublished(s, a, s', a', id, new_, page);
    SameChildren(s, a, s', a');
    SameLevels(s, a, s', a');
    ContentLocals(s, a, s', a', id, new_, page);
  }

  // ----- What an epoch tells

  /** An operation that meets the epoch it was sent to works on the range it was sent to. */
  lemma EpochTellsRange(s: State, a: Aux, c: Cursor)
    requires Domains(s, a) && PublishedOk(s, a) && RootOk(s, a) && CursorOk(s, a, c)
    requires Top(s, c.index.id).epoch == c.index.epoch
    ensures Settled(s, a, c.index.id) && a.nodes[c.index.id].rng == c.range && Contains(a.nodes[c.index.id].rng, c.key)
  {
    assert InStep(s, a, c.index.id);
  }

  /** A data page on top means that no split is pending. */
  lemma DataTopSettled(s: State, a: Aux, id: Id)
    requires Domains(s, a) && PublishedOk(s, a) && id in s.table && IsData(Top(s, id).body)
    ensures id in a.pub ==> Settled(s, a, id)
  {
    assert id in a.pub ==> InStep(s, a, id);
  }

  // ----- Writes

  lemma WriteNode(n: Node, ver: Version)
    requires NodeOk(n) && n.level == 0 && Contains(n.rng, ver.key.raw)
    requires LsnGrows(Contents(n.chain), ver)
    ensures NodeOk(n.(chain := [LeafData([ver])] + n.chain))
    ensures Contents([LeafData([ver])] + n.chain) == {ver} + Contents(n.chain)
  {
    var c := [LeafData([ver])] + n.chain;
    assert c[1..] == n.chain;
    assert BodySet(c[0]) == {ver};
  }

  lemma NewestOther(W: set<Version>, ver: Version, raw: RawKey, lsn: Lsn)
    requires KeyUnique(W + {ver}) && ver.key.raw != raw
    ensures Newest(W + {ver}, raw, lsn) == Newest(W, raw, lsn)
  {
    NewestIsNewest(W, raw, lsn);
    NewestUnique(W + {ver}, raw, lsn, Newest(W, raw, lsn));
  }

  lemma NewestAdded(W: set<Version>, ver: Version, lsn: Lsn)
    requires KeyUnique(W + {ver}) && LsnGrows(W, ver)
    ensures Newest(W + {ver}, ver.key.raw, lsn) == if ver.key.lsn <= lsn then Some(ver) else Newest(W, ver.key.raw, lsn)
  {
    NewestIsNewest(W, ver.key.raw, lsn);
    NewestUnique(W + {ver}, ver.key.raw, lsn, if ver.key.lsn <= lsn then Some(ver) else Newest(W, ver.key.raw, lsn));
  }

  lemma GrowsUnique(W: set<Version>, ver: Version)
    requires KeyUnique(W) && LsnGrows(W, ver)
    ensures KeyUnique(W + {ver})
  {
  }

  /** The leaf that takes the write is the one that owns the key. */
  lemma WriteOwner(s: State, a: Aux, s': State, v: View, ver: Version, new_: Addr)
    requires Inv(s, a) && Write(s, s', v, ver, new_)
    ensures var id := v.cursor.index.id;
            && id in a.pub && a.nodes[id].level == 0 && Contains(a.nodes[id].rng, ver.key.raw)
            && Settled(s, a, id) && Top(s, id).epoch == v.cursor.index.epoch
  {
    assert ViewOk(s, a, v);
    assert CursorOk(s, a, v.cursor);
    EpochTellsRange(s, a, v.cursor);
  }

  lemma WriteStepInv(s: State, a: Aux, s': State, v: View, ver: Version, new_: Addr) returns (a': Aux)
    requires Inv(s, a) && Write(s, s', v, ver, new_)
    ensures Inv(s', a')
    ensures var id := v.cursor.index.id; a' == WithChain(a, id, [LeafData([ver])] + a.nodes[id].chain)
  {
    var id := v.cursor.index.id;
    var page := s'.mem[new_];
    WriteOwner(s, a, s', v, ver, new_);
    WriteNode(a.nodes[id], ver);
    GrowsUnique(s.written, ver);
    assert Chain(s.mem, page.next) == a.nodes[id].chain;
    a' := ContentStep(s, a, s', id, new_, page);
  }

  /** A new version changes the owner's answers exactly like those of the map. */
  lemma OwnerAnswers(S: set<Version>, W: set<Version>, ver: Version, raw: RawKey, lsn: Lsn)
    requires S <= W && KeyUnique(W) && LsnGrows(W, ver)
    requires Visible(Newest(S, raw, lsn)) == Visible(Newest(W, raw, lsn))
    ensures Visible(Newest({ver} + S, raw, lsn)) == Visible(Newest(W + {ver}, raw, lsn))
  {
    GrowsUnique(W, ver);
    assert {ver} + S == S + {ver};
    if raw == ver.key.raw {
      NewestAdded(S, ver, lsn);
      NewestAdded(W, ver, lsn);
    } else {
      NewestOther(S, ver, raw, lsn);
      NewestOther(W, ver, raw, lsn);
    }
  }

  lemma OwnerAfterWrite(s: State, a: Aux, s': State, a': Aux, id: Id, ver: Version)
    requires Domains(s, a) && Domains(s', a') && Recorded(s, a) && id in s.table && id in s'.table &&
             AnswersLikeMap(s, a, id)
    requires a'.nodes[id].rng == a.nodes[id].rng && s'.safe == s.safe
    requires Contents(a'.nodes[id].chain) == {ver} + Contents(a.nodes[id].chain)
    requires s'.written == s.written + {ver} && LsnGrows(s.written, ver)
    ensures AnswersLikeMap(s', a', id)
  {
    forall raw: RawKey, lsn: Lsn | Contains(a'.nodes[id].rng, raw) && s'.safe <= lsn
      ensures Visible(Newest(Contents(a'.nodes[id].chain), raw, lsn)) == Visible(Newest(s'.written, raw, lsn))
    {
      OwnerAnswers(Contents(a.nodes[id].chain), s.written, ver, raw, lsn);
    }
  }

  lemma OtherAfterWrite(s: State, a: Aux, s': State, a': Aux, x: Id, ver: Version)
    requires Domains(s, a) && Domains(s', a') && Recorded(s, a) && x in s.table && x in s'.table &&
             AnswersLikeMap(s, a, x)
    requires a'.nodes[x] == a.nodes[x] && s'.safe == s.safe && !Contains(a.nodes[x].rng, ver.key.raw)
    requires s'.written == s.written + {ver} && LsnGrows(s.written, ver)
    ensures AnswersLikeMap(s', a', x)
  {
    GrowsUnique(s.written, ver);
    forall raw: RawKey, lsn: Lsn | Contains(a'.nodes[x].rng, raw) && s'.safe <= lsn
      ensures Visible(Newest(Contents(a'.nodes[x].chain), raw, lsn)) == Visible(Newest(s'.written, raw, lsn))
    {
      NewestOther(s.written, ver, raw, lsn);
    }
  }

  /** No other leaf owns the key. */
  lemma OthersDoNotOwn(s: State, a: Aux, id: Id, raw: RawKey)
    requires Domains(s, a) && Levels(s, a) && id in s.table && Contains(a.nodes[id].rng, raw)
    ensures forall x :: x in s.table && x != id && a.nodes[x].level == a.nodes[id].level ==>
            !Contains(a.nodes[x].rng, raw)
  {
    forall x | x in s.table && x != id && a.nodes[x].level == a.nodes[id].level
      ensures !Contains(a.nodes[x].rng, raw)
    {
      assert SideBySide(a.nodes[x], a.nodes[id]);
    }
  }

  lemma OthersAfterWrite(s: State, a: Aux, s': State, a': Aux, id: Id, ver: Version)
    requires Domains(s, a) && Domains(s', a') && Recorded(s, a) && DataInv(s, a)
    requires id in s.table && s'.table.Keys == s.table.Keys && s'.safe == s.safe
    requires forall x :: x in s.table && x != id ==> a'.nodes[x] == a.nodes[x]
    requires forall x :: x in s.table && x != id && a.nodes[x].level == 0 ==> !Contains(a.nodes[x].rng, ver.key.raw)
    requires s'.written == s.written + {ver} && LsnGrows(s.written, ver)
    requires AnswersLikeMap(s', a', id)
    ensures DataInv(s', a')
  {
    forall x | x in s'.table && a'.nodes[x].level == 0 && x != id
      ensures AnswersLikeMap(s', a', x)
    {
      assert AnswersLikeMap(s, a, x);
      OtherAfterWrite(s, a, s', a', x, ver);
    }
  }

  lemma WriteStepData(s: State, a: Aux, s': State, v: View, ver: Version, new_: Addr, a': Aux)
    requires Inv(s, a) && Write(s, s', v, ver, new_) && DataInv(s, a)
    requires var id := v.cursor.index.id; a' == WithChain(a, id, [LeafData([ver])] + a.nodes[id].chain)
    requires Domains(s', a')
    ensures DataInv(s', a')
  {
    var id := v.cursor.index.id;
    WriteOwner(s, a, s', v, ver, new_);
    WriteNode(a.nodes[id], ver);
    OwnerAfterWrite(s, a, s', a', id, ver);
    OthersDoNotOwn(s, a, id, ver.key.raw);
    OthersAfterWrite(s, a, s', a', id, ver);
  }

  // ----- Consolidations

  lemma LimitOfParts(chain: seq<Body>, n: nat)
    requires n <= |chain|
    ensures SplitLimit(chain) == if SplitLimit(chain[..n]).Some? then SplitLimit(chain[..n]) else SplitLimit(chain[n..])
  {
    if n > 0 && IsData(chain[0]) {
      LimitOfParts(chain[1..], n - 1);
      assert chain[1..][..n - 1] == chain[..n][1..];
      assert chain[1..][n - 1..] == chain[n..];
    } else if n == 0 {
      assert chain[..0] == [] && chain[0..] == chain;
    }
  }

  lemma ConsolidatedLeafNode(n: Node, k: nat, safe: Lsn, items: seq<Version>)
    requires NodeOk(n) && n.level == 0 && Mergeable(n.chain, k)
    requires LeafConsolidated(Contents(n.chain[..k]), SplitLimit(n.chain[..k]), safe, items)
    ensures NodeOk(n.(chain := Replaced(n.chain, k, items)))
    ensures Contents(Replaced(n.chain, k, items)) <= Contents(n.chain)
  {
    var c := Replaced(n.chain, k, items);
    LimitOfParts(n.chain, k);
    ReplacedOk(n.chain, k, SplitLimit(n.chain[..k]), safe, items);
    assert c[1..] == n.chain[k..];
    if k == |n.chain| {
      assert n.chain[..k] == n.chain;
      assert Contents(n.chain[k..]) == {};
    }
  }

  lemma LeafConsolidationPage(s: State, a: Aux, s': State, id: Id, n: nat, safe: Lsn, items: seq<Version>, new_: Addr)
    requires Inv(s, a) && ConsolidateLeaf(s, s', id, n, safe, items, new_)
    ensures Repointed(s, s', id, new_, s'.mem[new_])
    ensures Chain(s.mem, s'.mem[new_].next) == a.nodes[id].chain[n..]
    ensures a.nodes[id].level == 0 && (id in a.pub ==> Settled(s, a, id))
  {
    SkipChain(s, s.table[id], n - 1);
    assert PageOk(s.mem, Skip(s.mem, s.table[id], n - 1));
    DataTopSettled(s, a, id);
    TopTier(s, a, id);
  }

  lemma ConsolidateLeafInv(s: State, a: Aux, s': State, id: Id, n: nat, safe: Lsn, items: seq<Version>, new_: Addr)
    returns (a': Aux)
    requires Inv(s, a) && ConsolidateLeaf(s, s', id, n, safe, items, new_)
    ensures Inv(s', a')
    ensures a' == WithChain(a, id, Replaced(a.nodes[id].chain, n, items))
  {
    LeafConsolidationPage(s, a, s', id, n, safe, items, new_);
    ConsolidatedLeafNode(a.nodes[id], n, safe, items);
    a' := ContentStep(s, a, s', id, new_, s'.mem[new_]);
  }

  /** The step drops no delete that hides an older value. */
  ghost predicate Lossless(s: State, step: Step) {
    step.ConsolidateLeafStep? && step.id in s.table && step.n < |Chain(s.mem, s.table[step.id])| ==>
      NothingResurrects(Chain(s.mem, s.table[step.id]), step.n, step.safe)
  }

  lemma ConsolidatedReads(chain: seq<Body>, n: nat, safe: Lsn, items: seq<Version>, raw: RawKey, lsn: Lsn)
    requires LeafOk(chain) && Mergeable(chain, n) && safe <= lsn && Below(raw, SplitLimit(chain))
    requires LeafConsolidated(Contents(chain[..n]), SplitLimit(chain[..n]), safe, items)
    requires n < |chain| ==> NothingResurrects(chain, n, safe)
    ensures Visible(Newest(Contents(Replaced(chain, n, items)), raw, lsn)) == Visible(Newest(Contents(chain), raw, lsn))
  {
    ReplacedOk(chain, n, SplitLimit(chain[..n]), safe, items);
    ChainReadIsSetRead(chain, raw, lsn);
    ChainReadIsSetRead(Replaced(chain, n, items), raw, lsn);
    if n == |chain| {
      assert chain[..n] == chain && Replaced(chain, n, items) == [LeafData(items)];
      FullConsolidationKeepsReads(chain, SplitLimit(chain), safe, items, raw, lsn);
    } else {
      PartialConsolidationKeepsReadsIff(chain, n, safe, items);
    }
  }

  lemma ConsolidatedAnswers(s: State, a: Aux, s': State, a': Aux, id: Id, n: nat, safe: Lsn, items: seq<Version>)
    requires Domains(s, a) && Domains(s', a') && id in s.table && id in s'.table && AnswersLikeMap(s, a, id)
    requires NodeOk(a.nodes[id]) && a.nodes[id].level == 0
    requires s'.written == s.written && s'.safe == s.safe && safe <= s.safe
    requires Mergeable(a.nodes[id].chain, n)
    requires a'.nodes[id] == a.nodes[id].(chain := Replaced(a.nodes[id].chain, n, items))
    requires LeafConsolidated(Contents(a.nodes[id].chain[..n]), SplitLimit(a.nodes[id].chain[..n]), safe, items)
    requires n < |a.nodes[id].chain| ==> NothingResurrects(a.nodes[id].chain, n, safe)
    ensures AnswersLikeMap(s', a', id)
  {
    forall raw: RawKey, lsn: Lsn | Contains(a'.nodes[id].rng, raw) && s'.safe <= lsn
      ensures Visible(Newest(Contents(a'.nodes[id].chain), raw, lsn)) == Visible(Newest(s'.written, raw, lsn))
    {
      ConsolidatedReads(a.nodes[id].chain, n, safe, items, raw, lsn);
    }
  }

  /** Steps that write nothing keep the answers of all leaves they do not touch. */
  lemma UntouchedAnswers(s: State, a: Aux, s': State, a': Aux, id: Id)
    requires Domains(s, a) && Domains(s', a') && DataInv(s, a) && id in s.table
    requires s'.table.Keys == s.table.Keys && s'.safe >= s.safe && s'.written == s.written
    requires forall x :: x in s.table && x != id ==> a'.nodes[x] == a.nodes[x]
    requires a'.nodes[id].level == 0 ==> AnswersLikeMap(s', a', id)
    ensures DataInv(s', a')
  {
    forall x | x in s'.table && a'.nodes[x].level == 0 && x != id
      ensures AnswersLikeMap(s', a', x)
    {
      assert AnswersLikeMap(s, a, x);
    }
  }

  lemma ConsolidateLeafData(s: State, a: Aux, s': State, id: Id, n: nat, safe: Lsn, items: seq<Version>, new_: Addr,
                            a': Aux)
    requires Inv(s, a) && ConsolidateLeaf(s, s', id, n, safe, items, new_) && DataInv(s, a)
    requires Lossless(s, ConsolidateLeafStep(id, n, safe, items, new_))
    requires a' == WithChain(a, id, Replaced(a.nodes[id].chain, n, items)) && Domains(s', a')
    ensures DataInv(s', a')
  {
    LeafConsolidationPage(s, a, s', id, n, safe, items, new_);
    ConsolidatedAnswers(s, a, s', a', id, n, safe, items);
    UntouchedAnswers(s, a, s', a', id);
  }

  lemma InnerConsolidationPage(s: State, a: Aux, s': State, id: Id, items: seq<Entry>, new_: Addr)
    requires Inv(s, a) && ConsolidateInner(s, s', id, items, new_)
    ensures Repointed(s, s', id, new_, s'.mem[new_])
    ensures Chain(s.mem, s'.mem[new_].next) == []
    ensures a.nodes[id].level > 0 && (id in a.pub ==> Settled(s, a, id))
  {
    DataTopSettled(s, a, id);
    TopTier(s, a, id);
    LastPage(s, s.table[id], |Chain(s.mem, s.table[id])|);
  }

  /** The last page of a chain points to nothing. */
  lemma LastPage(s: State, addr: Addr, n: nat)
    requires MemOk(s) && addr in s.mem && n == |Chain(s.mem, addr)| && n > 0
    ensures var last := Skip(s.mem, addr, n - 1);
            && last in s.mem && last <= addr && Chain(s.mem, s.mem[last].next) == []
            && PageOk(s.mem, last) && s.mem[last].next == 0 && s.mem[last].len == 1
  {
    SkipChain(s, addr, n - 1);
    var last := Skip(s.mem, addr, n - 1);
    assert PageOk(s.mem, last);
    if s.mem[last].next in s.mem {
      ChainStep(s, s.mem[last].next);
    }
  }

  lemma ConsolidatedInnerNode(n: Node, items: seq<Entry>)
    requires NodeOk(n) && n.level > 0 && InnerConsolidated(n.chain, items)
    ensures NodeOk(n.(chain := [InnerData(items)]))
    ensures Contents([InnerData(items)]) == {}
  {
    ConsolidationRepresents(n.chain, n.ents, n.rng, items);
    assert [InnerData(items)][1..] == [];
  }

  lemma ConsolidateInnerInv(s: State, a: Aux, s': State, id: Id, items: seq<Entry>, new_: Addr) returns (a': Aux)
    requires Inv(s, a) && ConsolidateInner(s, s', id, items, new_)
    ensures Inv(s', a')
    ensures a' == WithChain(a, id, [InnerData(items)]) && a.nodes[id].level > 0
  {
    InnerConsolidationPage(s, a, s', id, items, new_);
    assert [InnerData(items)] + [] == [InnerData(items)];
    ConsolidatedInnerNode(a.nodes[id], items);
    a' := ContentStep(s, a, s', id, new_, s'.mem[new_]);
  }
}
