/** Publishing a pending split in the parent (photondb/src/tree/mod.rs `reconcile_split_page`). */
module TreeReconcile {
  import opened Data
  import opened Pages
  import opened LeafChain
  import opened InnerChain
  import opened TreeProtocol
  import opened TreeInvariant

  /** Child `c` of `q` (entry `i`) has a pending split into itself and `r`. */
  ghost predicate PendingChild(s: State, a: Aux, q: Id, i: nat, c: Id, r: Id) {
    && Domains(s, a)
    && q in s.table && i < |a.nodes[q].ents| && ChildOk(s, a, q, i)
    && c == a.nodes[q].ents[i].index.id && Pending(s, a, c) && r == Top(s, c).body.right.id
    && a.nodes[q].ents[i].key < Top(s, c).body.splitKey
    && Below(Top(s, c).body.splitKey, a.pub[c].range.hi)
  }

  ghost function LeftIndex(s: State, c: Id): Index
    requires HasPage(s, c)
  {
    Index(c, Top(s, c).epoch)
  }

  /** The reconciled bookkeeping: both halves are published. */
  ghost function Reconciled(s: State, a: Aux, q: Id, i: nat, c: Id, r: Id): Aux
    requires PendingChild(s, a, q, i, c, r)
  {
    var n := a.nodes[q];
    var d := Top(s, c).body;
    var delta := Delta(n.ents[i].key, LeftIndex(s, c), d.splitKey, d.right, EndOf(n.ents, i, n.rng.hi));
    var n' := n.(chain := [InnerData(delta)] + n.chain,
                 ents := Refined(n.ents, i, LeftIndex(s, c), d.splitKey, d.right));
    a.(nodes := a.nodes[q := n'],
       pub := a.pub[c := Published(Top(s, c).epoch, a.nodes[c].rng)][r := Published(0, a.nodes[r].rng)],
       parent := a.parent[r := q])
  }

  /** A stale view that found a split, and whose parent is where the descent saw it, holds the one
      split that is pending for that child; in particular the split key is inside the range. */
  lemma StaleMeansPending(s: State, a: Aux, s': State, w: View, new_: Addr) returns (i: nat)
    requires Inv(s, a) && Reconcile(s, s', w, new_)
    ensures var p := w.cursor.parent.value;
            var c := w.cursor.index.id;
            && p.id in a.pub && Settled(s, a, p.id)
            && HasPage(s, c) && Top(s, c) == s.mem[w.addr]
            && PendingChild(s, a, p.id, i, c, Top(s, c).body.right.id)
            && a.nodes[p.id].ents[i] == Entry(w.cursor.range.lo, w.cursor.index)
            && EndOf(a.nodes[p.id].ents, i, a.nodes[p.id].rng.hi) == w.cursor.range.hi
  {
    var p, c := w.cursor.parent.value, w.cursor.index.id;
    assert StaleOk(s, a, w);
    assert CursorOk(s, a, w.cursor);
    i :| 0 <= i < |a.nodes[p.id].ents| && a.nodes[p.id].ents[i] == Entry(w.cursor.range.lo, w.cursor.index)
         && EndOf(a.nodes[p.id].ents, i, a.nodes[p.id].rng.hi) == w.cursor.range.hi;
    assert ChildOk(s, a, p.id, i);
    assert InStep(s, a, c) && InStep(s, a, p.id);
    assert NodeOk(a.nodes[c]) && NodeOk(a.nodes[Top(s, c).body.right.id]);
  }

  lemma ReconciledNode(s: State, a: Aux, q: Id, i: nat, c: Id, r: Id)
    requires PendingChild(s, a, q, i, c, r) && NodeOk(a.nodes[q]) && r != NAN_ID
    ensures NodeOk(Reconciled(s, a, q, i, c, r).nodes[q])
    ensures Contents(Reconciled(s, a, q, i, c, r).nodes[q].chain) == Contents(a.nodes[q].chain)
  {
    var n := a.nodes[q];
    var d := Top(s, c).body;
    assert n.level > 0;
    DeltaRepresents(n.chain, n.ents, n.rng, i, LeftIndex(s, c), d.splitKey, d.right);
    var c' := Reconciled(s, a, q, i, c, r).nodes[q].chain;
    assert c'[1..] == n.chain;
  }

  lemma ReconciledMemory(s: State, a: Aux, s': State, q: Id, i: nat, c: Id, r: Id, new_: Addr, page: Page)
    requires PendingChild(s, a, q, i, c, r) && MemOk(s) && Chains(s, a) && RootOk(s, a) &&
             Repointed(s, s', q, new_, page)
    requires page.epoch == Top(s, q).epoch && page.next == s.table[q]
    requires [page.body] + a.nodes[q].chain == Reconciled(s, a, q, i, c, r).nodes[q].chain
    ensures var a' := Reconciled(s, a, q, i, c, r);
            MemOk(s') && Domains(s', a') && Chains(s', a') && RootOk(s', a')
  {
    RepointedChains(s, a, s', q, new_, page);
  }

  lemma ReconciledNodes(s: State, a: Aux, s': State, q: Id, i: nat, c: Id, r: Id)
    requires PendingChild(s, a, q, i, c, r) && Nodes(s, a) && Recorded(s, a) && r != NAN_ID
    requires s'.table.Keys == s.table.Keys && s'.written == s.written && Domains(s', Reconciled(s, a, q, i, c, r))
    ensures Nodes(s', Reconciled(s, a, q, i, c, r)) && Recorded(s', Reconciled(s, a, q, i, c, r))
  {
    var a' := Reconciled(s, a, q, i, c, r);
    assert NodeOk(a.nodes[q]);
    ReconciledNode(s, a, q, i, c, r);
    forall x | x in s'.table
      ensures NodeOk(a'.nodes[x]) && Contents(a'.nodes[x].chain) <= s'.written
    {
      assert NodeOk(a.nodes[x]) && Contents(a.nodes[x].chain) <= s.written;
    }
  }

  lemma ReconciledPublished(s: State, a: Aux, s': State, q: Id, i: nat, c: Id, r: Id, new_: Addr, page: Page)
    requires PendingChild(s, a, q, i, c, r) && PublishedOk(s, a) && Repointed(s, s', q, new_, page)
    requires page.epoch == Top(s, q).epoch && (q in a.pub ==> Settled(s, a, q))
    requires Domains(s', Reconciled(s, a, q, i, c, r))
    ensures PublishedOk(s', Reconciled(s, a, q, i, c, r))
  {
    var a' := Reconciled(s, a, q, i, c, r);
    forall x | x in a'.pub
      ensures InStep(s', a', x)
    {
      if x != c && x != r {
        assert InStep(s, a, x);
      }
    }
  }

  lemma ReconciledOwnChild(s: State, a: Aux, s': State, q: Id, i: nat, c: Id, r: Id, j: nat)
    requires PendingChild(s, a, q, i, c, r) && Domains(s', Reconciled(s, a, q, i, c, r)) &&
             s'.table.Keys == s.table.Keys
    requires SortedEntries(a.nodes[q].ents) && j <= |a.nodes[q].ents|
    requires j < i ==> ChildOk(s, a, q, j)
    requires j > i + 1 ==> ChildOk(s, a, q, j - 1)
    ensures ChildOk(s', Reconciled(s, a, q, i, c, r), q, j)
  {
    var E := a.nodes[q].ents;
    var N := Reconciled(s, a, q, i, c, r).nodes[q].ents;
    if j < i {
      assert N[j] == E[j];
      assert E[j].key < E[i].key;
    } else if j > i + 1 {
      assert N[j] == E[j - 1];
      assert E[i].key < E[j - 1].key;
    }
  }

  lemma ReconciledOtherChild(s: State, a: Aux, s': State, q: Id, i: nat, c: Id, r: Id, x: Id, j: nat)
    requires PendingChild(s, a, q, i, c, r) && Domains(s', Reconciled(s, a, q, i, c, r)) &&
             s'.table.Keys == s.table.Keys
    requires x in s.table && x != q && j < |a.nodes[x].ents| && ChildOk(s, a, x, j)
    ensures ChildOk(s', Reconciled(s, a, q, i, c, r), x, j)
  {
  }

  lemma ReconciledChildren(s: State, a: Aux, s': State, q: Id, i: nat, c: Id, r: Id)
    requires PendingChild(s, a, q, i, c, r) && Domains(s', Reconciled(s, a, q, i, c, r)) &&
             s'.table.Keys == s.table.Keys
    requires Children(s, a) && NodeOk(a.nodes[q])
    ensures Children(s', Reconciled(s, a, q, i, c, r))
  {
    var a' := Reconciled(s, a, q, i, c, r);
    forall x, j | x in s'.table && 0 <= j < |a'.nodes[x].ents|
      ensures ChildOk(s', a', x, j)
    {
      if x == q {
        assert j < i ==> ChildOk(s, a, q, j);
        assert j > i + 1 ==> ChildOk(s, a, q, j - 1);
        ReconciledOwnChild(s, a, s', q, i, c, r, j);
      } else {
        assert ChildOk(s, a, x, j);
        ReconciledOtherChild(s, a, s', q, i, c, r, x, j);
      }
    }
  }

  lemma ReconciledLevels(s: State, a: Aux, s': State, q: Id, i: nat, c: Id, r: Id)
    requires PendingChild(s, a, q, i, c, r) && Domains(s', Reconciled(s, a, q, i, c, r)) &&
             s'.table.Keys == s.table.Keys
    requires Levels(s, a)
    ensures Levels(s', Reconciled(s, a, q, i, c, r))
  {
    var a' := Reconciled(s, a, q, i, c, r);
    forall x, y | x in s'.table && y in s'.table && x != y
      ensures SideBySide(a'.nodes[x], a'.nodes[y])
    {
      assert SideBySide(a.nodes[x], a.nodes[y]);
    }
  }

  lemma ReconciledLocals(s: State, a: Aux, s': State, q: Id, i: nat, c: Id, r: Id, new_: Addr, page: Page)
    requires PendingChild(s, a, q, i, c, r) && Locals(s, a) && Repointed(s, s', q, new_, page)
    requires page.epoch == Top(s, q).epoch && (q in a.pub ==> Settled(s, a, q))
    requires Domains(s', Reconciled(s, a, q, i, c, r))
    ensures Locals(s', Reconciled(s, a, q, i, c, r))
  {
    var a' := Reconciled(s, a, q, i, c, r);
    forall x | x in s'.cursors
      ensures CursorOk(s', a', x)
    {
      assert CursorOk(s, a, x);
    }
    forall x | x in s'.views
      ensures ViewOk(s', a', x)
    {
      assert ViewOk(s, a, x);
    }
    forall x | x in s'.stale
      ensures StaleOk(s', a', x)
    {
      assert StaleOk(s, a, x);
    }
  }

  lemma ReconcileInv(s: State, a: Aux, s': State, w: View, new_: Addr) returns (a': Aux)
    requires Inv(s, a) && Reconcile(s, s', w, new_)
    ensures Inv(s', a')
    ensures a'.nodes.Keys == a.nodes.Keys && forall x :: x in a.nodes && a.nodes[x].level == 0 ==>
            a'.nodes[x] == a.nodes[x]
    ensures forall x :: x in a.nodes ==> a'.nodes[x].level == a.nodes[x].level
  {
    var i := StaleMeansPending(s, a, s', w, new_);
    var q, c := w.cursor.parent.value.id, w.cursor.index.id;
    var r := Top(s, c).body.right.id;
    var page := s'.mem[new_];
    assert PageOk(s.mem, s.table[q]);
    assert NodeOk(a.nodes[q]);
    a' := Reconciled(s, a, q, i, c, r);
    ReconciledMemory(s, a, s', q, i, c, r, new_, page);
    ReconciledNodes(s, a, s', q, i, c, r);
    ReconciledPublished(s, a, s', q, i, c, r, new_, page);
    ReconciledChildren(s, a, s', q, i, c, r);
    ReconciledLevels(s, a, s', q, i, c, r);
    ReconciledLocals(s, a, s', q, i, c, r, new_, page);
  }

  lemma ReconcileData(s: State, a: Aux, s': State, w: View, new_: Addr, a': Aux)
    requires Domains(s, a) && Domains(s', a') && DataInv(s, a) && Reconcile(s, s', w, new_)
    requires a'.nodes.Keys == a.nodes.Keys && forall x :: x in a.nodes && a.nodes[x].level == 0 ==>
             a'.nodes[x] == a.nodes[x]
    requires forall x :: x in a.nodes ==> a'.nodes[x].level == a.nodes[x].level
    ensures DataInv(s', a')
  {
    forall x | x in s'.table && a'.nodes[x].level == 0
      ensures AnswersLikeMap(s', a', x)
    {
      assert AnswersLikeMap(s, a, x);
    }
  }
}
