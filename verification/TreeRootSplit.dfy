/** The split of the root (photondb/src/tree/mod.rs `split_root_impl`). */
module TreeRootSplit {
  import opened Options
  import opened Data
  import opened Pages
  import opened LeafChain
  import opened InnerChain
  import opened TreeProtocol
  import opened TreeInvariant
  import opened TreeHalves
  import opened TreeSplit

  ghost predicate CanSplitRoot(s: State, a: Aux, sep: RawKey, k: nat, l: Id, r: Id) {
    && Domains(s, a) && RootOk(s, a)
    && var n := a.nodes[ROOT_ID];
    && |n.chain| == 1 && n.chain[0] == Top(s, ROOT_ID).body
    && SplitPoint(n.chain[0]) == Some((sep, k)) && 0.0 < sep
    && (n.level > 0 ==> 0 < k < |n.ents| && sep == n.ents[k].key)
    && (n.level == 0 ==> n.ents == []) && SortedEntries(n.ents)
    && l !in s.table && r !in s.table && l != r && l != NAN_ID && r != NAN_ID
  }

  function RootEntries(sep: RawKey, l: Id, r: Id): seq<Entry> {
    [Entry(0.0, Index(l, 0)), Entry(sep, Index(r, 0))]
  }

  ghost function RootAux(s: State, a: Aux, sep: RawKey, k: nat, l: Id, r: Id): Aux
    requires CanSplitRoot(s, a, sep, k, l, r)
  {
    var n := a.nodes[ROOT_ID];
    var E := RootEntries(sep, l, r);
    Aux(a.nodes[l := LeftNode(n, sep, k)][r := RightNode(n, sep, k)][ROOT_ID := Node(FULL_RANGE, n.level + 1,
      [InnerData(E)], E)],
        a.pub[l := Published(0, Range(0.0, Some(sep)))][r := Published(0, Range(sep, None))],
        Reparent(Reparent(a.parent, Take(n.ents, k), l), Drop(n.ents, k), r)[l := ROOT_ID][r := ROOT_ID],
        a.left)
  }

  ghost predicate RootChange(s: State, s': State, sep: RawKey, k: nat, l: Id, la: Addr, r: Id, ra: Addr, new_: Addr) {
    && HasPage(s, ROOT_ID)
    && Fresh(s, la, 0) && Fresh(s, ra, 0) && Fresh(s, new_, s.table[ROOT_ID]) && la != ra && new_ != la && new_ != ra
    && var body := Top(s, ROOT_ID).body;
    s' == s.(mem := s.mem[la := Page(0, 1, 0, LeftHalf(body, k))]
                         [ra := Page(0, 1, 0, RightHalf(body, k))]
                         [new_ := Page(0, 1, 0, InnerData(RootEntries(sep, l, r)))],
             table := s.table[l := la][r := ra][ROOT_ID := new_])
  }

  /** The root that is split is a base page: `split_root_impl` asserts epoch 0 and length 1. */
  lemma RootSplitSetup(s: State, a: Aux, s': State, l: Id, la: Addr, r: Id, ra: Addr, new_: Addr)
    returns (sep: RawKey, k: nat)
    requires Inv(s, a) && SplitRoot(s, s', l, la, r, ra, new_)
    ensures CanSplitRoot(s, a, sep, k, l, r) && RootChange(s, s', sep, k, l, la, r, ra, new_)
    ensures Top(s, ROOT_ID).epoch == 0 && Top(s, ROOT_ID).len == 1
  {
    ChainOfTop(s, a, ROOT_ID);
    assert NodeOk(a.nodes[ROOT_ID]);
    assert PageOk(s.mem, s.table[ROOT_ID]);
    var p := SplitPoint(Top(s, ROOT_ID).body).value;
    sep, k := p.0, p.1;
    HalvesOk(a.nodes[ROOT_ID], sep, k, Index(r, 0));
  }

  lemma RootMem(s: State, s': State, sep: RawKey, k: nat, l: Id, la: Addr, r: Id, ra: Addr, new_: Addr)
    requires MemOk(s) && RootChange(s, s', sep, k, l, la, r, ra, new_)
    ensures MemOk(s') && Extends(s, s'.mem)
  {
    forall x: Addr
      ensures PageOk(s'.mem, x)
    {
      assert PageOk(s.mem, x);
    }
  }

  lemma RootChains(s: State, a: Aux, s': State, sep: RawKey, k: nat, l: Id, la: Addr, r: Id, ra: Addr, new_: Addr)
    requires CanSplitRoot(s, a, sep, k, l, r) && RootChange(s, s', sep, k, l, la, r, ra, new_) && MemOk(s) &&
             Chains(s, a)
    requires Extends(s, s'.mem)
    ensures Domains(s', RootAux(s, a, sep, k, l, r)) && Chains(s', RootAux(s, a, sep, k, l, r))
  {
    var a' := RootAux(s, a, sep, k, l, r);
    forall x | x in s'.table
      ensures a'.nodes[x].chain == Chain(s'.mem, s'.table[x])
    {
      RootChainOf(s, a, s', sep, k, l, la, r, ra, new_, x);
    }
  }

  lemma RootChainOf(s: State, a: Aux, s': State, sep: RawKey, k: nat, l: Id, la: Addr, r: Id, ra: Addr, new_: Addr,
                    x: Id)
    requires CanSplitRoot(s, a, sep, k, l, r) && RootChange(s, s', sep, k, l, la, r, ra, new_) && MemOk(s) &&
             Chains(s, a)
    requires Extends(s, s'.mem) && x in s'.table
    ensures x in RootAux(s, a, sep, k, l, r).nodes && RootAux(s, a, sep, k, l, r).nodes[x].chain == Chain(s'.mem,
            s'.table[x])
  {
    assert Chain(s'.mem, 0) == [];
    if x != l && x != r && x != ROOT_ID {
      ChainFrame(s, s'.mem, s.table[x]);
    }
  }

  lemma RootEntriesNode(sep: RawKey, l: Id, r: Id, level: nat)
    requires 0.0 < sep && l != NAN_ID && r != NAN_ID && level > 0
    ensures var E := RootEntries(sep, l, r); NodeOk(Node(FULL_RANGE, level, [InnerData(E)], E))
    ensures Contents([InnerData(RootEntries(sep, l, r))]) == {}
  {
    BaseRepresents(RootEntries(sep, l, r), FULL_RANGE);
    OnePageContents(InnerData(RootEntries(sep, l, r)));
  }

  lemma RootNewNodes(n: Node, sep: RawKey, k: nat, l: Id, r: Id, W: set<Version>)
    requires NodeOk(n) && |n.chain| == 1 && SplitPoint(n.chain[0]) == Some((sep, k)) && 0.0 < sep && l != NAN_ID &&
             r != NAN_ID
    requires Contents(n.chain) <= W
    ensures NodeOk(LeftNode(n, sep, k)) && Contents(LeftNode(n, sep, k).chain) <= W
    ensures NodeOk(RightNode(n, sep, k)) && Contents(RightNode(n, sep, k).chain) <= W
    ensures var E := RootEntries(sep, l, r); NodeOk(Node(FULL_RANGE, n.level + 1, [InnerData(E)], E))
    ensures Contents([InnerData(RootEntries(sep, l, r))]) <= W
  {
    HalvesOk(n, sep, k, Index(r, 0));
    HalvesContents(n, sep, k, Index(r, 0));
    RootEntriesNode(sep, l, r, n.level + 1);
  }

  /** Two new nodes and a new root; everything else stays. */
  ghost predicate RootShape(a: Aux, a': Aux, left: Node, right: Node, root: Node, l: Id, r: Id) {
    && l !in a.nodes && r !in a.nodes && l != r && ROOT_ID in a.nodes
    && a'.nodes.Keys == a.nodes.Keys + {l, r}
    && a'.nodes[l] == left && a'.nodes[r] == right && a'.nodes[ROOT_ID] == root
    && forall x :: x in a.nodes && x != ROOT_ID ==> a'.nodes[x] == a.nodes[x]
  }

  function NewRoot(n: Node, sep: RawKey, l: Id, r: Id): Node {
    Node(FULL_RANGE, n.level + 1, [InnerData(RootEntries(sep, l, r))], RootEntries(sep, l, r))
  }

  lemma RootAuxShape(s: State, a: Aux, sep: RawKey, k: nat, l: Id, r: Id)
    requires CanSplitRoot(s, a, sep, k, l, r)
    ensures var n := a.nodes[ROOT_ID];
            RootShape(a, RootAux(s, a, sep, k, l, r), LeftNode(n, sep, k), RightNode(n, sep, k), NewRoot(n, sep, l, r),
              l, r)
  {
  }

  lemma RootNodes(s: State, a: Aux, s': State, a': Aux, left: Node, right: Node, root: Node, l: Id, r: Id)
    requires Domains(s, a) && Domains(s', a') && Nodes(s, a) && Recorded(s, a)
    requires RootShape(a, a', left, right, root, l, r) && s'.written == s.written
    requires NodeOk(left) && NodeOk(right) && NodeOk(root)
    requires Contents(left.chain) <= s.written && Contents(right.chain) <= s.written &&
             Contents(root.chain) <= s.written
    ensures Nodes(s', a') && Recorded(s', a')
  {
    forall x | x in s'.table
      ensures NodeOk(a'.nodes[x]) && Contents(a'.nodes[x].chain) <= s'.written
    {
      if x != l && x != r && x != ROOT_ID {
        assert NodeOk(a.nodes[x]) && Contents(a.nodes[x].chain) <= s.written;
      }
    }
  }

  lemma RootPublished(s: State, a: Aux, s': State, sep: RawKey, k: nat, l: Id, la: Addr, r: Id, ra: Addr, new_: Addr)
    requires CanSplitRoot(s, a, sep, k, l, r) && RootChange(s, s', sep, k, l, la, r, ra, new_) && PublishedOk(s, a)
    requires Domains(s', RootAux(s, a, sep, k, l, r))
    ensures PublishedOk(s', RootAux(s, a, sep, k, l, r)) && RootOk(s', RootAux(s, a, sep, k, l, r))
  {
    var a' := RootAux(s, a, sep, k, l, r);
    forall x | x in a'.pub
      ensures InStep(s', a', x)
    {
      if x != l && x != r && x != ROOT_ID {
        assert InStep(s, a, x);
      }
    }
  }

  /** A child of the old root moves to the half that covers it. */
  lemma RootMovedChild(s: State, a: Aux, s': State, sep: RawKey, k: nat, l: Id, r: Id, j: nat)
    requires CanSplitRoot(s, a, sep, k, l, r) && Domains(s', RootAux(s, a, sep, k, l, r)) &&
             s'.table.Keys == s.table.Keys + {l, r}
    requires a.nodes[ROOT_ID].level > 0 && j < |a.nodes[ROOT_ID].ents| && ChildOk(s, a, ROOT_ID, j)
    requires forall i {:trigger ChildOk(s, a, ROOT_ID, i)} :: 0 <= i < |a.nodes[ROOT_ID].ents| ==>
             ChildOk(s, a, ROOT_ID, i)
    ensures j < k ==> ChildOk(s', RootAux(s, a, sep, k, l, r), l, j)
    ensures j >= k ==> ChildOk(s', RootAux(s, a, sep, k, l, r), r, j - k)
  {
    var E := a.nodes[ROOT_ID].ents;
    var c := E[j].index.id;
    if j < k {
      forall i | 0 <= i < |Drop(E, k)|
        ensures Drop(E, k)[i].index.id != c
      {
        assert ChildOk(s, a, ROOT_ID, k + i);
        assert E[j].key < E[k + i].key;
      }
      assert Take(E, k)[j] == E[j] && Among(Take(E, k), c);
    } else {
      assert Drop(E, k)[j - k] == E[j] && Among(Drop(E, k), c);
    }
  }

  lemma RootOtherChild(s: State, a: Aux, s': State, sep: RawKey, k: nat, l: Id, r: Id, x: Id, j: nat)
    requires CanSplitRoot(s, a, sep, k, l, r) && Domains(s', RootAux(s, a, sep, k, l, r)) &&
             s'.table.Keys == s.table.Keys + {l, r}
    requires x in s.table && x != ROOT_ID && j < |a.nodes[x].ents| && ChildOk(s, a, x, j)
    requires forall i {:trigger ChildOk(s, a, ROOT_ID, i)} :: 0 <= i < |a.nodes[ROOT_ID].ents| ==>
             ChildOk(s, a, ROOT_ID, i)
    ensures ChildOk(s', RootAux(s, a, sep, k, l, r), x, j)
  {
    var E := a.nodes[ROOT_ID].ents;
    var c := a.nodes[x].ents[j].index.id;
    forall i | 0 <= i < |Drop(E, k)|
      ensures Drop(E, k)[i].index.id != c
    {
      assert ChildOk(s, a, ROOT_ID, k + i);
    }
    forall i | 0 <= i < |Take(E, k)|
      ensures Take(E, k)[i].index.id != c
    {
      assert ChildOk(s, a, ROOT_ID, i);
    }
  }

  lemma RootChildren(s: State, a: Aux, s': State, sep: RawKey, k: nat, l: Id, r: Id)
    requires CanSplitRoot(s, a, sep, k, l, r) && Domains(s', RootAux(s, a, sep, k, l, r)) &&
             s'.table.Keys == s.table.Keys + {l, r}
    requires Children(s, a)
    ensures Children(s', RootAux(s, a, sep, k, l, r))
  {
    var a' := RootAux(s, a, sep, k, l, r);
    forall x, j | x in s'.table && 0 <= j < |a'.nodes[x].ents|
      ensures ChildOk(s', a', x, j)
    {
      if x == l {
        assert ChildOk(s, a, ROOT_ID, j);
        RootMovedChild(s, a, s', sep, k, l, r, j);
      } else if x == r {
        assert ChildOk(s, a, ROOT_ID, k + j);
        RootMovedChild(s, a, s', sep, k, l, r, k + j);
      } else if x != ROOT_ID {
        assert ChildOk(s, a, x, j);
        RootOtherChild(s, a, s', sep, k, l, r, x, j);
      }
    }
  }

  lemma RootHalvesSideBySide(n: Node, sep: RawKey, k: nat)
    requires |n.chain| == 1
    ensures SideBySide(LeftNode(n, sep, k), RightNode(n, sep, k)) &&
            SideBySide(RightNode(n, sep, k), LeftNode(n, sep, k))
  {
  }

  lemma RootPair(a: Aux, a': Aux, left: Node, right: Node, root: Node, l: Id, r: Id, x: Id, y: Id)
    requires RootShape(a, a', left, right, root, l, r) && x in a'.nodes && y in a'.nodes && x != y
    requires var top := a.nodes[ROOT_ID].level; left.level == top && right.level == top && root.level == top + 1
    requires SideBySide(left, right) && SideBySide(right, left)
    requires x in a.nodes && y in a.nodes ==> SideBySide(a.nodes[x], a.nodes[y])
    requires x in a.nodes && x != ROOT_ID ==> a.nodes[x].level < a.nodes[ROOT_ID].level
    requires y in a.nodes && y != ROOT_ID ==> a.nodes[y].level < a.nodes[ROOT_ID].level
    ensures SideBySide(a'.nodes[x], a'.nodes[y])
    ensures x != ROOT_ID ==> a'.nodes[x].level < root.level
  {
  }

  lemma RootLevels(s: State, a: Aux, s': State, a': Aux, left: Node, right: Node, root: Node, l: Id, r: Id)
    requires Domains(s, a) && Domains(s', a') && Levels(s, a)
    requires RootShape(a, a', left, right, root, l, r)
    requires var top := a.nodes[ROOT_ID].level; left.level == top && right.level == top && root.level == top + 1
    requires SideBySide(left, right) && SideBySide(right, left)
    ensures Levels(s', a')
  {
    forall x, y | x in s'.table && y in s'.table && x != y
      ensures SideBySide(a'.nodes[x], a'.nodes[y])
    {
      if x in s.table && y in s.table {
        assert SideBySide(a.nodes[x], a.nodes[y]);
      }
      RootPair(a, a', left, right, root, l, r, x, y);
    }
    forall x | x in s'.table && x != ROOT_ID
      ensures a'.nodes[x].level < a'.nodes[ROOT_ID].level
    {
      if x in s.table {
        assert SideBySide(a.nodes[x], a.nodes[ROOT_ID]);
      }
      RootPair(a, a', left, right, root, l, r, x, ROOT_ID);
    }
  }

  lemma RootLocals(s: State, a: Aux, s': State, sep: RawKey, k: nat, l: Id, la: Addr, r: Id, ra: Addr, new_: Addr)
    requires CanSplitRoot(s, a, sep, k, l, r) && RootChange(s, s', sep, k, l, la, r, ra, new_) && Locals(s, a)
    requires Domains(s', RootAux(s, a, sep, k, l, r))
    ensures Locals(s', RootAux(s, a, sep, k, l, r))
  {
    var a' := RootAux(s, a, sep, k, l, r);
    forall x | x in s'.cursors
      ensures CursorOk(s', a', x)
    {
      assert CursorOk(s, a, x);
    }
    forall x | x in s'.views
      ensures ViewOk(s', a', x)
    {
      assert ViewOk(s, a, x);
    }
    forall x | x in s'.stale
      ensures StaleOk(s', a', x)
    {
      assert StaleOk(s, a, x);
    }
  }

  lemma SplitRootInv(s: State, a: Aux, s': State, l: Id, la: Addr, r: Id, ra: Addr, new_: Addr)
    returns (a': Aux, sep: RawKey, k: nat)
    requires Inv(s, a) && SplitRoot(s, s', l, la, r, ra, new_)
    ensures Inv(s', a')
    ensures CanSplitRoot(s, a, sep, k, l, r) && a' == RootAux(s, a, sep, k, l, r)
  {
    sep, k := RootSplitSetup(s, a, s', l, la, r, ra, new_);
    a' := RootAux(s, a, sep, k, l, r);
    RootMem(s, s', sep, k, l, la, r, ra, new_);
    RootChains(s, a, s', sep, k, l, la, r, ra, new_);
    var n := a.nodes[ROOT_ID];
    RootAuxShape(s, a, sep, k, l, r);
    assert NodeOk(n) && Contents(n.chain) <= s.written;
    RootNewNodes(n, sep, k, l, r, s.written);
    RootNodes(s, a, s', a', LeftNode(n, sep, k), RightNode(n, sep, k), NewRoot(n, sep, l, r), l, r);
    RootPublished(s, a, s', sep, k, l, la, r, ra, new_);
    RootChildren(s, a, s', sep, k, l, r);
    RootHalvesSideBySide(n, sep, k);
    RootLevels(s, a, s', a', LeftNode(n, sep, k), RightNode(n, sep, k), NewRoot(n, sep, l, r), l, r);
    RootLocals(s, a, s', sep, k, l, la, r, ra, new_);
  }

  lemma SplitRootData(s: State, a: Aux, s': State, sep: RawKey, k: nat, l: Id, r: Id)
    requires CanSplitRoot(s, a, sep, k, l, r) && Domains(s', RootAux(s, a, sep, k, l, r)) &&
             s'.table.Keys == s.table.Keys + {l, r}
    requires s'.written == s.written && s'.safe == s.safe && DataInv(s, a) && Nodes(s, a)
    ensures DataInv(s', RootAux(s, a, sep, k, l, r))
  {
    var a' := RootAux(s, a, sep, k, l, r);
    forall x | x in s'.table && a'.nodes[x].level == 0
      ensures AnswersLikeMap(s', a', x)
    {
      var x0 := if x == l || x == r then ROOT_ID else x;
      assert AnswersLikeMap(s, a, x0);
      if x0 == ROOT_ID {
        assert NodeOk(a.nodes[ROOT_ID]);
        HalvesAnswer(a.nodes[ROOT_ID], sep, k, Index(r, 0), s.written, s.safe);
      }
    }
  }
}
