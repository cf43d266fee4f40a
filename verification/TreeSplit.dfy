/** Splits of ordinary pages (photondb/src/tree/mod.rs `split_page_impl`). */
module TreeSplit {
  import opened Options
  import opened Data
  import opened Pages
  import opened LeafChain
  import opened TreeProtocol
  import opened TreeInvariant
  import opened TreeHalves

  ghost predicate Among(E: seq<Entry>, x: Id) {
    exists i :: 0 <= i < |E| && E[i].index.id == x
  }

  /** The children in `E` move to page `to`. */
  ghost function Reparent(parent: map<Id, Id>, E: seq<Entry>, to: Id): map<Id, Id> {
    map x | x in parent :: if Among(E, x) then to else parent[x]
  }

  /** What `SplitPage` needs of the bookkeeping. */
  ghost predicate CanSplit(s: State, a: Aux, id: Id, sep: RawKey, k: nat, r: Id) {
    && Domains(s, a) && id in a.pub && id != ROOT_ID && Settled(s, a, id)
    && |a.nodes[id].chain| == 1 && a.nodes[id].chain[0] == Top(s, id).body
    && SplitPoint(a.nodes[id].chain[0]) == Some((sep, k))
    && a.nodes[id].rng.lo < sep && Below(sep, a.nodes[id].rng.hi)
    && (a.nodes[id].level > 0 ==> 0 < k < |a.nodes[id].ents| && sep == a.nodes[id].ents[k].key)
    && r !in s.table && r != NAN_ID
  }

  ghost function SplitAux(s: State, a: Aux, id: Id, sep: RawKey, k: nat, r: Id): Aux
    requires CanSplit(s, a, id, sep, k, r)
  {
    var n := a.nodes[id];
    a.(nodes := a.nodes[r := RightNode(n, sep, k)][id := StayingNode(n, sep, k, Index(r, 0))],
       parent := Reparent(a.parent, Drop(n.ents, k), r),
       left := a.left[r := id])
  }

  /** The state change, with the pages spelled out. */
  ghost predicate SplitChange(s: State, s': State, id: Id, sep: RawKey, k: nat, r: Id, ra: Addr, new_: Addr) {
    && HasPage(s, id) && Fresh(s, ra, 0) && Fresh(s, new_, s.table[id]) && new_ != ra
    && var top := Top(s, id);
    s' == s.(mem := s.mem[ra := Page(0, 1, 0, RightHalf(top.body, k))]
                         [new_ := Page(top.epoch + 1, Longer(top.len), s.table[id],
                           SplitDelta(TierOf(top.body), sep, Index(r, 0)))],
             table := s.table[r := ra][id := new_])
  }

  lemma SplitSetup(s: State, a: Aux, s': State, v: View, r: Id, ra: Addr, new_: Addr) returns (sep: RawKey, k: nat)
    requires Inv(s, a) && SplitPage(s, s', v, r, ra, new_)
    ensures CanSplit(s, a, v.cursor.index.id, sep, k, r)
    ensures SplitChange(s, s', v.cursor.index.id, sep, k, r, ra, new_)
    ensures var n := a.nodes[v.cursor.index.id]; SortedEntries(n.ents) && (n.level == 0 ==> n.ents == [])
  {
    var id := v.cursor.index.id;
    assert ViewOk(s, a, v);
    assert CursorOk(s, a, v.cursor);
    EpochTellsRange(s, a, v.cursor);
    ChainOfTop(s, a, id);
    assert NodeOk(a.nodes[id]);
    var p := SplitPoint(Top(s, id).body).value;
    sep, k := p.0, p.1;
    HalvesOk(a.nodes[id], sep, k, Index(r, 0));
  }

  lemma SplitMem(s: State, a: Aux, s': State, id: Id, sep: RawKey, k: nat, r: Id, ra: Addr, new_: Addr)
    requires CanSplit(s, a, id, sep, k, r) && SplitChange(s, s', id, sep, k, r, ra, new_) && MemOk(s)
    ensures MemOk(s') && Extends(s, s'.mem)
  {
    forall x: Addr
      ensures PageOk(s'.mem, x)
    {
      assert PageOk(s.mem, x);
    }
  }

  lemma SplitChains(s: State, a: Aux, s': State, id: Id, sep: RawKey, k: nat, r: Id, ra: Addr, new_: Addr)
    requires CanSplit(s, a, id, sep, k, r) && SplitChange(s, s', id, sep, k, r, ra, new_) && MemOk(s) && Chains(s, a)
    requires Extends(s, s'.mem)
    ensures Domains(s', SplitAux(s, a, id, sep, k, r)) && Chains(s', SplitAux(s, a, id, sep, k, r))
  {
    var a' := SplitAux(s, a, id, sep, k, r);
    forall x | x in s'.table
      ensures a'.nodes[x].chain == Chain(s'.mem, s'.table[x])
    {
      if x == r {
        assert Chain(s'.mem, 0) == [];
      } else {
        ChainFrame(s, s'.mem, s.table[x]);
        if x == id {
          assert Chain(s'.mem, new_) == [s'.mem[new_].body] + Chain(s'.mem, s.table[id]);
        }
      }
    }
  }

  lemma SplitNodes(s: State, a: Aux, s': State, id: Id, sep: RawKey, k: nat, r: Id)
    requires CanSplit(s, a, id, sep, k, r) && Nodes(s, a) && Recorded(s, a)
    requires s'.table.Keys == s.table.Keys + {r} && s'.written == s.written &&
             Domains(s', SplitAux(s, a, id, sep, k, r))
    ensures Nodes(s', SplitAux(s, a, id, sep, k, r)) && Recorded(s', SplitAux(s, a, id, sep, k, r))
  {
    var a' := SplitAux(s, a, id, sep, k, r);
    assert NodeOk(a.nodes[id]);
    HalvesOk(a.nodes[id], sep, k, Index(r, 0));
    HalvesContents(a.nodes[id], sep, k, Index(r, 0));
    assert Contents(a.nodes[id].chain) <= s.written;
    forall x | x in s'.table
      ensures NodeOk(a'.nodes[x]) && Contents(a'.nodes[x].chain) <= s'.written
    {
      if x != r && x != id {
        assert NodeOk(a.nodes[x]) && Contents(a.nodes[x].chain) <= s.written;
      }
    }
  }

  lemma SplitPublished(s: State, a: Aux, s': State, id: Id, sep: RawKey, k: nat, r: Id, ra: Addr, new_: Addr)
    requires CanSplit(s, a, id, sep, k, r) && SplitChange(s, s', id, sep, k, r, ra, new_) && PublishedOk(s, a) &&
             RootOk(s, a)
    requires Domains(s', SplitAux(s, a, id, sep, k, r))
    ensures PublishedOk(s', SplitAux(s, a, id, sep, k, r)) && RootOk(s', SplitAux(s, a, id, sep, k, r))
  {
    var a' := SplitAux(s, a, id, sep, k, r);
    forall x | x in a'.pub
      ensures InStep(s', a', x)
    {
      if x == id {
        assert Pending(s', a', id);
      } else {
        assert InStep(s, a, x);
      }
    }
  }

  lemma SplitOwnChild(s: State, a: Aux, s': State, id: Id, sep: RawKey, k: nat, r: Id, j: nat)
    requires CanSplit(s, a, id, sep, k, r) && Domains(s', SplitAux(s, a, id, sep, k, r)) &&
             s'.table.Keys == s.table.Keys + {r}
    requires SortedEntries(a.nodes[id].ents) && a.nodes[id].level > 0 && j < k && ChildOk(s, a, id, j)
    requires forall i {:trigger ChildOk(s, a, id, i)} :: 0 <= i < |a.nodes[id].ents| ==> ChildOk(s, a, id, i)
    ensures ChildOk(s', SplitAux(s, a, id, sep, k, r), id, j)
  {
    var E := a.nodes[id].ents;
    var c := E[j].index.id;
    forall i | 0 <= i < |Drop(E, k)|
      ensures Drop(E, k)[i].index.id != c
    {
      assert ChildOk(s, a, id, k + i);
      assert E[j].key < E[k + i].key;
    }
    assert Take(E, k)[j] == E[j];
  }

  lemma SplitMovedChild(s: State, a: Aux, s': State, id: Id, sep: RawKey, k: nat, r: Id, j: nat)
    requires CanSplit(s, a, id, sep, k, r) && Domains(s', SplitAux(s, a, id, sep, k, r)) &&
             s'.table.Keys == s.table.Keys + {r}
    requires a.nodes[id].level > 0 && k + j < |a.nodes[id].ents| && ChildOk(s, a, id, k + j)
    ensures ChildOk(s', SplitAux(s, a, id, sep, k, r), r, j)
  {
    var E := a.nodes[id].ents;
    assert Drop(E, k)[j] == E[k + j];
    assert Among(Drop(E, k), E[k + j].index.id);
  }

  lemma SplitOtherChild(s: State, a: Aux, s': State, id: Id, sep: RawKey, k: nat, r: Id, x: Id, j: nat)
    requires CanSplit(s, a, id, sep, k, r) && Domains(s', SplitAux(s, a, id, sep, k, r)) &&
             s'.table.Keys == s.table.Keys + {r}
    requires x in s.table && x != id && j < |a.nodes[x].ents| && ChildOk(s, a, x, j)
    requires forall i {:trigger ChildOk(s, a, id, i)} :: 0 <= i < |a.nodes[id].ents| ==> ChildOk(s, a, id, i)
    ensures ChildOk(s', SplitAux(s, a, id, sep, k, r), x, j)
  {
    var E := a.nodes[id].ents;
    var c := a.nodes[x].ents[j].index.id;
    forall i | 0 <= i < |Drop(E, k)|
      ensures Drop(E, k)[i].index.id != c
    {
      assert ChildOk(s, a, id, k + i);
    }
  }

  lemma SplitChildren(s: State, a: Aux, s': State, id: Id, sep: RawKey, k: nat, r: Id)
    requires CanSplit(s, a, id, sep, k, r) && Domains(s', SplitAux(s, a, id, sep, k, r)) &&
             s'.table.Keys == s.table.Keys + {r}
    requires Children(s, a) && SortedEntries(a.nodes[id].ents) && (a.nodes[id].level == 0 ==> a.nodes[id].ents == [])
    ensures Children(s', SplitAux(s, a, id, sep, k, r))
  {
    var a' := SplitAux(s, a, id, sep, k, r);
    forall x, j | x in s'.table && 0 <= j < |a'.nodes[x].ents|
      ensures ChildOk(s', a', x, j)
    {
      if x == id {
        assert ChildOk(s, a, id, j);
        SplitOwnChild(s, a, s', id, sep, k, r, j);
      } else if x == r {
        assert ChildOk(s, a, id, k + j);
        SplitMovedChild(s, a, s', id, sep, k, r, j);
      } else {
        assert ChildOk(s, a, x, j);
        SplitOtherChild(s, a, s', id, sep, k, r, x, j);
      }
    }
  }

  /** The halves of a page are beside each other and beside everything the page was beside. */
  lemma HalvesSideBySide(n: Node, sep: RawKey, k: nat, right: Index, m: Node)
    requires |n.chain| == 1 && n.rng.lo < sep && Below(sep, n.rng.hi)
    ensures SideBySide(StayingNode(n, sep, k, right), RightNode(n, sep, k))
    ensures SideBySide(RightNode(n, sep, k), StayingNode(n, sep, k, right))
    ensures SideBySide(n, m) ==> SideBySide(StayingNode(n, sep, k, right), m) && SideBySide(RightNode(n, sep, k), m)
    ensures SideBySide(m, n) ==> SideBySide(m, StayingNode(n, sep, k, right)) && SideBySide(m, RightNode(n, sep, k))
  {
  }

  lemma SplitLevels(s: State, a: Aux, s': State, id: Id, sep: RawKey, k: nat, r: Id)
    requires CanSplit(s, a, id, sep, k, r) && Domains(s', SplitAux(s, a, id, sep, k, r)) &&
             s'.table.Keys == s.table.Keys + {r}
    requires Levels(s, a)
    ensures Levels(s', SplitAux(s, a, id, sep, k, r))
  {
    var a' := SplitAux(s, a, id, sep, k, r);
    forall x, y | x in s'.table && y in s'.table && x != y
      ensures SideBySide(a'.nodes[x], a'.nodes[y])
    {
      var x0, y0 := if x == r then id else x, if y == r then id else y;
      assert x0 != y0 ==> SideBySide(a.nodes[x0], a.nodes[y0]);
      HalvesSideBySide(a.nodes[id], sep, k, Index(r, 0), a.nodes[x0]);
      HalvesSideBySide(a.nodes[id], sep, k, Index(r, 0), a.nodes[y0]);
    }
  }

  lemma SplitLocals(s: State, a: Aux, s': State, id: Id, sep: RawKey, k: nat, r: Id, ra: Addr, new_: Addr)
    requires CanSplit(s, a, id, sep, k, r) && SplitChange(s, s', id, sep, k, r, ra, new_) && Locals(s, a)
    requires Domains(s', SplitAux(s, a, id, sep, k, r))
    ensures Locals(s', SplitAux(s, a, id, sep, k, r))
  {
    var a' := SplitAux(s, a, id, sep, k, r);
    forall x | x in s'.cursors
      ensures CursorOk(s', a', x)
    {
      assert CursorOk(s, a, x);
    }
    forall x | x in s'.views
      ensures ViewOk(s', a', x)
    {
      assert ViewOk(s, a, x);
    }
    forall x | x in s'.stale
      ensures StaleOk(s', a', x)
    {
      assert StaleOk(s, a, x);
    }
  }

  lemma SplitPageInv(s: State, a: Aux, s': State, v: View, r: Id, ra: Addr, new_: Addr)
    returns (a': Aux, sep: RawKey, k: nat)
    requires Inv(s, a) && SplitPage(s, s', v, r, ra, new_)
    ensures Inv(s', a')
    ensures CanSplit(s, a, v.cursor.index.id, sep, k, r) && a' == SplitAux(s, a, v.cursor.index.id, sep, k, r)
  {
    var id := v.cursor.index.id;
    sep, k := SplitSetup(s, a, s', v, r, ra, new_);
    a' := SplitAux(s, a, id, sep, k, r);
    SplitMem(s, a, s', id, sep, k, r, ra, new_);
    SplitChains(s, a, s', id, sep, k, r, ra, new_);
    SplitNodes(s, a, s', id, sep, k, r);
    SplitPublished(s, a, s', id, sep, k, r, ra, new_);
    SplitChildren(s, a, s', id, sep, k, r);
    SplitLevels(s, a, s', id, sep, k, r);
    SplitLocals(s, a, s', id, sep, k, r, ra, new_);
  }

  lemma SplitPageData(s: State, a: Aux, s': State, id: Id, sep: RawKey, k: nat, r: Id)
    requires CanSplit(s, a, id, sep, k, r) && Domains(s', SplitAux(s, a, id, sep, k, r)) &&
             s'.table.Keys == s.table.Keys + {r}
    requires s'.written == s.written && s'.safe == s.safe && DataInv(s, a) && Nodes(s, a)
    ensures DataInv(s', SplitAux(s, a, id, sep, k, r))
  {
    var a' := SplitAux(s, a, id, sep, k, r);
    forall x | x in s'.table && a'.nodes[x].level == 0
      ensures AnswersLikeMap(s', a', x)
    {
      var x0 := if x == r then id else x;
      assert AnswersLikeMap(s, a, x0);
      if x0 == id {
        assert NodeOk(a.nodes[id]);
        HalvesAnswer(a.nodes[id], sep, k, Index(r, 0), s.written, s.safe);
      }
    }
  }
}
