/**
 What holds in every state of every run of the tree protocol.

 Main results: the invariant holds throughout (`EveryStateHasInvariant`), every key has exactly
 one owning leaf (`LeavesPartitionKeys`), a child is at most one split ahead of its parent
 (`ChildAtMostOneAhead`), reads see the multi-version map (`GetReadsTheMap`), and table entries only
 grow over immutable pages (`AddressesGrow`).  Scans are in `TreeScanTheorems`.
 */
module TreeTheorems {
  import opened Options
  import opened Data
  import opened Pages
  import opened LeafChain
  import opened InnerChain
  import opened TreeProtocol
  import opened TreeInvariant
  import opened TreeReading
  import opened TreeReconcile
  import opened TreeSplit
  import opened TreeRootSplit

  // ----- Every step keeps the invariant

  /** The bookkeeping of an empty tree. */
  ghost function InitAux(): Aux {
    Aux(map[ROOT_ID := Node(FULL_RANGE, 0, [LeafData([])], [])], map[ROOT_ID := Published(0, FULL_RANGE)], map[], map[])
  }

  ghost function InitState(addr: Addr): State {
    State(map[addr := Page(0, 1, 0, LeafData([]))], map[ROOT_ID := addr], 0, {}, {}, {}, {})
  }

  lemma InitChains(addr: Addr)
    requires addr > 0
    ensures MemOk(InitState(addr)) && Domains(InitState(addr), InitAux()) && Chains(InitState(addr), InitAux())
  {
    var s := InitState(addr);
    assert Chain(s.mem, 0) == [];
    forall x: Addr
      ensures PageOk(s.mem, x)
    {
    }
  }

  lemma InitInv(s: State) returns (a: Aux)
    requires Init(s)
    ensures Inv(s, a) && DataInv(s, a)
  {
    var addr: Addr :| addr > 0 && s == State(map[addr := Page(0, 1, 0, LeafData([]))], map[ROOT_ID := addr], 0, {}, {},
      {}, {});
    EmptyLeaf();
    a := InitAux();
    InitChains(addr);
  }

  lemma EmptyLeaf()
    ensures NodeOk(Node(FULL_RANGE, 0, [LeafData([])], []))
    ensures Contents([LeafData([])]) == {} && SameAnswers({}, {}, FULL_RANGE, 0)
  {
    assert [LeafData([])][1..] == [];
  }

  lemma WriteKeeps(s: State, a: Aux, s': State, v: View, ver: Version, new_: Addr) returns (a': Aux)
    requires Inv(s, a) && Write(s, s', v, ver, new_)
    ensures Inv(s', a') && (DataInv(s, a) ==> DataInv(s', a'))
  {
    a' := WriteStepInv(s, a, s', v, ver, new_);
    if DataInv(s, a) {
      WriteStepData(s, a, s', v, ver, new_, a');
    }
  }

  lemma SplitPageKeeps(s: State, a: Aux, s': State, v: View, r: Id, ra: Addr, new_: Addr) returns (a': Aux)
    requires Inv(s, a) && SplitPage(s, s', v, r, ra, new_)
    ensures Inv(s', a') && (DataInv(s, a) ==> DataInv(s', a'))
  {
    var sep, k;
    a', sep, k := SplitPageInv(s, a, s', v, r, ra, new_);
    if DataInv(s, a) {
      SplitPageData(s, a, s', v.cursor.index.id, sep, k, r);
    }
  }

  lemma SplitRootKeeps(s: State, a: Aux, s': State, l: Id, la: Addr, r: Id, ra: Addr, new_: Addr) returns (a': Aux)
    requires Inv(s, a) && SplitRoot(s, s', l, la, r, ra, new_)
    ensures Inv(s', a') && (DataInv(s, a) ==> DataInv(s', a'))
  {
    var sep, k;
    a', sep, k := SplitRootInv(s, a, s', l, la, r, ra, new_);
    if DataInv(s, a) {
      SplitRootData(s, a, s', sep, k, l, r);
    }
  }

  lemma ReconcileKeeps(s: State, a: Aux, s': State, w: View, new_: Addr) returns (a': Aux)
    requires Inv(s, a) && Reconcile(s, s', w, new_)
    ensures Inv(s', a') && (DataInv(s, a) ==> DataInv(s', a'))
  {
    a' := ReconcileInv(s, a, s', w, new_);
    if DataInv(s, a) {
      ReconcileData(s, a, s', w, new_, a');
    }
  }

  lemma ConsolidateLeafKeeps(s: State, a: Aux, s': State, id: Id, n: nat, safe: Lsn, items: seq<Version>, new_: Addr)
    returns (a': Aux)
    requires Inv(s, a) && ConsolidateLeaf(s, s', id, n, safe, items, new_)
    ensures Inv(s', a')
    ensures DataInv(s, a) && Lossless(s, ConsolidateLeafStep(id, n, safe, items, new_)) ==> DataInv(s', a')
  {
    a' := ConsolidateLeafInv(s, a, s', id, n, safe, items, new_);
    if DataInv(s, a) && Lossless(s, ConsolidateLeafStep(id, n, safe, items, new_)) {
      ConsolidateLeafData(s, a, s', id, n, safe, items, new_, a');
    }
  }

  lemma ConsolidateInnerKeeps(s: State, a: Aux, s': State, id: Id, items: seq<Entry>, new_: Addr) returns (a': Aux)
    requires Inv(s, a) && ConsolidateInner(s, s', id, items, new_)
    ensures Inv(s', a') && (DataInv(s, a) ==> DataInv(s', a'))
  {
    a' := ConsolidateInnerInv(s, a, s', id, items, new_);
    if DataInv(s, a) {
      UntouchedAnswers(s, a, s', a', id);
    }
  }

  lemma VisitKeeps(s: State, a: Aux, s': State, c: Cursor)
    requires Inv(s, a) && Visit(s, s', c)
    ensures Inv(s', a) && (DataInv(s, a) ==> DataInv(s', a))
  {
    VisitInv(s, a, s', c);
    if DataInv(s, a) {
      SamePagesData(s, a, s');
    }
  }

  lemma StartKeeps(s: State, a: Aux, s': State, key: RawKey)
    requires Inv(s, a) && Start(s, s', key)
    ensures Inv(s', a) && (DataInv(s, a) ==> DataInv(s', a))
  {
    StartInv(s, a, s', key);
    if DataInv(s, a) {
      SamePagesData(s, a, s');
    }
  }

  /** Every step keeps the structure, and every lossless step keeps what reads see. */
  lemma StepKeeps(s: State, a: Aux, s': State, step: Step) returns (a': Aux)
    requires Inv(s, a) && Next(s, s', step)
    ensures Inv(s', a')
    ensures DataInv(s, a) && Lossless(s, step) ==> DataInv(s', a')
  {
    a' := a;
    match step
    case StartStep(key) => StartKeeps(s, a, s', key);
    case VisitStep(c) => VisitKeeps(s, a, s', c);
    case WriteStep(v, ver, n) => a' := WriteKeeps(s, a, s', v, ver, n);
    case SplitPageStep(v, r, ra, n) => a' := SplitPageKeeps(s, a, s', v, r, ra, n);
    case SplitRootStep(l, la, r, ra, n) => a' := SplitRootKeeps(s, a, s', l, la, r, ra, n);
    case ReconcileStep(w, n) => a' := ReconcileKeeps(s, a, s', w, n);
    case ConsolidateLeafStep(id, k, safe, items, n) => a' := ConsolidateLeafKeeps(s, a, s', id, k, safe, items, n);
    case ConsolidateInnerStep(id, items, n) => a' := ConsolidateInnerKeeps(s, a, s', id, items, n);
    case AdvanceSafeStep(lsn) => AdvanceSafeInv(s, a, s', lsn);
  }

  // ----- Runs

  ghost predicate IsRun(states: seq<State>, steps: seq<Step>) {
    && |states| == |steps| + 1
    && Init(states[0])
    && forall i :: 0 <= i < |steps| ==> Next(states[i], states[i + 1], steps[i])
  }

  ghost predicate AllLossless(states: seq<State>, steps: seq<Step>)
    requires |states| == |steps| + 1
  {
    forall i :: 0 <= i < |steps| ==> Lossless(states[i], steps[i])
  }

  /** The invariant holds in every state of every run. */
  lemma {:induction false} EveryStateHasInvariant(states: seq<State>, steps: seq<Step>, n: nat) returns (a: Aux)
    requires IsRun(states, steps) && n < |states|
    ensures Inv(states[n], a)
    ensures AllLossless(states, steps) ==> DataInv(states[n], a)
  {
    if n == 0 {
      a := InitInv(states[0]);
    } else {
      var b := EveryStateHasInvariant(states, steps, n - 1);
      assert Next(states[n - 1], states[n - 1 + 1], steps[n - 1]);
      assert AllLossless(states, steps) ==> Lossless(states[n - 1], steps[n - 1]);
      a := StepKeeps(states[n - 1], b, states[n], steps[n - 1]);
    }
  }

  // ----- What the invariant says

  ghost predicate Owns(s: State, a: Aux, id: Id, key: RawKey)
    requires Domains(s, a)
  {
    id in s.table && a.nodes[id].level == 0 && Contains(a.nodes[id].rng, key)
  }

  /** Below any page that holds the key there is a leaf that holds it. */
  lemma {:induction false} LeafBelow(s: State, a: Aux, id: Id, key: RawKey) returns (leaf: Id)
    requires Inv(s, a) && id in s.table && Contains(a.nodes[id].rng, key)
    ensures Owns(s, a, leaf, key)
    decreases a.nodes[id].level
  {
    if a.nodes[id].level == 0 {
      leaf := id;
    } else {
      assert NodeOk(a.nodes[id]);
      var i := ChildForKey(a.nodes[id], key);
      assert ChildOk(s, a, id, i);
      var c := a.nodes[id].ents[i].index.id;
      assert InStep(s, a, c);
      if Contains(a.nodes[c].rng, key) {
        leaf := LeafBelow(s, a, c, key);
      } else {
        leaf := LeafBelow(s, a, Top(s, c).body.right.id, key);
      }
    }
  }

  lemma OwnersAreAlone(s: State, a: Aux, x: Id, y: Id, key: RawKey)
    requires Inv(s, a) && Owns(s, a, x, key) && x != y
    ensures !Owns(s, a, y, key)
  {
    assert y in s.table ==> SideBySide(a.nodes[x], a.nodes[y]);
  }

  ghost predicate OneOwner(s: State, a: Aux, key: RawKey)
    requires Domains(s, a)
  {
    && (exists id :: Owns(s, a, id, key))
    && (forall x, y :: Owns(s, a, x, key) && Owns(s, a, y, key) ==> x == y)
  }

  /** The leaves partition the key space: every key is owned by exactly one of them. */
  lemma LeavesPartitionKeys(s: State, a: Aux, key: RawKey)
    requires Inv(s, a)
    ensures OneOwner(s, a, key)
  {
    var leaf := LeafBelow(s, a, ROOT_ID, key);
    forall x, y | Owns(s, a, x, key) && Owns(s, a, y, key)
      ensures x == y
    {
      if x != y {
        OwnersAreAlone(s, a, x, y, key);
      }
    }
  }

  /** In every state of every run the leaves partition the key space, and every descent that passes
      the epoch test at a leaf is at the leaf that owns its key. */
  lemma KeysArePartitionedInEveryRun(states: seq<State>, steps: seq<Step>, n: nat)
    requires IsRun(states, steps) && n < |states|
    ensures exists a {:trigger Inv(states[n], a)} ::
              && Inv(states[n], a)
              && (forall key: RawKey :: OneOwner(states[n], a, key))
              && (forall c {:trigger c in states[n].cursors} :: c in states[n].cursors && AtLeaf(states[n], c) ==>
                 Owns(states[n], a, c.index.id, c.key))
  {
    var s := states[n];
    var a := EveryStateHasInvariant(states, steps, n);
    forall key: RawKey
      ensures OneOwner(s, a, key)
    {
      LeavesPartitionKeys(s, a, key);
    }
    forall c | c in s.cursors && AtLeaf(s, c)
      ensures Owns(s, a, c.index.id, c.key)
    {
      FoundLeafOwnsKey(s, a, c);
    }
  }

  /** The descent finds a leaf with the epoch it was sent to. */
  ghost predicate AtLeaf(s: State, c: Cursor) {
    HasPage(s, c.index.id) && Top(s, c.index.id).epoch == c.index.epoch && TierOf(Top(s, c.index.id).body) == Leaf
  }

  /** A child's epoch is the one its parent knows, or exactly one more with the pending split on
      top of its chain and the split key inside the range the parent knows. */
  lemma ChildAtMostOneAhead(s: State, a: Aux, q: Id, i: nat)
    requires Inv(s, a) && q in s.table && i < |a.nodes[q].ents|
    ensures var e := a.nodes[q].ents[i];
            && HasPage(s, e.index.id)
            && (Top(s, e.index.id).epoch == e.index.epoch
                || (&& Top(s, e.index.id).epoch == e.index.epoch + 1
                    && Top(s, e.index.id).body.SplitDelta?
                    && e.key < Top(s, e.index.id).body.splitKey
                    && Below(Top(s, e.index.id).body.splitKey, EndOf(a.nodes[q].ents, i, a.nodes[q].rng.hi))))
  {
    assert ChildOk(s, a, q, i);
    var c := a.nodes[q].ents[i].index.id;
    assert InStep(s, a, c);
    assert NodeOk(a.nodes[c]);
    if !Settled(s, a, c) {
      assert NodeOk(a.nodes[Top(s, c).body.right.id]);
    }
  }

  /** A descent that ends at a leaf ends at the leaf that owns its key. */
  lemma FoundLeafOwnsKey(s: State, a: Aux, c: Cursor)
    requires Inv(s, a) && c in s.cursors
    requires HasPage(s, c.index.id) && Top(s, c.index.id).epoch == c.index.epoch &&
             TierOf(Top(s, c.index.id).body) == Leaf
    ensures Owns(s, a, c.index.id, c.key)
  {
    assert CursorOk(s, a, c);
    EpochTellsRange(s, a, c);
    TopTier(s, a, c.index.id);
  }

  /** In every state of every lossless run, a `get` that passes the epoch test at a leaf reads what
      the multi-version map holds at that moment, at any LSN at or above the safe one. */
  lemma GetReadsTheMap(states: seq<State>, steps: seq<Step>, n: nat, c: Cursor, lsn: Lsn)
    requires IsRun(states, steps) && AllLossless(states, steps) && n < |states|
    requires var s := states[n];
             && c in s.cursors && HasPage(s, c.index.id) && s.safe <= lsn
             && Top(s, c.index.id).epoch == c.index.epoch && TierOf(Top(s, c.index.id).body) == Leaf
    ensures var r := ChainFind(Chain(states[n].mem, states[n].table[c.index.id]), c.key, lsn);
            forall blob: Blob ::
              r.Some? && r.value.value == Put(blob) <==>
                exists l: Lsn :: IsNewest(states[n].written, c.key, lsn, Some(Version(Key(c.key, l), Put(blob))))
  {
    var a := EveryStateHasInvariant(states, steps, n);
    LeafAnswers(states[n], a, c, lsn);
    SeenPuts(ChainFind(Chain(states[n].mem, states[n].table[c.index.id]), c.key, lsn), states[n].written, c.key, lsn);
  }

  lemma LeafAnswers(s: State, a: Aux, c: Cursor, lsn: Lsn)
    requires Inv(s, a) && DataInv(s, a) && c in s.cursors && AtLeaf(s, c) && s.safe <= lsn
    ensures KeyUnique(s.written)
    ensures Visible(ChainFind(Chain(s.mem, s.table[c.index.id]), c.key, lsn)) == Visible(Newest(s.written, c.key, lsn))
  {
    var id := c.index.id;
    FoundLeafOwnsKey(s, a, c);
    assert AnswersLikeMap(s, a, id);
    assert NodeOk(a.nodes[id]);
    ChainReadIsSetRead(a.nodes[id].chain, c.key, lsn);
  }

  /** A successful write adds its version to the leaf that owns the key, and to nothing else. */
  lemma WriteHitsOwner(s: State, a: Aux, s': State, v: View, ver: Version, new_: Addr)
    requires Inv(s, a) && Write(s, s', v, ver, new_)
    ensures Owns(s, a, v.cursor.index.id, ver.key.raw)
    ensures Chain(s'.mem, s'.table[v.cursor.index.id]) == [LeafData([ver])] + Chain(s.mem, s.table[v.cursor.index.id])
    ensures forall x :: x in s.table && x != v.cursor.index.id ==>
            Chain(s'.mem, s'.table[x]) == Chain(s.mem, s.table[x])
  {
    WriteOwner(s, a, s', v, ver, new_);
    var a' := WriteStepInv(s, a, s', v, ver, new_);
    forall x | x in s.table && x != v.cursor.index.id
      ensures Chain(s'.mem, s'.table[x]) == Chain(s.mem, s.table[x])
    {
      assert a'.nodes[x] == a.nodes[x];
    }
  }

  // ----- Addresses

  /** A step never changes a published page, never drops a page id, and moves a table entry only
      to a larger address. */
  lemma AddressesGrow(s: State, s': State, step: Step)
    requires Next(s, s', step) && ROOT_ID in s.table
    ensures forall x :: x in s.mem ==> x in s'.mem && s'.mem[x] == s.mem[x]
    ensures forall id :: id in s.table ==> id in s'.table && (s'.table[id] == s.table[id] || s.table[id] < s'.table[id])
  {
  }

  /** Every published page points to a smaller address, so `walk_page` ends. */
  lemma ChainsGoDown(s: State, a: Aux, x: Addr)
    requires Inv(s, a) && x in s.mem
    ensures s.mem[x].next < x && (s.mem[x].next == 0 || s.mem[x].next in s.mem)
  {
    assert PageOk(s.mem, x);
  }

  /** What a view read stays what it reads: a chain never changes under its address. */
  lemma ViewsAreStable(s: State, a: Aux, s': State, step: Step, addr: Addr)
    requires Inv(s, a) && Next(s, s', step) && addr in s.mem
    ensures Chain(s'.mem, addr) == Chain(s.mem, addr)
  {
    var a' := StepKeeps(s, a, s', step);
    AddressesGrow(s, s', step);
    ChainFrame(s, s'.mem, addr);
  }
}
