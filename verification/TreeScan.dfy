/**
 The iterator over the leaf pages of a tree, under any interleaving with other operations
 (photondb/src/tree/mod.rs `TreeIter`).

 The iterator walks along the children of an inner page that it read once.  When a child has
 changed its epoch, or the children are used up, it descends again from the root for the key at
 which it stopped.
 */
module TreeScan {
  import opened Options
  import opened Data
  import opened Pages
  import opened InnerChain
  import opened Consolidation
  import opened TreeProtocol
  import opened TreeInvariant
  import opened TreeReading
  import opened TreeTheorems

  // ----- The iterator

  /** `page` is the inner page that the remaining children `rest` were read from, `next` is where to go on
      behind them.  `Seeking` is between a change and the descent that follows it. */
  datatype Iter =
    | Between(page: Option<ParentRef>, rest: seq<Entry>, next: Option<RawKey>)
    | Seeking(target: RawKey)
    | Finished

  /** A returned page: the chain that `iter_page` walked, and where the page iterator was put. */
  datatype PageRead = PageRead(chain: seq<Body>, from: Option<RawKey>)

  const START := Between(None, [], Some(0.0))

  /** The result of `find_leaf`: a leaf that passed the epoch test, and the view of its parent. */
  ghost predicate Found(s: State, c: Cursor, parent: Option<View>) {
    && c in s.cursors && AtLeaf(s, c)
    && match parent
       case None => c.index == ROOT_INDEX
       case Some(v) =>
         && v in s.views && v.addr in s.mem && TierOf(s.mem[v.addr].body) == Inner && v.cursor.key == c.key
         && FindChild(Chain(s.mem, v.addr), c.key).Some?
         && c == Descend(v.cursor, FindChild(Chain(s.mem, v.addr), c.key).value, v.addr)
  }

  /** `seek`: the leaf from the target on, and the children of its parent behind it. */
  ghost predicate SeekTo(s: State, target: RawKey, c: Cursor, parent: Option<View>, rest: seq<Entry>, it': Iter,
                         out: Option<PageRead>) {
    && Found(s, c, parent) && c.key == target
    && out == Some(PageRead(Chain(s.mem, s.table[c.index.id]), Some(target)))
    && match parent
       case None => it' == Between(None, [], None)
       case Some(v) =>
         && RestAfter(Chain(s.mem, v.addr), target, rest)
         && it' == Between(Some(ParentRef(v.cursor.index.id, v.addr)), rest, v.cursor.range.hi)
  }

  /** A child is returned when it still has the epoch its parent gave it, else the iterator starts again there. */
  ghost predicate TakeChild(s: State, it: Iter, it': Iter, out: Option<PageRead>)
    requires it.Between? && it.rest != []
  {
    var e := it.rest[0];
    && HasPage(s, e.index.id)
    && if Top(s, e.index.id).epoch == e.index.epoch
       then it' == it.(rest := it.rest[1..]) && out == Some(PageRead(Chain(s.mem, s.table[e.index.id]), None))
       else it' == Seeking(e.key) && out == None
  }

  /** One table load of `next_page`, in the tree state `s`. */
  ghost predicate Turn(s: State, it: Iter, it': Iter, out: Option<PageRead>) {
    match it
    case Between(_, rest, next) =>
      if rest != [] then TakeChild(s, it, it', out)
      else out == None && it' == if next.Some? then Seeking(next.value) else Finished
    case Seeking(target) => exists c, parent, rest :: SeekTo(s, target, c, parent, rest, it', out)
    case Finished => out == None && it' == Finished
  }

  /** Everything below this key has been returned. */
  function Frontier(it: Iter): Option<RawKey> {
    match it
    case Between(_, rest, next) => if rest != [] then Some(rest[0].key) else next
    case Seeking(target) => Some(target)
    case Finished => None
  }

  // ----- Cursors that ride along a run

  function With(s: State, c: Cursor): State {
    s.(cursors := s.cursors + {c})
  }

  /** The run could have the cursor `c` at this point: the invariant holds with it. */
  ghost predicate Rides(s: State, lossless: bool, c: Cursor) {
    match c
    case Cursor(_, _, _, _) => exists a {:trigger Holds(With(s, c), lossless, a)} :: Holds(With(s, c), lossless, a)
  }

  ghost predicate Holds(s: State, lossless: bool, a: Aux) {
    match a
    case Aux(_, _, _, _) => Inv(s, a) && (lossless ==> DataInv(s, a))
  }

  /** No step depends on the absence of a cursor. */
  lemma NextWith(s: State, s': State, step: Step, c: Cursor)
    requires Next(s, s', step)
    ensures Next(With(s, c), With(s', c), step)
    ensures Lossless(s, step) ==> Lossless(With(s, c), step)
  {
    assert s'.cursors + {c} == (s'.cursors - s.cursors) + (s.cursors + {c}) || !(s.cursors <= s'.cursors);
  }

  lemma RidesStep(s: State, s': State, step: Step, lossless: bool, c: Cursor)
    requires Next(s, s', step) && Rides(s, lossless, c) && (lossless ==> Lossless(s, step))
    ensures Rides(s', lossless, c)
  {
    var a :| Holds(With(s, c), lossless, a);
    NextWith(s, s', step, c);
    var a' := StepKeeps(With(s, c), a, With(s', c), step);
    assert Holds(With(s', c), lossless, a');
  }

  lemma RidesNext(states: seq<State>, steps: seq<Step>, n: nat, lossless: bool, c: Cursor)
    requires IsRun(states, steps) && n + 1 < |states| && Rides(states[n], lossless, c)
    requires lossless ==> AllLossless(states, steps)
    ensures Rides(states[n + 1], lossless, c)
  {
    assert lossless ==> Lossless(states[n], steps[n]);
    RidesStep(states[n], states[n + 1], steps[n], lossless, c);
  }

  lemma {:induction false} RidesOn(states: seq<State>, steps: seq<Step>, m: nat, n: nat, lossless: bool, c: Cursor)
    requires IsRun(states, steps) && m <= n < |states| && Rides(states[m], lossless, c)
    requires lossless ==> AllLossless(states, steps)
    ensures Rides(states[n], lossless, c)
    decreases n - m
  {
    if m < n {
      RidesNext(states, steps, m, lossless, c);
      RidesOn(states, steps, m + 1, n, lossless, c);
    }
  }

  /** A cursor that the invariant admits may join the run. */
  lemma Joins(s: State, a: Aux, lossless: bool, c: Cursor)
    requires Inv(s, a) && CursorOk(s, a, c) && (lossless ==> DataInv(s, a))
    ensures Rides(s, lossless, c)
  {
    var s' := With(s, c);
    SamePagesShape(s, a, s');
    OldCursors(s, a, s', c);
    OldLocals(s, a, s');
    SamePagesInv(s, a, s');
    if lossless {
      SamePagesData(s, a, s');
    }
    assert Holds(s', lossless, a);
  }

  // ----- What never changes

  /** A write goes to a leaf. */
  lemma WrittenTier(s: State, a: Aux, s': State, v: View, ver: Version, new_: Addr)
    requires Inv(s, a) && Write(s, s', v, ver, new_)
    ensures TierOf(Top(s, v.cursor.index.id).body) == Leaf
  {
    assert ViewOk(s, a, v);
    TopTier(s, a, v.cursor.index.id);
  }

  /** A split is published in an inner page. */
  lemma ReconciledTier(s: State, a: Aux, s': State, w: View, new_: Addr)
    requires Inv(s, a) && Reconcile(s, s', w, new_)
    ensures TierOf(Top(s, w.cursor.parent.value.id).body) == Inner
  {
    assert StaleOk(s, a, w);
    assert CursorOk(s, a, w.cursor);
    var id := w.cursor.parent.value.id;
    assert NodeOk(a.nodes[id]);
    TopTier(s, a, id);
  }

  /** Splits and consolidations put pages of one tier on top of each other. */
  lemma RepointedTier(s: State, s': State, step: Step, id: Id)
    requires Next(s, s', step) && !step.WriteStep? && !step.ReconcileStep? && HasPage(s, id) && id != ROOT_ID
    ensures HasPage(s', id) && TierOf(Top(s', id).body) == TierOf(Top(s, id).body)
  {
  }

  /** A page id other than the root keeps its tier. */
  lemma TierStays(s: State, a: Aux, s': State, step: Step, id: Id)
    requires Inv(s, a) && Next(s, s', step) && id in s.table && id != ROOT_ID
    ensures HasPage(s', id) && TierOf(Top(s', id).body) == TierOf(Top(s, id).body)
  {
    match step
    case WriteStep(v, ver, new_) => WrittenTier(s, a, s', v, ver, new_);
    case ReconcileStep(w, new_) => ReconciledTier(s, a, s', w, new_);
    case _ => RepointedTier(s, s', step, id);
  }

  lemma TierStep(states: seq<State>, steps: seq<Step>, n: nat, id: Id)
    requires IsRun(states, steps) && n + 1 < |states| && HasPage(states[n], id) && id != ROOT_ID
    ensures HasPage(states[n + 1], id) && TierOf(Top(states[n + 1], id).body) == TierOf(Top(states[n], id).body)
  {
    var a := EveryStateHasInvariant(states, steps, n);
    TierStays(states[n], a, states[n + 1], steps[n], id);
  }

  lemma {:induction false} TierStaysOn(states: seq<State>, steps: seq<Step>, m: nat, n: nat, id: Id)
    requires IsRun(states, steps) && m <= n < |states| && HasPage(states[m], id) && id != ROOT_ID
    ensures HasPage(states[n], id) && TierOf(Top(states[n], id).body) == TierOf(Top(states[m], id).body)
    decreases n
  {
    if m < n {
      TierStaysOn(states, steps, m, n - 1, id);
      TierStep(states, steps, n - 1, id);
    }
  }

  lemma ChainStep(states: seq<State>, steps: seq<Step>, n: nat, addr: Addr)
    requires IsRun(states, steps) && n + 1 < |states| && addr in states[n].mem
    ensures addr in states[n + 1].mem && Chain(states[n + 1].mem, addr) == Chain(states[n].mem, addr)
  {
    var a := EveryStateHasInvariant(states, steps, n);
    ViewsAreStable(states[n], a, states[n + 1], steps[n], addr);
    AddressesGrow(states[n], states[n + 1], steps[n]);
  }

  lemma {:induction false} ChainStaysOn(states: seq<State>, steps: seq<Step>, m: nat, n: nat, addr: Addr)
    requires IsRun(states, steps) && m <= n < |states| && addr in states[m].mem
    ensures addr in states[n].mem && Chain(states[n].mem, addr) == Chain(states[m].mem, addr)
    decreases n
  {
    if m < n {
      ChainStaysOn(states, steps, m, n - 1, addr);
      ChainStep(states, steps, n - 1, addr);
    }
  }

  /** The view was made in the state `s`: the table had its address, and the page its epoch. */
  ghost predicate Made(s: State, v: View) {
    && v.cursor in s.cursors && HasPage(s, v.cursor.index.id) && s.table[v.cursor.index.id] == v.addr
    && Top(s, v.cursor.index.id).epoch == v.cursor.index.epoch
  }

  lemma {:induction false} ViewWasMade(states: seq<State>, steps: seq<Step>, n: nat, v: View) returns (m: nat)
    requires IsRun(states, steps) && n < |states| && v in states[n].views
    ensures m <= n && Made(states[m], v)
    decreases n
  {
    if n > 0 {
      assert Next(states[n - 1], states[n - 1 + 1], steps[n - 1]);
      if v in states[n - 1].views {
        m := ViewWasMade(states, steps, n - 1, v);
      } else {
        m := n - 1;
      }
    }
  }

  // ----- The children that are still to come

  /** The descent that would go to the child at `i`. */
  function ChildAt(page: ParentRef, E: seq<Entry>, i: nat, hi: Option<RawKey>): Cursor
    requires i < |E|
  {
    Cursor(E[i].key, E[i].index, Range(E[i].key, EndOf(E, i, hi)), Some(page))
  }

  /** The cursor may be used, and the page it goes to is a leaf. */
  ghost predicate ToLeaf(s: State, lossless: bool, c: Cursor) {
    match c
    case Cursor(_, index, _, _) =>
      Rides(s, lossless, c) && index.id != ROOT_ID && HasPage(s, index.id) && TierOf(Top(s, index.id).body) == Leaf
  }

  lemma ToLeafLater(states: seq<State>, steps: seq<Step>, m: nat, n: nat, lossless: bool, c: Cursor)
    requires IsRun(states, steps) && m <= n < |states| && ToLeaf(states[m], lossless, c)
    requires lossless ==> AllLossless(states, steps)
    ensures ToLeaf(states[n], lossless, c)
  {
    RidesOn(states, steps, m, n, lossless, c);
    TierStaysOn(states, steps, m, n, c.index.id);
  }

  /** What the invariant says of an inner page when it is viewed. */
  lemma ViewedInner(s: State, a: Aux, v: View)
    requires Inv(s, a) && Made(s, v) && TierOf(s.mem[v.addr].body) == Inner
    ensures var id := v.cursor.index.id;
            && id in a.pub && Settled(s, a, id) && a.nodes[id].level > 0 && a.nodes[id].rng == v.cursor.range
            && Contains(v.cursor.range, v.cursor.key)
            && Represents(Chain(s.mem, v.addr), a.nodes[id].ents, v.cursor.range)
            && s.mem[v.addr].epoch == a.pub[id].epoch
  {
    assert CursorOk(s, a, v.cursor);
    EpochTellsRange(s, a, v.cursor);
    TopTier(s, a, v.cursor.index.id);
    assert NodeOk(a.nodes[v.cursor.index.id]);
  }

  /** Every child of the viewed page could be descended to. */
  lemma ChildCursorOk(s: State, a: Aux, v: View, i: nat)
    requires Inv(s, a) && Made(s, v) && TierOf(s.mem[v.addr].body) == Inner
    requires v.cursor.index.id in a.nodes && i < |a.nodes[v.cursor.index.id].ents|
    ensures var id := v.cursor.index.id;
            CursorOk(s, a, ChildAt(ParentRef(id, v.addr), a.nodes[id].ents, i, v.cursor.range.hi))
  {
    ViewedInner(s, a, v);
    assert ChildOk(s, a, v.cursor.index.id, i);
  }

  lemma ChildToLeaf(s: State, a: Aux, v: View, lossless: bool, i: nat)
    requires Inv(s, a) && Made(s, v) && TierOf(s.mem[v.addr].body) == Inner && (lossless ==> DataInv(s, a))
    requires v.cursor.index.id in a.nodes && i < |a.nodes[v.cursor.index.id].ents| &&
             a.nodes[v.cursor.index.id].level == 1
    ensures var id := v.cursor.index.id;
            ToLeaf(s, lossless, ChildAt(ParentRef(id, v.addr), a.nodes[id].ents, i, v.cursor.range.hi))
  {
    var id := v.cursor.index.id;
    ChildCursorOk(s, a, v, i);
    Joins(s, a, lossless, ChildAt(ParentRef(id, v.addr), a.nodes[id].ents, i, v.cursor.range.hi));
    assert ChildOk(s, a, id, i);
    TopTier(s, a, a.nodes[id].ents[i].index.id);
  }

  lemma ChildBehind(s: State, a: Aux, v: View, lossless: bool, p: nat, rest: seq<Entry>, j: nat, c: Cursor)
    requires Inv(s, a) && Made(s, v) && TierOf(s.mem[v.addr].body) == Inner && (lossless ==> DataInv(s, a))
    requires v.cursor.index.id in a.nodes && p <= |a.nodes[v.cursor.index.id].ents| &&
             a.nodes[v.cursor.index.id].level == 1
    requires rest == a.nodes[v.cursor.index.id].ents[p..] && j < |rest|
    requires c == ChildAt(ParentRef(v.cursor.index.id, v.addr), rest, j, v.cursor.range.hi)
    ensures ToLeaf(s, lossless, c)
  {
    ChildToLeaf(s, a, v, lossless, p + j);
  }

  /** The child that the descent went on to, seen from the state in which the parent was viewed. */
  lemma ChildTaken(s: State, a: Aux, v: View, c: Cursor, rest: seq<Entry>) returns (i: nat)
    requires Inv(s, a) && Made(s, v) && TierOf(s.mem[v.addr].body) == Inner
    requires var chain := Chain(s.mem, v.addr);
             && FindChild(chain, v.cursor.key).Some? && c == Descend(v.cursor, FindChild(chain, v.cursor.key).value,
                v.addr)
             && RestAfter(chain, v.cursor.key, rest)
    ensures v.cursor.index.id in a.nodes
    ensures var ents := a.nodes[v.cursor.index.id].ents;
            && i < |ents| && rest == ents[i + 1..]
            && c.index == ents[i].index && c.range == Range(ents[i].key, EndOf(ents, i, v.cursor.range.hi))
  {
    ViewedInner(s, a, v);
    var n := a.nodes[v.cursor.index.id];
    assert NodeOk(n);
    RestIsBehind(Chain(s.mem, v.addr), n.ents, n.rng, v.cursor.key, rest);
    i := UpperBound(n.ents, v.cursor.key) - 1;
    LookupAt(n.chain, n.ents, n.rng.hi, i, v.cursor.key);
  }

  lemma ChainHead(mem: map<Addr, Page>, addr: Addr)
    requires addr in mem
    ensures Chain(mem, addr) != [] && Chain(mem, addr)[0] == mem[addr].body
  {
  }

  /** The state in which the parent of the leaf was viewed, with the leaf among its children. */
  lemma SeekOrigin(states: seq<State>, steps: seq<Step>, n: nat, c: Cursor, v: View, rest: seq<Entry>) returns (m: nat,
                   a: Aux, i: nat)
    requires IsRun(states, steps) && n < |states|
    requires Found(states[n], c, Some(v)) && RestAfter(Chain(states[n].mem, v.addr), c.key, rest)
    ensures m <= n && Inv(states[m], a) && (AllLossless(states, steps) ==> DataInv(states[m], a))
    ensures Made(states[m], v) && TierOf(states[m].mem[v.addr].body) == Inner
    ensures v.cursor.index.id in a.nodes
    ensures var ents := a.nodes[v.cursor.index.id].ents;
            && i < |ents| && rest == ents[i + 1..]
            && c.index == ents[i].index && c.range == Range(ents[i].key, EndOf(ents, i, v.cursor.range.hi))
  {
    m := ViewWasMade(states, steps, n, v);
    ChainStaysOn(states, steps, m, n, v.addr);
    ChainHead(states[m].mem, v.addr);
    ChainHead(states[n].mem, v.addr);
    a := EveryStateHasInvariant(states, steps, m);
    i := ChildTaken(states[m], a, v, c, rest);
  }

  /** All children of a page are leaves when one of them is found to be a leaf later. */
  lemma SiblingsAreLeaves(states: seq<State>, steps: seq<Step>, m: nat, n: nat, a: Aux, q: Id, i: nat)
    requires IsRun(states, steps) && m <= n < |states| && Inv(states[m], a) && q in a.nodes && i < |a.nodes[q].ents|
    requires HasPage(states[n], a.nodes[q].ents[i].index.id)
    requires TierOf(Top(states[n], a.nodes[q].ents[i].index.id).body) == Leaf
    ensures a.nodes[q].level == 1
  {
    assert ChildOk(states[m], a, q, i);
    var id := a.nodes[q].ents[i].index.id;
    TierStaysOn(states, steps, m, n, id);
    TopTier(states[m], a, id);
  }

  ghost predicate RestOk(s: State, lossless: bool, page: ParentRef, rest: seq<Entry>, next: Option<RawKey>) {
    match page
    case ParentRef(_, _) => forall j {:trigger rest[j]} :: 0 <= j < |rest| ==>
      ToLeaf(s, lossless, ChildAt(page, rest, j, next))
  }

  /** After a seek, every remaining child can be descended to, and the first starts where the leaf ends. */
  lemma RestToLeaves(states: seq<State>, steps: seq<Step>, n: nat, lossless: bool, c: Cursor, v: View, rest: seq<Entry>)
    requires IsRun(states, steps) && n < |states| && (lossless ==> AllLossless(states, steps))
    requires Found(states[n], c, Some(v)) && RestAfter(Chain(states[n].mem, v.addr), c.key, rest)
    ensures c.range.hi == if rest != [] then Some(rest[0].key) else v.cursor.range.hi
    ensures RestOk(states[n], lossless, ParentRef(v.cursor.index.id, v.addr), rest, v.cursor.range.hi)
  {
    var m, a, i := SeekOrigin(states, steps, n, c, v, rest);
    SiblingsAreLeaves(states, steps, m, n, a, v.cursor.index.id, i);
    forall j | 0 <= j < |rest|
      ensures ToLeaf(states[n], lossless, ChildAt(ParentRef(v.cursor.index.id, v.addr), rest, j, v.cursor.range.hi))
    {
      var child := ChildAt(ParentRef(v.cursor.index.id, v.addr), rest, j, v.cursor.range.hi);
      ChildBehind(states[m], a, v, lossless, i + 1, rest, j, child);
      ToLeafLater(states, steps, m, n, lossless, child);
    }
  }

  // ----- What the iterator relies on

  ghost predicate IterOk(s: State, lossless: bool, it: Iter) {
    match it
    case Between(page, rest, next) =>
      rest == [] || (page.Some? && RestOk(s, lossless, page.value, rest, next))
    case Seeking(_) => true
    case Finished => true
  }

  lemma IterLater(states: seq<State>, steps: seq<Step>, m: nat, n: nat, lossless: bool, it: Iter)
    requires IsRun(states, steps) && m <= n < |states| && IterOk(states[m], lossless, it)
    requires lossless ==> AllLossless(states, steps)
    ensures IterOk(states[n], lossless, it)
  {
    if it.Between? {
      forall j | 0 <= j < |it.rest|
        ensures ToLeaf(states[n], lossless, ChildAt(it.page.value, it.rest, j, it.next))
      {
        assert it.rest[j] == it.rest[j];
        ToLeafLater(states, steps, m, n, lossless, ChildAt(it.page.value, it.rest, j, it.next));
      }
    }
  }

  lemma TakeChildKeeps(s: State, lossless: bool, it: Iter, it': Iter, out: Option<PageRead>)
    requires it.Between? && it.rest != [] && IterOk(s, lossless, it) && TakeChild(s, it, it', out)
    ensures IterOk(s, lossless, it')
  {
    if it'.Between? {
      forall j | 0 <= j < |it'.rest|
        ensures ToLeaf(s, lossless, ChildAt(it.page.value, it'.rest, j, it.next))
      {
        assert it'.rest[j] == it.rest[j + 1];
        assert ChildAt(it.page.value, it'.rest, j, it.next) == ChildAt(it.page.value, it.rest, j + 1, it.next);
      }
    }
  }

  lemma SeekKeeps(states: seq<State>, steps: seq<Step>, n: nat, lossless: bool, target: RawKey, c: Cursor,
                  parent: Option<View>,
                  rest: seq<Entry>, it': Iter, out: Option<PageRead>)
    requires IsRun(states, steps) && n < |states| && (lossless ==> AllLossless(states, steps))
    requires SeekTo(states[n], target, c, parent, rest, it', out)
    ensures IterOk(states[n], lossless, it')
  {
    if parent.Some? {
      RestToLeaves(states, steps, n, lossless, c, parent.value, rest);
    }
  }

  /** Every turn keeps what the iterator relies on. */
  lemma TurnKeeps(states: seq<State>, steps: seq<Step>, n: nat, lossless: bool, it: Iter, it': Iter,
                  out: Option<PageRead>)
    requires IsRun(states, steps) && n < |states| && (lossless ==> AllLossless(states, steps))
    requires IterOk(states[n], lossless, it) && Turn(states[n], it, it', out)
    ensures IterOk(states[n], lossless, it')
  {
    if it.Between? && it.rest != [] {
      TakeChildKeeps(states[n], lossless, it, it', out);
    } else if it.Seeking? {
      var c, parent, rest :| SeekTo(states[n], it.target, c, parent, rest, it', out);
      SeekKeeps(states, steps, n, lossless, it.target, c, parent, rest, it', out);
    }
  }
}
