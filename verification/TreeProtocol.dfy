/**
 The latch-free tree protocol as a state machine (photondb/src/tree/mod.rs).

 Pages are immutable once published; a page table maps each page id to the address of the newest
 page of its chain and changes only by compare-and-swap.  Everything an operation reads from
 immutable pages happens with the table load that led to it, so one step is one table load, one
 table CAS, or one move of the safe LSN.

 What operations in progress hold in local variables is kept in three growing sets: `cursors`
 (where a descent goes next), `views` (page views that passed the epoch test) and `stale` (views
 that failed it).  A step may use any member at any later time, so the runs below cover every
 number of threads and every interleaving.
 */
module TreeProtocol {
  import opened Options
  import opened Data
  import opened Pages
  import opened LeafChain
  import opened InnerChain

  type Addr = nat

  datatype Page = Page(epoch: nat, len: nat, next: Addr, body: Body)

  datatype ParentRef = ParentRef(id: Id, addr: Addr)

  /** A descent for `key` that is about to visit the page of `index`. */
  datatype Cursor = Cursor(key: RawKey, index: Index, range: Range, parent: Option<ParentRef>)

  /** A page view: the cursor and the address it found in the table. */
  datatype View = View(cursor: Cursor, addr: Addr)

  /** `written` is the multi-version map: every version whose CAS succeeded. */
  datatype State = State(
    mem: map<Addr, Page>,
    table: map<Id, Addr>,
    safe: Lsn,
    cursors: set<Cursor>,
    views: set<View>,
    stale: set<View>,
    written: set<Version>)

  /** `walk_page`: the bodies from `addr` to the end of the chain. */
  ghost function Chain(mem: map<Addr, Page>, addr: Addr): seq<Body>
    decreases addr
  {
    if addr !in mem then []
    else if mem[addr].next < addr then [mem[addr].body] + Chain(mem, mem[addr].next)
    else [mem[addr].body]
  }

  /** The address reached after `n` pages. */
  ghost function Skip(mem: map<Addr, Page>, addr: Addr, n: nat): Addr
    decreases n
  {
    if n == 0 || addr !in mem then addr else Skip(mem, mem[addr].next, n - 1)
  }

  /** `chain_len` is a byte that saturates. */
  function Longer(len: nat): nat {
    if len >= 255 then 255 else len + 1
  }

  /** A new address comes from the write buffer and is larger than the one it replaces. */
  predicate Fresh(s: State, new_: Addr, old_: Addr) {
    new_ !in s.mem && new_ > old_
  }

  function Top(s: State, id: Id): Page
    requires id in s.table && s.table[id] in s.mem
  {
    s.mem[s.table[id]]
  }

  predicate HasPage(s: State, id: Id) {
    id in s.table && s.table[id] in s.mem
  }

  // ----- Reading

  ghost predicate Start(s: State, s': State, key: RawKey) {
    s' == s.(cursors := s.cursors + {Cursor(key, ROOT_INDEX, FULL_RANGE, None)})
  }

  /** The cursor of the child that `find_child` returned. */
  function Descend(c: Cursor, child: Child, addr: Addr): Cursor {
    Cursor(c.key, child.index, Range(child.lo, Inherit(child.hi, c.range.hi)), Some(ParentRef(c.index.id, addr)))
  }

  /** One turn of the loop in `try_find_leaf`: load the table entry, test the epoch, and either
      stop with a stale view, stop with a leaf, or find the child. */
  ghost predicate Visit(s: State, s': State, c: Cursor) {
    && c in s.cursors && HasPage(s, c.index.id)
    && var addr := s.table[c.index.id];
    && var page := s.mem[addr];
    if page.epoch != c.index.epoch then
      s' == s.(stale := s.stale + {View(c, addr)})
    else if TierOf(page.body) == Leaf then
      s' == s.(views := s.views + {View(c, addr)})
    else
      var child := FindChild(Chain(s.mem, addr), c.key);
      child.Some? &&
      s' == s.(views := s.views + {View(c, addr)}, cursors := s.cursors + {Descend(c, child.value, addr)})
  }

  // ----- Writing

  /** LSNs of one raw key are written in increasing order. */
  ghost predicate LsnGrows(written: set<Version>, ver: Version) {
    forall w :: w in written && w.key.raw == ver.key.raw ==> w.key.lsn < ver.key.lsn
  }

  /** The CAS of `try_write`: on the viewed address, or, except for the root, on any later address
      of a page with the same epoch. */
  ghost predicate Write(s: State, s': State, v: View, ver: Version, new_: Addr) {
    var id := v.cursor.index.id;
    && v in s.views && v.addr in s.mem && TierOf(s.mem[v.addr].body) == Leaf && HasPage(s, id)
    && (s.table[id] == v.addr || (id != ROOT_ID && Top(s, id).epoch == v.cursor.index.epoch))
    && ver.key.raw == v.cursor.key && LsnGrows(s.written, ver)
    && Fresh(s, new_, s.table[id])
    && s' == s.(mem := s.mem[new_ := Page(v.cursor.index.epoch, Longer(Top(s, id).len), s.table[id], LeafData([ver]))],
                table := s.table[id := new_],
                written := s.written + {ver})
  }

  // ----- Splitting

  /** Where `into_split_iter` cuts a data page: the raw key of the middle item and its rank. */
  function SplitPoint(b: Body): Option<(RawKey, nat)> {
    match b
    case LeafData(items) =>
      if items == [] then None
      else
        var sep := items[|items| / 2].key.raw;
        var n := LowerBound(items, Key(sep, MAX_LSN));
        if n > 0 then Some((sep, n)) else None
    case InnerData(entries) =>
      if |entries| / 2 > 0 then Some((entries[|entries| / 2].key, |entries| / 2)) else None
    case SplitDelta(_, _, _) => None
  }

  function LeftHalf(b: Body, n: nat): Body {
    match b
    case LeafData(items) => LeafData(items[..if n <= |items| then n else |items|])
    case InnerData(entries) => InnerData(entries[..if n <= |entries| then n else |entries|])
    case SplitDelta(_, _, _) => b
  }

  function RightHalf(b: Body, n: nat): Body {
    match b
    case LeafData(items) => LeafData(items[if n <= |items| then n else |items|..])
    case InnerData(entries) => InnerData(entries[if n <= |entries| then n else |entries|..])
    case SplitDelta(_, _, _) => b
  }

  /** The CAS of `split_page_impl` by an operation whose view has the page's current epoch. */
  ghost predicate SplitPage(s: State, s': State, v: View, rightId: Id, rightAddr: Addr, new_: Addr) {
    var id := v.cursor.index.id;
    && v in s.views && id != ROOT_ID && HasPage(s, id)
    && Top(s, id).epoch == v.cursor.index.epoch
    && Top(s, id).next == 0
    && SplitPoint(Top(s, id).body).Some?
    && rightId !in s.table && rightId != NAN_ID
    && Fresh(s, rightAddr, 0) && Fresh(s, new_, s.table[id]) && new_ != rightAddr
    && var (sep, n) := SplitPoint(Top(s, id).body).value;
    && var delta := SplitDelta(TierOf(Top(s, id).body), sep, Index(rightId, 0));
    s' == s.(mem := s.mem[rightAddr := Page(0, 1, 0, RightHalf(Top(s, id).body, n))]
                         [new_ := Page(Top(s, id).epoch + 1, Longer(Top(s, id).len), s.table[id], delta)],
             table := s.table[rightId := rightAddr][id := new_])
  }

  /** The CAS of `split_root_impl`. */
  ghost predicate SplitRoot(s: State, s': State, leftId: Id, leftAddr: Addr, rightId: Id, rightAddr: Addr, new_: Addr) {
    && HasPage(s, ROOT_ID)
    && Top(s, ROOT_ID).next == 0
    && SplitPoint(Top(s, ROOT_ID).body).Some?
    && leftId !in s.table && rightId !in s.table && leftId != rightId && leftId != NAN_ID && rightId != NAN_ID
    && Fresh(s, leftAddr, 0) && Fresh(s, rightAddr, 0) && Fresh(s, new_, s.table[ROOT_ID])
    && leftAddr != rightAddr && new_ != leftAddr && new_ != rightAddr
    && var body := Top(s, ROOT_ID).body;
    && var (sep, n) := SplitPoint(body).value;
    && var root := InnerData([Entry(0.0, Index(leftId, 0)), Entry(sep, Index(rightId, 0))]);
    s' == s.(mem := s.mem[leftAddr := Page(0, 1, 0, LeftHalf(body, n))]
                         [rightAddr := Page(0, 1, 0, RightHalf(body, n))]
                         [new_ := Page(0, 1, 0, root)],
             table := s.table[leftId := leftAddr][rightId := rightAddr][ROOT_ID := new_])
  }

  /** The CAS of `reconcile_split_page`: the parent is where the descent saw it, and learns of the
      split that the stale view met. */
  ghost predicate Reconcile(s: State, s': State, w: View, new_: Addr) {
    && w in s.stale && w.addr in s.mem && s.mem[w.addr].body.SplitDelta?
    && w.cursor.parent.Some?
    && var p := w.cursor.parent.value;
    && p.addr in s.mem && HasPage(s, p.id) && s.table[p.id] == p.addr
    && Fresh(s, new_, p.addr)
    && var split := s.mem[w.addr].body;
    && var left := Index(w.cursor.index.id, s.mem[w.addr].epoch);
    && var delta := Delta(w.cursor.range.lo, left, split.splitKey, split.right, w.cursor.range.hi);
    s' == s.(mem := s.mem[new_ := Page(s.mem[p.addr].epoch, Longer(s.mem[p.addr].len), p.addr, InnerData(delta))],
             table := s.table[p.id := new_])
  }

  // ----- Consolidation

  /** The CAS of `consolidate_page_impl` on a leaf, with a safe LSN read some time before. */
  ghost predicate ConsolidateLeaf(s: State, s': State, id: Id, n: nat, safe: Lsn, items: seq<Version>, new_: Addr) {
    && HasPage(s, id) && Top(s, id).body.LeafData? && safe <= s.safe
    && var chain := Chain(s.mem, s.table[id]);
    && Mergeable(chain, n)
    && LeafConsolidated(Contents(chain[..n]), SplitLimit(chain[..n]), safe, items)
    && Fresh(s, new_, s.table[id])
    && var last := Skip(s.mem, s.table[id], n - 1);
    && last in s.mem
    && s' == s.(mem := s.mem[new_ := Page(Top(s, id).epoch, s.mem[last].len, s.mem[last].next, LeafData(items))],
                table := s.table[id := new_])
  }

  /** The CAS of `consolidate_page_impl` on an inner page: always the whole chain. */
  ghost predicate ConsolidateInner(s: State, s': State, id: Id, items: seq<Entry>, new_: Addr) {
    && HasPage(s, id) && Top(s, id).body.InnerData?
    && var chain := Chain(s.mem, s.table[id]);
    && InnerConsolidated(chain, items)
    && Fresh(s, new_, s.table[id])
    && var last := Skip(s.mem, s.table[id], |chain| - 1);
    && last in s.mem
    && s' == s.(mem := s.mem[new_ := Page(Top(s, id).epoch, s.mem[last].len, s.mem[last].next, InnerData(items))],
                table := s.table[id := new_])
  }

  ghost predicate AdvanceSafe(s: State, s': State, lsn: Lsn) {
    lsn >= s.safe && s' == s.(safe := lsn)
  }

  // ----- Runs

  datatype Step =
    | StartStep(key: RawKey)
    | VisitStep(cursor: Cursor)
    | WriteStep(view: View, version: Version, new_: Addr)
    | SplitPageStep(view: View, rightId: Id, rightAddr: Addr, new_: Addr)
    | SplitRootStep(leftId: Id, leftAddr: Addr, rightId: Id, rightAddr: Addr, new_: Addr)
    | ReconcileStep(view: View, new_: Addr)
    | ConsolidateLeafStep(id: Id, n: nat, safe: Lsn, items: seq<Version>, new_: Addr)
    | ConsolidateInnerStep(id: Id, entries: seq<Entry>, new_: Addr)
    | AdvanceSafeStep(lsn: Lsn)

  ghost predicate Next(s: State, s': State, step: Step) {
    match step
    case StartStep(key) => Start(s, s', key)
    case VisitStep(c) => Visit(s, s', c)
    case WriteStep(v, ver, n) => Write(s, s', v, ver, n)
    case SplitPageStep(v, r, ra, n) => SplitPage(s, s', v, r, ra, n)
    case SplitRootStep(l, la, r, ra, n) => SplitRoot(s, s', l, la, r, ra, n)
    case ReconcileStep(w, n) => Reconcile(s, s', w, n)
    case ConsolidateLeafStep(id, k, safe, items, n) => ConsolidateLeaf(s, s', id, k, safe, items, n)
    case ConsolidateInnerStep(id, items, n) => ConsolidateInner(s, s', id, items, n)
    case AdvanceSafeStep(lsn) => AdvanceSafe(s, s', lsn)
  }

  /** `init`: an empty leaf as the root. */
  ghost predicate Init(s: State) {
    exists addr: Addr ::
      && addr > 0
      && s == State(map[addr := Page(0, 1, 0, LeafData([]))], map[ROOT_ID := addr], 0, {}, {}, {}, {})
  }
}
