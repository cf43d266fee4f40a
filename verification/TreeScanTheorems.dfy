/**
 What a whole scan of the tree returns, under any interleaving with writes, splits, reconciliations
 and consolidations.

 Main results: the pages that the iterator returns show disjoint pieces of the key space in
 ascending order, and a finished scan covers every key once (`ScanCoversOnce`); what a page shows
 is the multi-version map at the moment the page was found (`TurnShows`); so the pairs of a whole
 scan are ascending and are exactly the visible ones (`ScanReadsTheMap`, `SnapshotScan`).
 */
module TreeScanTheorems {
  import opened Options
  import opened Data
  import opened Pages
  import opened LeafChain
  import opened InnerChain
  import opened Consolidation
  import opened TreeProtocol
  import opened TreeInvariant
  import opened TreeTheorems
  import opened TreeScan

  // ----- One leaf

  /** A pair that the page iterator returns at `lsn`: what `Scan` and `ScanFrom` return. */
  ghost predicate OnPage(page: PageRead, lsn: Lsn, raw: RawKey, blob: Blob) {
    && (page.from.Some? ==> page.from.value <= raw)
    && Below(raw, SplitLimit(page.chain)) && Reads(Contents(page.chain), raw, lsn, blob)
  }

  /** The page shows what the multi-version map has in the range, and nothing else. */
  ghost predicate Shows(page: PageRead, written: set<Version>, r: Range, lsn: Lsn) {
    forall raw: RawKey, blob: Blob {:trigger OnPage(page, lsn, raw, blob)} ::
      OnPage(page, lsn, raw, blob) <==> Contains(r, raw) && Reads(written, raw, lsn, blob)
  }

  /** A version found in a leaf lies in the leaf's range. */
  lemma FoundInRange(n: Node, raw: RawKey, lsn: Lsn)
    requires NodeOk(n) && n.level == 0 && Below(raw, SplitLimit(n.chain)) && ChainFind(n.chain, raw, lsn).Some?
    ensures Contains(n.rng, raw)
  {
    ChainReadIsSetRead(n.chain, raw, lsn);
    NewestIsNewest(Contents(n.chain), raw, lsn);
  }

  /** A leaf that passed the epoch test shows the map in the range its parent gave it. */
  lemma LeafShows(s: State, a: Aux, c: Cursor, from: Option<RawKey>, lsn: Lsn)
    requires Inv(s, a) && DataInv(s, a) && c in s.cursors && AtLeaf(s, c) && s.safe <= lsn
    requires from.Some? ==> from.value == c.key
    ensures var lo := if from.Some? then c.key else c.range.lo;
            Shows(PageRead(Chain(s.mem, s.table[c.index.id]), from), s.written, Range(lo, c.range.hi), lsn)
    ensures LeafOk(Chain(s.mem, s.table[c.index.id])) && Contains(c.range, c.key)
  {
    var id := c.index.id;
    var n := a.nodes[id];
    assert CursorOk(s, a, c);
    EpochTellsRange(s, a, c);
    TopTier(s, a, id);
    assert NodeOk(n) && AnswersLikeMap(s, a, id);
    var page := PageRead(n.chain, from);
    var r := Range(if from.Some? then c.key else c.range.lo, c.range.hi);
    forall raw: RawKey, blob: Blob
      ensures OnPage(page, lsn, raw, blob) <==> Contains(r, raw) && Reads(s.written, raw, lsn, blob)
    {
      ChainReadIsSetRead(n.chain, raw, lsn);
      ContentsUnique(n.chain);
      VisibleIs(Contents(n.chain), raw, lsn, blob);
      VisibleIs(s.written, raw, lsn, blob);
      if Below(raw, SplitLimit(n.chain)) && ChainFind(n.chain, raw, lsn).Some? {
        FoundInRange(n, raw, lsn);
      }
    }
  }

  /** What the page iterator of a returned page gives: the pairs on the page, ascending. */
  method ListPage(page: PageRead, lsn: Lsn) returns (list: seq<(RawKey, Blob)>)
    requires LeafOk(page.chain)
    ensures forall i, j :: 0 <= i < j < |list| ==> list[i].0 < list[j].0
    ensures forall raw: RawKey, blob: Blob :: (raw, blob) in list <==> OnPage(page, lsn, raw, blob)
  {
    if page.from.Some? {
      list := ScanFrom(page.chain, page.from.value, lsn);
    } else {
      list := Scan(page.chain, lsn);
    }
  }

  /** `get`, from the leaf that the descent found: in every state of every lossless run it returns the bytes of
      the newest put of the key at or below the LSN, and nothing when the newest version is a delete or there
      is none. */
  method Get(ghost states: seq<State>, ghost steps: seq<Step>, ghost n: nat, ghost c: Cursor, chain: seq<Body>,
             key: RawKey, lsn: Lsn) returns (value: Option<Blob>)
    requires IsRun(states, steps) && AllLossless(states, steps) && n < |states| && states[n].safe <= lsn
    requires c in states[n].cursors && AtLeaf(states[n], c) && c.key == key
    requires chain == Chain(states[n].mem, states[n].table[c.index.id])
    ensures forall b: Blob ::
              value == Some(b) <==>
                exists v: Version ::
                  && v in states[n].written && v.key.raw == key && v.key.lsn <= lsn && v.value == Put(b)
                  && forall u: Version :: u in states[n].written && u.key.raw == key && u.key.lsn <= lsn ==>
                       u.key.lsn <= v.key.lsn
  {
    GetReadsTheMap(states, steps, n, c, lsn);
    LeafIsOk(states, steps, n, c);
    value := FindValue(chain, key, lsn);
    forall b: Blob
      ensures value == Some(b) <==> Reads(states[n].written, key, lsn, b)
    {
    }
    ReadsMeans(states[n].written, key, lsn);
  }

  lemma ReadsMeans(W: set<Version>, key: RawKey, lsn: Lsn)
    ensures forall b: Blob ::
              Reads(W, key, lsn, b) <==>
                exists v: Version ::
                  && v in W && v.key.raw == key && v.key.lsn <= lsn && v.value == Put(b)
                  && forall u: Version :: u in W && u.key.raw == key && u.key.lsn <= lsn ==> u.key.lsn <= v.key.lsn
  {
    forall b: Blob, v: Version |
      && v in W && v.key.raw == key && v.key.lsn <= lsn && v.value == Put(b)
      && forall u: Version :: u in W && u.key.raw == key && u.key.lsn <= lsn ==> u.key.lsn <= v.key.lsn
      ensures Reads(W, key, lsn, b)
    {
      assert v == Version(Key(key, v.key.lsn), Put(b));
      assert IsNewest(W, key, lsn, Some(Version(Key(key, v.key.lsn), Put(b))));
    }
  }

  lemma LeafIsOk(states: seq<State>, steps: seq<Step>, n: nat, c: Cursor)
    requires IsRun(states, steps) && n < |states| && c in states[n].cursors && AtLeaf(states[n], c)
    ensures LeafOk(Chain(states[n].mem, states[n].table[c.index.id]))
  {
    var a := EveryStateHasInvariant(states, steps, n);
    TopTier(states[n], a, c.index.id);
    assert NodeOk(a.nodes[c.index.id]);
  }

  // ----- One turn

  /** The cursor behind a returned page. */
  ghost predicate Behind(s: State, it: Iter, it': Iter, out: Option<PageRead>, c: Cursor) {
    && AtLeaf(s, c) && out.Some? && out.value.chain == Chain(s.mem, s.table[c.index.id])
    && Frontier(it) == Some(c.key) && Frontier(it') == c.range.hi
    && (out.value.from.Some? ==> out.value.from.value == c.key)
    && (out.value.from.None? ==> c.range.lo == c.key)
  }

  lemma TakenBehind(s: State, lossless: bool, it: Iter, it': Iter, out: Option<PageRead>) returns (c: Cursor)
    requires it.Between? && it.rest != [] && IterOk(s, lossless, it) && TakeChild(s, it, it', out) && out.Some?
    ensures Behind(s, it, it', out, c) && Rides(s, lossless, c)
  {
    c := ChildAt(it.page.value, it.rest, 0, it.next);
    assert it.rest[0] == it.rest[0];
    assert ToLeaf(s, lossless, c);
  }

  lemma SoughtBehind(states: seq<State>, steps: seq<Step>, n: nat, target: RawKey, c: Cursor, parent: Option<View>,
                     rest: seq<Entry>, it': Iter, out: Option<PageRead>)
    requires IsRun(states, steps) && n < |states| && SeekTo(states[n], target, c, parent, rest, it', out)
    ensures Behind(states[n], Seeking(target), it', out, c) && Rides(states[n], false, c)
    ensures AllLossless(states, steps) ==> Rides(states[n], true, c)
  {
    var a := EveryStateHasInvariant(states, steps, n);
    assert CursorOk(states[n], a, c);
    Joins(states[n], a, false, c);
    if AllLossless(states, steps) {
      Joins(states[n], a, true, c);
    }
    if parent.Some? {
      RestToLeaves(states, steps, n, false, c, parent.value, rest);
    }
  }

  /** Every returned page was found through a cursor that fits the iterator before and after. */
  lemma TurnBehind(states: seq<State>, steps: seq<Step>, n: nat, lossless: bool, it: Iter, it': Iter,
                   out: Option<PageRead>) returns (c: Cursor)
    requires IsRun(states, steps) && n < |states| && (lossless ==> AllLossless(states, steps))
    requires IterOk(states[n], lossless, it) && Turn(states[n], it, it', out) && out.Some?
    ensures Behind(states[n], it, it', out, c) && Rides(states[n], lossless, c)
  {
    if it.Between? {
      c := TakenBehind(states[n], lossless, it, it', out);
    } else {
      var d, parent, rest :| SeekTo(states[n], it.target, d, parent, rest, it', out);
      SoughtBehind(states, steps, n, it.target, d, parent, rest, it', out);
      c := d;
    }
  }

  lemma RiderContains(s: State, lossless: bool, c: Cursor)
    requires Rides(s, lossless, c)
    ensures Contains(c.range, c.key)
  {
    var a :| Holds(With(s, c), lossless, a);
    assert CursorOk(With(s, c), a, c);
  }

  /** A turn that returns a page moves the frontier forward, and every other turn leaves it. */
  lemma TurnMoves(states: seq<State>, steps: seq<Step>, n: nat, it: Iter, it': Iter, out: Option<PageRead>)
    requires IsRun(states, steps) && n < |states| && IterOk(states[n], false, it) && Turn(states[n], it, it', out)
    ensures out == None ==> Frontier(it') == Frontier(it)
    ensures out.Some? ==> Frontier(it).Some? && Below(Frontier(it).value, Frontier(it'))
  {
    if out.Some? {
      var c := TurnBehind(states, steps, n, false, it, it', out);
      RiderContains(states[n], false, c);
    }
  }

  /** A returned page shows the map of that moment between the frontiers before and after, and the page
      can be merged. */
  lemma TurnShows(states: seq<State>, steps: seq<Step>, n: nat, it: Iter, it': Iter, out: Option<PageRead>, lsn: Lsn)
    requires IsRun(states, steps) && AllLossless(states, steps) && n < |states| && states[n].safe <= lsn
    requires IterOk(states[n], true, it) && Turn(states[n], it, it', out) && out.Some?
    ensures LeafOk(out.value.chain) && Frontier(it).Some?
    ensures Shows(out.value, states[n].written, Range(Frontier(it).value, Frontier(it')), lsn)
  {
    var c := TurnBehind(states, steps, n, true, it, it', out);
    RiderShows(states[n], it, it', out, c, lsn);
  }

  lemma RiderShows(s: State, it: Iter, it': Iter, out: Option<PageRead>, c: Cursor, lsn: Lsn)
    requires Behind(s, it, it', out, c) && Rides(s, true, c) && s.safe <= lsn
    ensures LeafOk(out.value.chain) && Shows(out.value, s.written, Range(c.key, c.range.hi), lsn)
  {
    var a :| Holds(With(s, c), true, a);
    assert AtLeaf(With(s, c), c);
    LeafShows(With(s, c), a, c, out.value.from, lsn);
    assert out.value == PageRead(Chain(s.mem, s.table[c.index.id]), out.value.from);
  }

  // ----- Whole scans

  /** The iterator before and after every turn, what the turns returned, and the tree states they met. */
  datatype TreeRead = TreeRead(its: seq<Iter>, outs: seq<Option<PageRead>>, times: seq<nat>)

  ghost predicate TurnAt(states: seq<State>, sc: TreeRead, k: nat)
    requires |sc.its| == |sc.outs| + 1 && |sc.times| == |sc.outs| && k < |sc.outs|
  {
    && sc.times[k] < |states| && (k > 0 ==> sc.times[k - 1] <= sc.times[k])
    && Turn(states[sc.times[k]], sc.its[k], sc.its[k + 1], sc.outs[k])
  }

  /** An iterator from its creation on; between two turns other operations make any number of steps. */
  ghost predicate IsScan(states: seq<State>, sc: TreeRead) {
    && |sc.its| == |sc.outs| + 1 && |sc.times| == |sc.outs| && sc.its[0] == START
    && forall k {:trigger TurnAt(states, sc, k)} :: 0 <= k < |sc.outs| ==> TurnAt(states, sc, k)
  }

  lemma {:induction false} ScanIterOk(states: seq<State>, steps: seq<Step>, lossless: bool, sc: TreeRead, k: nat)
    requires IsRun(states, steps) && (lossless ==> AllLossless(states, steps)) && IsScan(states, sc) && k < |sc.outs|
    ensures TurnAt(states, sc, k) && IterOk(states[sc.times[k]], lossless, sc.its[k])
  {
    assert TurnAt(states, sc, k);
    if k > 0 {
      ScanIterOk(states, steps, lossless, sc, k - 1);
      var m, n := sc.times[k - 1], sc.times[k];
      TurnKeeps(states, steps, m, lossless, sc.its[k - 1], sc.its[k], sc.outs[k - 1]);
      IterLater(states, steps, m, n, lossless, sc.its[k]);
    }
  }

  /** The frontiers before and after turn `k`, as a range. */
  function Piece(sc: TreeRead, k: nat): Range
    requires k + 1 < |sc.its|
  {
    Range(if Frontier(sc.its[k]).Some? then Frontier(sc.its[k]).value else 0.0, Frontier(sc.its[k + 1]))
  }

  /** Turn `k` returned the page that shows `raw`. */
  ghost predicate Covers(sc: TreeRead, k: nat, raw: RawKey) {
    && |sc.its| == |sc.outs| + 1 && k < |sc.outs| && sc.outs[k].Some?
    && Frontier(sc.its[k]).Some? && Contains(Piece(sc, k), raw)
  }

  ghost predicate Moves(sc: TreeRead, k: nat)
    requires k + 1 < |sc.its| && k < |sc.outs|
  {
    && (sc.outs[k] == None ==> Frontier(sc.its[k + 1]) == Frontier(sc.its[k]))
    && (sc.outs[k].Some? ==> Frontier(sc.its[k]).Some? && Below(Frontier(sc.its[k]).value, Frontier(sc.its[k + 1])))
  }

  lemma ScanMoves(states: seq<State>, steps: seq<Step>, sc: TreeRead, k: nat)
    requires IsRun(states, steps) && IsScan(states, sc) && k < |sc.outs|
    ensures Moves(sc, k)
  {
    ScanIterOk(states, steps, false, sc, k);
    TurnMoves(states, steps, sc.times[k], sc.its[k], sc.its[k + 1], sc.outs[k]);
  }

  predicate UpTo(a: Option<RawKey>, b: Option<RawKey>) {
    b.None? || (a.Some? && a.value <= b.value)
  }

  lemma {:induction false} FrontierGrows(states: seq<State>, steps: seq<Step>, sc: TreeRead, i: nat, j: nat)
    requires IsRun(states, steps) && IsScan(states, sc) && i <= j <= |sc.outs|
    ensures UpTo(Frontier(sc.its[i]), Frontier(sc.its[j]))
    decreases j - i
  {
    if i < j {
      ScanMoves(states, steps, sc, i);
      FrontierGrows(states, steps, sc, i + 1, j);
    }
  }

  /** A key is shown by one page at most: later pages start where earlier ones ended. */
  lemma PiecesAreDisjoint(states: seq<State>, steps: seq<Step>, sc: TreeRead, j: nat, k: nat, raw: RawKey)
    requires IsRun(states, steps) && IsScan(states, sc) && j < k && Covers(sc, j, raw)
    ensures !Covers(sc, k, raw)
  {
    if k < |sc.outs| {
      FrontierGrows(states, steps, sc, j + 1, k);
    }
  }

  /** Everything below the frontier has been shown. */
  lemma {:induction false} CoveredBelow(states: seq<State>, steps: seq<Step>, sc: TreeRead, n: nat,
                                        raw: RawKey) returns (k: nat)
    requires IsRun(states, steps) && IsScan(states, sc) && n <= |sc.outs| && Below(raw, Frontier(sc.its[n]))
    ensures k < n && Covers(sc, k, raw)
  {
    if n > 0 {
      ScanMoves(states, steps, sc, n - 1);
      if Below(raw, Frontier(sc.its[n - 1])) {
        k := CoveredBelow(states, steps, sc, n - 1, raw);
      } else {
        k := n - 1;
      }
    }
  }

  ghost predicate Complete(sc: TreeRead) {
    |sc.its| > 0 && sc.its[|sc.its| - 1] == Finished
  }

  /** The pages of a finished scan show every key exactly once. */
  lemma ScanCoversOnce(states: seq<State>, steps: seq<Step>, sc: TreeRead, raw: RawKey) returns (k: nat)
    requires IsRun(states, steps) && IsScan(states, sc) && Complete(sc)
    ensures Covers(sc, k, raw) && forall j: nat :: Covers(sc, j, raw) ==> j == k
  {
    k := CoveredBelow(states, steps, sc, |sc.outs|, raw);
    forall j: nat | Covers(sc, j, raw)
      ensures j == k
    {
      if j < k {
        PiecesAreDisjoint(states, steps, sc, j, k, raw);
      } else if k < j {
        PiecesAreDisjoint(states, steps, sc, k, j, raw);
      }
    }
  }

  // ----- The pairs of a scan

  type Pair = (RawKey, Blob)

  /** What the page iterators of the scan returned at `lsn`, page by page. */
  ghost predicate ListAt(sc: TreeRead, lists: seq<seq<Pair>>, lsn: Lsn, k: nat)
    requires k < |sc.outs| && k < |lists|
  {
    match sc.outs[k]
    case None => lists[k] == []
    case Some(page) =>
      && (forall i, j :: 0 <= i < j < |lists[k]| ==> lists[k][i].0 < lists[k][j].0)
      && (forall raw: RawKey, blob: Blob {:trigger OnPage(page, lsn, raw, blob)} :: (raw, blob) in lists[k] <==>
         OnPage(page, lsn, raw, blob))
  }

  ghost predicate Lists(states: seq<State>, sc: TreeRead, lists: seq<seq<Pair>>, lsn: Lsn) {
    && |lists| == |sc.outs|
    && (forall k {:trigger ListAt(sc, lists, lsn, k)} :: 0 <= k < |lists| ==> ListAt(sc, lists, lsn, k))
    && (forall k {:trigger sc.times[k]} :: 0 <= k < |sc.times| && sc.times[k] < |states| ==>
       states[sc.times[k]].safe <= lsn)
  }

  function Flat(lists: seq<seq<Pair>>): seq<Pair> {
    if lists == [] then [] else Flat(lists[..|lists| - 1]) + lists[|lists| - 1]
  }

  lemma {:induction false} InFlat(lists: seq<seq<Pair>>, x: Pair)
    ensures x in Flat(lists) <==> exists k :: 0 <= k < |lists| && x in lists[k]
  {
    if lists != [] {
      var n := |lists| - 1;
      InFlat(lists[..n], x);
      if k :| 0 <= k < n && x in lists[k] {
        assert lists[..n][k] == lists[k];
      }
    }
  }

  /** A page of the scan lists the visible pairs of its piece. */
  lemma ListShows(states: seq<State>, steps: seq<Step>, sc: TreeRead, lists: seq<seq<Pair>>, lsn: Lsn, k: nat,
                  raw: RawKey, blob: Blob)
    requires IsRun(states, steps) && AllLossless(states, steps) && IsScan(states, sc) &&
             Lists(states, sc, lists, lsn) && k < |lists|
    ensures TurnAt(states, sc, k)
    ensures (raw, blob) in lists[k] <==>
            Covers(sc, k, raw) && Reads(states[sc.times[k]].written, raw, lsn, blob)
  {
    ScanIterOk(states, steps, true, sc, k);
    assert ListAt(sc, lists, lsn, k);
    if sc.outs[k].Some? {
      TurnShows(states, steps, sc.times[k], sc.its[k], sc.its[k + 1], sc.outs[k], lsn);
      assert OnPage(sc.outs[k].value, lsn, raw, blob) <==>
             Contains(Piece(sc, k), raw) && Reads(states[sc.times[k]].written, raw, lsn, blob);
    }
  }

  ghost predicate AscendingBelow(pairs: seq<Pair>, hi: Option<RawKey>) {
    && (forall i, j :: 0 <= i < j < |pairs| ==> pairs[i].0 < pairs[j].0)
    && (forall i {:trigger pairs[i]} :: 0 <= i < |pairs| ==> Below(pairs[i].0, hi))
  }

  ghost predicate AllFrom(pairs: seq<Pair>, lo: Option<RawKey>) {
    forall i {:trigger pairs[i]} :: 0 <= i < |pairs| ==> NotBelow(pairs[i].0, lo)
  }

  predicate NotBelow(k: RawKey, lo: Option<RawKey>) {
    lo.Some? && lo.value <= k
  }

  lemma CoveredBetween(sc: TreeRead, k: nat, raw: RawKey)
    requires Covers(sc, k, raw)
    ensures NotBelow(raw, Frontier(sc.its[k])) && Below(raw, Frontier(sc.its[k + 1]))
  {
  }

  lemma AscendingJoin(a: seq<Pair>, b: seq<Pair>, mid: Option<RawKey>, hi: Option<RawKey>)
    requires AscendingBelow(a, mid) && AscendingBelow(b, hi) && UpTo(mid, hi)
    requires AllFrom(b, mid)
    ensures AscendingBelow(a + b, hi)
  {
  }

  lemma ListInPiece(states: seq<State>, steps: seq<Step>, sc: TreeRead, lists: seq<seq<Pair>>, lsn: Lsn, k: nat)
    requires IsRun(states, steps) && AllLossless(states, steps) && IsScan(states, sc) &&
             Lists(states, sc, lists, lsn) && k < |lists|
    ensures AscendingBelow(lists[k], Frontier(sc.its[k + 1])) && AllFrom(lists[k], Frontier(sc.its[k]))
  {
    var list := lists[k];
    assert ListAt(sc, lists, lsn, k);
    forall i {:trigger list[i]} | 0 <= i < |list|
      ensures NotBelow(list[i].0, Frontier(sc.its[k])) && Below(list[i].0, Frontier(sc.its[k + 1]))
    {
      assert (list[i].0, list[i].1) in list;
      ListShows(states, steps, sc, lists, lsn, k, list[i].0, list[i].1);
      CoveredBetween(sc, k, list[i].0);
    }
  }

  lemma {:induction false} FlatAscends(states: seq<State>, steps: seq<Step>, sc: TreeRead, lists: seq<seq<Pair>>,
                                       lsn: Lsn, n: nat)
    requires IsRun(states, steps) && AllLossless(states, steps) && IsScan(states, sc) &&
             Lists(states, sc, lists, lsn) && n <= |lists|
    ensures AscendingBelow(Flat(lists[..n]), Frontier(sc.its[n]))
  {
    if n > 0 {
      var k := n - 1;
      FlatAscends(states, steps, sc, lists, lsn, k);
      assert lists[..n][..k] == lists[..k];
      ListInPiece(states, steps, sc, lists, lsn, k);
      FrontierGrows(states, steps, sc, k, n);
      AscendingJoin(Flat(lists[..k]), lists[k], Frontier(sc.its[k]), Frontier(sc.its[n]));
    }
  }

  /** The pairs of a finished scan ascend without repetition, and every key comes out exactly as the map had
      it at the moment the page that covers it was found. */
  lemma ScanReadsTheMap(states: seq<State>, steps: seq<Step>, sc: TreeRead, lists: seq<seq<Pair>>, lsn: Lsn,
                        raw: RawKey) returns (k: nat)
    requires IsRun(states, steps) && AllLossless(states, steps) && IsScan(states, sc) && Complete(sc) &&
             Lists(states, sc, lists, lsn)
    ensures forall i, j :: 0 <= i < j < |Flat(lists)| ==> Flat(lists)[i].0 < Flat(lists)[j].0
    ensures k < |sc.outs| && sc.times[k] < |states|
    ensures forall blob: Blob ::
              (raw, blob) in Flat(lists) <==>
                exists l: Lsn :: IsNewest(states[sc.times[k]].written, raw, lsn, Some(Version(Key(raw, l), Put(blob))))
  {
    assert lists[..|lists|] == lists;
    FlatAscends(states, steps, sc, lists, lsn, |lists|);
    k := ScanCoversOnce(states, steps, sc, raw);
    assert TurnAt(states, sc, k);
    forall blob: Blob
      ensures (raw, blob) in Flat(lists) <==> Reads(states[sc.times[k]].written, raw, lsn, blob)
    {
      InFlat(lists, (raw, blob));
      ListShows(states, steps, sc, lists, lsn, k, raw, blob);
      if j :| 0 <= j < |lists| && (raw, blob) in lists[j] {
        ListShows(states, steps, sc, lists, lsn, j, raw, blob);
      }
    }
  }

  // ----- Snapshots

  ghost predicate SameUpTo(S: set<Version>, W: set<Version>, lsn: Lsn) {
    forall v: Version {:trigger v in S} {:trigger v in W} :: v.key.lsn <= lsn ==> (v in S <==> v in W)
  }

  lemma SameReads(S: set<Version>, W: set<Version>, raw: RawKey, lsn: Lsn, blob: Blob)
    requires SameUpTo(S, W, lsn)
    ensures Reads(S, raw, lsn, blob) <==> Reads(W, raw, lsn, blob)
  {
    forall r: Option<Version>
      ensures IsNewest(S, raw, lsn, r) <==> IsNewest(W, raw, lsn, r)
    {
    }
  }

  /** From state `m` on, every write has an LSN above `lsn`. */
  ghost predicate NewerWrites(steps: seq<Step>, m: nat, lsn: Lsn) {
    forall i {:trigger steps[i]} :: m <= i < |steps| && steps[i].WriteStep? ==> steps[i].version.key.lsn > lsn
  }

  lemma WriteAbove(s: State, s': State, step: Step, lsn: Lsn)
    requires Next(s, s', step) && (step.WriteStep? ==> step.version.key.lsn > lsn)
    ensures SameUpTo(s.written, s'.written, lsn)
  {
  }

  lemma {:induction false} SnapshotStays(states: seq<State>, steps: seq<Step>, m: nat, n: nat, lsn: Lsn)
    requires IsRun(states, steps) && m <= n < |states| && NewerWrites(steps, m, lsn)
    ensures SameUpTo(states[m].written, states[n].written, lsn)
    decreases n - m
  {
    if m < n {
      WriteAbove(states[m], states[m + 1], steps[m], lsn);
      SnapshotStays(states, steps, m + 1, n, lsn);
    }
  }

  lemma {:induction false} TimesGrow(states: seq<State>, sc: TreeRead, k: nat)
    requires IsScan(states, sc) && k < |sc.outs|
    ensures TurnAt(states, sc, k) && sc.times[0] <= sc.times[k]
  {
    assert TurnAt(states, sc, k);
    if k > 0 {
      TimesGrow(states, sc, k - 1);
    }
  }

  /** A finished scan at an LSN below all writes since its first turn returns exactly the pairs that were
      visible at its first turn, each once and in order, whatever the tree did meanwhile. */
  lemma SnapshotScan(states: seq<State>, steps: seq<Step>, sc: TreeRead, lists: seq<seq<Pair>>, lsn: Lsn, raw: RawKey,
                     blob: Blob)
    requires IsRun(states, steps) && AllLossless(states, steps) && IsScan(states, sc) && Complete(sc) &&
             Lists(states, sc, lists, lsn)
    requires |sc.times| > 0 && sc.times[0] < |states| && NewerWrites(steps, sc.times[0], lsn)
    ensures forall i, j :: 0 <= i < j < |Flat(lists)| ==> Flat(lists)[i].0 < Flat(lists)[j].0
    ensures (raw, blob) in Flat(lists) <==>
            exists l: Lsn :: IsNewest(states[sc.times[0]].written, raw, lsn, Some(Version(Key(raw, l), Put(blob))))
  {
    var k := ScanReadsTheMap(states, steps, sc, lists, lsn, raw);
    TimesGrow(states, sc, k);
    SnapshotStays(states, steps, sc.times[0], sc.times[k], lsn);
    SameReads(states[sc.times[0]].written, states[sc.times[k]].written, raw, lsn, blob);
  }
}
