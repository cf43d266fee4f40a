/**
 One shard of the page cache (photondb/src/page_store/cache/lru.rs, cache/mod.rs), with the
 low-priority ratio at 0 as the page store configures it: an entry that leaves the high run passes
 through the low run to the bottom run.
 */
module LruCache {
  import opened Options
  import opened Ring
  import opened Sequences
  import opened LruRuns

  /** How an entry goes back to the cache (`CacheToken`). */
  datatype Returning = AsRecent | AsOld | Discard

  /** The sequence without the first occurrence of `p`. */
  function Without(s: seq<Ptr>, p: Ptr): seq<Ptr> {
    if s == [] then [] else if s[0] == p then s[1..] else [s[0]] + Without(s[1..], p)
  }

  lemma RestDistinct(s: seq<Ptr>)
    requires Distinct(s) && s != []
    ensures Distinct(s[1..])
  {
    var rest := s[1..];
    forall i: int, j: int
      ensures Differ(rest, i, j)
    {
      assert Differ(s, i + 1, j + 1);
    }
  }

  lemma {:induction false} WithoutIsRemoved(s: seq<Ptr>, k: nat)
    requires Distinct(s) && k < |s|
    ensures Without(s, s[k]) == Removed(s, k)
  {
    if k > 0 {
      RestDistinct(s);
      WithoutIsRemoved(s[1..], k - 1);
      assert Differ(s, 0, k);
      assert [s[0]] + Removed(s[1..], k - 1) == Removed(s, k);
    }
  }

  lemma {:induction false} WithoutAbsent(s: seq<Ptr>, p: Ptr)
    requires p !in s
    ensures Without(s, p) == s
  {
    if s != [] {
      WithoutAbsent(s[1..], p);
    }
  }

  function Members(s: seq<Ptr>): set<Ptr> {
    set p | p in s
  }

  lemma TailDistinct(ring: seq<Ptr>)
    requires Distinct([HEAD] + ring)
    ensures Distinct(ring) && HEAD !in ring
  {
    var c := [HEAD] + ring;
    Spread(c);
    forall i, j | 0 <= i < j < |ring|
      ensures ring[i] != ring[j]
    {
      assert c[i + 1] != c[j + 1];
    }
    forall i | 0 <= i < |ring|
      ensures ring[i] != HEAD
    {
      assert c[0] != c[i + 1];
    }
  }

  // ----- The handle table

  ghost predicate KeyEntry(handles: map<Ptr, Handle>, inTable: set<Ptr>, pages: map<PageKey, Ptr>, key: PageKey) {
    key in pages ==> pages[key] in inTable && pages[key] in handles && handles[pages[key]].key == key
  }

  /** What holds of every handle: the table maps its key to it while its flag says so, it rests in
      the ring exactly when it is in the table without references, and otherwise somebody holds it. */
  ghost predicate HandleEntry(handles: map<Ptr, Handle>, refs: map<Ptr, nat>, inTable: set<Ptr>,
                              pages: map<PageKey, Ptr>,
                              unused: Ptr, resting: set<Ptr>, p: Ptr)
  {
    && (p in handles <==> p in refs)
    && (p in inTable ==> p in handles)
    && (p in handles ==>
          && p != HEAD && p < unused
          && (p in inTable ==> !handles[p].detached && handles[p].key in pages && pages[handles[p].key] == p)
          && (handles[p].detached ==> refs[p] == 0)
          && (!handles[p].detached && p !in inTable ==> refs[p] > 0))
    && (p in resting <==> p in handles && p in inTable && refs[p] == 0)
  }

  datatype Table = Table(handles: map<Ptr, Handle>, refs: map<Ptr, nat>, inTable: set<Ptr>, pages: map<PageKey, Ptr>,
                         unused: Ptr)

  ghost predicate TableOk(handles: map<Ptr, Handle>, refs: map<Ptr, nat>, inTable: set<Ptr>, pages: map<PageKey, Ptr>,
                          unused: Ptr, resting: set<Ptr>)
  {
    TableHolds(Table(handles, refs, inTable, pages, unused), resting)
  }

  ghost predicate TableHolds(t: Table, resting: set<Ptr>) {
    match t
    case Table(handles, refs, inTable, pages, unused) =>
    && unused > HEAD
    && (forall key {:trigger KeyEntry(handles, inTable, pages, key)} :: KeyEntry(handles, inTable, pages, key))
    && (forall p {:trigger HandleEntry(handles, refs, inTable, pages, unused, resting, p)} ::
          HandleEntry(handles, refs, inTable, pages, unused, resting, p))
  }

  /** The handle `e` leaves the table, the ring and the memory. */
  lemma TableDrop(handles: map<Ptr, Handle>, refs: map<Ptr, nat>, inTable: set<Ptr>, pages: map<PageKey, Ptr>,
                  unused: Ptr, resting: set<Ptr>, e: Ptr)
    requires TableOk(handles, refs, inTable, pages, unused, resting) && e in inTable && e in handles
    ensures TableOk(handles - {e}, refs - {e}, inTable - {e}, pages - {handles[e].key}, unused, resting - {e})
  {
    var key := handles[e].key;
    assert HandleEntry(handles, refs, inTable, pages, unused, resting, e);
    forall x
      ensures KeyEntry(handles - {e}, inTable - {e}, pages - {key}, x)
    {
      assert KeyEntry(handles, inTable, pages, x);
    }
    forall p
      ensures HandleEntry(handles - {e}, refs - {e}, inTable - {e}, pages - {key}, unused, resting - {e}, p)
    {
      assert HandleEntry(handles, refs, inTable, pages, unused, resting, p);
    }
  }

  /** The handle `e` leaves the table while it is still referenced. */
  lemma TableForget(handles: map<Ptr, Handle>, refs: map<Ptr, nat>, inTable: set<Ptr>, pages: map<PageKey, Ptr>,
                    unused: Ptr, resting: set<Ptr>, e: Ptr)
    requires TableOk(handles, refs, inTable, pages, unused, resting) && e in inTable && e in handles
    requires e in refs && refs[e] > 0
    ensures TableOk(handles, refs, inTable - {e}, pages - {handles[e].key}, unused, resting)
  {
    var key := handles[e].key;
    assert HandleEntry(handles, refs, inTable, pages, unused, resting, e);
    forall x
      ensures KeyEntry(handles, inTable - {e}, pages - {key}, x)
    {
      assert KeyEntry(handles, inTable, pages, x);
    }
    forall p
      ensures HandleEntry(handles, refs, inTable - {e}, pages - {key}, unused, resting, p)
    {
      assert HandleEntry(handles, refs, inTable, pages, unused, resting, p);
    }
  }

  /** A new handle, in the table under a key nobody has, with one reference. */
  lemma TableNew(handles: map<Ptr, Handle>, refs: map<Ptr, nat>, inTable: set<Ptr>, pages: map<PageKey, Ptr>,
                 unused: Ptr, resting: set<Ptr>, h: Handle)
    requires TableOk(handles, refs, inTable, pages, unused, resting) && !h.detached && h.key !in pages
    ensures TableOk(handles[unused := h], refs[unused := 1], inTable + {unused}, pages[h.key := unused], unused + 1,
            resting)
  {
    TableFresh(handles, refs, inTable, pages, unused, resting);
    var handles', refs', inTable', pages' := handles[unused := h], refs[unused := 1], inTable + {unused},
      pages[h.key := unused];
    var unused' := unused + 1;
    forall x
      ensures KeyEntry(handles', inTable', pages', x)
    {
      assert KeyEntry(handles, inTable, pages, x);
    }
    forall p
      ensures HandleEntry(handles', refs', inTable', pages', unused', resting, p)
    {
      assert HandleEntry(handles, refs, inTable, pages, unused, resting, p);
    }
  }

  /** A new handle outside the table. */
  lemma TableDetached(handles: map<Ptr, Handle>, refs: map<Ptr, nat>, inTable: set<Ptr>, pages: map<PageKey, Ptr>,
                      unused: Ptr, resting: set<Ptr>, h: Handle)
    requires TableOk(handles, refs, inTable, pages, unused, resting) && h.detached
    ensures TableOk(handles[unused := h], refs[unused := 0], inTable, pages, unused + 1, resting)
  {
    TableFresh(handles, refs, inTable, pages, unused, resting);
    var handles', refs' := handles[unused := h], refs[unused := 0];
    var unused' := unused + 1;
    forall x
      ensures KeyEntry(handles', inTable, pages, x)
    {
      assert KeyEntry(handles, inTable, pages, x);
    }
    forall p
      ensures HandleEntry(handles', refs', inTable, pages, unused', resting, p)
    {
      assert HandleEntry(handles, refs, inTable, pages, unused, resting, p);
    }
  }

  lemma TableFresh(handles: map<Ptr, Handle>, refs: map<Ptr, nat>, inTable: set<Ptr>, pages: map<PageKey, Ptr>,
                   unused: Ptr, resting: set<Ptr>)
    requires TableOk(handles, refs, inTable, pages, unused, resting)
    ensures unused !in handles && unused !in resting && unused !in inTable
  {
    assert HandleEntry(handles, refs, inTable, pages, unused, resting, unused);
  }

  /** The reference count of a handle that is or stays referenced changes, and the ring follows. */
  lemma TableRefs(handles: map<Ptr, Handle>, refs: map<Ptr, nat>, inTable: set<Ptr>, pages: map<PageKey, Ptr>,
                  unused: Ptr, resting: set<Ptr>, e: Ptr, n: nat)
    requires TableOk(handles, refs, inTable, pages, unused, resting)
    requires e in handles && !handles[e].detached && e in refs && (n > 0 || e in inTable)
    ensures n > 0 ==> TableOk(handles, refs[e := n], inTable, pages, unused, resting - {e})
    ensures n > 0 && refs[e] > 0 ==> resting - {e} == resting
    ensures n == 0 ==> TableOk(handles, refs[e := n], inTable, pages, unused, resting + {e})
  {
    var refs', resting' := refs[e := n], if n > 0 then resting - {e} else resting + {e};
    forall p
      ensures HandleEntry(handles, refs', inTable, pages, unused, resting', p)
    {
      assert HandleEntry(handles, refs, inTable, pages, unused, resting, p);
    }
    assert HandleEntry(handles, refs, inTable, pages, unused, resting, e);
  }

  /** A handle outside the table loses its last reference and is freed. */
  lemma TableFree(handles: map<Ptr, Handle>, refs: map<Ptr, nat>, inTable: set<Ptr>, pages: map<PageKey, Ptr>,
                  unused: Ptr, resting: set<Ptr>, e: Ptr)
    requires TableOk(handles, refs, inTable, pages, unused, resting) && e !in inTable
    ensures TableOk(handles - {e}, refs - {e}, inTable, pages, unused, resting)
    ensures e !in resting
  {
    forall x
      ensures KeyEntry(handles - {e}, inTable, pages, x)
    {
      assert KeyEntry(handles, inTable, pages, x);
    }
    forall p
      ensures HandleEntry(handles - {e}, refs - {e}, inTable, pages, unused, resting, p)
    {
      assert HandleEntry(handles, refs, inTable, pages, unused, resting, p);
    }
    assert HandleEntry(handles, refs, inTable, pages, unused, resting, e);
  }

  // ----- The usage

  /** `owned` lists the handles whose charge counts: all but the detached ones. */
  ghost predicate Owned(handles: map<Ptr, Handle>, owned: seq<Ptr>, usage: nat) {
    && Distinct(owned)
    && (forall p {:trigger Counts(handles, owned, p)} :: Counts(handles, owned, p))
    && usage == Sum(handles, owned)
  }

  ghost predicate Counts(handles: map<Ptr, Handle>, owned: seq<Ptr>, p: Ptr) {
    p in owned <==> p in handles && !handles[p].detached
  }

  lemma SpreadOwned(handles: map<Ptr, Handle>, owned: seq<Ptr>, usage: nat)
    requires Owned(handles, owned, usage)
    ensures forall p :: p in owned <==> p in handles && !handles[p].detached
  {
    forall p
      ensures p in owned <==> p in handles && !handles[p].detached
    {
      assert Counts(handles, owned, p);
    }
  }

  lemma OwnedNew(handles: map<Ptr, Handle>, owned: seq<Ptr>, usage: nat, e: Ptr, h: Handle)
    requires Owned(handles, owned, usage) && e !in handles
    ensures h.detached ==> Owned(handles[e := h], owned, usage)
    ensures !h.detached ==> Owned(handles[e := h], owned + [e], usage + h.charge)
  {
    var handles' := handles[e := h];
    Spread(owned);
    SpreadOwned(handles, owned, usage);
    SumSame(handles, handles', owned);
    SumEnds(handles', owned, e);
    assert forall p :: p in owned + [e] <==> p in owned || p == e;
  }

  lemma OwnedFree(handles: map<Ptr, Handle>, owned: seq<Ptr>, usage: nat, e: Ptr) returns (owned': seq<Ptr>)
    requires Owned(handles, owned, usage) && e in handles && !handles[e].detached
    ensures usage >= handles[e].charge && Owned(handles - {e}, owned', usage - handles[e].charge)
  {
    SpreadOwned(handles, owned, usage);
    var i := PositionOf(owned, e);
    owned' := Removed(owned, i);
    SumRemoved(handles, owned, i);
    RemovedDistinct(owned, i);
    SumSame(handles, handles - {e}, owned');
  }

  lemma OwnedDetached(handles: map<Ptr, Handle>, owned: seq<Ptr>, usage: nat, e: Ptr)
    requires Owned(handles, owned, usage) && e in handles && handles[e].detached
    ensures Owned(handles - {e}, owned, usage)
  {
    SpreadOwned(handles, owned, usage);
    SumSame(handles, handles - {e}, owned);
  }

  // ----- The shard

  /** The bottom, low and high run of the ring, each from its oldest entry. */
  datatype Runs = Runs(bot: seq<Ptr>, mid: seq<Ptr>, top: seq<Ptr>)

  /** The ring after `e` joins the newest or the oldest end of the high or the bottom run. */
  function Rested(r: Runs, e: Ptr, high: bool, recent: bool): seq<Ptr> {
    if high
    then if recent then r.bot + r.mid + r.top + [e] else r.bot + r.mid + [e] + r.top
    else if recent then r.bot + [e] + r.mid + r.top else [e] + r.bot + r.mid + r.top
  }

  lemma RestedMembers(r: Runs, e: Ptr, high: bool, recent: bool)
    ensures Members(Rested(r, e, high, recent)) == Members(Whole(r.bot, r.mid, r.top)) + {e}
  {
  }

  lemma NotOldest(next: map<Ptr, Ptr>, prev: map<Ptr, Ptr>, order: seq<Ptr>, h: Ptr)
    requires Links(next, prev, [HEAD] + order) && |order| > 1 && order[|order| - 1] == h
    ensures order[0] != h
  {
    var c := [HEAD] + order;
    assert Differ(c, 1, |order|);
  }

  /** `e` joins the ring between the entries before `i` and the others. */
  ghost predicate JoinsAt(order: seq<Ptr>, e: Ptr, i: nat, order': seq<Ptr>) {
    i <= |order| && order' == order[..i] + [e] + order[i..]
  }

  /** Exactly the entries from `i` on have the flag `High`. */
  ghost predicate HighFrom(order: seq<Ptr>, flags: map<Ptr, Priority>, i: nat) {
    forall k {:trigger order[k]} :: 0 <= k < |order| ==> order[k] in flags && (flags[order[k]] == High <==> i <= k)
  }

  /** Exactly the entries before `i` have the flag `Bottom`. */
  ghost predicate BottomBefore(order: seq<Ptr>, flags: map<Ptr, Priority>, i: nat) {
    forall k {:trigger order[k]} :: 0 <= k < |order| ==> order[k] in flags && (flags[order[k]] == Bottom <==> k < i)
  }

  lemma RunBounds(handles: map<Ptr, Handle>, flags: map<Ptr, Priority>, r: Runs)
    requires AllFlags(handles, flags, r.bot, r.mid, r.top)
    ensures HighFrom(Whole(r.bot, r.mid, r.top), flags, |r.bot + r.mid|)
    ensures BottomBefore(Whole(r.bot, r.mid, r.top), flags, |r.bot|)
  {
    SpreadFlags(handles, flags, r.bot, Bottom);
    SpreadFlags(handles, flags, r.mid, Low);
    SpreadFlags(handles, flags, r.top, High);
  }

  lemma RestedJoins(r: Runs, e: Ptr)
    ensures var order := Whole(r.bot, r.mid, r.top);
            && Rested(r, e, true, true) == order + [e] && Rested(r, e, false, false) == [e] + order
            && JoinsAt(order, e, |r.bot + r.mid|, Rested(r, e, true, false))
            && JoinsAt(order, e, |r.bot|, Rested(r, e, false, true))
  {
    var order := Whole(r.bot, r.mid, r.top);
    assert order[..|r.bot + r.mid|] == r.bot + r.mid && order[|r.bot + r.mid|..] == r.top;
    assert order[..|r.bot|] == r.bot && order[|r.bot|..] == r.mid + r.top;
  }

  /** Where an entry comes to rest.  A high one goes behind all others as a recent one, and before all high ones
      as an old one; any other one goes behind all bottom ones as a recent one, and before all as an old one. */
  ghost predicate AtRest(order: seq<Ptr>, flags: map<Ptr, Priority>, e: Ptr, high: bool, recent: bool,
                         order': seq<Ptr>) {
    match (high, recent)
    case (true, true) => order' == order + [e]
    case (true, false) => exists i :: JoinsAt(order, e, i, order') && HighFrom(order, flags, i)
    case (false, true) => exists i :: JoinsAt(order, e, i, order') && BottomBefore(order, flags, i)
    case (false, false) => order' == [e] + order
  }

  lemma RestedIsAtRest(handles: map<Ptr, Handle>, flags: map<Ptr, Priority>, r: Runs, e: Ptr, high: bool, recent: bool)
    requires AllFlags(handles, flags, r.bot, r.mid, r.top)
    ensures AtRest(Whole(r.bot, r.mid, r.top), flags, e, high, recent, Rested(r, e, high, recent))
  {
    RunBounds(handles, flags, r);
    RestedJoins(r, e);
  }

  class LruShard {
    const capacity: nat
    const highOn: bool
    const highCapacity: nat

    var handles: map<Ptr, Handle>
    var refs: map<Ptr, nat>
    var flags: map<Ptr, Priority>
    var inTable: set<Ptr>
    var next: map<Ptr, Ptr>
    var prev: map<Ptr, Ptr>
    var fnext: map<Ptr, Ptr>
    var fprev: map<Ptr, Ptr>
    var unused: Ptr

    var pages: map<PageKey, Ptr>
    var files: map<FileId, Ptr>
    var low: Ptr
    var bottom: Ptr
    var usage: nat
    var lruUsage: nat
    var lowUsage: nat
    var highUsage: nat

    ghost var r: Runs
    ghost var rings: map<FileId, seq<Ptr>>
    ghost var owned: seq<Ptr>

    /** The ring from its oldest entry. */
    ghost function Order(): seq<Ptr>
      reads this
    {
      Whole(r.bot, r.mid, r.top)
    }

    ghost function Resting(): set<Ptr>
      reads this
    {
      Members(Order())
    }

    /** The links form one ring in the order of the runs, the cursors end the lower two runs, the
        flags name the runs and the counters are the sums of their charges. */
    ghost predicate RingOk()
      reads this
    {
      && Links(next, prev, [HEAD] + Order())
      && Cut(r.bot, r.mid, bottom, low)
      && AllFlags(handles, flags, r.bot, r.mid, r.top)
      && Counted(handles, r.bot, r.mid, r.top, lruUsage, lowUsage, highUsage)
    }

    ghost predicate Valid()
      reads this
    {
      && RingOk()
      && FilesOk(handles, Resting(), fnext, fprev, files, rings)
      && TableOk(handles, refs, inTable, pages, unused, Resting())
      && Owned(handles, owned, usage)
    }

    constructor (capacity: nat, highOn: bool, highCapacity: nat)
      ensures Valid() && Order() == [] && pages == map[] && usage == 0
      ensures this.capacity == capacity && this.highOn == highOn && this.highCapacity == highCapacity
    {
      this.capacity, this.highOn, this.highCapacity := capacity, highOn, highCapacity;
      handles, refs, flags, inTable := map[], map[], map[], {};
      next, prev, fnext, fprev := map[HEAD := HEAD], map[HEAD := HEAD], map[], map[];
      unused := HEAD + 1;
      pages, files, low, bottom := map[], map[], HEAD, HEAD;
      usage, lruUsage, lowUsage, highUsage := 0, 0, 0, 0;
      r, rings, owned := Runs([], [], []), map[], [];
      new;
      EmptyRing();
    }

    /** The low cursor moves over the oldest high entry. */
    method DemoteHigh()
      requires RingOk() && r.top != []
      modifies this`flags, this`low, this`lowUsage, this`highUsage, this`r
      ensures RingOk() && Order() == old(Order()) && r.top == old(r.top)[1..]
      ensures old(r.top)[0] in handles && highUsage + handles[old(r.top)[0]].charge == old(highUsage)
    {
      RunNext(next, prev, r.bot, r.mid, r.top);
      HighToLow(handles, r.bot, r.mid, r.top, bottom, low, lruUsage, lowUsage, highUsage);
      Demote(handles, flags, r.bot, r.mid, r.top);
      var e := next[low];
      low := e;
      flags := flags[e := Low];
      highUsage := highUsage - handles[e].charge;
      lowUsage := lowUsage + handles[e].charge;
      r := r.(mid := r.mid + [e], top := r.top[1..]);
    }

    /** The bottom cursor moves over the oldest low entry. */
    method DemoteLow()
      requires RingOk() && r.mid != []
      modifies this`flags, this`bottom, this`lowUsage, this`r
      ensures RingOk() && Order() == old(Order()) && r.mid == old(r.mid)[1..] && r.top == old(r.top)
    {
      RunNext(next, prev, r.bot, r.mid, r.top);
      LowToBottom(handles, r.bot, r.mid, r.top, bottom, low, lruUsage, lowUsage, highUsage);
      Sink(handles, flags, r.bot, r.mid, r.top);
      var e := next[bottom];
      bottom := e;
      flags := flags[e := Bottom];
      lowUsage := lowUsage - handles[e].charge;
      r := r.(bot := r.bot + [e], mid := r.mid[1..]);
    }

    /** The last of the first `m` entries of the high run would not fit any more. */
    ghost predicate NoFurther(top: seq<Ptr>, m: nat)
      reads this
    {
      0 < m <= |top| ==> top[m - 1] in handles && highUsage + handles[top[m - 1]].charge > highCapacity
    }

    /** Demotes the oldest high entries, no more than it takes, until the high run fits, and then every charged
        low entry. */
    method MaintainPrioritySize()
      requires RingOk()
      modifies this`flags, this`low, this`bottom, this`lowUsage, this`highUsage, this`r
      ensures RingOk() && Order() == old(Order())
      ensures highUsage <= highCapacity && lowUsage == 0
      ensures exists m :: 0 <= m <= |old(r.top)| && r.top == old(r.top)[m..] && NoFurther(old(r.top), m)
    {
      ghost var m := 0;
      while highUsage > highCapacity
        invariant RingOk() && Order() == old(Order())
        invariant m <= |old(r.top)| && r.top == old(r.top)[m..] && NoFurther(old(r.top), m)
        decreases |r.top|
      {
        SpreadCounts(handles, r.bot, r.mid, r.top, lruUsage, lowUsage, highUsage);
        DemoteHigh();
        m := m + 1;
      }
      while lowUsage > 0
        invariant RingOk() && Order() == old(Order())
        invariant highUsage <= highCapacity && r.top == old(r.top)[m..] && NoFurther(old(r.top), m)
        decreases |r.mid|
      {
        SpreadCounts(handles, r.bot, r.mid, r.top, lruUsage, lowUsage, highUsage);
        DemoteLow();
      }
    }

    /** The four pointer writes that put `e` between two neighbours. */
    method LinkBetween(a: Ptr, b: Ptr, e: Ptr)
      modifies this`next, this`prev
      ensures next == old(next)[e := b][a := e] && prev == old(prev)[e := a][b := e]
    {
      next := next[e := b];
      prev := prev[e := a];
      next := next[a := e];
      prev := prev[b := e];
    }

    /** Links `e` as the newest or the oldest node of the high run. */
    method PutInHigh(e: Ptr, recent: bool)
      requires Links(next, prev, [HEAD] + Order()) && low == Cursor(r.bot + r.mid) && e != HEAD && e !in Order()
      modifies this`next, this`prev, this`r
      ensures Links(next, prev, [HEAD] + Order()) && r == old(r).(top := if recent then old(r.top) + [e]
              else [e] + old(r.top))
    {
      RingNeighbours(next, prev, r.bot, r.mid, r.top);
      if recent {
        HighPutLast(next, prev, r.bot, r.mid, r.top, e);
        LinkBetween(prev[HEAD], HEAD, e);
        r := r.(top := r.top + [e]);
      } else {
        HighPutFirst(next, prev, r.bot, r.mid, r.top, e);
        LinkBetween(low, next[low], e);
        r := r.(top := [e] + r.top);
      }
    }

    /** Links `e` as the newest or the oldest node of the bottom run. */
    method PutInBottom(e: Ptr, recent: bool)
      requires Links(next, prev, [HEAD] + Order()) && bottom == Cursor(r.bot) && e != HEAD && e !in Order()
      modifies this`next, this`prev, this`r
      ensures Links(next, prev, [HEAD] + Order()) && r == old(r).(bot := if recent then old(r.bot) + [e]
              else [e] + old(r.bot))
    {
      RingNeighbours(next, prev, r.bot, r.mid, r.top);
      if recent {
        BottomPutLast(next, prev, r.bot, r.mid, r.top, e);
        LinkBetween(bottom, next[bottom], e);
        r := r.(bot := r.bot + [e]);
      } else {
        BottomPutFirst(next, prev, r.bot, r.mid, r.top, e);
        LinkBetween(HEAD, next[HEAD], e);
        r := r.(bot := [e] + r.bot);
      }
    }

    method LinkHigh(e: Ptr, recent: bool)
      requires RingOk() && e in handles && e != HEAD && e !in Order()
      modifies this`next, this`prev, this`flags, this`lruUsage, this`highUsage, this`r
      ensures RingOk() && r == old(r).(top := if recent then old(r.top) + [e] else [e] + old(r.top))
    {
      ghost var top0 := r.top;
      PutInHigh(e, recent);
      HighPut(handles, flags, r.bot, r.mid, top0, lruUsage, lowUsage, highUsage, e, recent, r.top);
      flags := flags[e := High];
      highUsage := highUsage + handles[e].charge;
      lruUsage := lruUsage + handles[e].charge;
    }

    method LinkBottom(e: Ptr, recent: bool)
      requires RingOk() && e in handles && e != HEAD && e !in Order()
      modifies this`next, this`prev, this`flags, this`low, this`bottom, this`lruUsage, this`r
      ensures RingOk() && r == old(r).(bot := if recent then old(r.bot) + [e] else [e] + old(r.bot))
    {
      ghost var bot0, bottom0, low0 := r.bot, bottom, low;
      PrefixDistinct(r.bot + r.mid, r.top);
      PutInBottom(e, recent);
      BottomPut(handles, flags, bot0, r.mid, r.top, lruUsage, lowUsage, highUsage, e, recent, r.bot);
      flags := flags[e := Bottom];
      if recent || bottom == HEAD {
        if bottom == low {
          low := e;
        }
        bottom := e;
      }
      lruUsage := lruUsage + handles[e].charge;
      CutPut(bot0, r.mid, bottom0, low0, e, recent, r.bot, bottom, low);
    }

    /** Puts `e` where its priority says, and demotes what no longer fits. */
    method LinkLru(e: Ptr, recent: bool)
      requires RingOk() && e in handles && e != HEAD && e !in Order()
      modifies this`next, this`prev, this`flags, this`low, this`bottom, this`lruUsage, this`lowUsage, this`highUsage,
               this`r
      ensures RingOk()
      ensures Order() == Rested(old(r), e, highOn && handles[e].pri == High, recent)
      ensures highOn && handles[e].pri == High && recent ==> Order() == old(Order()) + [e]
      ensures highOn && handles[e].pri == High && !recent ==>
                exists i :: JoinsAt(old(Order()), e, i, Order()) && HighFrom(old(Order()), old(flags), i)
      ensures !(highOn && handles[e].pri == High) && recent ==>
                exists i :: JoinsAt(old(Order()), e, i, Order()) && BottomBefore(old(Order()), old(flags), i)
      ensures !(highOn && handles[e].pri == High) && !recent ==> Order() == [e] + old(Order())
      ensures highOn && handles[e].pri == High ==> highUsage <= highCapacity && lowUsage == 0
    {
      RestedIsAtRest(handles, flags, r, e, highOn && handles[e].pri == High, recent);
      WholeTop(r.bot, r.mid, r.top, e);
      WholeBottom(r.bot, r.mid, r.top, e);
      if highOn && handles[e].pri == High {
        LinkHigh(e, recent);
        MaintainPrioritySize();
      } else {
        LinkBottom(e, recent);
      }
    }

    /** The pointer writes that take `e` out; a cursor on it steps back. */
    method UnlinkNode(e: Ptr, ghost to: Place)
      requires Links(next, prev, [HEAD] + Order()) && e in Order() && e in prev
      requires Whole(to.bot, to.mid, to.top) == Without(Order(), e)
      requires Cut(to.bot, to.mid, if bottom == e then prev[e] else bottom, if low == e then prev[e] else low)
      modifies this`next, this`prev, this`low, this`bottom, this`r
      ensures r == Runs(to.bot, to.mid, to.top)
      ensures Links(next, prev, [HEAD] + Order()) && Cut(r.bot, r.mid, bottom, low)
    {
      NodeOut(next, prev, Order(), e);
      var p, n := prev[e], next[e];
      low := if low == e then p else low;
      bottom := if bottom == e then p else bottom;
      prev := prev[n := p];
      next := next[p := n];
      prev := prev - {e};
      next := next - {e};
      r := Runs(to.bot, to.mid, to.top);
    }

    method Uncharge(charge: nat, flag: Priority)
      requires charge <= lruUsage && (flag == High ==> charge <= highUsage) && (flag == Low ==> charge <= lowUsage)
      modifies this`lruUsage, this`lowUsage, this`highUsage
      ensures lruUsage == old(lruUsage) - charge
      ensures lowUsage == old(lowUsage) - (if flag == Low then charge else 0)
      ensures highUsage == old(highUsage) - (if flag == High then charge else 0)
    {
      lruUsage := lruUsage - charge;
      match flag {
        case High => highUsage := highUsage - charge;
        case Low => lowUsage := lowUsage - charge;
        case Bottom =>
      }
    }

    /** Takes `e` out of the ring; a cursor on it steps back. */
    method UnlinkLru(e: Ptr)
      requires RingOk() && e in Order()
      modifies this`next, this`prev, this`low, this`bottom, this`lruUsage, this`lowUsage, this`highUsage,
               this`r
      ensures RingOk() && Order() == Without(old(Order()), e)
    {
      ghost var to := TakeOut(handles, flags, next, prev, r.bot, r.mid, r.top, bottom, low, lruUsage, lowUsage,
        highUsage, e);
      UnlinkNode(e, to);
      Uncharge(handles[e].charge, flags[e]);
    }

    method LinkFile(e: Ptr, ghost members: set<Ptr>)
      requires e in handles && e !in members && FilesOk(handles, members, fnext, fprev, files, rings)
      modifies this`fnext, this`fprev, this`files, this`rings
      ensures FilesOk(handles, members + {e}, fnext, fprev, files, rings)
    {
      var id := handles[e].key.file;
      if id in files {
        var head := files[id];
        FileHead(handles, members, fnext, fprev, files, rings, id);
        ghost var fnext0, fprev0 := fnext, fprev;
        var tail := fprev[head];
        fnext := fnext[e := head];
        fprev := fprev[e := tail];
        fnext := fnext[tail := e];
        fprev := fprev[head := e];
        rings := FileLinked(handles, members, fnext0, fprev0, fnext, fprev, files, rings, e);
      } else {
        FileStarted(handles, members, fnext, fprev, files, rings, e);
        files := files[id := e];
        rings := rings[id := [e]];
      }
    }

    method UnlinkFile(e: Ptr, ghost members: set<Ptr>)
      requires e in handles && e in members && FilesOk(handles, members, fnext, fprev, files, rings)
      modifies this`fnext, this`fprev, this`files, this`rings
      ensures FilesOk(handles, members - {e}, fnext, fprev, files, rings)
    {
      FilePosition(handles, members, fnext, fprev, files, rings, e);
      var id := handles[e].key.file;
      var n, p := fnext[e], fprev[e];
      ghost var fnext0, fprev0 := fnext, fprev;
      fprev := fprev[n := p];
      fnext := fnext[p := n];
      fprev := fprev[e := e];
      fnext := fnext[e := e];
      if n == e {
        FileEnded(handles, members, fnext0, fprev0, fnext, fprev, files, rings, e);
        files := files - {id};
      } else {
        rings := FileUnlinked(handles, members, fnext0, fprev0, fnext, fprev, files, rings, e);
        files := files[id := n];
      }
    }

    /** Gives the charge of a handle outside the ring back and frees it. */
    method ClearHandle(e: Ptr)
      requires RingOk() && FilesOk(handles, Resting(), fnext, fprev, files, rings) && Owned(handles, owned, usage)
      requires e in handles && !handles[e].detached && e !in Order()
      modifies this`handles, this`refs, this`flags, this`fnext, this`fprev, this`usage, this`owned
      ensures RingOk() && FilesOk(handles, Resting(), fnext, fprev, files, rings) && Owned(handles, owned, usage)
      ensures handles == old(handles) - {e} && refs == old(refs) - {e} && usage == old(usage) - old(handles)[e].charge
    {
      Refund(e);
      Free(e);
    }

    method Refund(e: Ptr)
      requires Owned(handles, owned, usage) && e in handles && !handles[e].detached
      modifies this`usage, this`owned
      ensures Owned(handles - {e}, owned, usage) && usage == old(usage) - handles[e].charge
    {
      ghost var owned' := OwnedFree(handles, owned, usage, e);
      usage := usage - handles[e].charge;
      owned := owned';
    }

    /** The memory of a handle outside the ring is gone. */
    method Free(e: Ptr)
      requires RingOk() && FilesOk(handles, Resting(), fnext, fprev, files, rings) && e in handles && e !in Order()
      modifies this`handles, this`refs, this`flags, this`fnext, this`fprev
      ensures RingOk() && FilesOk(handles, Resting(), fnext, fprev, files, rings)
      ensures handles == old(handles) - {e} && refs == old(refs) - {e}
    {
      RunsWithout(handles, flags, r.bot, r.mid, r.top, lruUsage, lowUsage, highUsage, e);
      FilesWithout(handles, Resting(), fnext, fprev, files, rings, e);
      handles := handles - {e};
      refs := refs - {e};
      flags := flags - {e};
      fnext := fnext - {e};
      fprev := fprev - {e};
    }

    /** Takes a resting handle out of both rings and frees it. */
    method DropIdle(e: Ptr)
      requires RingOk() && FilesOk(handles, Resting(), fnext, fprev, files, rings) && Owned(handles, owned, usage)
      requires e in Order() && e in handles && !handles[e].detached
      modifies this`handles, this`refs, this`flags, this`next, this`prev, this`fnext, this`fprev, this`files, this`low,
        this`bottom,
               this`usage, this`lruUsage, this`lowUsage, this`highUsage, this`r, this`rings, this`owned
      ensures RingOk() && FilesOk(handles, Resting(), fnext, fprev, files, rings) && Owned(handles, owned, usage)
      ensures handles == old(handles) - {e} && refs == old(refs) - {e} && usage == old(usage) - old(handles)[e].charge
      ensures Order() == Without(old(Order()), e) && Resting() == old(Resting()) - {e}
    {
      Wake(e);
      ClearHandle(e);
    }

    /** Takes a handle of the table out of it; an idle one is freed, a referenced one lives on. */
    method Erase(key: PageKey)
      requires Valid()
      modifies this
      ensures Valid() && pages == old(pages) - {key} && unused == old(unused)
      ensures key !in old(pages) ==>
              handles == old(handles) && refs == old(refs) && usage == old(usage) && Order() == old(Order())
      ensures key in old(pages) && old(pages)[key] in old(Resting()) ==>
                var e := old(pages)[key];
                && e in old(handles) && handles == old(handles) - {e} && refs == old(refs) - {e}
                && usage == old(usage) - old(handles)[e].charge && Order() == Without(old(Order()), e)
      ensures key in old(pages) && old(pages)[key] !in old(Resting()) ==>
                handles == old(handles) && refs == old(refs) && usage == old(usage) && Order() == old(Order())
    {
      if key in pages {
        var e := pages[key];
        EntryOf(handles, refs, inTable, pages, unused, Resting(), key);
        if refs[e] == 0 {
          EraseIdle(e);
        } else {
          TableForget(handles, refs, inTable, pages, unused, Resting(), e);
          inTable := inTable - {e};
          pages := pages - {key};
        }
      }
    }

    method EraseIdle(e: Ptr)
      requires Valid() && e in Resting() && e in handles && e in inTable && !handles[e].detached
      modifies this`handles, this`refs, this`flags, this`next, this`prev, this`fnext, this`fprev, this`files, this`low,
        this`bottom,
               this`usage, this`lruUsage, this`lowUsage, this`highUsage, this`r, this`rings, this`owned,
               this`inTable, this`pages
      ensures Valid() && pages == old(pages) - {old(handles)[e].key} && inTable == old(inTable) - {e}
      ensures handles == old(handles) - {e} && refs == old(refs) - {e} && usage == old(usage) - old(handles)[e].charge
      ensures Order() == Without(old(Order()), e) && Resting() == old(Resting()) - {e}
    {
      TableDrop(handles, refs, inTable, pages, unused, Resting(), e);
      inTable := inTable - {e};
      pages := pages - {handles[e].key};
      DropIdle(e);
    }

    /** A hit takes the handle out of the ring and references it. */
    method Lookup(key: PageKey) returns (hit: Option<Ptr>)
      requires Valid()
      modifies this`refs, this`next, this`prev, this`fnext, this`fprev, this`files, this`low, this`bottom,
               this`lruUsage, this`lowUsage, this`highUsage, this`r, this`rings
      ensures Valid()
      ensures key !in pages ==> hit == None && refs == old(refs) && Order() == old(Order())
      ensures key in pages ==>
                && hit == Some(pages[key]) && pages[key] in old(refs) &&
                   refs == old(refs)[pages[key] := old(refs)[pages[key]] + 1]
                && Order() == (if old(refs)[pages[key]] == 0 then Without(old(Order()), pages[key]) else old(Order()))
    {
      if key in pages {
        EntryOf(handles, refs, inTable, pages, unused, Resting(), key);
        Reference(pages[key]);
        hit := Some(pages[key]);
      } else {
        hit := None;
      }
    }

    method Reference(e: Ptr)
      requires Valid() && e in handles && !handles[e].detached && e in refs && (e in Resting() <==> refs[e] == 0)
      modifies this`refs, this`next, this`prev, this`fnext, this`fprev, this`files, this`low, this`bottom,
               this`lruUsage, this`lowUsage, this`highUsage, this`r, this`rings
      ensures Valid() && refs == old(refs)[e := old(refs)[e] + 1]
      ensures Order() == if old(refs)[e] == 0 then Without(old(Order()), e) else old(Order())
    {
      TableRefs(handles, refs, inTable, pages, unused, Resting(), e, refs[e] + 1);
      if refs[e] == 0 {
        Wake(e);
      }
      refs := refs[e := refs[e] + 1];
    }

    method Wake(e: Ptr)
      requires RingOk() && FilesOk(handles, Resting(), fnext, fprev, files, rings) && e in Order() && e in handles
      modifies this`next, this`prev, this`fnext, this`fprev, this`files, this`low, this`bottom,
               this`lruUsage, this`lowUsage, this`highUsage, this`r, this`rings
      ensures RingOk() && FilesOk(handles, Resting(), fnext, fprev, files, rings)
      ensures Order() == Without(old(Order()), e) && Resting() == old(Resting()) - {e}
    {
      ghost var resting := Resting();
      TailDistinct(Order());
      WithoutMembers(Order(), e);
      UnlinkLru(e);
      assert Resting() == resting - {e};
      UnlinkFile(e, resting);
    }

    /** Evicts the oldest entry of the ring. */
    method EvictOldest()
      requires Valid() && Order() != []
      modifies this`handles, this`refs, this`flags, this`next, this`prev, this`fnext, this`fprev, this`files, this`low,
        this`bottom,
               this`usage, this`lruUsage, this`lowUsage, this`highUsage, this`r, this`rings, this`owned,
               this`inTable, this`pages
      ensures Valid() && Order() == old(Order())[1..]
      ensures var e := old(Order())[0];
              && e in old(handles) && handles == old(handles) - {e} && refs == old(refs) - {e}
              && pages == old(pages) - {old(handles)[e].key} && usage == old(usage) - old(handles)[e].charge
    {
      OldestIs(next, prev, Order());
      var e := next[HEAD];
      RestingEntry(handles, refs, inTable, pages, unused, Resting(), e);
      EraseIdle(e);
    }

    /** Makes room for `charge`, oldest entries first; only refuses a cold refill of a full cache. */
    method EvictLru(charge: nat, cold: bool) returns (ok: bool, ghost n: nat)
      requires Valid()
      modifies this`handles, this`refs, this`flags, this`next, this`prev, this`fnext, this`fprev, this`files, this`low,
        this`bottom,
               this`usage, this`lruUsage, this`lowUsage, this`highUsage, this`r, this`rings, this`owned,
               this`inTable, this`pages
      ensures Valid() && n <= |old(Order())| && Order() == old(Order())[n..]
      ensures ok <==> !(cold && old(usage) + charge > capacity)
      ensures ok ==> usage + charge <= capacity || Order() == []
      ensures !ok ==> n == 0 && usage == old(usage) && Order() == old(Order()) && pages == old(pages)
      ensures Evicted(old(handles), handles, old(refs), refs, old(pages), pages, old(Order())[..n])
      ensures n > 0 ==> var last := old(Order())[n - 1];
              last in old(handles) && usage + old(handles)[last].charge + charge > capacity
    {
      if cold && usage + charge > capacity {
        EvictedNone(handles, refs, pages, Order());
        return false, 0;
      }
      n := EvictUntil(charge);
      ok := true;
    }

    /** The loop of `EvictLru`. */
    method EvictUntil(charge: nat) returns (ghost n: nat)
      requires Valid()
      modifies this`handles, this`refs, this`flags, this`next, this`prev, this`fnext, this`fprev, this`files, this`low,
        this`bottom,
               this`usage, this`lruUsage, this`lowUsage, this`highUsage, this`r, this`rings, this`owned,
               this`inTable, this`pages
      ensures Valid() && n <= |old(Order())| && Order() == old(Order())[n..]
      ensures usage + charge <= capacity || Order() == []
      ensures Evicted(old(handles), handles, old(refs), refs, old(pages), pages, old(Order())[..n])
      ensures n > 0 ==> var last := old(Order())[n - 1];
              last in old(handles) && usage + old(handles)[last].charge + charge > capacity
    {
      n := 0;
      EvictedNone(handles, refs, pages, Order());
      var empty := IsEmpty();
      while usage + charge > capacity && !empty
        invariant Valid() && n <= |old(Order())| && Order() == old(Order())[n..]
        invariant empty <==> Order() == []
        invariant Evicted(old(handles), handles, old(refs), refs, old(pages), pages, old(Order())[..n])
        invariant n > 0 ==> var last := old(Order())[n - 1];
                  last in old(handles) && usage + old(handles)[last].charge + charge > capacity
        decreases |Order()|
      {
        OneEvicted(old(handles), handles, old(refs), refs, old(pages), pages, inTable, unused, Order(), old(Order()),
          n);
        EvictOldest();
        empty := IsEmpty();
        n := n + 1;
      }
    }

    method IsEmpty() returns (empty: bool)
      requires Links(next, prev, [HEAD] + Order())
      ensures empty <==> Order() == []
    {
      OldestIs(next, prev, Order());
      empty := next[HEAD] == HEAD;
    }

    /** A new handle in memory, linked to itself and outside the ring. */
    method Allocate(p: Ptr, h: Handle, count: nat)
      requires RingOk() && FilesOk(handles, Resting(), fnext, fprev, files, rings) && p !in handles && p !in Resting()
      modifies this`handles, this`refs, this`flags, this`fnext, this`fprev
      ensures RingOk() && FilesOk(handles, Resting(), fnext, fprev, files, rings)
      ensures handles == old(handles)[p := h] && refs == old(refs)[p := count]
    {
      RunsWith(handles, flags, r.bot, r.mid, r.top, lruUsage, lowUsage, highUsage, p, h);
      FilesNew(handles, Resting(), fnext, fprev, files, rings, p, h);
      handles := handles[p := h];
      refs := refs[p := count];
      flags := flags[p := Bottom];
      fnext := fnext[p := p];
      fprev := fprev[p := p];
    }

    method Charge(p: Ptr, h: Handle)
      requires Owned(handles, owned, usage) && p !in handles && !h.detached
      modifies this`usage, this`owned
      ensures Owned(handles[p := h], owned, usage) && usage == old(usage) + h.charge
    {
      OwnedNew(handles, owned, usage, p, h);
      usage := usage + h.charge;
      owned := owned + [p];
    }

    method Enter(h: Handle) returns (p: Ptr)
      requires TableOk(handles, refs, inTable, pages, unused, Resting()) && h.key !in pages && !h.detached
      modifies this`inTable, this`pages, this`unused
      ensures p == old(unused) && p !in handles && p !in Resting() && pages == old(pages)[h.key := p]
      ensures TableOk(handles[p := h], refs[p := 1], inTable, pages, unused, Resting())
    {
      p := unused;
      TableFresh(handles, refs, inTable, pages, unused, Resting());
      TableNew(handles, refs, inTable, pages, unused, Resting(), h);
      inTable := inTable + {p};
      pages := pages[h.key := p];
      unused := unused + 1;
    }

    /** A new entry for a key that has none, with one reference. */
    method AddEntry(key: PageKey, charge: nat, pri: Priority) returns (p: Ptr)
      requires Valid() && key !in pages
      modifies this`handles, this`refs, this`flags, this`fnext, this`fprev, this`usage, this`owned, this`inTable,
        this`pages, this`unused
      ensures Valid() && p == old(unused)
      ensures handles == old(handles)[p := Handle(key, charge, pri, false)] && refs == old(refs)[p := 1]
      ensures pages == old(pages)[key := p] && usage == old(usage) + charge
    {
      var h := Handle(key, charge, pri, false);
      p := Enter(h);
      Store(p, h);
    }

    method Store(p: Ptr, h: Handle)
      requires RingOk() && FilesOk(handles, Resting(), fnext, fprev, files, rings) && Owned(handles, owned, usage)
      requires p !in handles && p !in Resting() && !h.detached
      modifies this`handles, this`refs, this`flags, this`fnext, this`fprev, this`usage, this`owned
      ensures RingOk() && FilesOk(handles, Resting(), fnext, fprev, files, rings) && Owned(handles, owned, usage)
      ensures handles == old(handles)[p := h] && refs == old(refs)[p := 1] && usage == old(usage) + h.charge
    {
      Charge(p, h);
      Allocate(p, h, 1);
    }

    method AddDetached(key: PageKey, charge: nat, pri: Priority) returns (h: Ptr)
      requires Valid()
      modifies this`handles, this`refs, this`flags, this`fnext, this`fprev, this`unused
      ensures Valid() && h == old(unused)
      ensures handles == old(handles)[h := Handle(key, charge, pri, true)] && refs == old(refs)[h := 0]
    {
      TableFresh(handles, refs, inTable, pages, unused, Resting());
      TableDetached(handles, refs, inTable, pages, unused, Resting(), Handle(key, charge, pri, true));
      OwnedNew(handles, owned, usage, unused, Handle(key, charge, pri, true));
      Allocate(unused, Handle(key, charge, pri, true), 0);
      h := unused;
      unused := unused + 1;
    }

    /** Makes room and enters a page; the entry it replaces is freed or, when referenced, left to its
        holders.  A cold refill of a full cache gets a handle outside the table instead. */
    method Insert(key: PageKey, charge: nat, pri: Priority, cold: bool) returns (h: Ptr, ghost n: nat)
      requires Valid()
      modifies this
      ensures Valid() && h == old(unused) && h in handles && h in refs && n <= |old(Order())|
      ensures handles[h] == Handle(key, charge, pri, cold && old(usage) + charge > capacity)
      ensures handles[h].detached ==>
              n == 0 && refs[h] == 0 && pages == old(pages) && Order() == old(Order()) && usage == old(usage)
      ensures !handles[h].detached ==>
                && refs[h] == 1 && key in pages && pages[key] == h
                && Order() == (if key in old(pages) then Without(old(Order())[n..], old(pages)[key])
                   else old(Order())[n..])
                && (forall k {:trigger PageKept(old(pages), pages, old(Order())[..n], k)} :: k != key ==>
                   PageKept(old(pages), pages, old(Order())[..n], k))
                && (usage <= capacity || Order() == [])
    {
      ghost var pages0, handles0, refs0, order := pages, handles, refs, Order();
      TailDistinct(order);
      var ok;
      ok, n := EvictLru(charge, cold);
      EvictedKey(handles0, handles, refs0, refs, pages0, pages, order, n, key);
      if !ok {
        h := AddDetached(key, charge, pri);
        return;
      }
      ghost var pages1, handles1, refs1 := pages, handles, refs;
      h := Replace(key, charge, pri);
      OthersKept(handles0, handles1, refs0, refs1, pages0, pages1, order[..n], key, h);
    }

    /** Enters a page; the entry it replaces is freed or, when referenced, left to its holders. */
    method Replace(key: PageKey, charge: nat, pri: Priority) returns (h: Ptr)
      requires Valid()
      modifies this
      ensures Valid() && h == old(unused) && h in handles && h in refs
      ensures handles[h] == Handle(key, charge, pri, false) && refs[h] == 1 && pages == old(pages)[key := h]
      ensures usage <= old(usage) + charge
      ensures Order() == if key in old(pages) then Without(old(Order()), old(pages)[key]) else old(Order())
    {
      if key in pages {
        EntryOf(handles, refs, inTable, pages, unused, Resting(), key);
        if pages[key] !in Order() {
          WithoutAbsent(Order(), pages[key]);
        }
      }
      Erase(key);
      h := AddEntry(key, charge, pri);
    }

    /** Gives a reference back.  The last one puts an entry of the table to rest in the ring when the
        cache is not over its capacity and the caller does not discard it, and frees it otherwise. */
    method Release(h: Ptr, how: Returning)
      requires Valid() && h in handles && h in refs && (handles[h].detached || refs[h] > 0)
      modifies this
      ensures Valid() && unused == old(unused)
      ensures old(handles)[h].detached ==>
                handles == old(handles) - {h} && refs == old(refs) - {h} && pages == old(pages) &&
                  usage == old(usage) && Order() == old(Order())
      ensures !old(handles)[h].detached && old(refs)[h] > 1 ==>
                handles == old(handles) && refs == old(refs)[h := old(refs)[h] - 1] && pages == old(pages) &&
                  usage == old(usage) && Order() == old(Order())
      ensures !old(handles)[h].detached && old(refs)[h] == 1 ==>
                if h in old(inTable) && old(usage) <= capacity && how != Discard then
                  && handles == old(handles) && refs == old(refs)[h := 0] && pages == old(pages) && usage == old(usage)
                  && (highOn && handles[h].pri == High && how == AsRecent ==> Order() == old(Order()) + [h])
                  && (highOn && handles[h].pri == High && how == AsOld ==>
                        exists i :: JoinsAt(old(Order()), h, i, Order()) && HighFrom(old(Order()), old(flags), i))
                  && (!(highOn && handles[h].pri == High) && how == AsRecent ==>
                        exists i :: JoinsAt(old(Order()), h, i, Order()) && BottomBefore(old(Order()), old(flags), i))
                  && (!(highOn && handles[h].pri == High) && how == AsOld ==> Order() == [h] + old(Order()))
                else
                  && handles == old(handles) - {h} && refs == old(refs) - {h} &&
                     usage == old(usage) - old(handles)[h].charge
                  && pages == (if h in old(inTable) then old(pages) - {old(handles)[h].key} else old(pages)) &&
                     Order() == old(Order())
    {
      EntryOfHandle(handles, refs, inTable, pages, unused, Resting(), h);
      if handles[h].detached {
        FreeDetached(h);
      } else if refs[h] > 1 {
        Unref(h);
      } else {
        LastReference(h, how);
      }
    }

    method LastReference(h: Ptr, how: Returning)
      requires Valid() && h in handles && !handles[h].detached && h in refs && refs[h] == 1 && h !in Resting() &&
               h != HEAD
      modifies this
      ensures Valid() && unused == old(unused)
      ensures if h in old(inTable) && old(usage) <= capacity && how != Discard then
                && handles == old(handles) && refs == old(refs)[h := 0] && pages == old(pages) && usage == old(usage)
                && (highOn && handles[h].pri == High && how == AsRecent ==> Order() == old(Order()) + [h])
                && (highOn && handles[h].pri == High && how == AsOld ==>
                      exists i :: JoinsAt(old(Order()), h, i, Order()) && HighFrom(old(Order()), old(flags), i))
                && (!(highOn && handles[h].pri == High) && how == AsRecent ==>
                      exists i :: JoinsAt(old(Order()), h, i, Order()) && BottomBefore(old(Order()), old(flags), i))
                && (!(highOn && handles[h].pri == High) && how == AsOld ==> Order() == [h] + old(Order()))
              else
                && handles == old(handles) - {h} && refs == old(refs) - {h}
                && usage == old(usage) - old(handles)[h].charge
                && pages == (if h in old(inTable) then old(pages) - {old(handles)[h].key} else old(pages))
                && Order() == old(Order())
    {
      EntryOfHandle(handles, refs, inTable, pages, unused, Resting(), h);
      if h in inTable && usage <= capacity && how != Discard {
        RestAs(h, how);
      } else {
        DropLast(h);
      }
    }

    /** The place where the last reference leaves an entry of the table. */
    method RestAs(h: Ptr, how: Returning)
      requires Valid() && h in handles && !handles[h].detached && h in refs && h in inTable && h !in Resting()
      requires h != HEAD && how != Discard
      modifies this`refs, this`flags, this`next, this`prev, this`fnext, this`fprev, this`files, this`low, this`bottom,
               this`lruUsage, this`lowUsage, this`highUsage, this`r, this`rings
      ensures Valid() && refs == old(refs)[h := 0]
      ensures highOn && handles[h].pri == High && how == AsRecent ==> Order() == old(Order()) + [h]
      ensures highOn && handles[h].pri == High && how == AsOld ==>
                exists i :: JoinsAt(old(Order()), h, i, Order()) && HighFrom(old(Order()), old(flags), i)
      ensures !(highOn && handles[h].pri == High) && how == AsRecent ==>
                exists i :: JoinsAt(old(Order()), h, i, Order()) && BottomBefore(old(Order()), old(flags), i)
      ensures !(highOn && handles[h].pri == High) && how == AsOld ==> Order() == [h] + old(Order())
    {
      RestedIsAtRest(handles, flags, r, h, highOn && handles[h].pri == High, how == AsRecent);
      Rest(h, how == AsRecent);
    }

    /** A high page that was just used outlives every entry that rests already: `k` evictions later these are
        `k` fewer, oldest first, and the page is still the last one to go. */
    method RecentOutlives(h: Ptr, k: nat)
      requires Valid() && h in handles && !handles[h].detached && h in refs && refs[h] == 1 && h in inTable
      requires usage <= capacity && highOn && handles[h].pri == High && k <= |Order()|
      modifies this
      ensures Valid() && Order() == old(Order())[k..] + [h] && h in handles && handles[h] == old(handles)[h]
    {
      Release(h, AsRecent);
      ghost var order := Order();
      ghost var page := handles[h];
      for n := 0 to k
        invariant Valid() && Order() == order[n..] && n <= k && h in handles && handles[h] == page
      {
        NotOldest(next, prev, Order(), h);
        EvictOldest();
      }
      assert order[k..] == old(Order())[k..] + [h];
    }

    method Unref(h: Ptr)
      requires Valid() && h in handles && !handles[h].detached && h in refs && refs[h] > 1
      modifies this`refs
      ensures Valid() && refs == old(refs)[h := old(refs)[h] - 1]
    {
      TableRefs(handles, refs, inTable, pages, unused, Resting(), h, refs[h] - 1);
      refs := refs[h := refs[h] - 1];
    }

    method FreeDetached(h: Ptr)
      requires Valid() && h in handles && handles[h].detached && h !in inTable
      modifies this`handles, this`refs, this`flags, this`fnext, this`fprev
      ensures Valid() && handles == old(handles) - {h} && refs == old(refs) - {h}
    {
      TableFree(handles, refs, inTable, pages, unused, Resting(), h);
      OwnedDetached(handles, owned, usage, h);
      Free(h);
    }

    /** The last reference of an entry of the table goes, and the entry rests in the ring. */
    method Rest(h: Ptr, recent: bool)
      requires Valid() && h in handles && !handles[h].detached && h in refs && h in inTable && h !in Resting() &&
               h != HEAD
      modifies this`refs, this`flags, this`next, this`prev, this`fnext, this`fprev, this`files, this`low, this`bottom,
               this`lruUsage, this`lowUsage, this`highUsage, this`r, this`rings
      ensures Valid() && refs == old(refs)[h := 0]
      ensures Order() == Rested(old(r), h, highOn && handles[h].pri == High, recent)
    {
      TableRefs(handles, refs, inTable, pages, unused, Resting(), h, 0);
      refs := refs[h := 0];
      LinkBoth(h, recent);
    }

    method LinkBoth(h: Ptr, recent: bool)
      requires RingOk() && FilesOk(handles, Resting(), fnext, fprev, files, rings) && h in handles && h !in Resting() &&
               h != HEAD
      modifies this`flags, this`next, this`prev, this`fnext, this`fprev, this`files, this`low, this`bottom,
               this`lruUsage, this`lowUsage, this`highUsage, this`r, this`rings
      ensures RingOk() && FilesOk(handles, Resting(), fnext, fprev, files, rings)
      ensures Order() == Rested(old(r), h, highOn && handles[h].pri == High, recent)
      ensures Resting() == old(Resting()) + {h}
    {
      ghost var resting := Resting();
      RestedMembers(r, h, highOn && handles[h].pri == High, recent);
      LinkLru(h, recent);
      LinkFile(h, resting);
    }

    /** The last reference goes and the handle with it. */
    method DropLast(h: Ptr)
      requires Valid() && h in handles && !handles[h].detached && h in refs && refs[h] > 0 && h !in Resting()
      requires h in inTable ==> handles[h].key in pages && pages[handles[h].key] == h
      modifies this`handles, this`refs, this`flags, this`fnext, this`fprev, this`usage, this`owned, this`inTable,
        this`pages
      ensures Valid() && handles == old(handles) - {h} && refs == old(refs) - {h} &&
              usage == old(usage) - old(handles)[h].charge
      ensures pages == if h in old(inTable) then old(pages) - {old(handles)[h].key} else old(pages)
    {
      if h in inTable {
        TableForget(handles, refs, inTable, pages, unused, Resting(), h);
        inTable := inTable - {h};
        pages := pages - {handles[h].key};
      }
      TableFree(handles, refs, inTable, pages, unused, Resting(), h);
      ClearHandle(h);
    }

    /** Erases one resting page; says whether another page of its file rests, and which. */
    method EraseResting(e: Ptr) returns (next_: Ptr)
      requires Valid() && e in Resting()
      modifies this`handles, this`refs, this`flags, this`next, this`prev, this`fnext, this`fprev, this`files, this`low,
        this`bottom,
               this`usage, this`lruUsage, this`lowUsage, this`highUsage, this`r, this`rings, this`owned,
               this`inTable, this`pages
      ensures Valid() && Resting() == old(Resting()) - {e}
      ensures e in old(handles) && handles == old(handles) - {e} && refs == old(refs) - {e} &&
              pages == old(pages) - {old(handles)[e].key}
      ensures next_ != e ==>
              next_ in Resting() && next_ in handles && handles[next_].key.file == old(handles)[e].key.file
      ensures next_ == e ==> NoneOf(handles, Resting(), old(handles)[e].key.file)
    {
      RestingEntry(handles, refs, inTable, pages, unused, Resting(), e);
      FileNext(handles, Resting(), fnext, fprev, files, rings, e);
      next_ := fnext[e];
      EraseIdle(e);
    }

    /** Erases every page of a file that rests in the ring; referenced ones stay. */
    method EraseFilePages(file: FileId) returns (ghost gone: seq<Ptr>)
      requires Valid()
      modifies this
      ensures Valid() && NoneOf(handles, Resting(), file)
      ensures forall p :: p in gone ==> p in old(Resting()) && p in old(handles) && old(handles)[p].key.file == file
      ensures Evicted(old(handles), handles, old(refs), refs, old(pages), pages, gone)
      ensures Resting() == old(Resting()) - Members(gone)
    {
      gone := [];
      EvictedNone(handles, refs, pages, gone);
      if file !in files {
        FileAbsent(handles, Resting(), fnext, fprev, files, rings, file);
        return;
      }
      FileHead(handles, Resting(), fnext, fprev, files, rings, file);
      var ptr := files[file];
      var more := true;
      while more
        invariant Valid()
        invariant if more then ptr in Resting() && ptr in handles && handles[ptr].key.file == file
                  else NoneOf(handles, Resting(), file)
        invariant forall p :: p in gone ==> p in old(Resting()) && p in old(handles) && old(handles)[p].key.file == file
        invariant Evicted(old(handles), handles, old(refs), refs, old(pages), pages, gone)
        invariant Resting() == old(Resting()) - Members(gone)
        decreases Resting(), more
      {
        EvictedStep(old(handles), handles, old(refs), refs, old(pages), pages, inTable, unused, Resting(), gone, ptr);
        MembersAppend(gone, ptr);
        gone := gone + [ptr];
        var next_ := EraseResting(ptr);
        more := next_ != ptr;
        ptr := next_;
      }
    }
  }

  /** The node behind a cursor is the first one of the next run. */
  lemma RunNext(next: map<Ptr, Ptr>, prev: map<Ptr, Ptr>, bot: seq<Ptr>, mid: seq<Ptr>, top: seq<Ptr>)
    requires IsRing(next, prev, [HEAD] + Whole(bot, mid, top))
    ensures mid != [] ==> Cursor(bot) in next && next[Cursor(bot)] == mid[0]
    ensures top != [] ==> Cursor(bot + mid) in next && next[Cursor(bot + mid)] == top[0]
  {
    assert bot + (mid + top) == Whole(bot, mid, top);
    CursorNext(next, prev, bot, mid + top);
    CursorNext(next, prev, bot + mid, top);
  }

  lemma RingPut(next: map<Ptr, Ptr>, prev: map<Ptr, Ptr>, pre: seq<Ptr>, post: seq<Ptr>, e: Ptr)
    requires Links(next, prev, [HEAD] + (pre + post)) && e !in pre && e !in post && e != HEAD
    ensures var a := Cursor(pre);
            && a in next && a != e
            && var b := next[a];
            Links(next[e := b][a := e], prev[e := a][b := e], [HEAD] + (pre + [e] + post))
  {
    var c := [HEAD] + (pre + post);
    CursorNext(next, prev, pre, post);
    LinkAt(next, prev, c, |pre|, e, next[e := next[Cursor(pre)]][Cursor(pre) := e],
      prev[e := Cursor(pre)][next[Cursor(pre)] := e]);
    assert Inserted(c, |pre|, e) == [HEAD] + (pre + [e] + post);
  }

  lemma PrefixDistinct(pre: seq<Ptr>, post: seq<Ptr>)
    requires Distinct([HEAD] + (pre + post))
    ensures Distinct([HEAD] + pre)
  {
    var c, d := [HEAD] + (pre + post), [HEAD] + pre;
    Spread(c);
    forall i, j | 0 <= i < j < |d|
      ensures d[i] != d[j]
    {
      assert d[i] == c[i] && d[j] == c[j];
    }
  }

  /** The node before the head is the newest entry. */
  lemma HeadPrev(next: map<Ptr, Ptr>, prev: map<Ptr, Ptr>, w: seq<Ptr>)
    requires IsRing(next, prev, [HEAD] + w)
    ensures HEAD in next && HEAD in prev && prev[HEAD] == Cursor(w)
    ensures Cursor(w) in next && next[Cursor(w)] == HEAD
  {
    var c := [HEAD] + w;
    assert w + [] == w;
    CursorNext(next, prev, w, []);
    assert JoinedAt(next, prev, c, |w|);
    assert JoinedAt(next, prev, c, 0);
  }

  /** The neighbours that `LinkLru` reads exist. */
  lemma RingNeighbours(next: map<Ptr, Ptr>, prev: map<Ptr, Ptr>, bot: seq<Ptr>, mid: seq<Ptr>, top: seq<Ptr>)
    requires IsRing(next, prev, [HEAD] + Whole(bot, mid, top))
    ensures HEAD in next && HEAD in prev && Cursor(bot) in next && Cursor(bot + mid) in next
    ensures Distinct([HEAD] + (bot + mid))
  {
    var w := Whole(bot, mid, top);
    assert bot + (mid + top) == w;
    HeadPrev(next, prev, w);
    CursorNext(next, prev, bot, mid + top);
    CursorNext(next, prev, bot + mid, top);
    PrefixDistinct(bot + mid, top);
  }

  lemma HighPutLast(next: map<Ptr, Ptr>, prev: map<Ptr, Ptr>, bot: seq<Ptr>, mid: seq<Ptr>, top: seq<Ptr>, e: Ptr)
    requires Links(next, prev, [HEAD] + Whole(bot, mid, top)) && e !in Whole(bot, mid, top) && e != HEAD && HEAD in prev
    ensures Links(next[e := HEAD][prev[HEAD] := e], prev[e := prev[HEAD]][HEAD := e],
            [HEAD] + Whole(bot, mid, top + [e]))
  {
    var w := Whole(bot, mid, top);
    HeadPrev(next, prev, w);
    assert w + [] == w;
    RingPut(next, prev, w, [], e);
    WholeTop(bot, mid, top, e);
  }

  lemma HighPutFirst(next: map<Ptr, Ptr>, prev: map<Ptr, Ptr>, bot: seq<Ptr>, mid: seq<Ptr>, top: seq<Ptr>, e: Ptr)
    requires Links(next, prev, [HEAD] + Whole(bot, mid, top)) && e !in Whole(bot, mid, top) && e != HEAD
    requires Cursor(bot + mid) in next
    ensures var a := Cursor(bot + mid);
            Links(next[e := next[a]][a := e], prev[e := a][next[a] := e], [HEAD] + Whole(bot, mid, [e] + top))
  {
    WholeMembers(bot, mid, top, e);
    WholeTop(bot, mid, top, e);
    RingPut(next, prev, bot + mid, top, e);
  }

  lemma BottomPutLast(next: map<Ptr, Ptr>, prev: map<Ptr, Ptr>, bot: seq<Ptr>, mid: seq<Ptr>, top: seq<Ptr>, e: Ptr)
    requires Links(next, prev, [HEAD] + Whole(bot, mid, top)) && e !in Whole(bot, mid, top) && e != HEAD
    requires Cursor(bot) in next
    ensures var a := Cursor(bot);
            Links(next[e := next[a]][a := e], prev[e := a][next[a] := e], [HEAD] + Whole(bot + [e], mid, top))
  {
    WholeMembers(bot, mid, top, e);
    WholeBottom(bot, mid, top, e);
    assert bot + (mid + top) == Whole(bot, mid, top);
    RingPut(next, prev, bot, mid + top, e);
  }

  lemma BottomPutFirst(next: map<Ptr, Ptr>, prev: map<Ptr, Ptr>, bot: seq<Ptr>, mid: seq<Ptr>, top: seq<Ptr>, e: Ptr)
    requires Links(next, prev, [HEAD] + Whole(bot, mid, top)) && e !in Whole(bot, mid, top) && e != HEAD
    requires HEAD in next
    ensures Links(next[e := next[HEAD]][HEAD := e], prev[e := HEAD][next[HEAD] := e],
            [HEAD] + Whole([e] + bot, mid, top))
  {
    var w := Whole(bot, mid, top);
    WholeBottom(bot, mid, top, e);
    assert [] + w == w;
    RingPut(next, prev, [], w, e);
  }

  lemma HighPut(handles: map<Ptr, Handle>, flags: map<Ptr, Priority>, bot: seq<Ptr>, mid: seq<Ptr>, top: seq<Ptr>,
                lruUsage: nat, lowUsage: nat, highUsage: nat, e: Ptr, recent: bool, top': seq<Ptr>)
    requires AllFlags(handles, flags, bot, mid, top) && Counted(handles, bot, mid, top, lruUsage, lowUsage, highUsage)
    requires e in handles && e !in Whole(bot, mid, top) && top' == if recent then top + [e] else [e] + top
    ensures AllFlags(handles, flags[e := High], bot, mid, top')
    ensures Counted(handles, bot, mid, top', lruUsage + handles[e].charge, lowUsage, highUsage + handles[e].charge)
  {
    WholeMembers(bot, mid, top, e);
    FlagsPut(handles, flags, bot, mid, top, e, High);
    SpreadCounts(handles, bot, mid, top, lruUsage, lowUsage, highUsage);
    SumEnds(handles, top, e);
  }

  lemma BottomPut(handles: map<Ptr, Handle>, flags: map<Ptr, Priority>, bot: seq<Ptr>, mid: seq<Ptr>, top: seq<Ptr>,
                  lruUsage: nat, lowUsage: nat, highUsage: nat, e: Ptr, recent: bool, bot': seq<Ptr>)
    requires AllFlags(handles, flags, bot, mid, top) && Counted(handles, bot, mid, top, lruUsage, lowUsage, highUsage)
    requires e in handles && e !in Whole(bot, mid, top) && bot' == if recent then bot + [e] else [e] + bot
    ensures AllFlags(handles, flags[e := Bottom], bot', mid, top)
    ensures Counted(handles, bot', mid, top, lruUsage + handles[e].charge, lowUsage, highUsage)
  {
    WholeMembers(bot, mid, top, e);
    FlagsPut(handles, flags, bot, mid, top, e, Bottom);
    SpreadCounts(handles, bot, mid, top, lruUsage, lowUsage, highUsage);
    SumEnds(handles, bot, e);
  }

  lemma WholeTop(bot: seq<Ptr>, mid: seq<Ptr>, top: seq<Ptr>, e: Ptr)
    ensures Whole(bot, mid, top) + [e] + [] == Whole(bot, mid, top + [e])
    ensures Whole(bot, mid, top) + [e] == Whole(bot, mid, top + [e])
    ensures bot + mid + [e] + top == Whole(bot, mid, [e] + top)
  {
  }

  lemma WholeBottom(bot: seq<Ptr>, mid: seq<Ptr>, top: seq<Ptr>, e: Ptr)
    ensures [] + [e] + Whole(bot, mid, top) == Whole([e] + bot, mid, top)
    ensures [e] + Whole(bot, mid, top) == Whole([e] + bot, mid, top)
    ensures bot + [e] + (mid + top) == Whole(bot + [e], mid, top)
  {
  }

  lemma NodeOut(next: map<Ptr, Ptr>, prev: map<Ptr, Ptr>, w: seq<Ptr>, e: Ptr)
    requires Links(next, prev, [HEAD] + w) && e in w
    ensures e in next && e in prev
    ensures Links(next[prev[e] := next[e]] - {e}, prev[next[e] := prev[e]] - {e}, [HEAD] + Without(w, e))
  {
    var k := PositionOf(w, e);
    var c := [HEAD] + w;
    assert c[k + 1] == e;
    assert JoinedAt(next, prev, c, k);
    assert JoinedAt(next, prev, c, k + 1);
    UnlinkAt(next, prev, c, k + 1, next[prev[e] := next[e]] - {e}, prev[next[e] := prev[e]] - {e});
    assert Removed(c, k + 1) == [HEAD] + Removed(w, k);
    TailDistinct(w);
    WithoutIsRemoved(w, k);
  }

  lemma NodeBefore(next: map<Ptr, Ptr>, prev: map<Ptr, Ptr>, w: seq<Ptr>, k: nat)
    requires IsRing(next, prev, [HEAD] + w) && k < |w|
    ensures w[k] in prev && prev[w[k]] == ([HEAD] + w)[k]
  {
    var c := [HEAD] + w;
    assert c[k + 1] == w[k];
    assert JoinedAt(next, prev, c, k);
  }

  lemma WithoutMembers(s: seq<Ptr>, e: Ptr)
    requires Distinct(s) && e in s
    ensures forall p :: p in Without(s, e) <==> p in s && p != e
  {
    var k := PositionOf(s, e);
    WithoutIsRemoved(s, k);
    RemovedDistinct(s, k);
  }

  /** Everything but the pointers, when `e` leaves its run. */
  lemma TakeOut(handles: map<Ptr, Handle>, flags: map<Ptr, Priority>, next: map<Ptr, Ptr>, prev: map<Ptr, Ptr>,
                bot: seq<Ptr>, mid: seq<Ptr>, top: seq<Ptr>,
                bottom: Ptr, low: Ptr, lruUsage: nat, lowUsage: nat, highUsage: nat, e: Ptr) returns (to: Place)
    requires e in Whole(bot, mid, top) && AllFlags(handles, flags, bot, mid, top)
    requires Links(next, prev, [HEAD] + Whole(bot, mid, top)) && Cut(bot, mid, bottom, low)
    requires Counted(handles, bot, mid, top, lruUsage, lowUsage, highUsage)
    ensures e in flags && e in handles && e in prev
    ensures Whole(to.bot, to.mid, to.top) == Without(Whole(bot, mid, top), e)
    ensures AllFlags(handles, flags, to.bot, to.mid, to.top)
    ensures Cut(to.bot, to.mid, if bottom == e then prev[e] else bottom, if low == e then prev[e] else low)
    ensures var charge := handles[e].charge;
            && charge <= lruUsage && (flags[e] == High ==> charge <= highUsage) &&
               (flags[e] == Low ==> charge <= lowUsage)
            && Counted(handles, to.bot, to.mid, to.top, lruUsage - charge,
                       lowUsage - (if flags[e] == Low then charge else 0),
                         highUsage - (if flags[e] == High then charge else 0))
  {
    to := TakeFromRun(handles, flags, bot, mid, top, e);
    TakeCounts(handles, flags, bot, mid, top, lruUsage, lowUsage, highUsage, to, e);
    TakePosition(next, prev, Whole(bot, mid, top), to.k);
    CutTake(bot, mid, top, bottom, low, to, e, prev[e]);
  }

  lemma TakePosition(next: map<Ptr, Ptr>, prev: map<Ptr, Ptr>, w: seq<Ptr>, k: nat)
    requires IsRing(next, prev, [HEAD] + w) && k < |w|
    ensures w[k] in prev && prev[w[k]] == ([HEAD] + w)[k] && Without(w, w[k]) == Removed(w, k)
  {
    NodeBefore(next, prev, w, k);
    TailDistinct(w);
    WithoutIsRemoved(w, k);
  }

  lemma TakeCounts(handles: map<Ptr, Handle>, flags: map<Ptr, Priority>, bot: seq<Ptr>, mid: seq<Ptr>, top: seq<Ptr>,
                   lruUsage: nat, lowUsage: nat, highUsage: nat, to: Place, e: Ptr)
    requires RunsShrink(handles, flags, bot, mid, top, to, e)
    requires Counted(handles, bot, mid, top, lruUsage, lowUsage, highUsage)
    ensures var charge := handles[e].charge;
            && charge <= lruUsage && (flags[e] == High ==> charge <= highUsage) &&
               (flags[e] == Low ==> charge <= lowUsage)
            && Counted(handles, to.bot, to.mid, to.top, lruUsage - charge,
                       lowUsage - (if flags[e] == Low then charge else 0),
                         highUsage - (if flags[e] == High then charge else 0))
  {
    SpreadCounts(handles, bot, mid, top, lruUsage, lowUsage, highUsage);
  }

  lemma FileHead(handles: map<Ptr, Handle>, members: set<Ptr>, fnext: map<Ptr, Ptr>, fprev: map<Ptr, Ptr>,
                 files: map<FileId, Ptr>, rings: map<FileId, seq<Ptr>>, id: FileId)
    requires FilesOk(handles, members, fnext, fprev, files, rings) && id in files
    ensures files[id] in fprev && files[id] in handles && files[id] in members && handles[files[id]].key.file == id
  {
    assert FileListed(handles, members, fnext, fprev, files, rings, id);
    RingMembers(fnext, fprev, rings[id], files[id]);
  }

  lemma RunsWithout(handles: map<Ptr, Handle>, flags: map<Ptr, Priority>, bot: seq<Ptr>, mid: seq<Ptr>, top: seq<Ptr>,
                    lruUsage: nat, lowUsage: nat, highUsage: nat, e: Ptr)
    requires AllFlags(handles, flags, bot, mid, top) && Counted(handles, bot, mid, top, lruUsage, lowUsage, highUsage)
    requires e !in Whole(bot, mid, top)
    ensures AllFlags(handles - {e}, flags - {e}, bot, mid, top)
    ensures Counted(handles - {e}, bot, mid, top, lruUsage, lowUsage, highUsage)
  {
    WholeMembers(bot, mid, top, e);
    SpreadFlags(handles, flags, bot, Bottom);
    SpreadFlags(handles, flags, mid, Low);
    SpreadFlags(handles, flags, top, High);
    SpreadCounts(handles, bot, mid, top, lruUsage, lowUsage, highUsage);
    SumSame(handles, handles - {e}, bot);
    SumSame(handles, handles - {e}, mid);
    SumSame(handles, handles - {e}, top);
  }

  lemma FilesWithout(handles: map<Ptr, Handle>, members: set<Ptr>, fnext: map<Ptr, Ptr>, fprev: map<Ptr, Ptr>,
                     files: map<FileId, Ptr>, rings: map<FileId, seq<Ptr>>, e: Ptr)
    requires FilesOk(handles, members, fnext, fprev, files, rings) && e !in members
    ensures FilesOk(handles - {e}, members, fnext - {e}, fprev - {e}, files, rings)
  {
    FilesFrame(handles, handles - {e}, members, fnext, fprev, fnext - {e}, fprev - {e}, files, rings, e);
  }

  lemma FilesNew(handles: map<Ptr, Handle>, members: set<Ptr>, fnext: map<Ptr, Ptr>, fprev: map<Ptr, Ptr>,
                 files: map<FileId, Ptr>, rings: map<FileId, seq<Ptr>>, e: Ptr, h: Handle)
    requires FilesOk(handles, members, fnext, fprev, files, rings) && e !in members && e !in handles
    ensures FilesOk(handles[e := h], members, fnext[e := e], fprev[e := e], files, rings)
  {
    FilesFrame(handles, handles[e := h], members, fnext, fprev, fnext[e := e], fprev[e := e], files, rings, e);
  }

  lemma EntryOf(handles: map<Ptr, Handle>, refs: map<Ptr, nat>, inTable: set<Ptr>, pages: map<PageKey, Ptr>,
                unused: Ptr, resting: set<Ptr>, key: PageKey)
    requires TableOk(handles, refs, inTable, pages, unused, resting) && key in pages
    ensures var e := pages[key];
            && e in handles && e in refs && e in inTable && handles[e].key == key && !handles[e].detached && e != HEAD
            && (e in resting <==> refs[e] == 0)
  {
    assert KeyEntry(handles, inTable, pages, key);
    assert HandleEntry(handles, refs, inTable, pages, unused, resting, pages[key]);
  }

  lemma EmptyRing()
    ensures Links(map[HEAD := HEAD], map[HEAD := HEAD], [HEAD] + Whole([], [], []))
  {
    assert [HEAD] + Whole([], [], []) == [HEAD];
    var next: map<Ptr, Ptr> := map[HEAD := HEAD];
    forall i: nat
      ensures JoinedAt(next, next, [HEAD], i)
    {
    }
    forall p
      ensures Linked(next, next, [HEAD], p)
    {
    }
  }

  lemma OldestIs(next: map<Ptr, Ptr>, prev: map<Ptr, Ptr>, w: seq<Ptr>)
    requires Links(next, prev, [HEAD] + w)
    ensures HEAD in next && next[HEAD] == if w == [] then HEAD else w[0]
    ensures next[HEAD] != HEAD <==> w != []
    ensures w != [] ==> Without(w, w[0]) == w[1..]
  {
    assert [] + w == w;
    CursorNext(next, prev, [], w);
    TailDistinct(w);
  }

  lemma RestingEntry(handles: map<Ptr, Handle>, refs: map<Ptr, nat>, inTable: set<Ptr>, pages: map<PageKey, Ptr>,
                     unused: Ptr, resting: set<Ptr>, e: Ptr)
    requires TableOk(handles, refs, inTable, pages, unused, resting) && e in resting
    ensures e in handles && e in inTable && e in refs && refs[e] == 0 && !handles[e].detached && e != HEAD
    ensures handles[e].key in pages && pages[handles[e].key] == e
  {
    assert HandleEntry(handles, refs, inTable, pages, unused, resting, e);
  }

  // ----- What an eviction leaves

  ghost predicate HandleKept(handles: map<Ptr, Handle>, handles': map<Ptr, Handle>, refs: map<Ptr, nat>,
                             refs': map<Ptr, nat>,
                             gone: seq<Ptr>, p: Ptr)
  {
    && (p in handles' <==> p in handles && p !in gone) && (p in handles' ==> handles'[p] == handles[p])
    && (p in refs' <==> p in refs && p !in gone) && (p in refs' ==> refs'[p] == refs[p])
  }

  ghost predicate PageKept(pages: map<PageKey, Ptr>, pages': map<PageKey, Ptr>, gone: seq<Ptr>, key: PageKey) {
    && (key in pages' <==> key in pages && pages[key] !in gone)
    && (key in pages' ==> pages'[key] == pages[key])
  }

  /** Exactly the handles of `gone` are gone, each with its entry of the table. */
  ghost predicate Evicted(handles: map<Ptr, Handle>, handles': map<Ptr, Handle>, refs: map<Ptr, nat>,
                          refs': map<Ptr, nat>,
                          pages: map<PageKey, Ptr>, pages': map<PageKey, Ptr>, gone: seq<Ptr>)
  {
    && (forall p {:trigger HandleKept(handles, handles', refs, refs', gone, p)} ::
       HandleKept(handles, handles', refs, refs', gone, p))
    && (forall key {:trigger PageKept(pages, pages', gone, key)} :: PageKept(pages, pages', gone, key))
  }

  lemma EvictedNone(handles: map<Ptr, Handle>, refs: map<Ptr, nat>, pages: map<PageKey, Ptr>, w: seq<Ptr>)
    ensures Evicted(handles, handles, refs, refs, pages, pages, w[..0])
  {
  }

  /** A resting handle is dropped as well. */
  lemma EvictedStep(handles: map<Ptr, Handle>, handles': map<Ptr, Handle>, refs: map<Ptr, nat>, refs': map<Ptr, nat>,
                    pages: map<PageKey, Ptr>, pages': map<PageKey, Ptr>, inTable': set<Ptr>, unused: Ptr,
                      resting': set<Ptr>,
                    gone: seq<Ptr>, e: Ptr)
    requires Evicted(handles, handles', refs, refs', pages, pages', gone)
    requires e in resting' && TableOk(handles', refs', inTable', pages', unused, resting')
    ensures e in handles' && e in handles && handles[e] == handles'[e]
    ensures Evicted(handles, handles' - {e}, refs, refs' - {e}, pages, pages' - {handles'[e].key}, gone + [e])
  {
    RestingEntry(handles', refs', inTable', pages', unused, resting', e);
    assert HandleKept(handles, handles', refs, refs', gone, e);
    var handles'', refs'', pages'' := handles' - {e}, refs' - {e}, pages' - {handles'[e].key};
    forall p
      ensures HandleKept(handles, handles'', refs, refs'', gone + [e], p)
    {
      assert HandleKept(handles, handles', refs, refs', gone, p);
    }
    forall key
      ensures PageKept(pages, pages'', gone + [e], key)
    {
      assert PageKept(pages, pages', gone, key);
      assert KeyEntry(handles', inTable', pages', key);
    }
  }

  /** The next entry of the ring is evicted. */
  lemma OneEvicted(handles: map<Ptr, Handle>, handles': map<Ptr, Handle>, refs: map<Ptr, nat>, refs': map<Ptr, nat>,
                   pages: map<PageKey, Ptr>, pages': map<PageKey, Ptr>, inTable': set<Ptr>, unused: Ptr,
                     order: seq<Ptr>,
                   w: seq<Ptr>, n: nat)
    requires n < |w| && order == w[n..] && Evicted(handles, handles', refs, refs', pages, pages', w[..n])
    requires TableOk(handles', refs', inTable', pages', unused, Members(order))
    ensures var e := w[n];
            && order[0] == e && order[1..] == w[n + 1..]
            && e in handles' && e in handles && handles[e] == handles'[e]
            && Evicted(handles, handles' - {e}, refs, refs' - {e}, pages, pages' - {handles'[e].key}, w[..n + 1])
  {
    assert w[..n] + [w[n]] == w[..n + 1];
    EvictedStep(handles, handles', refs, refs', pages, pages', inTable', unused, Members(order), w[..n], w[n]);
  }

  /** Entering `key` leaves what the eviction left of the other keys. */
  lemma OthersKept(handles: map<Ptr, Handle>, handles': map<Ptr, Handle>, refs: map<Ptr, nat>, refs': map<Ptr, nat>,
                   pages: map<PageKey, Ptr>, pages': map<PageKey, Ptr>, gone: seq<Ptr>, key: PageKey, h: Ptr)
    requires Evicted(handles, handles', refs, refs', pages, pages', gone)
    ensures var next := pages'[key := h];
            forall k {:trigger PageKept(pages, next, gone, k)} :: k != key ==> PageKept(pages, next, gone, k)
  {
    var next := pages'[key := h];
    forall k | k != key
      ensures PageKept(pages, next, gone, k)
    {
      assert PageKept(pages, pages', gone, k);
    }
  }

  /** The entry of a key is evicted exactly when its handle no longer rests. */
  lemma EvictedKey(handles: map<Ptr, Handle>, handles': map<Ptr, Handle>, refs: map<Ptr, nat>, refs': map<Ptr, nat>,
                   pages: map<PageKey, Ptr>, pages': map<PageKey, Ptr>, w: seq<Ptr>, n: nat, key: PageKey)
    requires n <= |w| && Distinct(w) && Evicted(handles, handles', refs, refs', pages, pages', w[..n])
    ensures key in pages' ==> key in pages && pages'[key] == pages[key]
    ensures key in pages && key !in pages' ==> Without(w[n..], pages[key]) == w[n..]
  {
    assert PageKept(pages, pages', w[..n], key);
    if key in pages && key !in pages' {
      var i := PositionOf(w[..n], pages[key]);
      forall j | 0 <= j < |w[n..]|
        ensures w[n..][j] != pages[key]
      {
        assert Differ(w, i, n + j);
      }
      WithoutAbsent(w[n..], pages[key]);
    }
  }

  lemma RunsWith(handles: map<Ptr, Handle>, flags: map<Ptr, Priority>, bot: seq<Ptr>, mid: seq<Ptr>, top: seq<Ptr>,
                 lruUsage: nat, lowUsage: nat, highUsage: nat, e: Ptr, h: Handle)
    requires AllFlags(handles, flags, bot, mid, top) && Counted(handles, bot, mid, top, lruUsage, lowUsage, highUsage)
    requires e !in handles
    ensures AllFlags(handles[e := h], flags[e := Bottom], bot, mid, top)
    ensures Counted(handles[e := h], bot, mid, top, lruUsage, lowUsage, highUsage)
  {
    SpreadFlags(handles, flags, bot, Bottom);
    SpreadFlags(handles, flags, mid, Low);
    SpreadFlags(handles, flags, top, High);
    SpreadCounts(handles, bot, mid, top, lruUsage, lowUsage, highUsage);
    SumSame(handles, handles[e := h], bot);
    SumSame(handles, handles[e := h], mid);
    SumSame(handles, handles[e := h], top);
  }

  lemma EntryOfHandle(handles: map<Ptr, Handle>, refs: map<Ptr, nat>, inTable: set<Ptr>, pages: map<PageKey, Ptr>,
                      unused: Ptr, resting: set<Ptr>, p: Ptr)
    requires TableOk(handles, refs, inTable, pages, unused, resting) && p in handles
    ensures p in refs && p != HEAD && (handles[p].detached ==> p !in inTable) && (refs[p] > 0 ==> p !in resting)
    ensures p in inTable ==> handles[p].key in pages && pages[handles[p].key] == p
  {
    assert HandleEntry(handles, refs, inTable, pages, unused, resting, p);
  }

  /** No member belongs to the file. */
  ghost predicate NoneOf(handles: map<Ptr, Handle>, resting: set<Ptr>, file: FileId) {
    forall p {:trigger p in resting} :: p in resting && p in handles ==> handles[p].key.file != file
  }

  lemma MembersAppend(s: seq<Ptr>, e: Ptr)
    ensures Members(s + [e]) == Members(s) + {e}
  {
  }

  lemma FileAbsent(handles: map<Ptr, Handle>, members: set<Ptr>, fnext: map<Ptr, Ptr>, fprev: map<Ptr, Ptr>,
                   files: map<FileId, Ptr>, rings: map<FileId, seq<Ptr>>, id: FileId)
    requires FilesOk(handles, members, fnext, fprev, files, rings) && id !in files
    ensures NoneOf(handles, members, id)
  {
    forall p | p in members && p in handles
      ensures handles[p].key.file != id
    {
      assert FilePlace(handles, members, fnext, fprev, files, p);
    }
  }

  /** The next page of a file: the page itself exactly when it is the file's only one. */
  lemma FileNext(handles: map<Ptr, Handle>, members: set<Ptr>, fnext: map<Ptr, Ptr>, fprev: map<Ptr, Ptr>,
                 files: map<FileId, Ptr>, rings: map<FileId, seq<Ptr>>, e: Ptr)
    requires FilesOk(handles, members, fnext, fprev, files, rings) && e in handles && e in members
    ensures e in fnext && fnext[e] in members && fnext[e] in handles &&
            handles[fnext[e]].key.file == handles[e].key.file
    ensures fnext[e] == e ==> NoneOf(handles - {e}, members - {e}, handles[e].key.file)
  {
    FilePosition(handles, members, fnext, fprev, files, rings, e);
    var c := rings[handles[e].key.file];
    assert FileListed(handles, members, fnext, fprev, files, rings, handles[e].key.file);
    if fnext[e] == e {
      forall p | p in members && p in handles && p != e
        ensures handles[p].key.file != handles[e].key.file
      {
        assert c[0] == e;
        assert p !in c;
      }
    }
  }

  lemma TailFlags(handles: map<Ptr, Handle>, flags: map<Ptr, Priority>, run: seq<Ptr>, pri: Priority, to: Priority)
    requires RunFlags(handles, flags, run, pri) && run != [] && Distinct(run)
    ensures RunFlags(handles, flags[run[0] := to], run[1..], pri)
  {
    Spread(run);
    SpreadFlags(handles, flags, run, pri);
    forall p | p in run[1..]
      ensures p in run && p != run[0]
    {
    }
  }

  lemma RunsDistinct(bot: seq<Ptr>, mid: seq<Ptr>, top: seq<Ptr>)
    requires Distinct([HEAD] + Whole(bot, mid, top))
    ensures Distinct(bot) && Distinct(mid) && Distinct(top)
  {
    var c := [HEAD] + Whole(bot, mid, top);
    Spread(c);
    assert forall i :: 0 <= i < |bot| ==> c[1 + i] == bot[i];
    assert forall i :: 0 <= i < |mid| ==> c[1 + |bot| + i] == mid[i];
    assert forall i :: 0 <= i < |top| ==> c[1 + |bot| + |mid| + i] == top[i];
  }

  lemma Demote(handles: map<Ptr, Handle>, flags: map<Ptr, Priority>, bot: seq<Ptr>, mid: seq<Ptr>, top: seq<Ptr>)
    requires AllFlags(handles, flags, bot, mid, top) && Distinct([HEAD] + Whole(bot, mid, top)) && top != []
    ensures AllFlags(handles, flags[top[0] := Low], bot, mid + [top[0]], top[1..])
    ensures top[0] != HEAD && top[0] in handles
  {
    assert top[0] in top;
    RunsApart(bot, mid, top, top[0]);
    RunsDistinct(bot, mid, top);
    TailFlags(handles, flags, top, High, Low);
    SpreadFlags(handles, flags, bot, Bottom);
    SpreadFlags(handles, flags, mid, Low);
    SpreadFlags(handles, flags, top, High);
  }

  lemma Sink(handles: map<Ptr, Handle>, flags: map<Ptr, Priority>, bot: seq<Ptr>, mid: seq<Ptr>, top: seq<Ptr>)
    requires AllFlags(handles, flags, bot, mid, top) && Distinct([HEAD] + Whole(bot, mid, top)) && mid != []
    ensures AllFlags(handles, flags[mid[0] := Bottom], bot + [mid[0]], mid[1..], top)
    ensures mid[0] != HEAD && mid[0] in handles
  {
    assert mid[0] in mid;
    RunsApart(bot, mid, top, mid[0]);
    RunsDistinct(bot, mid, top);
    TailFlags(handles, flags, mid, Low, Bottom);
    SpreadFlags(handles, flags, bot, Bottom);
    SpreadFlags(handles, flags, mid, Low);
    SpreadFlags(handles, flags, top, High);
  }
}
