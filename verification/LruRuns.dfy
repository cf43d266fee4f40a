/**
 The page ring of a cache shard (photondb/src/page_store/cache/lru.rs): one circular list from a
 dummy head, cut by two cursors into a bottom, a low and a high run, and a ring per file.
 Everything here is about values; the shard itself is the class in `LruCache`.

 Handles live in explicit memory, one map per field.  A null link is a pointer missing from the
 link maps, and the dummy head is pointer 0.
 */
module LruRuns {
  import opened Ring
  import opened Sequences

  type FileId = nat

  datatype PageKey = PageKey(file: FileId, offset: nat)

  datatype Priority = Bottom | Low | High

  /** The fields of a handle that stay as they were set by the insertion. */
  datatype Handle = Handle(key: PageKey, charge: nat, pri: Priority, detached: bool)

  const HEAD: Ptr := 0

  // ----- Sums of charges

  function ChargeOf(handles: map<Ptr, Handle>, p: Ptr): nat {
    if p in handles then handles[p].charge else 0
  }

  function Sum(handles: map<Ptr, Handle>, s: seq<Ptr>): nat {
    if s == [] then 0 else ChargeOf(handles, s[0]) + Sum(handles, s[1..])
  }

  lemma {:induction false} SumConcat(handles: map<Ptr, Handle>, s: seq<Ptr>, t: seq<Ptr>)
    ensures Sum(handles, s + t) == Sum(handles, s) + Sum(handles, t)
  {
    if s == [] {
      assert s + t == t;
    } else {
      SumConcat(handles, s[1..], t);
      assert (s + t)[1..] == s[1..] + t;
    }
  }

  lemma {:induction false} SumSame(handles: map<Ptr, Handle>, handles': map<Ptr, Handle>, s: seq<Ptr>)
    requires forall p :: p in s ==> ChargeOf(handles', p) == ChargeOf(handles, p)
    ensures Sum(handles', s) == Sum(handles, s)
  {
    if s != [] {
      SumSame(handles, handles', s[1..]);
    }
  }

  lemma SumOne(handles: map<Ptr, Handle>, p: Ptr)
    ensures Sum(handles, [p]) == ChargeOf(handles, p)
  {
    assert [p][1..] == [];
  }

  lemma SumEnds(handles: map<Ptr, Handle>, s: seq<Ptr>, e: Ptr)
    ensures Sum(handles, s + [e]) == Sum(handles, s) + ChargeOf(handles, e)
    ensures Sum(handles, [e] + s) == Sum(handles, s) + ChargeOf(handles, e)
  {
    SumOne(handles, e);
    SumConcat(handles, s, [e]);
    SumConcat(handles, [e], s);
  }

  lemma SumFirst(handles: map<Ptr, Handle>, s: seq<Ptr>)
    requires |s| > 0
    ensures Sum(handles, s) == ChargeOf(handles, s[0]) + Sum(handles, s[1..])
  {
  }

  lemma SumRemoved(handles: map<Ptr, Handle>, s: seq<Ptr>, i: nat)
    requires i < |s|
    ensures Sum(handles, Removed(s, i)) + ChargeOf(handles, s[i]) == Sum(handles, s)
  {
    SumConcat(handles, s[..i], s[i + 1..]);
    SumConcat(handles, s[..i], [s[i]]);
    SumConcat(handles, s[..i] + [s[i]], s[i + 1..]);
    SumOne(handles, s[i]);
    assert s[..i] + [s[i]] + s[i + 1..] == s;
  }

  // ----- The page ring

  /** The ring holds exactly the nodes of `c`; every other link is null. */
  ghost predicate Links(next: map<Ptr, Ptr>, prev: map<Ptr, Ptr>, c: seq<Ptr>) {
    && IsRing(next, prev, c)
    && (forall p {:trigger Linked(next, prev, c, p)} :: Linked(next, prev, c, p))
  }

  ghost predicate Linked(next: map<Ptr, Ptr>, prev: map<Ptr, Ptr>, c: seq<Ptr>, p: Ptr) {
    (p in next <==> p in c) && (p in prev <==> p in c)
  }

  lemma SpreadLinks(next: map<Ptr, Ptr>, prev: map<Ptr, Ptr>, c: seq<Ptr>)
    requires Links(next, prev, c)
    ensures forall p :: (p in next <==> p in c) && (p in prev <==> p in c)
  {
    forall p
      ensures (p in next <==> p in c) && (p in prev <==> p in c)
    {
      assert Linked(next, prev, c, p);
    }
  }

  lemma LinkAt(next: map<Ptr, Ptr>, prev: map<Ptr, Ptr>, c: seq<Ptr>, k: nat, e: Ptr,
               next': map<Ptr, Ptr>, prev': map<Ptr, Ptr>)
    requires Links(next, prev, c) && k < |c| && e !in c
    requires var a, b := c[k], c[After(k, |c|)];
             next' == next[e := b][a := e] && prev' == prev[e := a][b := e]
    ensures Links(next', prev', Inserted(c, k, e))
  {
    SpreadLinks(next, prev, c);
    InsertKeepsRing(next, prev, c, k, e, next', prev');
    InsertedDistinct(c, k, e);
  }

  lemma UnlinkAt(next: map<Ptr, Ptr>, prev: map<Ptr, Ptr>, c: seq<Ptr>, k: nat,
                 next': map<Ptr, Ptr>, prev': map<Ptr, Ptr>)
    requires Links(next, prev, c) && |c| > 1 && k < |c|
    requires var e := c[k];
             && e in next && e in prev
             && next' == next[prev[e] := next[e]] - {e} && prev' == prev[next[e] := prev[e]] - {e}
    ensures Links(next', prev', Removed(c, k))
  {
    var e := c[k];
    SpreadLinks(next, prev, c);
    RingMembers(next, prev, c, e);
    assert Unlinked(next, prev, c, e, next', prev');
    RemoveKeepsRing(next, prev, c, k, next', prev');
    RemovedDistinct(c, k);
  }

  function Whole(bot: seq<Ptr>, mid: seq<Ptr>, top: seq<Ptr>): seq<Ptr> {
    bot + mid + top
  }

  /** The last node of a prefix of the ring, or the head when the prefix is empty. */
  function Cursor(run: seq<Ptr>): Ptr {
    if run == [] then HEAD else run[|run| - 1]
  }

  lemma CursorAt(run: seq<Ptr>, rest: seq<Ptr>)
    ensures ([HEAD] + (run + rest))[|run|] == Cursor(run)
  {
  }

  ghost predicate RunFlags(handles: map<Ptr, Handle>, flags: map<Ptr, Priority>, run: seq<Ptr>, pri: Priority) {
    forall p {:trigger Flagged(handles, flags, run, pri, p)} :: Flagged(handles, flags, run, pri, p)
  }

  ghost predicate Flagged(handles: map<Ptr, Handle>, flags: map<Ptr, Priority>, run: seq<Ptr>, pri: Priority, p: Ptr) {
    p in run ==> p in handles && p in flags && flags[p] == pri
  }

  lemma SpreadFlags(handles: map<Ptr, Handle>, flags: map<Ptr, Priority>, run: seq<Ptr>, pri: Priority)
    requires RunFlags(handles, flags, run, pri)
    ensures forall p :: p in run ==> p in handles && p in flags && flags[p] == pri
  {
    forall p | p in run
      ensures p in handles && p in flags && flags[p] == pri
    {
      assert Flagged(handles, flags, run, pri, p);
    }
  }

  ghost predicate AllFlags(handles: map<Ptr, Handle>, flags: map<Ptr, Priority>, bot: seq<Ptr>, mid: seq<Ptr>,
                           top: seq<Ptr>) {
    RunFlags(handles, flags, bot, Bottom) && RunFlags(handles, flags, mid, Low) && RunFlags(handles, flags, top, High)
  }

  /** The runs of a ring without repetition have no common member. */
  lemma RunsApart(bot: seq<Ptr>, mid: seq<Ptr>, top: seq<Ptr>, p: Ptr)
    requires Distinct([HEAD] + Whole(bot, mid, top))
    ensures p in bot ==> p !in mid && p !in top && p != HEAD
    ensures p in mid ==> p !in top && p != HEAD
    ensures p in top ==> p != HEAD
  {
    var c := [HEAD] + Whole(bot, mid, top);
    Spread(c);
    assert forall i :: 0 <= i < |bot| ==> c[1 + i] == bot[i];
    assert forall i :: 0 <= i < |mid| ==> c[1 + |bot| + i] == mid[i];
    assert forall i :: 0 <= i < |top| ==> c[1 + |bot| + |mid| + i] == top[i];
    assert c[0] == HEAD;
  }

  lemma WholeMembers(bot: seq<Ptr>, mid: seq<Ptr>, top: seq<Ptr>, p: Ptr)
    ensures p in Whole(bot, mid, top) <==> p in bot || p in mid || p in top
  {
  }

  /** Removing entry `i` of a prefix of the ring moves the cursor on it back by one node. */
  lemma CursorBack(c: seq<Ptr>, run: seq<Ptr>, i: nat)
    requires Distinct(c) && |c| > |run| && c[0] == HEAD && i < |run|
    requires forall k {:trigger run[k]} :: 0 <= k < |run| ==> c[k + 1] == run[k]
    ensures Cursor(Removed(run, i)) == if Cursor(run) == run[i] then c[i] else Cursor(run)
  {
    var n := |run|;
    Spread(c);
    assert run[n - 1] == c[n] && run[i] == c[i + 1];
    if i == n - 1 {
      assert Removed(run, i) == run[..i];
      if i > 0 {
        assert run[i - 1] == c[i];
      }
    } else {
      assert Removed(run, i)[n - 2] == run[n - 1];
      assert c[n] != c[i + 1];
    }
  }

  // ----- The runs, their cursors and their counters

  ghost predicate Cut(bot: seq<Ptr>, mid: seq<Ptr>, bottom: Ptr, low: Ptr) {
    bottom == Cursor(bot) && low == Cursor(bot + mid)
  }

  /** What the counters say about one run; the usage of the bottom run is what the others leave. */
  ghost predicate RunCounted(handles: map<Ptr, Handle>, bot: seq<Ptr>, mid: seq<Ptr>, top: seq<Ptr>,
                             lruUsage: nat, lowUsage: nat, highUsage: nat, pri: Priority)
  {
    match pri
    case Bottom => lruUsage == Sum(handles, bot) + lowUsage + highUsage
    case Low => lowUsage == Sum(handles, mid)
    case High => highUsage == Sum(handles, top)
  }

  ghost predicate Counted(handles: map<Ptr, Handle>, bot: seq<Ptr>, mid: seq<Ptr>, top: seq<Ptr>,
                          lruUsage: nat, lowUsage: nat, highUsage: nat)
  {
    forall pri {:trigger RunCounted(handles, bot, mid, top, lruUsage, lowUsage, highUsage, pri)} ::
      RunCounted(handles, bot, mid, top, lruUsage, lowUsage, highUsage, pri)
  }

  lemma SpreadCounts(handles: map<Ptr, Handle>, bot: seq<Ptr>, mid: seq<Ptr>, top: seq<Ptr>,
                     lruUsage: nat, lowUsage: nat, highUsage: nat)
    requires Counted(handles, bot, mid, top, lruUsage, lowUsage, highUsage)
    ensures lowUsage == Sum(handles, mid) && highUsage == Sum(handles, top)
    ensures lruUsage == Sum(handles, bot) + lowUsage + highUsage
  {
    assert RunCounted(handles, bot, mid, top, lruUsage, lowUsage, highUsage, Bottom);
    assert RunCounted(handles, bot, mid, top, lruUsage, lowUsage, highUsage, Low);
    assert RunCounted(handles, bot, mid, top, lruUsage, lowUsage, highUsage, High);
  }

  lemma FlagsPut(handles: map<Ptr, Handle>, flags: map<Ptr, Priority>, bot: seq<Ptr>, mid: seq<Ptr>, top: seq<Ptr>,
                 e: Ptr, pri: Priority)
    requires AllFlags(handles, flags, bot, mid, top) && e in handles && e !in bot && e !in mid && e !in top
    ensures var flags' := flags[e := pri];
            && AllFlags(handles, flags', bot, mid, top)
            && (pri == High ==>
               RunFlags(handles, flags', top + [e], High) && RunFlags(handles, flags', [e] + top, High))
            && (pri == Low ==> RunFlags(handles, flags', mid + [e], Low))
            && (pri == Bottom ==>
               RunFlags(handles, flags', bot + [e], Bottom) && RunFlags(handles, flags', [e] + bot, Bottom))
  {
    SpreadFlags(handles, flags, bot, Bottom);
    SpreadFlags(handles, flags, mid, Low);
    SpreadFlags(handles, flags, top, High);
  }

  /** The two cursors meet when the low run is empty, and sit on the head when the runs below are empty. */
  lemma CutMeets(bot: seq<Ptr>, mid: seq<Ptr>)
    requires Distinct([HEAD] + (bot + mid))
    ensures Cursor(bot) == Cursor(bot + mid) <==> mid == []
    ensures Cursor(bot) == HEAD <==> bot == []
  {
    var c := [HEAD] + (bot + mid);
    Spread(c);
    CursorAt(bot, mid);
    CursorAt(bot + mid, []);
    assert bot + mid + [] == bot + mid;
    assert c[0] == HEAD;
    assert mid == [] ==> bot + mid == bot;
  }

  lemma CursorOfTwo(run: seq<Ptr>, mid: seq<Ptr>)
    ensures Cursor(run + mid) == if mid == [] then Cursor(run) else mid[|mid| - 1]
  {
    assert mid == [] ==> run + mid == run;
  }

  /** The cursors after `e` joins the bottom run. */
  lemma CutPut(bot: seq<Ptr>, mid: seq<Ptr>, bottom: Ptr, low: Ptr, e: Ptr, recent: bool,
               bot': seq<Ptr>, bottom': Ptr, low': Ptr)
    requires Distinct([HEAD] + (bot + mid)) && Cut(bot, mid, bottom, low)
    requires bot' == if recent then bot + [e] else [e] + bot
    requires bottom' == if recent || bottom == HEAD then e else bottom
    requires low' == if (recent || bottom == HEAD) && bottom == low then e else low
    ensures Cut(bot', mid, bottom', low')
  {
    CutMeets(bot, mid);
    CursorOfTwo(bot, mid);
    CursorOfTwo(bot', mid);
    if bot == [] {
      assert [e] + bot == [e];
    } else {
      assert ([e] + bot)[|bot|] == bot[|bot| - 1];
    }
  }

  /** The low cursor moves over the oldest high entry. */
  lemma HighToLow(handles: map<Ptr, Handle>, bot: seq<Ptr>, mid: seq<Ptr>, top: seq<Ptr>, bottom: Ptr, low: Ptr,
                  lruUsage: nat, lowUsage: nat, highUsage: nat)
    requires top != [] && Cut(bot, mid, bottom, low) && Counted(handles, bot, mid, top, lruUsage, lowUsage, highUsage)
    ensures var e := top[0];
            && highUsage >= ChargeOf(handles, e)
            && Cut(bot, mid + [e], bottom, e)
            && Counted(handles, bot, mid + [e], top[1..], lruUsage, lowUsage + ChargeOf(handles, e),
               highUsage - ChargeOf(handles, e))
            && Whole(bot, mid + [e], top[1..]) == Whole(bot, mid, top)
  {
    SpreadCounts(handles, bot, mid, top, lruUsage, lowUsage, highUsage);
    SumFirst(handles, top);
    SumEnds(handles, mid, top[0]);
    assert bot + (mid + [top[0]]) == bot + mid + [top[0]];
    assert top == [top[0]] + top[1..];
  }

  /** The bottom cursor moves over the oldest low entry. */
  lemma LowToBottom(handles: map<Ptr, Handle>, bot: seq<Ptr>, mid: seq<Ptr>, top: seq<Ptr>, bottom: Ptr, low: Ptr,
                    lruUsage: nat, lowUsage: nat, highUsage: nat)
    requires mid != [] && Cut(bot, mid, bottom, low) && Counted(handles, bot, mid, top, lruUsage, lowUsage, highUsage)
    ensures var e := mid[0];
            && lowUsage >= ChargeOf(handles, e)
            && Cut(bot + [e], mid[1..], e, low)
            && Counted(handles, bot + [e], mid[1..], top, lruUsage, lowUsage - ChargeOf(handles, e), highUsage)
            && Whole(bot + [e], mid[1..], top) == Whole(bot, mid, top)
  {
    SpreadCounts(handles, bot, mid, top, lruUsage, lowUsage, highUsage);
    SumFirst(handles, mid);
    SumEnds(handles, bot, mid[0]);
    assert mid == [mid[0]] + mid[1..];
    assert bot + [mid[0]] + mid[1..] == bot + mid;
  }

  /** A cursor points at the node before the rest of the ring. */
  lemma CursorNext(next: map<Ptr, Ptr>, prev: map<Ptr, Ptr>, run: seq<Ptr>, rest: seq<Ptr>)
    requires IsRing(next, prev, [HEAD] + (run + rest))
    ensures Cursor(run) in next && Cursor(run) in prev
    ensures next[Cursor(run)] == if rest == [] then HEAD else rest[0]
    ensures var c := [HEAD] + (run + rest); c[|run|] == Cursor(run) && c[After(|run|, |c|)] == next[Cursor(run)]
  {
    var c := [HEAD] + (run + rest);
    CursorAt(run, rest);
    assert JoinedAt(next, prev, c, |run|);
    assert JoinedAt(next, prev, c, if |run| == 0 then |c| - 1 else |run| - 1);
  }

  /** What leaving at position `k` does to the runs. */
  datatype Place = Place(bot: seq<Ptr>, mid: seq<Ptr>, top: seq<Ptr>, k: nat)

  /** `to` are the runs when `e` is left out. */
  ghost predicate LeftOut(bot: seq<Ptr>, mid: seq<Ptr>, top: seq<Ptr>, to: Place, e: Ptr) {
    && to.k < |Whole(bot, mid, top)| && Whole(bot, mid, top)[to.k] == e
    && Whole(to.bot, to.mid, to.top) == Removed(Whole(bot, mid, top), to.k)
    && to.bot == (if to.k < |bot| then Removed(bot, to.k) else bot)
    && to.bot + to.mid == (if to.k < |bot + mid| then Removed(bot + mid, to.k) else bot + mid)
  }

  /** The runs keep their flags, and the sum of the run that `e` left is less by its charge. */
  ghost predicate RunsShrink(handles: map<Ptr, Handle>, flags: map<Ptr, Priority>, bot: seq<Ptr>, mid: seq<Ptr>,
                             top: seq<Ptr>,
                             to: Place, e: Ptr)
  {
    && AllFlags(handles, flags, to.bot, to.mid, to.top) && e in flags && e in handles
    && Sum(handles, to.bot) + (if flags[e] == Bottom then ChargeOf(handles, e) else 0) == Sum(handles, bot)
    && Sum(handles, to.mid) + (if flags[e] == Low then ChargeOf(handles, e) else 0) == Sum(handles, mid)
    && Sum(handles, to.top) + (if flags[e] == High then ChargeOf(handles, e) else 0) == Sum(handles, top)
  }

  lemma TakeBottom(handles: map<Ptr, Handle>, flags: map<Ptr, Priority>, bot: seq<Ptr>, mid: seq<Ptr>, top: seq<Ptr>,
                   i: nat)
    requires AllFlags(handles, flags, bot, mid, top) && i < |bot|
    ensures var to := Place(Removed(bot, i), mid, top, i);
            LeftOut(bot, mid, top, to, bot[i]) && RunsShrink(handles, flags, bot, mid, top, to, bot[i])
  {
    TakePlace(bot, mid, top, i);
    SumRemoved(handles, bot, i);
    FlagsRemoved(handles, flags, bot, i, Bottom);
  }

  lemma TakeLow(handles: map<Ptr, Handle>, flags: map<Ptr, Priority>, bot: seq<Ptr>, mid: seq<Ptr>, top: seq<Ptr>,
                i: nat)
    requires AllFlags(handles, flags, bot, mid, top) && i < |mid|
    ensures var to := Place(bot, Removed(mid, i), top, |bot| + i);
            LeftOut(bot, mid, top, to, mid[i]) && RunsShrink(handles, flags, bot, mid, top, to, mid[i])
  {
    TakePlace(bot, mid, top, |bot| + i);
    SumRemoved(handles, mid, i);
    FlagsRemoved(handles, flags, mid, i, Low);
  }

  lemma TakeHigh(handles: map<Ptr, Handle>, flags: map<Ptr, Priority>, bot: seq<Ptr>, mid: seq<Ptr>, top: seq<Ptr>,
                 i: nat)
    requires AllFlags(handles, flags, bot, mid, top) && i < |top|
    ensures var to := Place(bot, mid, Removed(top, i), |bot| + |mid| + i);
            LeftOut(bot, mid, top, to, top[i]) && RunsShrink(handles, flags, bot, mid, top, to, top[i])
  {
    TakePlace(bot, mid, top, |bot| + |mid| + i);
    SumRemoved(handles, top, i);
    FlagsRemoved(handles, flags, top, i, High);
  }

  lemma TakeFromRun(handles: map<Ptr, Handle>, flags: map<Ptr, Priority>, bot: seq<Ptr>, mid: seq<Ptr>, top: seq<Ptr>,
                    e: Ptr)
    returns (to: Place)
    requires e in Whole(bot, mid, top) && AllFlags(handles, flags, bot, mid, top)
    ensures LeftOut(bot, mid, top, to, e) && RunsShrink(handles, flags, bot, mid, top, to, e)
  {
    WholeMembers(bot, mid, top, e);
    if e in bot {
      var i := PositionOf(bot, e);
      to := Place(Removed(bot, i), mid, top, i);
      TakeBottom(handles, flags, bot, mid, top, i);
    } else if e in mid {
      var i := PositionOf(mid, e);
      to := Place(bot, Removed(mid, i), top, |bot| + i);
      TakeLow(handles, flags, bot, mid, top, i);
    } else {
      var i := PositionOf(top, e);
      to := Place(bot, mid, Removed(top, i), |bot| + |mid| + i);
      TakeHigh(handles, flags, bot, mid, top, i);
    }
  }

  lemma TakePlace(bot: seq<Ptr>, mid: seq<Ptr>, top: seq<Ptr>, k: nat)
    requires k < |Whole(bot, mid, top)|
    ensures var w, w' := Whole(bot, mid, top), Removed(Whole(bot, mid, top), k);
            var b, m := |bot|, |bot| + |mid|;
            && w[k] == (if k < b then bot[k] else if k < m then mid[k - b] else top[k - m])
            && (k < b ==> Whole(Removed(bot, k), mid, top) == w' && Removed(bot, k) + mid == Removed(bot + mid, k))
            && (b <= k < m ==>
               Whole(bot, Removed(mid, k - b), top) == w' && bot + Removed(mid, k - b) == Removed(bot + mid, k))
            && (m <= k ==> Whole(bot, mid, Removed(top, k - m)) == w')
  {
  }

  lemma FlagsRemoved(handles: map<Ptr, Handle>, flags: map<Ptr, Priority>, run: seq<Ptr>, i: nat, pri: Priority)
    requires RunFlags(handles, flags, run, pri) && i < |run|
    ensures RunFlags(handles, flags, Removed(run, i), pri)
    ensures run[i] in handles && run[i] in flags && flags[run[i]] == pri
  {
    assert run[i] in run;
    SpreadFlags(handles, flags, run, pri);
    forall p | p in Removed(run, i)
      ensures p in run
    {
    }
  }

  /** Where the cursor of a prefix goes when entry `k` of the ring leaves. */
  lemma CursorTake(w: seq<Ptr>, run: seq<Ptr>, rest: seq<Ptr>, k: nat, run': seq<Ptr>)
    requires w == run + rest && Distinct([HEAD] + w) && k < |w|
    requires run' == if k < |run| then Removed(run, k) else run
    ensures Cursor(run') == if Cursor(run) == w[k] then ([HEAD] + w)[k] else Cursor(run)
  {
    var c := [HEAD] + w;
    assert c[k + 1] == w[k];
    CursorAt(run, rest);
    if k < |run| {
      CursorBack(c, run, k);
    } else {
      assert c[|run|] == Cursor(run);
      assert Differ(c, |run|, k + 1);
    }
  }

  /** The cursors after entry `k` of the ring left. */
  lemma CutTake(bot: seq<Ptr>, mid: seq<Ptr>, top: seq<Ptr>, bottom: Ptr, low: Ptr, to: Place, e: Ptr, before: Ptr)
    requires Distinct([HEAD] + Whole(bot, mid, top)) && Cut(bot, mid, bottom, low)
    requires LeftOut(bot, mid, top, to, e) && before == ([HEAD] + Whole(bot, mid, top))[to.k]
    ensures Cut(to.bot, to.mid, if bottom == e then before else bottom, if low == e then before else low)
  {
    var w := Whole(bot, mid, top);
    BottomFirst(bot, mid, top);
    CursorTake(w, bot, mid + top, to.k, to.bot);
    CursorTake(w, bot + mid, top, to.k, to.bot + to.mid);
  }

  lemma BottomFirst(bot: seq<Ptr>, mid: seq<Ptr>, top: seq<Ptr>)
    ensures Whole(bot, mid, top) == bot + (mid + top)
  {
  }

  // ----- The file rings

  ghost predicate FileRing(handles: map<Ptr, Handle>, members: set<Ptr>, fnext: map<Ptr, Ptr>, fprev: map<Ptr, Ptr>,
                           head: Ptr, c: seq<Ptr>, id: FileId)
  {
    && head in c && IsRing(fnext, fprev, c)
    && forall p {:trigger p in c} :: p in c <==> p in members && p in handles && handles[p].key.file == id
  }

  ghost predicate Alone(fnext: map<Ptr, Ptr>, fprev: map<Ptr, Ptr>, p: Ptr) {
    p in fnext && p in fprev && fnext[p] == p && fprev[p] == p
  }

  ghost predicate FileListed(handles: map<Ptr, Handle>, members: set<Ptr>, fnext: map<Ptr, Ptr>, fprev: map<Ptr, Ptr>,
                             files: map<FileId, Ptr>, rings: map<FileId, seq<Ptr>>, id: FileId)
  {
    id in files ==> id in rings && FileRing(handles, members, fnext, fprev, files[id], rings[id], id)
  }

  /** A member's file has a ring; any other handle is linked to itself. */
  ghost predicate FilePlace(handles: map<Ptr, Handle>, members: set<Ptr>, fnext: map<Ptr, Ptr>, fprev: map<Ptr, Ptr>,
                            files: map<FileId, Ptr>, p: Ptr)
  {
    p in handles ==> if p in members then handles[p].key.file in files else Alone(fnext, fprev, p)
  }

  /** Each file ring holds exactly the members that belong to the file. */
  datatype Files = Files(fnext: map<Ptr, Ptr>, fprev: map<Ptr, Ptr>, files: map<FileId, Ptr>,
                         rings: map<FileId, seq<Ptr>>)

  ghost predicate FilesOk(handles: map<Ptr, Handle>, members: set<Ptr>, fnext: map<Ptr, Ptr>, fprev: map<Ptr, Ptr>,
                          files: map<FileId, Ptr>, rings: map<FileId, seq<Ptr>>)
  {
    FilesHold(handles, members, Files(fnext, fprev, files, rings))
  }

  ghost predicate FilesHold(handles: map<Ptr, Handle>, members: set<Ptr>, f: Files) {
    match f
    case Files(fnext, fprev, files, rings) =>
    && (forall id {:trigger FileListed(handles, members, fnext, fprev, files, rings, id)} ::
          FileListed(handles, members, fnext, fprev, files, rings, id))
    && (forall p {:trigger FilePlace(handles, members, fnext, fprev, files, p)} ::
          FilePlace(handles, members, fnext, fprev, files, p))
  }

  /** Handles come and go outside the rings. */
  lemma FilesFrame(handles: map<Ptr, Handle>, handles': map<Ptr, Handle>, members: set<Ptr>,
                   fnext: map<Ptr, Ptr>, fprev: map<Ptr, Ptr>, fnext': map<Ptr, Ptr>, fprev': map<Ptr, Ptr>,
                   files: map<FileId, Ptr>, rings: map<FileId, seq<Ptr>>, e: Ptr)
    requires FilesOk(handles, members, fnext, fprev, files, rings) && e !in members
    requires forall p {:trigger p in handles} {:trigger p in handles'} :: p != e ==> (p in handles <==> p in handles')
    requires forall p :: p in handles && p != e && p in handles' ==> handles'[p] == handles[p]
    requires forall p {:trigger p in fnext} {:trigger p in fnext'} :: p != e && p in fnext ==>
             p in fnext' && fnext'[p] == fnext[p]
    requires forall p {:trigger p in fprev} {:trigger p in fprev'} :: p != e && p in fprev ==>
             p in fprev' && fprev'[p] == fprev[p]
    requires e in handles' ==> Alone(fnext', fprev', e)
    ensures FilesOk(handles', members, fnext', fprev', files, rings)
  {
    forall id
      ensures FileListed(handles', members, fnext', fprev', files, rings, id)
    {
      assert FileListed(handles, members, fnext, fprev, files, rings, id);
      if id in files {
        forall x | x in rings[id]
          ensures x in fnext && x in fprev
        {
          RingMembers(fnext, fprev, rings[id], x);
        }
        RingFrame(fnext, fprev, fnext', fprev', rings[id]);
      }
    }
    forall p
      ensures FilePlace(handles', members, fnext', fprev', files, p)
    {
      assert FilePlace(handles, members, fnext, fprev, files, p);
    }
  }

  /** A file ring other than the one that changed. */
  lemma OtherFile(handles: map<Ptr, Handle>, members: set<Ptr>, members': set<Ptr>,
                  fnext: map<Ptr, Ptr>, fprev: map<Ptr, Ptr>, fnext': map<Ptr, Ptr>, fprev': map<Ptr, Ptr>,
                  head: Ptr, c: seq<Ptr>, id: FileId, e: Ptr)
    requires FileRing(handles, members, fnext, fprev, head, c, id)
    requires e in handles && handles[e].key.file != id
    requires forall p {:trigger p in members'} :: p != e ==> (p in members' <==> p in members)
    requires forall p {:trigger p in fnext} :: p in handles && p in fnext && handles[p].key.file == id ==>
             p in fnext' && fnext'[p] == fnext[p]
    requires forall p {:trigger p in fprev} :: p in handles && p in fprev && handles[p].key.file == id ==>
             p in fprev' && fprev'[p] == fprev[p]
    ensures FileRing(handles, members', fnext', fprev', head, c, id)
  {
    forall x | x in c
      ensures x in fnext && x in fprev
    {
      RingMembers(fnext, fprev, c, x);
    }
    RingFrame(fnext, fprev, fnext', fprev', c);
  }

  // ----- Linking into and out of a file ring

  ghost predicate SameFile(handles: map<Ptr, Handle>, e: Ptr, p: Ptr) {
    p in handles && e in handles && handles[p].key.file == handles[e].key.file
  }

  /** Only links of handles of the file of `e` change. */
  ghost predicate OnlyFileOf(handles: map<Ptr, Handle>, e: Ptr, m: map<Ptr, Ptr>, m': map<Ptr, Ptr>) {
    forall p {:trigger p in m} {:trigger p in m'} :: p in m && !SameFile(handles, e, p) ==> p in m' && m'[p] == m[p]
  }

  ghost predicate OnlyEntry(files: map<FileId, Ptr>, files': map<FileId, Ptr>, id: FileId) {
    forall x {:trigger x in files} {:trigger x in files'} :: x != id ==>
      (x in files <==> x in files') && (x in files ==> x in files' && files'[x] == files[x])
  }

  /** One file ring changes as `e` becomes or stops being a member, the others stay. */
  lemma FilesChange(handles: map<Ptr, Handle>, members: set<Ptr>, members': set<Ptr>,
                    fnext: map<Ptr, Ptr>, fprev: map<Ptr, Ptr>, fnext': map<Ptr, Ptr>, fprev': map<Ptr, Ptr>,
                    files: map<FileId, Ptr>, files': map<FileId, Ptr>,
                    rings: map<FileId, seq<Ptr>>, rings': map<FileId, seq<Ptr>>, e: Ptr)
    requires FilesOk(handles, members, fnext, fprev, files, rings) && e in handles
    requires forall p {:trigger p in members'} :: p != e ==> (p in members' <==> p in members)
    requires OnlyFileOf(handles, e, fnext, fnext') && OnlyFileOf(handles, e, fprev, fprev')
    requires OnlyEntry(files, files', handles[e].key.file)
    requires forall x {:trigger x in rings'} :: x != handles[e].key.file && x in rings ==>
             x in rings' && rings'[x] == rings[x]
    requires FileListed(handles, members', fnext', fprev', files', rings', handles[e].key.file)
    requires forall p {:trigger SameFile(handles, e, p)} :: SameFile(handles, e, p) ==>
             FilePlace(handles, members', fnext', fprev', files', p)
    ensures FilesOk(handles, members', fnext', fprev', files', rings')
  {
    forall id
      ensures FileListed(handles, members', fnext', fprev', files', rings', id)
    {
      assert FileListed(handles, members, fnext, fprev, files, rings, id);
      if id != handles[e].key.file && id in files' {
        assert id in files;
        OtherFile(handles, members, members', fnext, fprev, fnext', fprev', files[id], rings[id], id, e);
      }
    }
    forall p
      ensures FilePlace(handles, members', fnext', fprev', files', p)
    {
      assert FilePlace(handles, members, fnext, fprev, files, p);
      assert SameFile(handles, e, e);
      if p in handles && !SameFile(handles, e, p) {
        assert p != e;
      }
    }
  }

  /** Linking `e` before the head of its file's ring. */
  lemma FileLinked(handles: map<Ptr, Handle>, members: set<Ptr>,
                   fnext: map<Ptr, Ptr>, fprev: map<Ptr, Ptr>, fnext': map<Ptr, Ptr>, fprev': map<Ptr, Ptr>,
                   files: map<FileId, Ptr>, rings: map<FileId, seq<Ptr>>,
                     e: Ptr) returns (rings': map<FileId, seq<Ptr>>)
    requires FilesOk(handles, members, fnext, fprev, files, rings)
    requires e in handles && e !in members && handles[e].key.file in files
    requires var head := files[handles[e].key.file];
             && head in fprev
             && fnext' == fnext[e := head][fprev[head] := e]
             && fprev' == fprev[e := fprev[head]][head := e]
    ensures FilesOk(handles, members + {e}, fnext', fprev', files, rings')
  {
    var id := handles[e].key.file;
    var head := files[id];
    assert FileListed(handles, members, fnext, fprev, files, rings, id);
    var c := rings[id];
    var h := PositionOf(c, head);
    var k := if h == 0 then |c| - 1 else h - 1;
    assert JoinedAt(fnext, fprev, c, k);
    InsertKeepsRing(fnext, fprev, c, k, e, fnext', fprev');
    InsertedDistinct(c, k, e);
    rings' := rings[id := Inserted(c, k, e)];
    assert c[k] in c && c[h] in c;
    FilesLinkedPlaces(handles, members, fnext, fprev, fnext', fprev', files, rings, e);
    FilesChange(handles, members, members + {e}, fnext, fprev, fnext', fprev', files, files, rings, rings', e);
  }

  lemma FilesLinkedPlaces(handles: map<Ptr, Handle>, members: set<Ptr>,
                   fnext: map<Ptr, Ptr>, fprev: map<Ptr, Ptr>, fnext': map<Ptr, Ptr>, fprev': map<Ptr, Ptr>,
                   files: map<FileId, Ptr>, rings: map<FileId, seq<Ptr>>, e: Ptr)
    requires FilesOk(handles, members, fnext, fprev, files, rings)
    requires e in handles && e !in members && handles[e].key.file in files
    requires var head := files[handles[e].key.file];
             && head in fprev && head in members && fprev[head] in members
             && fnext' == fnext[e := head][fprev[head] := e]
             && fprev' == fprev[e := fprev[head]][head := e]
    ensures forall p {:trigger SameFile(handles, e, p)} :: SameFile(handles, e, p) ==>
            FilePlace(handles, members + {e}, fnext', fprev', files, p)
  {
    forall p | SameFile(handles, e, p)
      ensures FilePlace(handles, members + {e}, fnext', fprev', files, p)
    {
      assert FilePlace(handles, members, fnext, fprev, files, p);
    }
  }

  /** The first entry of a file starts its ring. */
  lemma FileStarted(handles: map<Ptr, Handle>, members: set<Ptr>, fnext: map<Ptr, Ptr>, fprev: map<Ptr, Ptr>,
                    files: map<FileId, Ptr>, rings: map<FileId, seq<Ptr>>, e: Ptr)
    requires FilesOk(handles, members, fnext, fprev, files, rings)
    requires e in handles && e !in members && handles[e].key.file !in files
    ensures var id := handles[e].key.file;
            FilesOk(handles, members + {e}, fnext, fprev, files[id := e], rings[id := [e]])
  {
    var id := handles[e].key.file;
    var members' := members + {e};
    var files' := files[id := e];
    var rings' := rings[id := [e]];
    assert FilePlace(handles, members, fnext, fprev, files, e);
    assert IsRing(fnext, fprev, [e]) by {
      forall i: nat
        ensures JoinedAt(fnext, fprev, [e], i)
      {
      }
    }
    forall p
      ensures p in [e] <==> p in members' && p in handles && handles[p].key.file == id
    {
      assert FilePlace(handles, members, fnext, fprev, files, p);
    }
    assert FileListed(handles, members', fnext, fprev, files', rings', id);
    forall p | SameFile(handles, e, p)
      ensures FilePlace(handles, members', fnext, fprev, files', p)
    {
      assert FilePlace(handles, members, fnext, fprev, files, p);
    }
    FilesChange(handles, members, members', fnext, fprev, fnext, fprev, files, files', rings, rings', e);
  }

  /** Facts about the place of a member in its file's ring. */
  lemma FilePosition(handles: map<Ptr, Handle>, members: set<Ptr>, fnext: map<Ptr, Ptr>, fprev: map<Ptr, Ptr>,
                     files: map<FileId, Ptr>, rings: map<FileId, seq<Ptr>>, e: Ptr)
    requires FilesOk(handles, members, fnext, fprev, files, rings) && e in handles && e in members
    ensures var id := handles[e].key.file;
            && id in files && id in rings && e in rings[id]
            && FileRing(handles, members, fnext, fprev, files[id], rings[id], id)
            && e in fnext && e in fprev && fnext[e] in rings[id] && fprev[e] in rings[id]
            && (fnext[e] == e <==> |rings[id]| == 1)
            && (fnext[e] == e ==> fprev[e] == e)
  {
    var id := handles[e].key.file;
    assert FilePlace(handles, members, fnext, fprev, files, e);
    assert FileListed(handles, members, fnext, fprev, files, rings, id);
    RingMembers(fnext, fprev, rings[id], e);
  }

  lemma PrevNotSelf(next: map<Ptr, Ptr>, prev: map<Ptr, Ptr>, c: seq<Ptr>, x: Ptr)
    requires IsRing(next, prev, c) && x in c && |c| > 1
    ensures x in prev && prev[x] != x
  {
    var i := PositionOf(c, x);
    var before := if i == 0 then |c| - 1 else i - 1;
    Spread(c);
    assert JoinedAt(next, prev, c, before);
  }

  /** The four writes that take `e` out of its file's ring and link it to itself. */
  ghost predicate FileUnlink(fnext: map<Ptr, Ptr>, fprev: map<Ptr, Ptr>, fnext': map<Ptr, Ptr>, fprev': map<Ptr, Ptr>,
                             e: Ptr) {
    && e in fnext && e in fprev
    && fnext' == fnext[fprev[e] := fnext[e]][e := e]
    && fprev' == fprev[fnext[e] := fprev[e]][e := e]
  }

  lemma FileUnlinked(handles: map<Ptr, Handle>, members: set<Ptr>,
                     fnext: map<Ptr, Ptr>, fprev: map<Ptr, Ptr>, fnext': map<Ptr, Ptr>, fprev': map<Ptr, Ptr>,
                     files: map<FileId, Ptr>, rings: map<FileId, seq<Ptr>>,
                       e: Ptr) returns (rings': map<FileId, seq<Ptr>>)
    requires FilesOk(handles, members, fnext, fprev, files, rings) && e in handles && e in members
    requires FileUnlink(fnext, fprev, fnext', fprev', e) && fnext[e] != e
    ensures FilesOk(handles, members - {e}, fnext', fprev', files[handles[e].key.file := fnext[e]], rings')
  {
    var id := handles[e].key.file;
    FilePosition(handles, members, fnext, fprev, files, rings, e);
    var c := rings[id];
    PrevNotSelf(fnext, fprev, c, e);
    var k := PositionOf(c, e);
    assert Unlinked(fnext, fprev, c, e, fnext', fprev');
    RemoveKeepsRing(fnext, fprev, c, k, fnext', fprev');
    RemovedDistinct(c, k);
    rings' := rings[id := Removed(c, k)];
    var files' := files[id := fnext[e]];
    forall p | SameFile(handles, e, p)
      ensures FilePlace(handles, members - {e}, fnext', fprev', files', p)
    {
      assert FilePlace(handles, members, fnext, fprev, files, p);
      if p !in members {
        assert p !in c && p != e && p != fnext[e] && p != fprev[e];
      }
    }
    FilesChange(handles, members, members - {e}, fnext, fprev, fnext', fprev', files, files', rings, rings', e);
  }

  lemma FileEnded(handles: map<Ptr, Handle>, members: set<Ptr>,
                  fnext: map<Ptr, Ptr>, fprev: map<Ptr, Ptr>, fnext': map<Ptr, Ptr>, fprev': map<Ptr, Ptr>,
                  files: map<FileId, Ptr>, rings: map<FileId, seq<Ptr>>, e: Ptr)
    requires FilesOk(handles, members, fnext, fprev, files, rings) && e in handles && e in members
    requires FileUnlink(fnext, fprev, fnext', fprev', e) && fnext[e] == e
    ensures FilesOk(handles, members - {e}, fnext', fprev', files - {handles[e].key.file}, rings)
  {
    var id := handles[e].key.file;
    FilePosition(handles, members, fnext, fprev, files, rings, e);
    var c := rings[id];
    assert fnext' == fnext && fprev' == fprev;
    var files' := files - {id};
    forall p | SameFile(handles, e, p)
      ensures FilePlace(handles, members - {e}, fnext', fprev', files', p)
    {
      assert FilePlace(handles, members, fnext, fprev, files, p);
      if p in members {
        assert p in c && c[0] == e && p == e;
      }
    }
    FilesChange(handles, members, members - {e}, fnext, fprev, fnext', fprev', files, files', rings, rings, e);
  }
}
