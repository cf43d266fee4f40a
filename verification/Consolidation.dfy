/**
 The iterators and loops that consolidate, scan and read a chain
 (photondb/src/tree/page.rs; photondb/src/tree/mod.rs `find_value`, `find_child`, `iter_page`,
 `collect_consolidation_info`, `consolidate_page_impl`).
 */
module Consolidation {
  import opened Options
  import opened Data
  import opened Pages
  import opened LeafChain
  import opened InnerChain
  import opened Merge
  import opened Filters


  // ----- Pages of a chain

  function LeafPages(chain: seq<Body>): seq<seq<Version>> {
    if chain == [] then []
    else (if chain[0].LeafData? then [chain[0].items] else []) + LeafPages(chain[1..])
  }

  function InnerPages(chain: seq<Body>): seq<seq<Entry>> {
    if chain == [] then []
    else (if chain[0].InnerData? then [chain[0].entries] else []) + InnerPages(chain[1..])
  }

  function VersionKey(v: Version): Key {
    v.key
  }

  function EntryKey(e: Entry): Key {
    Key(e.key, 0)
  }

  function Firsts<T>(s: seq<(T, nat)>): (r: seq<T>)
    ensures |r| == |s| && forall i :: 0 <= i < |s| ==> r[i] == s[i].0
  {
    seq(|s|, i requires 0 <= i < |s| => s[i].0)
  }

  // ----- The merge of a leaf chain

  lemma {:induction false} LeafPagesAt(chain: seq<Body>, i: nat)
    requires LeafOk(chain) && i < |LeafPages(chain)|
    ensures SortedVersions(LeafPages(chain)[i])
    ensures ItemSet(LeafPages(chain)[i]) <= Contents(chain)
    ensures forall j, v: Version, w: Version ::
              i < j < |LeafPages(chain)| && v in LeafPages(chain)[i] && w in LeafPages(chain)[j] ==> v.key != w.key
  {
    var P, Q := LeafPages(chain), LeafPages(chain[1..]);
    if chain[0].LeafData? {
      assert P == [chain[0].items] + Q;
      if i > 0 {
        LeafPagesAt(chain[1..], i - 1);
        assert P[i] == Q[i - 1] && forall j :: 0 < j < |P| ==> P[j] == Q[j - 1];
      } else {
        forall j, v: Version, w: Version | 0 < j < |P| && v in P[0] && w in P[j]
          ensures v.key != w.key
        {
          LeafPagesAt(chain[1..], j - 1);
          assert P[j] == Q[j - 1] && v in BodySet(chain[0]) && w in Contents(chain[1..]);
        }
      }
    } else {
      assert P == Q;
      LeafPagesAt(chain[1..], i);
    }
  }

  lemma {:induction false} LeafPagesContents(chain: seq<Body>, v: Version)
    ensures v in Contents(chain) <==> exists i :: 0 <= i < |LeafPages(chain)| && v in LeafPages(chain)[i]
  {
    if chain != [] {
      LeafPagesContents(chain[1..], v);
      var P, Q := LeafPages(chain), LeafPages(chain[1..]);
      if chain[0].LeafData? {
        assert P == [chain[0].items] + Q;
        if i :| 0 <= i < |Q| && v in Q[i] {
          assert v in P[i + 1];
        }
        if v in chain[0].items {
          assert v in P[0];
        }
      } else {
        assert P == Q;
      }
    }
  }

  lemma LeafPagesSorted(chain: seq<Body>)
    requires LeafOk(chain)
    ensures forall i {:trigger LeafPages(chain)[i]} :: 0 <= i < |LeafPages(chain)| ==>
            SortedBy(LeafPages(chain)[i], VersionKey)
  {
    forall i | 0 <= i < |LeafPages(chain)|
      ensures SortedBy(LeafPages(chain)[i], VersionKey)
    {
      LeafPagesAt(chain, i);
    }
  }

  lemma LeafMergeSorted(chain: seq<Body>)
    requires LeafOk(chain)
    ensures SortedVersions(Firsts(Merged(LeafPages(chain), VersionKey)))
  {
    var P := LeafPages(chain);
    var R := Merged(P, VersionKey);
    var M := Firsts(R);
    LeafPagesSorted(chain);
    MergeIsSorted(P, Zeros(|P|), VersionKey);
    MergeRanks(P, Zeros(|P|), VersionKey);
    forall i, j | 0 <= i < j < |M|
      ensures KeyLess(M[i].key, M[j].key)
    {
      if R[i].1 < R[j].1 {
        MergedItems(P, VersionKey, R[i].0, R[i].1);
        MergedItems(P, VersionKey, R[j].0, R[j].1);
        LeafPagesAt(chain, R[i].1);
      }
    }
  }

  lemma LeafMergeContents(chain: seq<Body>, v: Version)
    requires LeafOk(chain)
    ensures v in ItemSet(Firsts(Merged(LeafPages(chain), VersionKey))) <==> v in Contents(chain)
  {
    var P := LeafPages(chain);
    var R := Merged(P, VersionKey);
    var M := Firsts(R);
    LeafPagesContents(chain, v);
    if v in M {
      var i :| 0 <= i < |M| && M[i] == v;
      MergedItems(P, VersionKey, v, R[i].1);
    }
    if v in Contents(chain) {
      var i :| 0 <= i < |P| && v in P[i];
      MergedItems(P, VersionKey, v, i);
      var k :| 0 <= k < |R| && R[k] == (v, i);
      assert M[k] == v;
    }
  }

  /** The merged leaf pages are the chain's versions in key order. */
  lemma LeafMerge(chain: seq<Body>)
    requires LeafOk(chain)
    ensures var M := Firsts(Merged(LeafPages(chain), VersionKey));
            SortedVersions(M) && ItemSet(M) == Contents(chain)
  {
    LeafMergeSorted(chain);
    var M := Firsts(Merged(LeafPages(chain), VersionKey));
    forall v
      ensures v in ItemSet(M) <==> v in Contents(chain)
    {
      LeafMergeContents(chain, v);
    }
  }

  // ----- The merge of an inner chain

  /** The index of the first page that gives the key one. */
  ghost function PagesIndex(P: seq<seq<Entry>>, key: RawKey): Option<Index> {
    if P == [] then None
    else if PageIndex(P[0], key).Some? then PageIndex(P[0], key)
    else PagesIndex(P[1..], key)
  }

  lemma {:induction false} NewestIndexOfPages(chain: seq<Body>, key: RawKey)
    ensures NewestIndex(chain, key) == PagesIndex(InnerPages(chain), key)
  {
    if chain != [] {
      NewestIndexOfPages(chain[1..], key);
      if chain[0].InnerData? {
        assert InnerPages(chain)[1..] == InnerPages(chain[1..]);
      } else {
        assert InnerPages(chain) == InnerPages(chain[1..]);
      }
    }
  }

  lemma {:induction false} InnerPagesSorted(chain: seq<Body>, i: nat)
    requires SortedInner(chain) && i < |InnerPages(chain)|
    ensures SortedBy(InnerPages(chain)[i], EntryKey)
  {
    if chain[0].InnerData? {
      assert SortedEntries(chain[0].entries);
      if i > 0 {
        InnerPagesSorted(chain[1..], i - 1);
      }
    } else {
      InnerPagesSorted(chain[1..], i);
    }
  }

  lemma {:induction false} PagesIndexWitness(P: seq<seq<Entry>>, key: RawKey) returns (i: nat)
    requires PagesIndex(P, key).Some?
    ensures i < |P| && Entry(key, PagesIndex(P, key).value) in P[i] && PagesIndex(P, key).value != NULL_INDEX
    ensures forall j :: 0 <= j < i ==> PageIndex(P[j], key) == None
  {
    if PageIndex(P[0], key).Some? {
      i := 0;
      var k :| 0 <= k < |P[0]| && P[0][k].key == key && P[0][k].index != NULL_INDEX &&
        Some(P[0][k].index) == PageIndex(P[0], key);
      assert P[0][k] == Entry(key, PagesIndex(P, key).value);
    } else {
      var k := PagesIndexWitness(P[1..], key);
      i := k + 1;
      forall j | 0 <= j < i
        ensures PageIndex(P[j], key) == None
      {
        assert j > 0 ==> P[j] == P[1..][j - 1];
      }
    }
  }

  lemma {:induction false} PagesIndexNone(P: seq<seq<Entry>>, key: RawKey, i: nat, x: Index)
    requires PagesIndex(P, key) == None && i < |P| && Entry(key, x) in P[i]
    ensures x == NULL_INDEX
  {
    if i > 0 {
      assert P[i] == P[1..][i - 1];
      PagesIndexNone(P[1..], key, i - 1, x);
    }
  }

  lemma {:induction false} FirstIndexIs(M: seq<Entry>, key: RawKey, i: nat)
    requires i < |M| && M[i].key == key && M[i].index != NULL_INDEX
    requires forall j :: 0 <= j < i ==> M[j].key != key || M[j].index == NULL_INDEX
    ensures FirstIndex(M, key) == Some(M[i].index)
  {
    if i > 0 {
      FirstIndexIs(M[1..], key, i - 1);
    }
  }

  lemma {:induction false} FirstIndexNone(M: seq<Entry>, key: RawKey)
    requires forall i :: 0 <= i < |M| && M[i].key == key ==> M[i].index == NULL_INDEX
    ensures FirstIndex(M, key) == None
  {
    if M != [] {
      FirstIndexNone(M[1..], key);
    }
  }

  /** In the merge, the first index of a key is the one of the newest page that has it. */
  lemma MergedFirstIndex(P: seq<seq<Entry>>, key: RawKey)
    requires forall i :: 0 <= i < |P| ==> SortedBy(P[i], EntryKey)
    ensures FirstIndex(Firsts(Merged(P, EntryKey)), key) == PagesIndex(P, key)
  {
    var R := Merged(P, EntryKey);
    var M := Firsts(R);
    MergeIsSorted(P, Zeros(|P|), EntryKey);
    MergeRanks(P, Zeros(|P|), EntryKey);
    var x := PagesIndex(P, key);
    if x.Some? {
      var rank := PagesIndexWitness(P, key);
      MergedItems(P, EntryKey, Entry(key, x.value), rank);
      var i :| 0 <= i < |R| && R[i] == (Entry(key, x.value), rank);
      forall j | 0 <= j < i
        ensures M[j].key != key || M[j].index == NULL_INDEX
      {
        if M[j].key == key {
          assert R[j].1 < rank;
          MergedItems(P, EntryKey, R[j].0, R[j].1);
          assert PageIndex(P[R[j].1], key) == None;
        }
      }
      FirstIndexIs(M, key, i);
    } else {
      forall i | 0 <= i < |M| && M[i].key == key
        ensures M[i].index == NULL_INDEX
      {
        MergedItems(P, EntryKey, R[i].0, R[i].1);
        PagesIndexNone(P, key, R[i].1, M[i].index);
      }
      FirstIndexNone(M, key);
    }
  }

  /** The inner iterator writes exactly the newest index of every start key below the limit. */
  lemma InnerFilterConsolidates(chain: seq<Body>)
    requires SortedInner(chain)
    ensures InnerConsolidated(chain, InnerFilter(CutEntries(Firsts(Merged(InnerPages(chain), EntryKey)),
            SplitLimit(chain)), None))
  {
    var P := InnerPages(chain);
    forall i | 0 <= i < |P|
      ensures SortedBy(P[i], EntryKey)
    {
      InnerPagesSorted(chain, i);
    }
    MergeIsSorted(P, Zeros(|P|), EntryKey);
    var M := Firsts(Merged(P, EntryKey));
    var C := CutEntries(M, SplitLimit(chain));
    assert Ascending(M);
    CutEntriesFirst(M, SplitLimit(chain), 0.0);
    InnerFilterSorted(C, None);
    forall key: RawKey, x: Index
      ensures Entry(key, x) in InnerFilter(C, None) <==>
              NewestIndex(chain, key) == Some(x) && Below(key, SplitLimit(chain))
    {
      CutEntriesFirst(M, SplitLimit(chain), key);
      InnerFilterItems(C, None, key, x);
      NewestIndexOfPages(chain, key);
      MergedFirstIndex(P, key);
    }
  }

  // ----- Seeks

  /** A seek in the merge of versions leaves those that are not before the target. */
  lemma SeekVersions(R: seq<(Version, nat)>, target: Key)
    requires SortedVersions(Firsts(R))
    ensures var N := Firsts(SkipBelow(R, VersionKey, target));
            SortedVersions(N) && forall v :: v in N <==> v in Firsts(R) && !KeyLess(v.key, target)
  {
    var M, N := Firsts(R), Firsts(SkipBelow(R, VersionKey, target));
    var k := SkipBelowIs(R, VersionKey, target);
    assert N == M[k..];
    forall v
      ensures v in N <==> v in M && !KeyLess(v.key, target)
    {
      if v in M {
        var i :| 0 <= i < |M| && M[i] == v;
        if i < k {
          assert KeyLess(VersionKey(R[i].0), target);
        } else {
          assert M[k..][i - k] == v;
          assert k < i ==> KeyLess(M[k].key, v.key);
        }
      }
    }
  }

  /** A seek in the merge of entries leaves those that do not start before the target. */
  lemma SeekEntries(R: seq<(Entry, nat)>, target: RawKey, key: RawKey)
    requires Ascending(Firsts(R))
    ensures var N := Firsts(SkipBelow(R, EntryKey, Key(target, 0)));
            && Ascending(N)
            && FirstIndex(N, key) == if target <= key then FirstIndex(Firsts(R), key) else None
  {
    var M, N := Firsts(R), Firsts(SkipBelow(R, EntryKey, Key(target, 0)));
    var k := SkipBelowIs(R, EntryKey, Key(target, 0));
    assert N == M[k..];
    if target <= key {
      forall i | 0 <= i < k
        ensures M[i].key != key
      {
        assert KeyLess(EntryKey(R[i].0), Key(target, 0));
      }
      FirstIndexSkip(M, k, key);
    } else {
      assert k < |M| ==> target <= M[k].key;
      AbsentIndex(N, key);
    }
  }

  lemma {:induction false} FirstIndexSkip(M: seq<Entry>, k: nat, key: RawKey)
    requires k <= |M| && forall i :: 0 <= i < k ==> M[i].key != key
    ensures FirstIndex(M[k..], key) == FirstIndex(M, key)
  {
    if k > 0 {
      FirstIndexSkip(M[1..], k - 1, key);
      assert M[1..][k - 1..] == M[k..];
    }
  }

  /** The entries that do not start before the target. */
  function FromKey(items: seq<Entry>, target: RawKey): seq<Entry> {
    if items != [] && items[0].key < target then FromKey(items[1..], target) else items
  }

  lemma {:induction false} FromKeyItems(items: seq<Entry>, target: RawKey)
    requires SortedEntries(items)
    ensures SortedEntries(FromKey(items, target))
    ensures forall e :: e in FromKey(items, target) <==> e in items && target <= e.key
  {
    if items != [] {
      if items[0].key < target {
        FromKeyItems(items[1..], target);
        forall e
          ensures e in FromKey(items, target) <==> e in items && target <= e.key
        {
          assert e in items <==> e == items[0] || e in items[1..];
        }
      } else {
        assert forall e :: e in items ==> items[0].key <= e.key;
      }
    }
  }

  /** The inner iterator after a seek returns what it would return from the target on. */
  lemma SeekFilter(R: seq<(Entry, nat)>, limit: Option<RawKey>, target: RawKey)
    requires Ascending(Firsts(R))
    ensures InnerFilter(CutEntries(Firsts(SkipBelow(R, EntryKey, Key(target, 0))), limit), None)
            == FromKey(InnerFilter(CutEntries(Firsts(R), limit), None), target)
  {
    var M, N := Firsts(R), Firsts(SkipBelow(R, EntryKey, Key(target, 0)));
    SeekEntries(R, target, 0.0);
    CutEntriesFirst(M, limit, 0.0);
    CutEntriesFirst(N, limit, 0.0);
    var items, out := InnerFilter(CutEntries(M, limit), None), InnerFilter(CutEntries(N, limit), None);
    InnerFilterSorted(CutEntries(M, limit), None);
    InnerFilterSorted(CutEntries(N, limit), None);
    FromKeyItems(items, target);
    forall e
      ensures e in out <==> e in FromKey(items, target)
    {
      SeekEntries(R, target, e.key);
      CutEntriesFirst(M, limit, e.key);
      CutEntriesFirst(N, limit, e.key);
      assert e == Entry(e.key, e.index);
      InnerFilterItems(CutEntries(M, limit), None, e.key, e.index);
      InnerFilterItems(CutEntries(N, limit), None, e.key, e.index);
    }
    SortedListsEqual(out, FromKey(items, target));
  }

  // ----- The iterators

  /** `MergingPageIter` over leaves: the merge up to the range limit. */
  class LeafRangeIter {
    const iter: MergingIter<Version>
    const limit: Option<RawKey>

    ghost predicate Valid()
      reads this, iter
    {
      iter.Valid() && SortedVersions(Firsts(iter.Todo()))
    }

    ghost function Todo(): seq<Version>
      requires Valid()
      reads this, iter
    {
      Cut(Firsts(iter.Todo()), limit)
    }

    constructor (iter: MergingIter<Version>, limit: Option<RawKey>)
      requires iter.Valid() && SortedVersions(Firsts(iter.Todo()))
      ensures Valid() && this.iter == iter && this.limit == limit
    {
      this.iter, this.limit := iter, limit;
    }

    method Next() returns (r: Option<Version>)
      requires Valid()
      modifies iter
      ensures Valid()
      ensures old(Todo()) == [] ==> r == None && Todo() == []
      ensures old(Todo()) != [] ==> r == Some(old(Todo())[0]) && Todo() == old(Todo())[1..]
    {
      ghost var R := iter.Todo();
      ghost var M := Firsts(R);
      r := iter.Next();
      if R != [] {
        assert Firsts(iter.Todo()) == M[1..];
        TailOfSorted(M);
      } else {
        assert Firsts(iter.Todo()) == [];
      }
      if r.Some? && !Below(r.value.key.raw, limit) {
        if |M| > 1 {
          assert KeyLess(M[0].key, M[1].key) && M[1..][0] == M[1];
        }
        r := None;
      }
    }
  }

  /** The first item of what is left joins what was drained. */
  lemma MoveOne<T>(out: seq<T>, todo: seq<T>, rest: seq<T>, x: T)
    requires todo != [] && todo[0] == x && todo[1..] == rest
    ensures out + todo == out + [x] + rest
  {
    assert todo == [x] + rest;
  }

  /** `MergingLeafPageIter`. */
  class LeafIter {
    const iter: LeafRangeIter
    const safe: Lsn
    var last: Option<RawKey>
    var skip: bool

    ghost predicate Valid()
      reads this, iter, iter.iter
    {
      iter.Valid()
    }

    ghost function Todo(): seq<Version>
      requires Valid()
      reads this, iter, iter.iter
    {
      LeafFilter(iter.Todo(), safe, last, skip)
    }

    constructor (iter: LeafRangeIter, safe: Lsn)
      requires iter.Valid()
      ensures Valid() && this.iter == iter && this.safe == safe
      ensures Todo() == LeafFilter(iter.Todo(), safe, None, false)
    {
      this.iter, this.safe := iter, safe;
      last, skip := None, false;
    }

    method Next() returns (r: Option<Version>)
      requires Valid()
      modifies this, iter.iter
      ensures Valid()
      ensures old(Todo()) == [] ==> r == None && Todo() == []
      ensures old(Todo()) != [] ==> r == Some(old(Todo())[0]) && Todo() == old(Todo())[1..]
    {
      while true
        invariant Valid() && Todo() == old(Todo())
        decreases |iter.Todo()|
      {
        r := iter.Next();
        if r.None? {
          return;
        }
        var v := r.value;
        if last == Some(v.key.raw) {
          if skip {
            continue;
          }
          if v.key.lsn > safe {
            return;
          }
          skip := true;
          if v.value.Put? {
            return;
          }
          continue;
        }
        last := Some(v.key.raw);
        skip := v.key.lsn <= safe;
        if v.value.Delete? && v.key.lsn <= safe {
          continue;
        }
        return;
      }
    }

    /** Calls `Next` until it returns nothing, as the page builder does. */
    method Drain() returns (out: seq<Version>)
      requires Valid()
      modifies this, iter.iter
      ensures Valid()
      ensures out == old(Todo())
    {
      ghost var all := Todo();
      out := [];
      while true
        invariant Valid() && all == out + Todo()
        decreases |Todo()|
      {
        ghost var todo := Todo();
        var r := Next();
        if r.None? {
          return;
        }
        MoveOne(out, todo, Todo(), r.value);
        out := out + [r.value];
      }
    }
  }

  /** `PageIter`: what a scan at `lsn` returns. */
  class ScanIter {
    const iter: LeafRangeIter
    const lsn: Lsn
    var last: Option<RawKey>

    ghost predicate Valid()
      reads this, iter, iter.iter
    {
      iter.Valid()
    }

    ghost function Todo(): seq<(RawKey, Blob)>
      requires Valid()
      reads this, iter, iter.iter
    {
      ScanFilter(iter.Todo(), lsn, last)
    }

    constructor (iter: LeafRangeIter, lsn: Lsn)
      requires iter.Valid()
      ensures Valid() && this.iter == iter && this.lsn == lsn
      ensures Todo() == ScanFilter(iter.Todo(), lsn, None)
    {
      this.iter, this.lsn := iter, lsn;
      last := None;
    }

    /** To the first version of a key at or after `target` that is visible at the LSN of the scan. */
    method Seek(target: RawKey)
      requires Valid() && SortedVersions(Firsts(Merged(iter.iter.pages, iter.iter.key)))
      requires iter.iter.key == VersionKey
      requires forall i :: 0 <= i < |iter.iter.pages| ==> SortedBy(iter.iter.pages[i], iter.iter.key)
      modifies this, iter.iter
      ensures Valid()
      ensures Todo() == ScanFilter(Cut(Firsts(SkipBelow(Merged(iter.iter.pages, VersionKey), VersionKey,
              Key(target, lsn))), iter.limit), lsn, None)
    {
      SeekVersions(Merged(iter.iter.pages, VersionKey), Key(target, lsn));
      var found := iter.iter.Seek(Key(target, lsn));
      last := None;
    }

    method Next() returns (r: Option<(RawKey, Blob)>)
      requires Valid()
      modifies this, iter.iter
      ensures Valid()
      ensures old(Todo()) == [] ==> r == None && Todo() == []
      ensures old(Todo()) != [] ==> r == Some(old(Todo())[0]) && Todo() == old(Todo())[1..]
    {
      while true
        invariant Valid() && Todo() == old(Todo())
        decreases |iter.Todo()|
      {
        var n := iter.Next();
        if n.None? {
          return None;
        }
        var v := n.value;
        if v.key.lsn > lsn {
          continue;
        }
        if last == Some(v.key.raw) {
          continue;
        }
        last := Some(v.key.raw);
        if v.value.Put? {
          return Some((v.key.raw, v.value.blob));
        }
      }
    }

    /** Calls `Next` until it returns nothing: the whole rest of the scan. */
    method Drain() returns (out: seq<(RawKey, Blob)>)
      requires Valid()
      modifies this, iter.iter
      ensures Valid()
      ensures out == old(Todo())
    {
      ghost var all := Todo();
      out := [];
      while true
        invariant Valid() && all == out + Todo()
        decreases |Todo()|
      {
        ghost var todo := Todo();
        var r := Next();
        if r.None? {
          return;
        }
        MoveOne(out, todo, Todo(), r.value);
        out := out + [r.value];
      }
    }
  }

  /** `MergingInnerPageIter` over its `MergingPageIter`. */
  class InnerIter {
    const iter: MergingIter<Entry>
    const limit: Option<RawKey>
    var last: Option<RawKey>

    ghost predicate Valid()
      reads this, iter
    {
      iter.Valid() && Ascending(Firsts(iter.Todo()))
    }

    ghost function Todo(): seq<Entry>
      requires Valid()
      reads this, iter
    {
      InnerFilter(CutEntries(Firsts(iter.Todo()), limit), last)
    }

    constructor (iter: MergingIter<Entry>, limit: Option<RawKey>)
      requires iter.Valid() && Ascending(Firsts(iter.Todo()))
      ensures Valid() && this.iter == iter && this.limit == limit
      ensures Todo() == InnerFilter(CutEntries(Firsts(iter.Todo()), limit), None)
    {
      this.iter, this.limit := iter, limit;
      last := None;
    }

    /** To the first entry at or after `target`; `found` says whether some page mentions the target. */
    method Seek(target: RawKey) returns (found: bool)
      requires Valid() && Ascending(Firsts(Merged(iter.pages, iter.key)))
      requires iter.key == EntryKey
      requires forall i :: 0 <= i < |iter.pages| ==> SortedBy(iter.pages[i], iter.key)
      modifies this, iter
      ensures Valid()
      ensures Todo() == FromKey(InnerFilter(CutEntries(Firsts(Merged(iter.pages, EntryKey)), limit), None), target)
      ensures found <==> exists i :: 0 <= i < |iter.pages| && HasStart(iter.pages[i], target)
    {
      SeekEntries(Merged(iter.pages, EntryKey), target, target);
      SeekFilter(Merged(iter.pages, EntryKey), limit, target);
      found := iter.Seek(Key(target, 0));
      last := None;
    }

    method Next() returns (r: Option<Entry>)
      requires Valid()
      modifies this, iter
      ensures Valid()
      ensures old(Todo()) == [] ==> r == None && Todo() == []
      ensures old(Todo()) != [] ==> r == Some(old(Todo())[0]) && Todo() == old(Todo())[1..]
    {
      while true
        invariant Valid() && Todo() == old(Todo())
        decreases |iter.Todo()|
      {
        ghost var R := iter.Todo();
        ghost var M := Firsts(R);
        r := iter.Next();
        assert Firsts(iter.Todo()) == if R == [] then [] else M[1..];
        if r.None? {
          return;
        }
        if !Below(r.value.key, limit) {
          assert |M| > 1 ==> !Below(M[1..][0].key, limit);
          return None;
        }
        if r.value.index == NULL_INDEX {
          continue;
        }
        if last == Some(r.value.key) {
          continue;
        }
        last := Some(r.value.key);
        return;
      }
    }

    /** Calls `Next` until it returns nothing, as the page builder does. */
    method Drain() returns (out: seq<Entry>)
      requires Valid()
      modifies this, iter
      ensures Valid()
      ensures out == old(Todo())
    {
      ghost var all := Todo();
      out := [];
      while true
        invariant Valid() && all == out + Todo()
        decreases |Todo()|
      {
        ghost var todo := Todo();
        var r := Next();
        if r.None? {
          return;
        }
        MoveOne(out, todo, Todo(), r.value);
        out := out + [r.value];
      }
    }
  }

  // ----- The loops over a chain

  /** `collect_consolidation_info` on a leaf.  `small[i]` is the outcome of the size and length
      tests at page `i`. */
  method CollectLeaf(chain: seq<Body>, small: seq<bool>) returns (pages: seq<seq<Version>>, limit: Option<RawKey>,
                     n: nat)
    requires chain != [] && |small| == |chain|
    ensures Mergeable(chain, n)
    ensures pages == LeafPages(chain[..n]) && limit == SplitLimit(chain[..n])
  {
    pages, limit, n := [], None, 0;
    while n < |chain|
      invariant n <= |chain|
      invariant pages == LeafPages(chain[..n]) && limit == SplitLimit(chain[..n])
      invariant |pages| <= n
    {
      ghost var done := chain[..n + 1];
      LeafPagesSnoc(chain[..n], chain[n]);
      assert done == chain[..n] + [chain[n]];
      if IsData(chain[n]) {
        if |pages| >= 2 && small[n] && limit.None? {
          return;
        }
        if chain[n].LeafData? {
          pages := pages + [chain[n].items];
        }
      } else if limit.None? {
        limit := Some(chain[n].splitKey);
      }
      n := n + 1;
    }
  }

  lemma {:induction false} OnlyLeafPages(chain: seq<Body>, b: Body)
    ensures LeafPages(chain + [b]) == LeafPages(chain) + if b.LeafData? then [b.items] else []
  {
    if chain == [] {
      assert chain + [b] == [b];
    } else {
      OnlyLeafPages(chain[1..], b);
      assert (chain + [b])[1..] == chain[1..] + [b];
    }
  }

  lemma {:induction false} OnlyInnerPages(chain: seq<Body>, b: Body)
    ensures InnerPages(chain + [b]) == InnerPages(chain) + if b.InnerData? then [b.entries] else []
  {
    if chain == [] {
      assert chain + [b] == [b];
    } else {
      OnlyInnerPages(chain[1..], b);
      assert (chain + [b])[1..] == chain[1..] + [b];
    }
  }

  lemma {:induction false} OnlySplits(chain: seq<Body>, b: Body)
    ensures SplitLimit(chain + [b]) == if SplitLimit(chain).Some? then SplitLimit(chain)
            else if b.SplitDelta? then Some(b.splitKey) else None
  {
    if chain == [] {
      assert chain + [b] == [b];
    } else {
      OnlySplits(chain[1..], b);
      assert (chain + [b])[1..] == chain[1..] + [b];
    }
  }

  /** What one more page adds to what the walk has collected. */
  lemma LeafPagesSnoc(chain: seq<Body>, b: Body)
    ensures LeafPages(chain + [b]) == LeafPages(chain) + if b.LeafData? then [b.items] else []
    ensures SplitLimit(chain + [b]) == if SplitLimit(chain).Some? then SplitLimit(chain)
            else if b.SplitDelta? then Some(b.splitKey) else None
    ensures InnerPages(chain + [b]) == InnerPages(chain) + if b.InnerData? then [b.entries] else []
  {
    OnlyLeafPages(chain, b);
    OnlyInnerPages(chain, b);
    OnlySplits(chain, b);
  }

  /** The new page of a leaf consolidation: the versions that are kept, in order. */
  method BuildLeaf(chain: seq<Body>, small: seq<bool>, safe: Lsn) returns (items: seq<Version>, n: nat)
    requires chain != [] && |small| == |chain| && LeafOk(chain)
    ensures Mergeable(chain, n)
    ensures LeafConsolidated(Contents(chain[..n]), SplitLimit(chain[..n]), safe, items)
    ensures forall v: Version ::
              v in items <==>
                && v in Contents(chain[..n]) && Below(v.key.raw, SplitLimit(chain[..n]))
                && (v.key.lsn > safe ||
                    (v.value.Put? &&
                     forall w: Version :: w in Contents(chain[..n]) && w.key.raw == v.key.raw && w.key.lsn <= safe ==>
                       w.key.lsn <= v.key.lsn))
  {
    var pages, limit;
    pages, limit, n := CollectLeaf(chain, small);
    LeafOkParts(chain, n);
    LeafMerge(chain[..n]);
    var merging := new MergingIter(pages, VersionKey);
    LeafFilterConsolidates(Firsts(merging.Todo()), limit, safe);
    var range := new LeafRangeIter(merging, limit);
    var iter := new LeafIter(range, safe);
    items := iter.Drain();
    ConsolidatedItems(Contents(chain[..n]), limit, safe, items);
  }

  /** The walk of `collect_consolidation_info` on an inner page, which never stops early. */
  method CollectInner(chain: seq<Body>) returns (pages: seq<seq<Entry>>, limit: Option<RawKey>)
    ensures pages == InnerPages(chain) && limit == SplitLimit(chain)
  {
    pages, limit := [], None;
    for n := 0 to |chain|
      invariant pages == InnerPages(chain[..n]) && limit == SplitLimit(chain[..n])
    {
      LeafPagesSnoc(chain[..n], chain[n]);
      assert chain[..n + 1] == chain[..n] + [chain[n]];
      if chain[n].InnerData? {
        pages := pages + [chain[n].entries];
      } else if chain[n].SplitDelta? && limit.None? {
        limit := Some(chain[n].splitKey);
      }
    }
    assert chain[..|chain|] == chain;
  }

  lemma InnerMergeAscends(chain: seq<Body>)
    requires SortedInner(chain)
    ensures Ascending(Firsts(Merged(InnerPages(chain), EntryKey)))
  {
    var pages := InnerPages(chain);
    forall i | 0 <= i < |pages|
      ensures SortedBy(pages[i], EntryKey)
    {
      InnerPagesSorted(chain, i);
    }
    MergeIsSorted(pages, Zeros(|pages|), EntryKey);
  }

  /** The new page of an inner consolidation: the newest indexes, in order. */
  method BuildInner(chain: seq<Body>) returns (items: seq<Entry>)
    requires SortedInner(chain)
    ensures InnerConsolidated(chain, items)
  {
    var pages, limit := CollectInner(chain);
    InnerMergeAscends(chain);
    InnerFilterConsolidates(chain);
    var merging := new MergingIter(pages, EntryKey);
    var iter := new InnerIter(merging, limit);
    items := iter.Drain();
  }

  /** The walk of `iter_page` on a leaf. */
  method CollectAll(chain: seq<Body>) returns (pages: seq<seq<Version>>, limit: Option<RawKey>)
    ensures pages == LeafPages(chain) && limit == SplitLimit(chain)
  {
    pages, limit := [], None;
    for n := 0 to |chain|
      invariant pages == LeafPages(chain[..n]) && limit == SplitLimit(chain[..n])
    {
      LeafPagesSnoc(chain[..n], chain[n]);
      assert chain[..n + 1] == chain[..n] + [chain[n]];
      if chain[n].LeafData? {
        pages := pages + [chain[n].items];
      } else if chain[n].SplitDelta? && limit.None? {
        limit := Some(chain[n].splitKey);
      }
    }
    assert chain[..|chain|] == chain;
  }

  /** A scan of a leaf chain at `lsn`: ascending, each key once, and exactly the keys below the
      range limit for which `find_value` at `lsn` finds a value. */
  method Scan(chain: seq<Body>, lsn: Lsn) returns (out: seq<(RawKey, Blob)>)
    requires LeafOk(chain)
    ensures forall i, j :: 0 <= i < j < |out| ==> out[i].0 < out[j].0
    ensures forall raw: RawKey, blob: Blob ::
              (raw, blob) in out <==>
                && Below(raw, SplitLimit(chain))
                && exists l: Lsn :: IsNewest(Contents(chain), raw, lsn, Some(Version(Key(raw, l), Put(blob))))
  {
    ChainShowsAll(chain, lsn);
    var pages, limit := CollectAll(chain);
    LeafMerge(chain);
    var merging := new MergingIter(pages, VersionKey);
    ScanMeaning(chain, Firsts(merging.Todo()), limit, lsn);
    var range := new LeafRangeIter(merging, limit);
    var iter := new ScanIter(range, lsn);
    out := iter.Drain();
  }

  /** A scan of a leaf chain that starts with a seek: what `Scan` returns from the target on. */
  method ScanFrom(chain: seq<Body>, target: RawKey, lsn: Lsn) returns (out: seq<(RawKey, Blob)>)
    requires LeafOk(chain)
    ensures forall i, j :: 0 <= i < j < |out| ==> out[i].0 < out[j].0
    ensures forall raw: RawKey, blob: Blob ::
              (raw, blob) in out <==>
                && target <= raw && Below(raw, SplitLimit(chain))
                && exists l: Lsn :: IsNewest(Contents(chain), raw, lsn, Some(Version(Key(raw, l), Put(blob))))
  {
    ChainShowsAll(chain, lsn);
    var pages, limit := CollectAll(chain);
    LeafMerge(chain);
    LeafPagesSorted(chain);
    var merging := new MergingIter(pages, VersionKey);
    ghost var R := Merged(pages, VersionKey);
    var range := new LeafRangeIter(merging, limit);
    var iter := new ScanIter(range, lsn);
    SeekVersions(R, Key(target, lsn));
    SeekMeaning(chain, Firsts(SkipBelow(R, VersionKey, Key(target, lsn))), target, limit, lsn);
    iter.Seek(target);
    out := iter.Drain();
  }

  lemma SeekMeaning(chain: seq<Body>, M: seq<Version>, target: RawKey, limit: Option<RawKey>, lsn: Lsn)
    requires LeafOk(chain) && SortedVersions(M)
    requires forall v :: v in M <==> v in Contents(chain) && !KeyLess(v.key, Key(target, lsn))
    ensures var out := ScanFilter(Cut(M, limit), lsn, None);
            && (forall i, j :: 0 <= i < j < |out| ==> out[i].0 < out[j].0)
            && (forall raw: RawKey, blob: Blob ::
                  (raw, blob) in out <==>
                    target <= raw && Below(raw, limit) && Visible(ChainFind(chain, raw, lsn)) == Some(blob))
  {
    var C := Cut(M, limit);
    var out := ScanFilter(C, lsn, None);
    CutItems(M, limit);
    ScanFilterSorted(C, lsn, None);
    ContentsUnique(chain);
    forall raw: RawKey, blob: Blob
      ensures (raw, blob) in out <==>
              target <= raw && Below(raw, limit) && Visible(ChainFind(chain, raw, lsn)) == Some(blob)
    {
      ScanFilterSees(C, lsn, None, raw, blob);
      ChainReadIsSetRead(chain, raw, lsn);
      SoughtNewest(Contents(chain), ItemSet(C), target, limit, raw, lsn);
    }
  }

  lemma SoughtNewest(S: set<Version>, C: set<Version>, target: RawKey, limit: Option<RawKey>, raw: RawKey, lsn: Lsn)
    requires KeyUnique(S) && forall v ::
               v in C <==> v in S && Below(v.key.raw, limit) && !KeyLess(v.key, Key(target, lsn))
    ensures Newest(C, raw, lsn) == if target <= raw && Below(raw, limit) then Newest(S, raw, lsn) else None
  {
    NewestIsNewest(S, raw, lsn);
    NewestUnique(C, raw, lsn, if target <= raw && Below(raw, limit) then Newest(S, raw, lsn) else None);
  }

  /** What is left of the children when the iterator sought `target` and, if a page mentions it, took one. */
  function AfterSeek(items: seq<Entry>, target: RawKey, found: bool): seq<Entry> {
    var from := FromKey(items, target);
    if found && from != [] then from[1..] else from
  }

  ghost predicate RestAfter(chain: seq<Body>, target: RawKey, rest: seq<Entry>) {
    exists items :: InnerConsolidated(chain, items) && rest == AfterSeek(items, target, Meets(chain, target))
  }

  lemma {:induction false} InnerPagesMeet(chain: seq<Body>, key: RawKey)
    ensures Meets(chain, key) <==> exists i :: 0 <= i < |InnerPages(chain)| && HasStart(InnerPages(chain)[i], key)
  {
    if chain != [] {
      InnerPagesMeet(chain[1..], key);
      var P, Q := InnerPages(chain), InnerPages(chain[1..]);
      assert Meets(chain, key) <==>
             (chain[0].InnerData? && HasStart(chain[0].entries, key)) || Meets(chain[1..], key) by {
        if i :| 0 <= i < |chain[1..]| && chain[1..][i].InnerData? && HasStart(chain[1..][i].entries, key) {
          assert chain[i + 1] == chain[1..][i];
        }
        if i :| 0 < i < |chain| && chain[i].InnerData? && HasStart(chain[i].entries, key) {
          assert chain[i] == chain[1..][i - 1];
        }
      }
      if chain[0].InnerData? {
        assert P[0] == chain[0].entries && P[1..] == Q;
        if i :| 0 <= i < |Q| && HasStart(Q[i], key) {
          assert P[i + 1] == Q[i];
        }
      } else {
        assert P == Q;
      }
    }
  }

  /** `TreeIter::seek` on the parent: the children behind the one that holds the target. */
  method InnerAfter(chain: seq<Body>, target: RawKey) returns (rest: seq<Entry>)
    requires SortedInner(chain)
    ensures RestAfter(chain, target, rest)
  {
    var pages, limit := CollectInner(chain);
    InnerMergeAscends(chain);
    InnerFilterConsolidates(chain);
    InnerPagesMeet(chain, target);
    var merging := new MergingIter(pages, EntryKey);
    var iter := new InnerIter(merging, limit);
    ghost var items := InnerFilter(CutEntries(Firsts(Merged(pages, EntryKey)), limit), None);
    forall i | 0 <= i < |pages|
      ensures SortedBy(pages[i], EntryKey)
    {
      InnerPagesSorted(chain, i);
    }
    var found := iter.Seek(target);
    if found {
      var e := iter.Next();
    }
    rest := iter.Drain();
    assert rest == AfterSeek(items, target, Meets(chain, target));
  }

  lemma {:induction false} IndexMeets(chain: seq<Body>, key: RawKey)
    ensures NewestIndex(chain, key).Some? ==> Meets(chain, key)
  {
    if chain != [] {
      IndexMeets(chain[1..], key);
      if i :| 0 <= i < |chain[1..]| && chain[1..][i].InnerData? && HasStart(chain[1..][i].entries, key) {
        assert chain[i + 1] == chain[1..][i];
      }
    }
  }

  lemma {:induction false} FromKeyIs(E: seq<Entry>, target: RawKey, p: nat)
    requires SortedEntries(E) && p <= |E|
    requires p > 0 ==> E[p - 1].key < target
    requires p < |E| ==> target <= E[p].key
    ensures FromKey(E, target) == E[p..]
  {
    if p > 0 {
      assert E[0].key < target;
      FromKeyIs(E[1..], target, p - 1);
      assert E[1..][p - 1..] == E[p..];
    }
  }

  /** No child is skipped or met twice: what is left starts right behind the child that holds the target. */
  lemma RestIsBehind(chain: seq<Body>, E: seq<Entry>, r: Range, target: RawKey, rest: seq<Entry>)
    requires Represents(chain, E, r) && Contains(r, target) && RestAfter(chain, target, rest)
    ensures rest == E[UpperBound(E, target)..]
  {
    var items :| InnerConsolidated(chain, items) && rest == AfterSeek(items, target, Meets(chain, target));
    ConsolidationIsEntries(chain, E, r, items);
    var p := UpperBound(E, target);
    assert E[0].key <= target;
    if E[p - 1].key == target {
      StartMeets(chain, E, p - 1);
      FromKeyIs(E, target, p - 1);
      assert E[p - 1..][1..] == E[p..];
    } else {
      StartMissing(E, target, p);
      assert !Meets(chain, target);
      FromKeyIs(E, target, p);
    }
  }

  lemma StartMeets(chain: seq<Body>, E: seq<Entry>, i: nat)
    requires InnerConsolidated(chain, E) && i < |E|
    ensures Meets(chain, E[i].key)
  {
    assert Entry(E[i].key, E[i].index) in E;
    IndexMeets(chain, E[i].key);
  }

  lemma StartMissing(E: seq<Entry>, target: RawKey, p: nat)
    requires SortedEntries(E) && 0 < p <= |E| && E[p - 1].key < target && (p < |E| ==> target < E[p].key)
    ensures !HasStart(E, target)
  {
  }

  lemma ScanMeaning(chain: seq<Body>, M: seq<Version>, limit: Option<RawKey>, lsn: Lsn)
    requires LeafOk(chain) && SortedVersions(M) && ItemSet(M) == Contents(chain)
    ensures var out := ScanFilter(Cut(M, limit), lsn, None);
            && (forall i, j :: 0 <= i < j < |out| ==> out[i].0 < out[j].0)
            && (forall raw: RawKey, blob: Blob ::
                  (raw, blob) in out <==> Below(raw, limit) && Visible(ChainFind(chain, raw, lsn)) == Some(blob))
  {
    var C := Cut(M, limit);
    var out := ScanFilter(C, lsn, None);
    CutItems(M, limit);
    ScanFilterSorted(C, lsn, None);
    ContentsUnique(chain);
    forall raw: RawKey, blob: Blob
      ensures (raw, blob) in out <==> Below(raw, limit) && Visible(ChainFind(chain, raw, lsn)) == Some(blob)
    {
      ScanFilterSees(C, lsn, None, raw, blob);
      ChainReadIsSetRead(chain, raw, lsn);
      CutNewest(Contents(chain), ItemSet(C), limit, raw, lsn);
    }
  }

  lemma CutNewest(S: set<Version>, C: set<Version>, limit: Option<RawKey>, raw: RawKey, lsn: Lsn)
    requires KeyUnique(S) && forall v :: v in C <==> v in S && Below(v.key.raw, limit)
    ensures Newest(C, raw, lsn) == if Below(raw, limit) then Newest(S, raw, lsn) else None
  {
    NewestIsNewest(S, raw, lsn);
    NewestUnique(C, raw, lsn, if Below(raw, limit) then Newest(S, raw, lsn) else None);
  }

  /** What a walk of the chain finds is the newest version among all versions of the chain. */
  lemma ChainShows(chain: seq<Body>, raw: RawKey, lsn: Lsn)
    requires LeafOk(chain)
    ensures forall blob: Blob ::
              Visible(ChainFind(chain, raw, lsn)) == Some(blob) <==>
                exists l: Lsn :: IsNewest(Contents(chain), raw, lsn, Some(Version(Key(raw, l), Put(blob))))
  {
    ChainReadIsSetRead(chain, raw, lsn);
    ContentsUnique(chain);
    forall blob: Blob
      ensures Visible(ChainFind(chain, raw, lsn)) == Some(blob) <==>
              exists l: Lsn :: IsNewest(Contents(chain), raw, lsn, Some(Version(Key(raw, l), Put(blob))))
    {
      VisibleIs(Contents(chain), raw, lsn, blob);
    }
  }

  /** The part of `find_value` for one data page. */
  method PageVersion(items: seq<Version>, raw: RawKey, lsn: Lsn) returns (v: Option<Version>)
    requires SortedVersions(items)
    ensures v == PageFind(items, raw, lsn)
  {
    var target := Key(raw, lsn);
    var rank := FindRank(items, (v: Version) => CompareKeys(v.key, target));
    LowerBoundIs(items, target, rank.at);
    if rank.at < |items| && items[rank.at].key.raw == raw {
      return Some(items[rank.at]);
    }
    v := None;
  }

  lemma ChainShowsAll(chain: seq<Body>, lsn: Lsn)
    requires LeafOk(chain)
    ensures forall raw: RawKey, blob: Blob ::
              Visible(ChainFind(chain, raw, lsn)) == Some(blob) <==>
                exists l: Lsn :: IsNewest(Contents(chain), raw, lsn, Some(Version(Key(raw, l), Put(blob))))
  {
    forall raw: RawKey, blob: Blob
      ensures Visible(ChainFind(chain, raw, lsn)) == Some(blob) <==>
              exists l: Lsn :: IsNewest(Contents(chain), raw, lsn, Some(Version(Key(raw, l), Put(blob))))
    {
      ChainShows(chain, raw, lsn);
    }
  }

  /** `find_value`: the chain walk with a binary search in each data page. */
  method FindValue(chain: seq<Body>, raw: RawKey, lsn: Lsn) returns (value: Option<Blob>)
    requires LeafOk(chain)
    ensures value == Visible(ChainFind(chain, raw, lsn))
    ensures forall blob: Blob ::
              value == Some(blob) <==>
                exists l: Lsn :: IsNewest(Contents(chain), raw, lsn, Some(Version(Key(raw, l), Put(blob))))
  {
    ChainShows(chain, raw, lsn);
    var i := 0;
    while i < |chain|
      invariant i <= |chain| && LeafOk(chain[i..])
      invariant ChainFind(chain, raw, lsn) == ChainFind(chain[i..], raw, lsn)
    {
      assert chain[i..][0] == chain[i] && chain[i..][1..] == chain[i + 1..];
      if chain[i].LeafData? {
        var v := PageVersion(chain[i].items, raw, lsn);
        if v.Some? {
          return if v.value.value.Put? then Some(v.value.value.blob) else None;
        }
      }
      i := i + 1;
    }
    value := None;
  }

  /** The part of `find_child` for one data page. */
  method PageChildOf(entries: seq<Entry>, key: RawKey) returns (child: Option<Child>)
    requires SortedEntries(entries)
    ensures child == PageChild(entries, key)
  {
    var rank := FindRank(entries, (e: Entry) => if e.key < key then -1 else if e.key > key then 1 else 0);
    var right := if rank.Found? then rank.at + 1 else rank.at;
    UpperBoundIs(entries, key, right);
    if right > 0 && entries[right - 1].index != NULL_INDEX {
      var end := if right < |entries| then Some(entries[right].key) else None;
      return Some(Child(entries[right - 1].index, entries[right - 1].key, end));
    }
    child := None;
  }

  /** `find_child`: the chain walk with a binary search in each data page. */
  method FindChildOf(chain: seq<Body>, key: RawKey) returns (child: Option<Child>)
    requires SortedInner(chain)
    ensures child == FindChild(chain, key)
  {
    var i := 0;
    while i < |chain|
      invariant i <= |chain|
      invariant FindChild(chain, key) == FindChild(chain[i..], key)
    {
      assert chain[i..][0] == chain[i] && chain[i..][1..] == chain[i + 1..];
      if chain[i].InnerData? {
        child := PageChildOf(chain[i].entries, key);
        if child.Some? {
          return;
        }
      }
      i := i + 1;
    }
    child := None;
  }
}
