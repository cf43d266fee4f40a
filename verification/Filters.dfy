/**
 What the page iterators let through, as functions of the merged sequence
 (photondb/src/tree/page.rs).
 */
module Filters {
  import opened Options
  import opened Data
  import opened LeafChain

  // ----- Consolidation of leaves

  /** The items that `MergingLeafPageIter` returns for the input `M` in state (`last`, `skip`). */
  function LeafFilter(M: seq<Version>, safe: Lsn, last: Option<RawKey>, skip: bool): seq<Version> {
    if M == [] then []
    else
      var v, rest := M[0], M[1..];
      if last == Some(v.key.raw) then
        if skip then LeafFilter(rest, safe, last, skip)
        else if v.key.lsn > safe then [v] + LeafFilter(rest, safe, last, skip)
        else (if v.value.Put? then [v] else []) + LeafFilter(rest, safe, last, true)
      else
        (if v.value.Delete? && v.key.lsn <= safe then [] else [v])
        + LeafFilter(rest, safe, Some(v.key.raw), v.key.lsn <= safe)
  }

  /** The state is one that earlier items of a sorted input can have left behind. */
  ghost predicate LeafState(M: seq<Version>, safe: Lsn, last: Option<RawKey>, skip: bool) {
    && (last.Some? ==> forall v :: v in M ==> last.value <= v.key.raw)
    && (last.Some? && skip ==> forall v :: v in M && v.key.raw == last.value ==> v.key.lsn <= safe)
  }

  ghost predicate Passes(M: seq<Version>, v: Version, safe: Lsn, last: Option<RawKey>, skip: bool) {
    v.key.lsn > safe || (v.value.Put? && NewestAtSafe(ItemSet(M), v, safe) && !(skip && last == Some(v.key.raw)))
  }

  lemma TailOfSorted(M: seq<Version>)
    requires SortedVersions(M) && M != []
    ensures SortedVersions(M[1..])
    ensures forall w :: w in M[1..] ==> KeyLess(M[0].key, w.key)
    ensures ItemSet(M) == {M[0]} + ItemSet(M[1..])
  {
  }

  lemma LeafStateStep(M: seq<Version>, safe: Lsn, last: Option<RawKey>, skip: bool)
    requires SortedVersions(M) && M != [] && LeafState(M, safe, last, skip)
    ensures var v := M[0];
            var skip' := if last == Some(v.key.raw) then skip || v.key.lsn <= safe else v.key.lsn <= safe;
            LeafState(M[1..], safe, Some(v.key.raw), skip')
  {
    TailOfSorted(M);
  }

  /** Whether a later item passes does not depend on where the walk stands. */
  lemma PassesLater(M: seq<Version>, w: Version, safe: Lsn, last: Option<RawKey>, skip: bool)
    requires SortedVersions(M) && M != [] && LeafState(M, safe, last, skip) && w in M[1..]
    ensures var v := M[0];
            var skip' := if last == Some(v.key.raw) then skip || v.key.lsn <= safe else v.key.lsn <= safe;
            Passes(M, w, safe, last, skip) <==> Passes(M[1..], w, safe, Some(v.key.raw), skip')
  {
    TailOfSorted(M);
    var v := M[0];
    assert KeyLess(v.key, w.key);
    if v.key.raw == w.key.raw && v.key.lsn <= safe {
      assert Matches(v, w.key.raw, safe);
    }
  }

  lemma {:induction false} LeafFilterItems(M: seq<Version>, safe: Lsn, last: Option<RawKey>, skip: bool, w: Version)
    requires SortedVersions(M) && LeafState(M, safe, last, skip)
    ensures w in LeafFilter(M, safe, last, skip) <==> w in M && Passes(M, w, safe, last, skip)
  {
    if M != [] {
      TailOfSorted(M);
      LeafStateStep(M, safe, last, skip);
      var v := M[0];
      var skip' := if last == Some(v.key.raw) then skip || v.key.lsn <= safe else v.key.lsn <= safe;
      LeafFilterItems(M[1..], safe, Some(v.key.raw), skip', w);
      assert w in M <==> w == v || w in M[1..];
      if w in M[1..] {
        PassesLater(M, w, safe, last, skip);
      }
      if w == v {
        assert forall x :: x in ItemSet(M) && Matches(x, v.key.raw, safe) ==> x.key.lsn <= v.key.lsn;
      }
    }
  }

  lemma {:induction false} LeafFilterSorted(M: seq<Version>, safe: Lsn, last: Option<RawKey>, skip: bool)
    requires SortedVersions(M)
    ensures SortedVersions(LeafFilter(M, safe, last, skip))
    ensures forall v :: v in LeafFilter(M, safe, last, skip) ==> v in M
  {
    if M != [] {
      TailOfSorted(M);
      var v := M[0];
      var skip' := if last == Some(v.key.raw) then skip || v.key.lsn <= safe else v.key.lsn <= safe;
      LeafFilterSorted(M[1..], safe, Some(v.key.raw), skip');
    }
  }

  /** The part of a sorted input below the range limit. */
  function Cut(M: seq<Version>, limit: Option<RawKey>): seq<Version> {
    if M == [] || !Below(M[0].key.raw, limit) then [] else [M[0]] + Cut(M[1..], limit)
  }

  lemma {:induction false} CutItems(M: seq<Version>, limit: Option<RawKey>)
    requires SortedVersions(M)
    ensures SortedVersions(Cut(M, limit))
    ensures forall v :: v in Cut(M, limit) <==> v in M && Below(v.key.raw, limit)
  {
    if M != [] {
      TailOfSorted(M);
      CutItems(M[1..], limit);
      forall v
        ensures v in Cut(M, limit) <==> v in M && Below(v.key.raw, limit)
      {
        assert v in M <==> v == M[0] || v in M[1..];
      }
    }
  }

  /** The leaf iterator writes exactly the versions that a consolidation keeps. */
  lemma LeafFilterConsolidates(M: seq<Version>, limit: Option<RawKey>, safe: Lsn)
    requires SortedVersions(M)
    ensures LeafConsolidated(ItemSet(M), limit, safe, LeafFilter(Cut(M, limit), safe, None, false))
  {
    var C := Cut(M, limit);
    var out := LeafFilter(C, safe, None, false);
    CutItems(M, limit);
    LeafFilterSorted(C, safe, None, false);
    forall v
      ensures v in out <==> v in Kept(ItemSet(M), limit, safe)
    {
      LeafFilterItems(C, safe, None, false, v);
      if v in C {
        assert NewestAtSafe(ItemSet(C), v, safe) <==> NewestAtSafe(ItemSet(M), v, safe);
      }
    }
    assert ItemSet(out) == Kept(ItemSet(M), limit, safe);
  }

  // ----- Scans

  /** The pairs that `PageIter` returns for the input `M` at `lsn`. */
  function ScanFilter(M: seq<Version>, lsn: Lsn, last: Option<RawKey>): seq<(RawKey, Blob)> {
    if M == [] then []
    else
      var v, rest := M[0], M[1..];
      if v.key.lsn > lsn || last == Some(v.key.raw) then ScanFilter(rest, lsn, last)
      else (if v.value.Put? then [(v.key.raw, v.value.blob)] else []) + ScanFilter(rest, lsn, Some(v.key.raw))
  }

  lemma NewestOfTail(M: seq<Version>, raw: RawKey, lsn: Lsn)
    requires SortedVersions(M) && M != []
    ensures Newest(ItemSet(M), raw, lsn) == if Matches(M[0], raw, lsn) then Some(M[0])
            else Newest(ItemSet(M[1..]), raw, lsn)
  {
    TailOfSorted(M);
    NewestIsNewest(ItemSet(M[1..]), raw, lsn);
    forall v, w | v in ItemSet(M) && w in ItemSet(M) && v.key == w.key
      ensures v == w
    {
      SortedUnique(M, v, w);
    }
    NewestUnique(ItemSet(M), raw, lsn, if Matches(M[0], raw, lsn) then Some(M[0])
      else Newest(ItemSet(M[1..]), raw, lsn));
  }

  lemma {:induction false} ScanFilterSees(M: seq<Version>, lsn: Lsn, last: Option<RawKey>, raw: RawKey, blob: Blob)
    requires SortedVersions(M) && (last.Some? ==> forall v :: v in M ==> last.value <= v.key.raw)
    ensures (raw, blob) in ScanFilter(M, lsn, last) <==>
            last != Some(raw) && Visible(Newest(ItemSet(M), raw, lsn)) == Some(blob)
  {
    if M != [] {
      var v := M[0];
      TailOfSorted(M);
      NewestOfTail(M, raw, lsn);
      var last' := if v.key.lsn > lsn || last == Some(v.key.raw) then last else Some(v.key.raw);
      ScanFilterSees(M[1..], lsn, last', raw, blob);
      if last' == Some(raw) && last != last' && Visible(Newest(ItemSet(M[1..]), raw, lsn)) == Some(blob) {
        assert Matches(v, raw, lsn);
      }
    } else {
      NewestIsNewest(ItemSet(M), raw, lsn);
    }
  }

  /** A scan returns a pair exactly when the newest version of the key at its LSN is a put of that value. */
  lemma ScanFilterItems(M: seq<Version>, lsn: Lsn, last: Option<RawKey>, raw: RawKey, blob: Blob)
    requires SortedVersions(M) && (last.Some? ==> forall v :: v in M ==> last.value <= v.key.raw)
    ensures (raw, blob) in ScanFilter(M, lsn, last) <==>
            && last != Some(raw)
            && exists l: Lsn :: IsNewest(ItemSet(M), raw, lsn, Some(Version(Key(raw, l), Put(blob))))
  {
    ScanFilterSees(M, lsn, last, raw, blob);
    forall v, w | v in ItemSet(M) && w in ItemSet(M) && v.key == w.key
      ensures v == w
    {
      SortedUnique(M, v, w);
    }
    VisibleIs(ItemSet(M), raw, lsn, blob);
  }

  ghost predicate Rising(out: seq<(RawKey, Blob)>, last: Option<RawKey>) {
    && (forall i, j :: 0 <= i < j < |out| ==> out[i].0 < out[j].0)
    && (last.Some? ==> forall i :: 0 <= i < |out| ==> last.value < out[i].0)
  }

  lemma RisingTail(raw: RawKey, blob: Blob, tail: seq<(RawKey, Blob)>, last: Option<RawKey>)
    requires Rising(tail, Some(raw)) && (last.Some? ==> last.value < raw)
    ensures Rising([(raw, blob)] + tail, last)
    ensures Rising(tail, last)
  {
  }

  /** A scan ascends and returns no key twice. */
  lemma {:induction false} ScanFilterSorted(M: seq<Version>, lsn: Lsn, last: Option<RawKey>)
    requires SortedVersions(M) && (last.Some? ==> forall v :: v in M ==> last.value <= v.key.raw)
    ensures Rising(ScanFilter(M, lsn, last), last)
  {
    if M != [] {
      var v := M[0];
      TailOfSorted(M);
      var last' := if v.key.lsn > lsn || last == Some(v.key.raw) then last else Some(v.key.raw);
      ScanFilterSorted(M[1..], lsn, last');
      if last' != last {
        var blob := if v.value.Put? then v.value.blob else [];
        RisingTail(v.key.raw, blob, ScanFilter(M[1..], lsn, last'), last);
      }
    }
  }

  // ----- Consolidation of inner pages

  /** The entries that `MergingInnerPageIter` returns: placeholders and overwritten indexes go. */
  function InnerFilter(M: seq<Entry>, last: Option<RawKey>): seq<Entry> {
    if M == [] then []
    else if M[0].index == NULL_INDEX || last == Some(M[0].key) then InnerFilter(M[1..], last)
    else [M[0]] + InnerFilter(M[1..], Some(M[0].key))
  }

  ghost predicate Ascending(M: seq<Entry>) {
    forall i, j :: 0 <= i < j < |M| ==> M[i].key <= M[j].key
  }

  /** The first index that `M` gives a key, placeholders aside. */
  function FirstIndex(M: seq<Entry>, key: RawKey): Option<Index> {
    if M == [] then None
    else if M[0].key == key && M[0].index != NULL_INDEX then Some(M[0].index)
    else FirstIndex(M[1..], key)
  }

  lemma {:induction false} AbsentIndex(M: seq<Entry>, key: RawKey)
    requires forall e :: e in M ==> e.key != key
    ensures FirstIndex(M, key) == None
  {
    if M != [] {
      assert M[0] in M;
      AbsentIndex(M[1..], key);
    }
  }

  lemma {:induction false} InnerFilterItems(M: seq<Entry>, last: Option<RawKey>, key: RawKey, x: Index)
    requires Ascending(M) && (last.Some? ==> forall e :: e in M ==> last.value <= e.key)
    ensures Entry(key, x) in InnerFilter(M, last) <==> last != Some(key) && FirstIndex(M, key) == Some(x)
  {
    if M != [] {
      var last' := if M[0].index == NULL_INDEX || last == Some(M[0].key) then last else Some(M[0].key);
      assert forall e :: e in M[1..] ==> M[0].key <= e.key;
      InnerFilterItems(M[1..], last', key, x);
      if last' != last {
        assert Entry(key, x) in InnerFilter(M, last) <==>
               M[0] == Entry(key, x) || Entry(key, x) in InnerFilter(M[1..], last');
        if last == Some(key) {
          AbsentIndex(M[1..], key);
        }
      }
    }
  }

  lemma {:induction false} InnerFilterSorted(M: seq<Entry>, last: Option<RawKey>)
    requires Ascending(M) && (last.Some? ==> forall e :: e in M ==> last.value <= e.key)
    ensures SortedEntries(InnerFilter(M, last))
    ensures forall e :: e in InnerFilter(M, last) ==> e in M && (last.Some? ==> last.value < e.key)
  {
    if M != [] {
      var last' := if M[0].index == NULL_INDEX || last == Some(M[0].key) then last else Some(M[0].key);
      assert forall e :: e in M[1..] ==> M[0].key <= e.key;
      InnerFilterSorted(M[1..], last');
    }
  }

  function CutEntries(M: seq<Entry>, limit: Option<RawKey>): seq<Entry> {
    if M == [] || !Below(M[0].key, limit) then [] else [M[0]] + CutEntries(M[1..], limit)
  }

  lemma {:induction false} CutEntriesFirst(M: seq<Entry>, limit: Option<RawKey>, key: RawKey)
    requires Ascending(M)
    ensures FirstIndex(CutEntries(M, limit), key) == if Below(key, limit) then FirstIndex(M, key) else None
    ensures Ascending(CutEntries(M, limit)) && forall e :: e in CutEntries(M, limit) ==> e in M
  {
    if M != [] {
      CutEntriesFirst(M[1..], limit, key);
      if !Below(M[0].key, limit) {
        NoneBelow(M, limit, key);
      }
    }
  }

  lemma {:induction false} NoneBelow(M: seq<Entry>, limit: Option<RawKey>, key: RawKey)
    requires Ascending(M) && M != [] && !Below(M[0].key, limit)
    ensures Below(key, limit) ==> FirstIndex(M, key) == None
  {
    if |M| > 1 {
      NoneBelow(M[1..], limit, key);
    }
  }
}
