/**
 Reads and consolidation on one leaf chain
 (photondb/src/tree/mod.rs `find_value`, `consolidate_page_impl`; photondb/src/tree/page.rs).

 A leaf chain stands for a finite set of versions.  A read picks the newest version at or below
 its LSN; consolidation keeps a subset of the versions.
 */
module LeafChain {
  import opened Options
  import opened Data
  import opened Pages

  predicate Matches(v: Version, raw: RawKey, lsn: Lsn) {
    v.key.raw == raw && v.key.lsn <= lsn
  }

  /** `r` is the newest version of `raw` at or below `lsn` among the versions `S`. */
  ghost predicate IsNewest(S: set<Version>, raw: RawKey, lsn: Lsn, r: Option<Version>) {
    match r
    case None => forall v :: v in S ==> !Matches(v, raw, lsn)
    case Some(w) => w in S && Matches(w, raw, lsn) && forall v :: v in S && Matches(v, raw, lsn) ==>
      v.key.lsn <= w.key.lsn
  }

  /** No two versions share raw key and LSN. */
  ghost predicate KeyUnique(S: set<Version>) {
    forall v, w :: v in S && w in S && v.key == w.key ==> v == w
  }

  /** The newest version, as a function of a set of versions. */
  ghost function Newest(S: set<Version>, raw: RawKey, lsn: Lsn): Option<Version> {
    var C := set v | v in S && Matches(v, raw, lsn);
    if C == {} then None else Some(Latest(C))
  }

  lemma NewestIsNewest(S: set<Version>, raw: RawKey, lsn: Lsn)
    ensures IsNewest(S, raw, lsn, Newest(S, raw, lsn))
  {
    var C := set v | v in S && Matches(v, raw, lsn);
    assert forall v :: v in S && Matches(v, raw, lsn) ==> v in C;
  }

  ghost function Latest(C: set<Version>): (w: Version)
    requires C != {}
    ensures w in C && forall v :: v in C ==> v.key.lsn <= w.key.lsn
  {
    var x :| x in C;
    if C == {x} then x
    else
      assert C - {x} != {};
      var y := Latest(C - {x});
      assert forall v :: v in C ==> v == x || v in C - {x};
      if y.key.lsn <= x.key.lsn then x else y
  }

  lemma NewestUnique(S: set<Version>, raw: RawKey, lsn: Lsn, r: Option<Version>)
    requires KeyUnique(S) && IsNewest(S, raw, lsn, r)
    ensures Newest(S, raw, lsn) == r
  {
    NewestIsNewest(S, raw, lsn);
    var n := Newest(S, raw, lsn);
    if r.Some? && n.Some? {
      assert r.value.key == n.value.key;
    }
  }

  /** What a reader sees of a version: a put is a value, a delete is nothing. */
  function Visible(r: Option<Version>): Option<Blob> {
    if r.Some? && r.value.value.Put? then Some(r.value.value.blob) else None
  }

  /** The newest version of `raw` at or below `lsn` is a put of `blob`. */
  ghost predicate Reads(S: set<Version>, raw: RawKey, lsn: Lsn, blob: Blob) {
    exists l: Lsn :: IsNewest(S, raw, lsn, Some(Version(Key(raw, l), Put(blob))))
  }

  /** A reader sees the bytes of the newest put at or below its LSN, and nothing when the newest version is a
      delete or there is none. */
  lemma VisibleIs(S: set<Version>, raw: RawKey, lsn: Lsn, blob: Blob)
    requires KeyUnique(S)
    ensures Visible(Newest(S, raw, lsn)) == Some(blob)
       <==> Reads(S, raw, lsn, blob)
  {
    NewestIsNewest(S, raw, lsn);
    var w := Newest(S, raw, lsn);
    if w.Some? && w.value.value == Put(blob) {
      assert w == Some(Version(Key(raw, w.value.key.lsn), Put(blob)));
    }
    if l: Lsn :| IsNewest(S, raw, lsn, Some(Version(Key(raw, l), Put(blob)))) {
      NewestUnique(S, raw, lsn, Some(Version(Key(raw, l), Put(blob))));
    }
  }

  lemma SeenPuts(r: Option<Version>, S: set<Version>, raw: RawKey, lsn: Lsn)
    requires KeyUnique(S) && Visible(r) == Visible(Newest(S, raw, lsn))
    ensures forall blob: Blob :: r.Some? && r.value.value == Put(blob) <==>
              exists l: Lsn :: IsNewest(S, raw, lsn, Some(Version(Key(raw, l), Put(blob))))
  {
    forall blob: Blob
      ensures r.Some? && r.value.value == Put(blob) <==> Reads(S, raw, lsn, blob)
    {
      VisibleIs(S, raw, lsn, blob);
    }
  }

  // ----- One chain

  ghost function ItemSet(s: seq<Version>): set<Version> {
    set v | v in s
  }

  ghost function BodySet(b: Body): set<Version> {
    if b.LeafData? then ItemSet(b.items) else {}
  }

  ghost function Contents(chain: seq<Body>): set<Version> {
    if chain == [] then {} else BodySet(chain[0]) + Contents(chain[1..])
  }

  /** Newer pages hold newer versions of a raw key. */
  ghost predicate AllNewer(S: set<Version>, T: set<Version>) {
    forall v, w :: v in S && w in T && v.key.raw == w.key.raw ==> w.key.lsn < v.key.lsn
  }

  ghost predicate LeafOk(chain: seq<Body>) {
    chain == [] ||
    (&& TierOf(chain[0]) == Leaf
     && (chain[0].LeafData? ==> SortedVersions(chain[0].items))
     && AllNewer(BodySet(chain[0]), Contents(chain[1..]))
     && LeafOk(chain[1..]))
  }

  /** The lookup of `find_value` in one data page. */
  function PageFind(items: seq<Version>, raw: RawKey, lsn: Lsn): Option<Version> {
    var p := LowerBound(items, Key(raw, lsn));
    if p < |items| && items[p].key.raw == raw then Some(items[p]) else None
  }

  /** `find_value`: walk the chain and stop at the first data page with a match. */
  function ChainFind(chain: seq<Body>, raw: RawKey, lsn: Lsn): Option<Version> {
    if chain == [] then None
    else
      var r := if chain[0].LeafData? then PageFind(chain[0].items, raw, lsn) else None;
      if r.Some? then r else ChainFind(chain[1..], raw, lsn)
  }

  lemma PageFindIsNewest(items: seq<Version>, raw: RawKey, lsn: Lsn)
    requires SortedVersions(items)
    ensures IsNewest(ItemSet(items), raw, lsn, PageFind(items, raw, lsn))
  {
    var t := Key(raw, lsn);
    var p := LowerBound(items, t);
    forall v | v in ItemSet(items) && Matches(v, raw, lsn)
      ensures PageFind(items, raw, lsn).Some? && v.key.lsn <= items[p].key.lsn
    {
      var i :| 0 <= i < |items| && items[i] == v;
      assert !KeyLess(v.key, t);
      assert p <= i;
      assert p < i ==> KeyLess(items[p].key, items[i].key);
    }
  }

  /** A chain walk finds the newest version of the whole chain. */
  lemma {:induction false} ChainFindIsNewest(chain: seq<Body>, raw: RawKey, lsn: Lsn)
    requires LeafOk(chain)
    ensures IsNewest(Contents(chain), raw, lsn, ChainFind(chain, raw, lsn))
  {
    if chain != [] {
      ChainFindIsNewest(chain[1..], raw, lsn);
      if chain[0].LeafData? {
        PageFindIsNewest(chain[0].items, raw, lsn);
      }
    }
  }

  lemma {:induction false} ContentsUnique(chain: seq<Body>)
    requires LeafOk(chain)
    ensures KeyUnique(Contents(chain))
  {
    if chain != [] {
      ContentsUnique(chain[1..]);
      var S, T := BodySet(chain[0]), Contents(chain[1..]);
      forall v, w | v in Contents(chain) && w in Contents(chain) && v.key == w.key
        ensures v == w
      {
        if v in S && w in S {
          SortedUnique(chain[0].items, v, w);
        }
      }
    }
  }

  lemma SortedUnique(items: seq<Version>, v: Version, w: Version)
    requires SortedVersions(items) && v in items && w in items && v.key == w.key
    ensures v == w
  {
    var i :| 0 <= i < |items| && items[i] == v;
    var j :| 0 <= j < |items| && items[j] == w;
    assert i == j;
  }

  lemma ChainReadIsSetRead(chain: seq<Body>, raw: RawKey, lsn: Lsn)
    requires LeafOk(chain)
    ensures ChainFind(chain, raw, lsn) == Newest(Contents(chain), raw, lsn)
  {
    ChainFindIsNewest(chain, raw, lsn);
    ContentsUnique(chain);
    NewestUnique(Contents(chain), raw, lsn, ChainFind(chain, raw, lsn));
  }

  // ----- What consolidation keeps

  /** No version of the same raw key lies between `v` and the safe LSN. */
  ghost predicate NewestAtSafe(S: set<Version>, v: Version, safe: Lsn) {
    forall w :: w in S && Matches(w, v.key.raw, safe) ==> w.key.lsn <= v.key.lsn
  }

  /** All versions above the safe LSN, and the newest one at or below it unless it is a delete. */
  ghost predicate Keeps(S: set<Version>, v: Version, safe: Lsn) {
    v.key.lsn > safe || (v.value.Put? && NewestAtSafe(S, v, safe))
  }

  /** The versions a leaf consolidation writes out. */
  ghost function Kept(S: set<Version>, limit: Option<RawKey>, safe: Lsn): set<Version> {
    set v | v in S && Below(v.key.raw, limit) && Keeps(S, v, safe)
  }

  /** The page that `MergingLeafPageIter` produces from the versions `S`. */
  ghost predicate LeafConsolidated(S: set<Version>, limit: Option<RawKey>, safe: Lsn, items: seq<Version>) {
    SortedVersions(items) && ItemSet(items) == Kept(S, limit, safe)
  }

  /** The page has every version above the safe LSN, and of the others only the newest of a raw key, if it is a
      put. */
  lemma ConsolidatedItems(S: set<Version>, limit: Option<RawKey>, safe: Lsn, items: seq<Version>)
    requires LeafConsolidated(S, limit, safe, items)
    ensures forall v: Version ::
              v in items <==>
                && v in S && Below(v.key.raw, limit)
                && (v.key.lsn > safe ||
                    (v.value.Put? &&
                     forall w: Version :: w in S && w.key.raw == v.key.raw && w.key.lsn <= safe ==>
                       w.key.lsn <= v.key.lsn))
  {
    forall v: Version
      ensures v in items <==> v in S && Below(v.key.raw, limit) && Keeps(S, v, safe)
    {
      assert v in items <==> v in ItemSet(items);
    }
  }

  /** The kept versions answer every read at or above the safe LSN, except that a delete at or
      below the safe LSN is now a missing version. */
  lemma KeptFind(S: set<Version>, limit: Option<RawKey>, safe: Lsn, raw: RawKey, lsn: Lsn)
    requires KeyUnique(S) && Below(raw, limit) && safe <= lsn
    ensures var r := Newest(S, raw, lsn);
            Newest(Kept(S, limit, safe), raw, lsn) ==
            if r.Some? && r.value.value.Delete? && r.value.key.lsn <= safe then None else r
  {
    var K := Kept(S, limit, safe);
    NewestIsNewest(S, raw, lsn);
    var r := Newest(S, raw, lsn);
    var k := if r.Some? && r.value.value.Delete? && r.value.key.lsn <= safe then None else r;
    if r.Some? && r.value.key.lsn <= safe {
      forall v | v in K && Matches(v, raw, lsn)
        ensures v == r.value && v.value.Put?
      {
        assert v.key.lsn <= r.value.key.lsn <= safe;
        assert Matches(r.value, v.key.raw, safe);
        assert v.key == r.value.key;
      }
      assert NewestAtSafe(S, r.value, safe);
    }
    assert k.Some? ==> k.value in K;
    assert IsNewest(K, raw, lsn, k);
    NewestUnique(K, raw, lsn, k);
  }

  /** The versions of two parts of a chain, the newer part first. */
  lemma NewestOfUnion(P: set<Version>, Q: set<Version>, raw: RawKey, lsn: Lsn)
    requires KeyUnique(P + Q) && AllNewer(P, Q)
    ensures var p := Newest(P, raw, lsn);
            Newest(P + Q, raw, lsn) == if p.Some? then p else Newest(Q, raw, lsn)
  {
    NewestIsNewest(P, raw, lsn);
    NewestIsNewest(Q, raw, lsn);
    var p := Newest(P, raw, lsn);
    NewestUnique(P + Q, raw, lsn, if p.Some? then p else Newest(Q, raw, lsn));
  }

  // ----- Consolidation steps on a chain

  lemma {:induction false} ContentsSplit(chain: seq<Body>, n: nat)
    requires n <= |chain|
    ensures Contents(chain) == Contents(chain[..n]) + Contents(chain[n..])
  {
    if n > 0 {
      ContentsSplit(chain[1..], n - 1);
      assert chain[1..][..n - 1] == chain[..n][1..];
      assert chain[1..][n - 1..] == chain[n..];
    } else {
      assert chain[..0] == [] && chain[0..] == chain;
    }
  }

  lemma {:induction false} LeafOkParts(chain: seq<Body>, n: nat)
    requires LeafOk(chain) && n <= |chain|
    ensures LeafOk(chain[..n]) && LeafOk(chain[n..])
    ensures AllNewer(Contents(chain[..n]), Contents(chain[n..]))
  {
    if n > 0 {
      LeafOkParts(chain[1..], n - 1);
      ContentsSplit(chain[1..], n - 1);
      assert chain[1..][..n - 1] == chain[..n][1..];
      assert chain[1..][n - 1..] == chain[n..];
    } else {
      assert chain[..0] == [] && chain[0..] == chain;
    }
  }

  /** The chain after the first `n` pages were replaced by one consolidated page. */
  function Replaced(chain: seq<Body>, n: nat, items: seq<Version>): seq<Body>
    requires n <= |chain|
  {
    [LeafData(items)] + chain[n..]
  }

  lemma ReplacedOk(chain: seq<Body>, n: nat, limit: Option<RawKey>, safe: Lsn, items: seq<Version>)
    requires LeafOk(chain) && n <= |chain|
    requires LeafConsolidated(Contents(chain[..n]), limit, safe, items)
    ensures LeafOk(Replaced(chain, n, items))
    ensures Contents(Replaced(chain, n, items)) == Kept(Contents(chain[..n]), limit, safe) + Contents(chain[n..])
    ensures Contents(Replaced(chain, n, items)) <= Contents(chain)
  {
    LeafOkParts(chain, n);
    ContentsSplit(chain, n);
    assert Replaced(chain, n, items)[1..] == chain[n..];
  }

  /** A full consolidation changes no read at or above the safe LSN below the range limit. */
  lemma FullConsolidationKeepsReads(chain: seq<Body>, limit: Option<RawKey>, safe: Lsn, items: seq<Version>,
                                    raw: RawKey, lsn: Lsn)
    requires LeafOk(chain) && LeafConsolidated(Contents(chain), limit, safe, items)
    requires Below(raw, limit) && safe <= lsn
    ensures Visible(ChainFind([LeafData(items)], raw, lsn)) == Visible(ChainFind(chain, raw, lsn))
  {
    assert chain[..|chain|] == chain;
    ReplacedOk(chain, |chain|, limit, safe, items);
    assert Replaced(chain, |chain|, items) == [LeafData(items)];
    ChainReadIsSetRead(chain, raw, lsn);
    ChainReadIsSetRead([LeafData(items)], raw, lsn);
    assert Contents([LeafData(items)]) == Kept(Contents(chain), limit, safe);
    ContentsUnique(chain);
    KeptFind(Contents(chain), limit, safe, raw, lsn);
  }

  /** The newest version of `raw` at the safe LSN among the merged pages is a delete. */
  ghost predicate DropsDelete(merged: seq<Body>, raw: RawKey, safe: Lsn) {
    var r := ChainFind(merged, raw, safe);
    r.Some? && r.value.value.Delete?
  }

  /** No dropped delete hides a value of the pages that stay below the merged ones.  This is
      what a caller of a partial consolidation would have to check. */
  ghost predicate NothingResurrects(chain: seq<Body>, n: nat, safe: Lsn)
    requires n <= |chain|
  {
    forall raw: RawKey :: DropsDelete(chain[..n], raw, safe) ==> Visible(ChainFind(chain[n..], raw, safe)) == None
  }

  ghost predicate SameReads(c: seq<Body>, d: seq<Body>, safe: Lsn) {
    forall raw: RawKey, lsn: Lsn :: safe <= lsn ==> Visible(ChainFind(c, raw, lsn)) == Visible(ChainFind(d, raw, lsn))
  }

  lemma PartialRead(chain: seq<Body>, n: nat, safe: Lsn, items: seq<Version>, raw: RawKey, lsn: Lsn)
    requires LeafOk(chain) && n <= |chain| && safe <= lsn
    requires LeafConsolidated(Contents(chain[..n]), None, safe, items)
    ensures var p := ChainFind(chain[..n], raw, lsn);
            var old_ := if p.Some? then p else ChainFind(chain[n..], raw, lsn);
            && ChainFind(chain, raw, lsn) == old_
            && ChainFind(Replaced(chain, n, items), raw, lsn) ==
               if p.Some? && p.value.value.Delete? && p.value.key.lsn <= safe then ChainFind(chain[n..], raw, lsn)
                 else old_
  {
    var P, Q := Contents(chain[..n]), Contents(chain[n..]);
    var K := Kept(P, None, safe);
    LeafOkParts(chain, n);
    ContentsSplit(chain, n);
    ContentsUnique(chain);
    ReplacedOk(chain, n, None, safe, items);
    ContentsUnique(Replaced(chain, n, items));
    ChainReadIsSetRead(chain, raw, lsn);
    ChainReadIsSetRead(chain[..n], raw, lsn);
    ChainReadIsSetRead(chain[n..], raw, lsn);
    ChainReadIsSetRead(Replaced(chain, n, items), raw, lsn);
    NewestOfUnion(P, Q, raw, lsn);
    NewestOfUnion(K, Q, raw, lsn);
    KeptFind(P, None, safe, raw, lsn);
  }

  /** In a chain with newer LSNs on top, reads above the safe LSN see the same older pages. */
  lemma OlderPagesAtSafe(chain: seq<Body>, n: nat, safe: Lsn, raw: RawKey, lsn: Lsn)
    requires LeafOk(chain) && n <= |chain| && safe <= lsn
    requires var p := ChainFind(chain[..n], raw, lsn); p.Some? && p.value.key.lsn <= safe
    ensures ChainFind(chain[..n], raw, safe) == ChainFind(chain[..n], raw, lsn)
    ensures ChainFind(chain[n..], raw, safe) == ChainFind(chain[n..], raw, lsn)
  {
    LeafOkParts(chain, n);
    var P, Q := Contents(chain[..n]), Contents(chain[n..]);
    ContentsUnique(chain[..n]);
    ContentsUnique(chain[n..]);
    ChainReadIsSetRead(chain[..n], raw, lsn);
    ChainReadIsSetRead(chain[n..], raw, lsn);
    ChainReadIsSetRead(chain[..n], raw, safe);
    ChainReadIsSetRead(chain[n..], raw, safe);
    NewestIsNewest(P, raw, lsn);
    NewestIsNewest(Q, raw, lsn);
    NewestUnique(P, raw, safe, Newest(P, raw, lsn));
    var p := Newest(P, raw, lsn).value;
    assert forall v :: v in Q && v.key.raw == raw ==> v.key.lsn < p.key.lsn <= safe;
    NewestUnique(Q, raw, safe, Newest(Q, raw, lsn));
  }

  /** A partial consolidation changes no read at or above the safe LSN exactly when no delete
      that it drops hides a value of an older page. */
  lemma PartialConsolidationKeepsReadsIff(chain: seq<Body>, n: nat, safe: Lsn, items: seq<Version>)
    requires LeafOk(chain) && n <= |chain|
    requires LeafConsolidated(Contents(chain[..n]), None, safe, items)
    ensures SameReads(chain, Replaced(chain, n, items), safe) <==> NothingResurrects(chain, n, safe)
  {
    if SameReads(chain, Replaced(chain, n, items), safe) {
      forall raw: RawKey | DropsDelete(chain[..n], raw, safe)
        ensures Visible(ChainFind(chain[n..], raw, safe)) == None
      {
        PartialRead(chain, n, safe, items, raw, safe);
        LeafOkParts(chain, n);
        ChainFindIsNewest(chain[..n], raw, safe);
      }
    }
    if NothingResurrects(chain, n, safe) {
      forall raw: RawKey, lsn: Lsn | safe <= lsn
        ensures Visible(ChainFind(chain, raw, lsn)) == Visible(ChainFind(Replaced(chain, n, items), raw, lsn))
      {
        PartialRead(chain, n, safe, items, raw, lsn);
        var p := ChainFind(chain[..n], raw, lsn);
        if p.Some? && p.value.value.Delete? && p.value.key.lsn <= safe {
          OlderPagesAtSafe(chain, n, safe, raw, lsn);
          assert DropsDelete(chain[..n], raw, safe);
        }
      }
    }
  }

  /** The property fails for some input: a put below a newer delete comes back. */
  lemma PartialConsolidationCanResurrect()
    ensures var del, put := Version(Key(1.0, 5), Delete), Version(Key(1.0, 3), Put([7]));
            var chain := [LeafData([del]), LeafData([put])];
            && LeafOk(chain)
            && LeafConsolidated(Contents(chain[..1]), None, 5, [])
            && Visible(ChainFind(chain, 1.0, 5)) == None
            && Visible(ChainFind(Replaced(chain, 1, []), 1.0, 5)) == Some([7])
  {
    var del, put := Version(Key(1.0, 5), Delete), Version(Key(1.0, 3), Put([7]));
    var chain := [LeafData([del]), LeafData([put])];
    assert chain[1..] == [LeafData([put])] && chain[1..][1..] == [];
    assert Contents(chain[1..]) == {put};
    assert chain[..1] == [LeafData([del])] && chain[..1][1..] == [];
    assert Contents(chain[..1]) == {del};
    assert Kept({del}, None, 5) == {};
    assert [put][1..] == [];
    assert LowerBound([put], Key(1.0, 5)) == 0;
    assert LowerBound([del], Key(1.0, 5)) == 0;
    assert Replaced(chain, 1, [])[1..] == chain[1..];
    assert ChainFind(chain[1..], 1.0, 5) == Some(put);
  }
}
