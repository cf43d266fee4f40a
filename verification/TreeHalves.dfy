/** The two halves of a split page (photondb/src/page/sorted_page.rs `into_split_iter`). */
module TreeHalves {
  import opened Options
  import opened Data
  import opened Pages
  import opened LeafChain
  import opened InnerChain
  import opened TreeProtocol
  import opened TreeInvariant

  function Take(E: seq<Entry>, k: nat): seq<Entry> {
    if k <= |E| then E[..k] else E
  }

  function Drop(E: seq<Entry>, k: nat): seq<Entry> {
    if k <= |E| then E[k..] else []
  }

  /** The left part as it stays behind: the old page under a split delta. */
  function StayingNode(n: Node, sep: RawKey, k: nat, right: Index): Node
    requires |n.chain| == 1
  {
    Node(Range(n.rng.lo, Some(sep)), n.level, [SplitDelta(TierOf(n.chain[0]), sep, right), n.chain[0]], Take(n.ents, k))
  }

  /** The left part as a page of its own. */
  function LeftNode(n: Node, sep: RawKey, k: nat): Node
    requires |n.chain| == 1
  {
    Node(Range(n.rng.lo, Some(sep)), n.level, [LeftHalf(n.chain[0], k)], Take(n.ents, k))
  }

  /** The right part as a page of its own. */
  function RightNode(n: Node, sep: RawKey, k: nat): Node
    requires |n.chain| == 1
  {
    Node(Range(sep, n.rng.hi), n.level, [RightHalf(n.chain[0], k)], Drop(n.ents, k))
  }

  /** The separator cuts sorted versions between two raw keys, into two parts that are not empty. */
  lemma LeafCut(items: seq<Version>, sep: RawKey, k: nat)
    requires SortedVersions(items) && SplitPoint(LeafData(items)) == Some((sep, k))
    ensures 0 < k < |items| && items[0].key.raw < sep
    ensures exists i :: 0 <= i < |items| && items[i].key.raw == sep
    ensures forall i :: 0 <= i < |items| ==> (items[i].key.raw < sep <==> i < k)
  {
    var mid := |items| / 2;
    assert items[mid].key.raw == sep;
    assert !KeyLess(items[mid].key, Key(sep, MAX_LSN));
    forall i | 0 <= i < |items|
      ensures items[i].key.raw < sep <==> i < k
    {
      assert k < i ==> KeyLess(items[k].key, items[i].key);
    }
  }

  lemma PartSets(items: seq<Version>, sep: RawKey, k: nat)
    requires SortedVersions(items) && SplitPoint(LeafData(items)) == Some((sep, k)) && k <= |items|
    ensures ItemSet(items[..k]) == set v | v in ItemSet(items) && v.key.raw < sep
    ensures ItemSet(items[k..]) == set v | v in ItemSet(items) && sep <= v.key.raw
  {
    LeafCut(items, sep, k);
    forall v
      ensures v in items[..k] <==> v in items && v.key.raw < sep
      ensures v in items[k..] <==> v in items && sep <= v.key.raw
    {
      if v in items {
        var i :| 0 <= i < |items| && items[i] == v;
        assert i < k ==> items[..k][i] == v;
        assert i >= k ==> items[k..][i - k] == v;
      }
    }
  }

  lemma OnePageContents(b: Body)
    ensures Contents([b]) == BodySet(b)
  {
    assert [b][1..] == [];
  }

  lemma StayingContents(d: Body, b: Body)
    requires d.SplitDelta?
    ensures Contents([d, b]) == BodySet(b)
  {
    assert [d, b][1..] == [b];
    OnePageContents(b);
  }

  lemma OneLeafNode(items: seq<Version>, r: Range)
    requires SortedVersions(items) && Below(r.lo, r.hi)
    requires forall v :: v in ItemSet(items) ==> Contains(r, v.key.raw)
    ensures NodeOk(Node(r, 0, [LeafData(items)], []))
  {
    assert [LeafData(items)][1..] == [];
    OnePageContents(LeafData(items));
  }

  lemma StayingLeafNode(items: seq<Version>, lo: RawKey, sep: RawKey, right: Index)
    requires SortedVersions(items) && lo < sep
    requires forall v :: v in ItemSet(items) ==> lo <= v.key.raw
    ensures NodeOk(Node(Range(lo, Some(sep)), 0, [SplitDelta(Leaf, sep, right), LeafData(items)], []))
  {
    var d := SplitDelta(Leaf, sep, right);
    assert [d, LeafData(items)][1..] == [LeafData(items)];
    assert [LeafData(items)][1..] == [];
    assert LeafOk([LeafData(items)]);
    StayingContents(d, LeafData(items));
  }

  lemma LeafItems(n: Node)
    requires NodeOk(n) && n.level == 0 && |n.chain| == 1 && n.chain[0].LeafData?
    ensures SortedVersions(n.chain[0].items) && Below(n.rng.lo, n.rng.hi)
    ensures forall v :: v in ItemSet(n.chain[0].items) ==> Contains(n.rng, v.key.raw)
    ensures n.ents == []
  {
    assert n.chain == [n.chain[0]] && n.chain[1..] == [];
    OnePageContents(n.chain[0]);
    assert SplitLimit(n.chain[1..]) == None;
    assert SplitLimit(n.chain) == None;
    assert Contents(n.chain) == ItemSet(n.chain[0].items);
  }

  lemma SeparatorInside(items: seq<Version>, r: Range, sep: RawKey, k: nat)
    requires SortedVersions(items) && forall v :: v in ItemSet(items) ==> Contains(r, v.key.raw)
    requires SplitPoint(LeafData(items)) == Some((sep, k))
    ensures r.lo < sep && Below(sep, r.hi)
  {
    LeafCut(items, sep, k);
    assert items[0] in ItemSet(items);
    var i :| 0 <= i < |items| && items[i].key.raw == sep;
    assert items[i] in ItemSet(items);
  }

  lemma LeafPartsOk(items: seq<Version>, r: Range, sep: RawKey, k: nat)
    requires SortedVersions(items) && forall v :: v in ItemSet(items) ==> Contains(r, v.key.raw)
    requires SplitPoint(LeafData(items)) == Some((sep, k)) && k <= |items| && r.lo < sep && Below(sep, r.hi)
    ensures NodeOk(Node(Range(r.lo, Some(sep)), 0, [LeafData(items[..k])], []))
    ensures NodeOk(Node(Range(sep, r.hi), 0, [LeafData(items[k..])], []))
  {
    PartSets(items, sep, k);
    OneLeafNode(items[..k], Range(r.lo, Some(sep)));
    OneLeafNode(items[k..], Range(sep, r.hi));
  }

  lemma LeafHalvesOk(n: Node, sep: RawKey, k: nat, right: Index)
    requires NodeOk(n) && n.level == 0 && |n.chain| == 1 && SplitPoint(n.chain[0]) == Some((sep, k))
    ensures n.rng.lo < sep && Below(sep, n.rng.hi)
    ensures NodeOk(StayingNode(n, sep, k, right)) && NodeOk(LeftNode(n, sep, k)) && NodeOk(RightNode(n, sep, k))
  {
    assert TierOf(n.chain[0]) == Leaf;
    var items := n.chain[0].items;
    LeafItems(n);
    SeparatorInside(items, n.rng, sep, k);
    LeafCut(items, sep, k);
    StayingLeafNode(items, n.rng.lo, sep, right);
    LeafPartsOk(items, n.rng, sep, k);
  }

  lemma InnerHalvesOk(n: Node, sep: RawKey, k: nat, right: Index)
    requires NodeOk(n) && n.level > 0 && |n.chain| == 1 && SplitPoint(n.chain[0]) == Some((sep, k))
    ensures 0 < k < |n.ents| && sep == n.ents[k].key && n.rng.lo < sep && Below(sep, n.rng.hi)
    ensures NodeOk(StayingNode(n, sep, k, right)) && NodeOk(LeftNode(n, sep, k)) && NodeOk(RightNode(n, sep, k))
  {
    assert n.chain == [InnerData(n.ents)];
    SplitLeftRepresents(n.ents, n.rng, k, right);
    SplitRightRepresents(n.ents, n.rng, k);
    BaseRepresents(n.ents[..k], Range(n.rng.lo, Some(sep)));
  }

  lemma HalvesOk(n: Node, sep: RawKey, k: nat, right: Index)
    requires NodeOk(n) && |n.chain| == 1 && SplitPoint(n.chain[0]) == Some((sep, k))
    ensures n.rng.lo < sep && Below(sep, n.rng.hi)
    ensures n.level > 0 ==> 0 < k < |n.ents| && sep == n.ents[k].key
    ensures NodeOk(StayingNode(n, sep, k, right)) && NodeOk(LeftNode(n, sep, k)) && NodeOk(RightNode(n, sep, k))
  {
    if n.level == 0 {
      LeafHalvesOk(n, sep, k, right);
    } else {
      InnerHalvesOk(n, sep, k, right);
    }
  }

  /** No version is lost, and each half keeps exactly the versions of its side. */
  lemma HalvesContents(n: Node, sep: RawKey, k: nat, right: Index)
    requires NodeOk(n) && |n.chain| == 1 && SplitPoint(n.chain[0]) == Some((sep, k))
    ensures Contents(StayingNode(n, sep, k, right).chain) == Contents(n.chain)
    ensures Contents(LeftNode(n, sep, k).chain) == set v | v in Contents(n.chain) && v.key.raw < sep
    ensures Contents(RightNode(n, sep, k).chain) == set v | v in Contents(n.chain) && sep <= v.key.raw
  {
    assert n.chain == [n.chain[0]];
    OnePageContents(n.chain[0]);
    StayingContents(SplitDelta(TierOf(n.chain[0]), sep, right), n.chain[0]);
    OnePageContents(LeftHalf(n.chain[0], k));
    OnePageContents(RightHalf(n.chain[0], k));
    if n.level == 0 {
      LeafCut(n.chain[0].items, sep, k);
      PartSets(n.chain[0].items, sep, k);
    } else {
      assert n.chain[0].InnerData?;
    }
  }

  /** A read on one side of the separator sees the same versions in that half. */
  lemma HalfAnswers(S: set<Version>, H: set<Version>, raw: RawKey, lsn: Lsn)
    requires KeyUnique(S) && H <= S && forall v :: v in S && v.key.raw == raw ==> v in H
    ensures Newest(H, raw, lsn) == Newest(S, raw, lsn)
  {
    NewestIsNewest(S, raw, lsn);
    NewestUnique(H, raw, lsn, Newest(S, raw, lsn));
  }

  lemma HalfSameAnswers(S: set<Version>, W: set<Version>, r: Range, safe: Lsn, H: set<Version>, q: Range)
    requires KeyUnique(S) && SameAnswers(S, W, r, safe) && H <= S
    requires forall raw: RawKey :: Contains(q, raw) ==> Contains(r, raw)
    requires forall v :: v in S && Contains(q, v.key.raw) ==> v in H
    ensures SameAnswers(H, W, q, safe)
  {
    forall raw: RawKey, lsn: Lsn | Contains(q, raw) && safe <= lsn
      ensures Visible(Newest(H, raw, lsn)) == Visible(Newest(W, raw, lsn))
    {
      HalfAnswers(S, H, raw, lsn);
      assert Visible(Newest(S, raw, lsn)) == Visible(Newest(W, raw, lsn));
    }
  }

  lemma HalvesAnswer(n: Node, sep: RawKey, k: nat, right: Index, W: set<Version>, safe: Lsn)
    requires NodeOk(n) && n.level == 0 && |n.chain| == 1 && SplitPoint(n.chain[0]) == Some((sep, k))
    requires SameAnswers(Contents(n.chain), W, n.rng, safe)
    ensures var x := StayingNode(n, sep, k, right); SameAnswers(Contents(x.chain), W, x.rng, safe)
    ensures var x := LeftNode(n, sep, k); SameAnswers(Contents(x.chain), W, x.rng, safe)
    ensures var x := RightNode(n, sep, k); SameAnswers(Contents(x.chain), W, x.rng, safe)
  {
    HalvesOk(n, sep, k, right);
    HalvesContents(n, sep, k, right);
    ContentsUnique(n.chain);
    var S := Contents(n.chain);
    HalfSameAnswers(S, W, n.rng, safe, S, Range(n.rng.lo, Some(sep)));
    HalfSameAnswers(S, W, n.rng, safe, Contents(LeftNode(n, sep, k).chain), Range(n.rng.lo, Some(sep)));
    HalfSameAnswers(S, W, n.rng, safe, Contents(RightNode(n, sep, k).chain), Range(sep, n.rng.hi));
  }
}
