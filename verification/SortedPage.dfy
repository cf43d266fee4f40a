/**
 The byte layout of a sorted page (photondb/src/page/sorted_page.rs, photondb/src/page/codec.rs):
 a table of little-endian offsets, then the items behind one another.
 */
module SortedPage {
  import opened Options
  import opened Data
  import opened Arithmetic

  const U32: nat := 0x1_0000_0000
  const U64: nat := 0x1_0000_0000_0000_0000

  // ----- Little-endian integers

  function Pow256(n: nat): (p: nat)
    ensures p > 0
  {
    if n == 0 then 1 else 256 * Pow256(n - 1)
  }

  /** The lowest `n` digits of `v` in base 256, the lowest first. */
  function PutInt(v: nat, n: nat): (b: Blob)
    ensures |b| == n
  {
    seq(n, i => if i >= 0 then (v / Pow256(i) % 256) as Byte else 0)
  }

  function GetInt(b: Blob): nat {
    if b == [] then 0 else b[0] as nat + 256 * GetInt(b[1..])
  }

  lemma DivideTwice(v: nat, b: nat)
    requires b > 0
    ensures v / (256 * b) == v / 256 / b
  {
    var q, r := v / 256 / b, v / 256 % b;
    assert v / 256 == q * b + r;
    assert v == 256 * (q * b + r) + v % 256;
    assert 256 * (q * b + r) == q * (256 * b) + 256 * r;
    var rest := 256 * r + v % 256;
    assert v == q * (256 * b) + rest && rest < 256 * b;
    ExactDivision(v, 256 * b, q);
  }

  lemma PutIntStep(v: nat, n: nat)
    requires n > 0
    ensures PutInt(v, n)[0] == (v % 256) as Byte && PutInt(v, n)[1..] == PutInt(v / 256, n - 1)
  {
    var b, c := PutInt(v, n), PutInt(v / 256, n - 1);
    assert Pow256(0) == 1;
    forall i | 0 <= i < n - 1
      ensures b[1..][i] == c[i]
    {
      DivideTwice(v, Pow256(i));
    }
    assert b[1..] == c;
  }

  lemma {:induction false} IntRoundTrip(v: nat, n: nat)
    requires v < Pow256(n)
    ensures GetInt(PutInt(v, n)) == v
  {
    if n > 0 {
      IntRoundTrip(v / 256, n - 1);
      PutIntStep(v, n);
    }
  }

  /** Bytes are the digits of the number they stand for. */
  lemma {:induction false} BytesRoundTrip(b: Blob)
    ensures PutInt(GetInt(b), |b|) == b
  {
    if b != [] {
      BytesRoundTrip(b[1..]);
      PutIntStep(GetInt(b), |b|);
      assert GetInt(b) / 256 == GetInt(b[1..]) && GetInt(b) % 256 == b[0] as nat;
      assert b == [b[0]] + b[1..] && PutInt(GetInt(b), |b|) == [b[0]] + PutInt(GetInt(b[1..]), |b| - 1);
    }
  }

  /** The lowest byte comes first. */
  lemma FourBytes(b: Blob)
    requires |b| == 4
    ensures GetInt(b) == b[0] as nat + 0x100 * b[1] as nat + 0x1_0000 * b[2] as nat + 0x100_0000 * b[3] as nat
  {
    var c, d, e := b[1..], b[2..], b[3..];
    assert c[1..] == d && d[1..] == e && e[1..] == [];
    assert GetInt(e) == b[3] as nat;
    assert GetInt(d) == b[2] as nat + 256 * GetInt(e);
    assert GetInt(c) == b[1] as nat + 256 * GetInt(d);
  }

  lemma EightBytes(b: Blob)
    requires |b| == 8
    ensures GetInt(b) == b[0] as nat + 0x100 * b[1] as nat + 0x1_0000 * b[2] as nat + 0x100_0000 * b[3] as nat
                         + 0x1_0000_0000 * b[4] as nat + 0x100_0000_0000 * b[5] as nat
                         + 0x1_0000_0000_0000 * b[6] as nat + 0x100_0000_0000_0000 * b[7] as nat
  {
    var c, d, e, high := b[1..], b[2..], b[3..], b[4..];
    FourBytes(high);
    assert c[1..] == d && d[1..] == e && e[1..] == high;
    assert GetInt(e) == b[3] as nat + 256 * GetInt(high);
    assert GetInt(d) == b[2] as nat + 256 * GetInt(e);
    assert GetInt(c) == b[1] as nat + 256 * GetInt(d);
  }

  lemma U32RoundTrip(v: nat)
    requires v < U32
    ensures GetInt(PutInt(v, 4)) == v
  {
    assert Pow256(4) == 256 * (256 * (256 * (256 * Pow256(0))));
    IntRoundTrip(v, 4);
  }

  lemma U64RoundTrip(v: nat)
    requires v < U64
    ensures GetInt(PutInt(v, 8)) == v
  {
    assert Pow256(8) == 256 * (256 * (256 * (256 * (256 * (256 * (256 * (256 * Pow256(0))))))));
    IntRoundTrip(v, 8);
  }

  // ----- Items

  function EncodeRaw(raw: Blob): Blob {
    PutInt(|raw|, 4) + raw
  }

  function EncodeValue(v: Value): Blob {
    match v
    case Put(blob) => [0 as Byte] + blob
    case Delete => [1 as Byte]
  }

  function DecodeValue(b: Blob): Option<Value> {
    if b == [] then None
    else if b[0] == 0 then Some(Put(b[1..]))
    else if b[0] == 1 then Some(Delete)
    else None
  }

  datatype LeafItem = LeafItem(raw: Blob, lsn: nat, value: Value)

  datatype InnerItem = InnerItem(raw: Blob, id: nat, epoch: nat)

  function EncodeLeaf(x: LeafItem): Blob {
    EncodeRaw(x.raw) + PutInt(x.lsn, 8) + EncodeValue(x.value)
  }

  function EncodeInner(x: InnerItem): Blob {
    EncodeRaw(x.raw) + PutInt(x.id, 8) + PutInt(x.epoch, 8)
  }

  /** A raw key and what follows it. */
  function DecodeRaw(b: Blob): Option<(Blob, Blob)> {
    if |b| < 4 then None
    else
      var n := GetInt(b[..4]);
      if |b| < 4 + n then None else Some((b[4..4 + n], b[4 + n..]))
  }

  function DecodeLeaf(b: Blob): Option<LeafItem> {
    match DecodeRaw(b)
    case None => None
    case Some((raw, rest)) =>
      if |rest| < 8 then None
      else
        match DecodeValue(rest[8..])
        case None => None
        case Some(v) => Some(LeafItem(raw, GetInt(rest[..8]), v))
  }

  function DecodeInner(b: Blob): Option<InnerItem> {
    match DecodeRaw(b)
    case None => None
    case Some((raw, rest)) =>
      if |rest| < 16 then None else Some(InnerItem(raw, GetInt(rest[..8]), GetInt(rest[8..16])))
  }

  lemma RawRoundTrip(raw: Blob, rest: Blob)
    requires |raw| < U32
    ensures DecodeRaw(EncodeRaw(raw) + rest) == Some((raw, rest))
  {
    var b := EncodeRaw(raw) + rest;
    assert b[..4] == PutInt(|raw|, 4);
    U32RoundTrip(|raw|);
    assert b[4..4 + |raw|] == raw && b[4 + |raw|..] == rest;
  }

  /** An inner item decodes to itself, whatever follows it. */
  lemma InnerRoundTrip(x: InnerItem, pad: Blob)
    requires |x.raw| < U32 && x.id < U64 && x.epoch < U64
    ensures DecodeInner(EncodeInner(x) + pad) == Some(x)
  {
    var rest := PutInt(x.id, 8) + PutInt(x.epoch, 8) + pad;
    assert EncodeInner(x) + pad == EncodeRaw(x.raw) + rest;
    RawRoundTrip(x.raw, rest);
    assert rest[..8] == PutInt(x.id, 8) && rest[8..16] == PutInt(x.epoch, 8);
    U64RoundTrip(x.id);
    U64RoundTrip(x.epoch);
  }

  /** A leaf item decodes to itself; a put takes everything that follows as part of its value, a
      delete does not look at it. */
  lemma LeafRoundTrip(x: LeafItem, pad: Blob)
    requires |x.raw| < U32 && x.lsn < U64
    ensures DecodeLeaf(EncodeLeaf(x) + pad) == Some(if x.value.Put? then x.(value := Put(x.value.blob + pad)) else x)
  {
    var rest := PutInt(x.lsn, 8) + EncodeValue(x.value) + pad;
    assert EncodeLeaf(x) + pad == EncodeRaw(x.raw) + rest;
    RawRoundTrip(x.raw, rest);
    assert rest[..8] == PutInt(x.lsn, 8);
    U64RoundTrip(x.lsn);
    var v := rest[8..];
    assert v == EncodeValue(x.value) + pad;
    if x.value.Put? {
      assert v[1..] == x.value.blob + pad;
    }
  }

  // ----- The stored bytes

  /** What any bytes mean as a leaf item.  The length of the raw key comes first, then the key, the LSN and the
      kind byte: 0 is a put of everything behind it, 1 is a delete, and any other byte is no item. */
  lemma LeafBytesMean(b: Blob, n: nat, lsn: nat)
    requires |b| >= 4
    requires n == b[0] as nat + 0x100 * b[1] as nat + 0x1_0000 * b[2] as nat + 0x100_0000 * b[3] as nat
    requires |b| >= n + 12 ==>
               var l := b[n + 4..n + 12];
               lsn == l[0] as nat + 0x100 * l[1] as nat + 0x1_0000 * l[2] as nat + 0x100_0000 * l[3] as nat
                      + 0x1_0000_0000 * l[4] as nat + 0x100_0000_0000 * l[5] as nat
                      + 0x1_0000_0000_0000 * l[6] as nat + 0x100_0000_0000_0000 * l[7] as nat
    ensures |b| < n + 13 ==> DecodeLeaf(b) == None
    ensures |b| >= n + 13 && b[n + 12] == 0 ==> DecodeLeaf(b) == Some(LeafItem(b[4..n + 4], lsn, Put(b[n + 13..])))
    ensures |b| >= n + 13 && b[n + 12] == 1 ==> DecodeLeaf(b) == Some(LeafItem(b[4..n + 4], lsn, Delete))
    ensures |b| >= n + 13 && b[n + 12] > 1 ==> DecodeLeaf(b) == None
  {
    FourBytes(b[..4]);
    if |b| >= n + 12 {
      var rest := b[n + 4..];
      assert rest[..8] == b[n + 4..n + 12] && rest[8..] == b[n + 12..];
      EightBytes(rest[..8]);
      assert |b| > n + 12 ==> rest[8..][0] == b[n + 12] && rest[8..][1..] == b[n + 13..];
    }
  }

  /** What any bytes mean as an inner item: the raw key, then the page id and the epoch. */
  lemma InnerBytesMean(b: Blob, n: nat, id: nat, epoch: nat)
    requires |b| >= 4
    requires n == b[0] as nat + 0x100 * b[1] as nat + 0x1_0000 * b[2] as nat + 0x100_0000 * b[3] as nat
    requires |b| >= n + 20 ==> PutInt(id, 8) == b[n + 4..n + 12] && id < U64
    requires |b| >= n + 20 ==> PutInt(epoch, 8) == b[n + 12..n + 20] && epoch < U64
    ensures DecodeInner(b) == if |b| < n + 20 then None else Some(InnerItem(b[4..n + 4], id, epoch))
  {
    FourBytes(b[..4]);
    if |b| >= n + 20 {
      var rest := b[n + 4..];
      assert rest[..8] == b[n + 4..n + 12] && rest[8..16] == b[n + 12..n + 20];
      U64RoundTrip(id);
      U64RoundTrip(epoch);
    }
  }

  /** A put, a delete and an inner item as they are stored. */
  lemma StoredItems()
    ensures EncodeLeaf(LeafItem([1], 1, Put([2]))) == [1, 0, 0, 0, 1, 1, 0, 0, 0, 0, 0, 0, 0, 0, 2]
    ensures EncodeLeaf(LeafItem([1, 5], 0x304, Delete)) == [2, 0, 0, 0, 1, 5, 4, 3, 0, 0, 0, 0, 0, 0, 1]
    ensures EncodeInner(InnerItem([9], 0x1_0002, 0x300))
         == [1, 0, 0, 0, 9, 2, 0, 1, 0, 0, 0, 0, 0, 0, 3, 0, 0, 0, 0, 0, 0]
  {
    Word4([1, 0, 0, 0], 1);
    Word4([2, 0, 0, 0], 2);
    Word8([1, 0, 0, 0, 0, 0, 0, 0], 1);
    Word8([4, 3, 0, 0, 0, 0, 0, 0], 0x304);
    Word8([2, 0, 1, 0, 0, 0, 0, 0], 0x1_0002);
    Word8([0, 3, 0, 0, 0, 0, 0, 0], 0x300);
  }

  lemma Word4(b: Blob, v: nat)
    requires |b| == 4 && v == b[0] as nat + 0x100 * b[1] as nat + 0x1_0000 * b[2] as nat + 0x100_0000 * b[3] as nat
    ensures PutInt(v, 4) == b
  {
    FourBytes(b);
    BytesRoundTrip(b);
  }

  lemma Word8(b: Blob, v: nat)
    requires |b| == 8
    requires v == b[0] as nat + 0x100 * b[1] as nat + 0x1_0000 * b[2] as nat + 0x100_0000 * b[3] as nat
                  + 0x1_0000_0000 * b[4] as nat + 0x100_0000_0000 * b[5] as nat
                  + 0x1_0000_0000_0000 * b[6] as nat + 0x100_0000_0000_0000 * b[7] as nat
    ensures PutInt(v, 8) == b
  {
    EightBytes(b);
    BytesRoundTrip(b);
  }

  // ----- Pages

  function Flatten(chunks: seq<Blob>): Blob {
    if chunks == [] then [] else Flatten(chunks[..|chunks| - 1]) + chunks[|chunks| - 1]
  }

  /** Where item `k` starts. */
  function Start(chunks: seq<Blob>, k: nat): nat
    requires k <= |chunks|
  {
    4 * |chunks| + |Flatten(chunks[..k])|
  }

  function OffsetTable(chunks: seq<Blob>, n: nat): (b: Blob)
    requires n <= |chunks|
    ensures |b| == 4 * n
  {
    if n == 0 then [] else OffsetTable(chunks, n - 1) + PutInt(Start(chunks, n - 1), 4)
  }

  function EncodePage(chunks: seq<Blob>): Blob {
    OffsetTable(chunks, |chunks|) + Flatten(chunks)
  }

  /** A page of two items as it is stored: where each item starts, then the items. */
  lemma StoredPage()
    ensures EncodePage([[9], [8, 7]]) == [8, 0, 0, 0, 9, 0, 0, 0, 9, 8, 7]
  {
    Word4([8, 0, 0, 0], 8);
    Word4([9, 0, 0, 0], 9);
    TwoItems([9], [8, 7]);
  }

  lemma TwoItems(a: Blob, b: Blob)
    ensures EncodePage([a, b]) == PutInt(8, 4) + PutInt(8 + |a|, 4) + (a + b)
  {
    var chunks := [a, b];
    assert chunks[..0] == [] && chunks[..1] == [a] && [a][..0] == [];
    assert Flatten(chunks[..1]) == a && Flatten(chunks) == a + b;
    assert OffsetTable(chunks, 1) == PutInt(8, 4);
  }

  /** The size `SortedPageBuilder::with_iter` computes, and its assertion. */
  ghost predicate Encodable(chunks: seq<Blob>) {
    |EncodePage(chunks)| < U32
  }

  /** The number of items: the first offset tells where the offsets end. */
  function Len(content: Blob): nat {
    if |content| < 4 then 0 else GetInt(content[..4]) / 4
  }

  function ItemOffset(content: Blob, k: nat): Option<nat> {
    if k < Len(content) && 4 * k + 4 <= |content| then Some(GetInt(content[4 * k..4 * k + 4])) else None
  }

  function Item(content: Blob, k: nat): Option<Blob> {
    match ItemOffset(content, k)
    case None => None
    case Some(from) =>
      var next := ItemOffset(content, k + 1);
      var to := if next.Some? then next.value else |content|;
      if from <= to <= |content| then Some(content[from..to]) else None
  }

  lemma {:induction false} TableAt(chunks: seq<Blob>, n: nat, k: nat)
    requires k < n <= |chunks|
    ensures OffsetTable(chunks, n)[4 * k..4 * k + 4] == PutInt(Start(chunks, k), 4)
  {
    if k < n - 1 {
      TableAt(chunks, n - 1, k);
      assert OffsetTable(chunks, n)[4 * k..4 * k + 4] == OffsetTable(chunks, n - 1)[4 * k..4 * k + 4];
    }
  }

  lemma {:induction false} FlattenPrefix(chunks: seq<Blob>, k: nat)
    requires k <= |chunks|
    ensures |Flatten(chunks[..k])| <= |Flatten(chunks)|
    ensures Flatten(chunks)[..|Flatten(chunks[..k])|] == Flatten(chunks[..k])
  {
    if k == |chunks| {
      assert chunks[..k] == chunks;
    } else {
      var n := |chunks| - 1;
      FlattenPrefix(chunks[..n], k);
      assert chunks[..n][..k] == chunks[..k];
    }
  }

  lemma FlattenAt(chunks: seq<Blob>, k: nat)
    requires k < |chunks|
    ensures |Flatten(chunks[..k + 1])| == |Flatten(chunks[..k])| + |chunks[k]| <= |Flatten(chunks)|
    ensures Flatten(chunks)[|Flatten(chunks[..k])|..|Flatten(chunks[..k + 1])|] == chunks[k]
  {
    FlattenPrefix(chunks, k + 1);
    var p := chunks[..k + 1];
    assert p[..k] == chunks[..k];
    assert Flatten(p) == Flatten(chunks[..k]) + chunks[k];
    var f, a, b := Flatten(chunks), |Flatten(chunks[..k])|, |Flatten(p)|;
    assert f[a..b] == f[..b][a..];
  }

  lemma OffsetIs(chunks: seq<Blob>, pad: Blob, k: nat)
    requires Encodable(chunks) && k < |chunks|
    ensures 4 * k + 4 <= |EncodePage(chunks) + pad|
    ensures GetInt((EncodePage(chunks) + pad)[4 * k..4 * k + 4]) == Start(chunks, k)
  {
    var content := EncodePage(chunks) + pad;
    TableAt(chunks, |chunks|, k);
    assert content[4 * k..4 * k + 4] == OffsetTable(chunks, |chunks|)[4 * k..4 * k + 4];
    FlattenPrefix(chunks, k);
    U32RoundTrip(Start(chunks, k));
  }

  lemma LenIs(chunks: seq<Blob>, pad: Blob)
    requires Encodable(chunks) && chunks != []
    ensures Len(EncodePage(chunks) + pad) == |chunks|
  {
    OffsetIs(chunks, pad, 0);
    var content := EncodePage(chunks) + pad;
    assert content[..4] == content[0..4];
    assert chunks[..0] == [];
  }

  lemma OffsetsRead(chunks: seq<Blob>, pad: Blob, k: nat)
    requires Encodable(chunks) && k < |chunks|
    ensures ItemOffset(EncodePage(chunks) + pad, k) == Some(Start(chunks, k))
    ensures ItemOffset(EncodePage(chunks) + pad, k + 1) == if k + 1 < |chunks| then Some(Start(chunks, k + 1)) else None
  {
    LenIs(chunks, pad);
    OffsetIs(chunks, pad, k);
    if k + 1 < |chunks| {
      OffsetIs(chunks, pad, k + 1);
    }
  }

  lemma Spans(table: Blob, f: Blob, pad: Blob, a: nat, b: nat)
    requires a <= b <= |f|
    ensures (table + f + pad)[|table| + a..|table| + b] == f[a..b]
    ensures (table + f + pad)[|table| + a..] == f[a..] + pad
  {
  }

  /** Every item reads back; in a buffer that is larger than the page, the last one also gets the
      rest of the buffer. */
  lemma ItemRoundTrip(chunks: seq<Blob>, pad: Blob, k: nat)
    requires Encodable(chunks) && k < |chunks|
    ensures Item(EncodePage(chunks) + pad, k) == Some(if k + 1 < |chunks| then chunks[k] else chunks[k] + pad)
  {
    var n, f := |chunks|, Flatten(chunks);
    OffsetsRead(chunks, pad, k);
    FlattenAt(chunks, k);
    var a, b := |Flatten(chunks[..k])|, |Flatten(chunks[..k + 1])|;
    Spans(OffsetTable(chunks, n), f, pad, a, b);
    if k + 1 == n {
      assert chunks[..n] == chunks;
      assert f[a..] == f[a..b];
      var content := EncodePage(chunks) + pad;
      assert content[Start(chunks, k)..|content|] == content[Start(chunks, k)..];
    }
  }

  /** A page decodes back to its items when the buffer has exactly the size that was asked for. */
  lemma PageRoundTrip(chunks: seq<Blob>)
    requires Encodable(chunks)
    ensures Len(EncodePage(chunks)) == |chunks|
    ensures forall k {:trigger chunks[k]} :: 0 <= k < |chunks| ==> Item(EncodePage(chunks), k) == Some(chunks[k])
    ensures Item(EncodePage(chunks), |chunks|) == None
  {
    assert EncodePage(chunks) + [] == EncodePage(chunks);
    if chunks != [] {
      LenIs(chunks, []);
    }
    forall k | 0 <= k < |chunks|
      ensures Item(EncodePage(chunks), k) == Some(chunks[k])
    {
      ItemRoundTrip(chunks, [], k);
      assert chunks[k] + [] == chunks[k];
    }
  }

  // ----- Leaf pages in buffers of any size

  function Encoded(items: seq<LeafItem>): (chunks: seq<Blob>)
    ensures |chunks| == |items|
  {
    seq(|items|, i requires 0 <= i < |items| => EncodeLeaf(items[i]))
  }

  ghost predicate Bounded(items: seq<LeafItem>) {
    forall i {:trigger items[i]} :: 0 <= i < |items| ==> |items[i].raw| < U32 && items[i].lsn < U64
  }

  ghost predicate Decodes(content: Blob, items: seq<LeafItem>) {
    && Len(content) == |items|
    && forall k {:trigger items[k]} :: 0 <= k < |items| ==>
         var item := Item(content, k); item.Some? && DecodeLeaf(item.value) == Some(items[k])
  }

  /** A leaf page of at least one item reads back exactly when the buffer has the exact size or the last
      item is a delete. */
  lemma LeafPageRoundTrip(items: seq<LeafItem>, pad: Blob)
    requires Bounded(items) && Encodable(Encoded(items)) && items != []
    ensures Decodes(EncodePage(Encoded(items)) + pad, items) <==> pad == [] || items[|items| - 1].value == Delete
  {
    var content := EncodePage(Encoded(items)) + pad;
    LenIs(Encoded(items), pad);
    forall k | 0 <= k < |items| - 1
      ensures Item(content, k).Some? && DecodeLeaf(Item(content, k).value) == Some(items[k])
    {
      LeafItemReads(items, pad, k);
    }
    var n := |items| - 1;
    LeafItemReads(items, pad, n);
    if items[n].value.Put? {
      assert pad != [] ==> |items[n].value.blob + pad| > |items[n].value.blob|;
      assert pad == [] ==> items[n].value.blob + pad == items[n].value.blob;
    }
  }

  /** One put in a buffer with one byte too many comes back with that byte at the end of its value. */
  lemma PaddedPutIsWrong()
    ensures var items := [LeafItem([1], 1, Put([2]))];
            && Bounded(items) && Encodable(Encoded(items))
            && !Decodes(EncodePage(Encoded(items)) + [0], items)
            && Decodes(EncodePage(Encoded(items)) + [0], [LeafItem([1], 1, Put([2, 0]))])
  {
    var items := [LeafItem([1], 1, Put([2]))];
    assert Encoded(items) == [EncodeLeaf(items[0])];
    LeafPageRoundTrip(items, [0]);
    LenIs(Encoded(items), [0]);
    LeafItemReads(items, [0], 0);
    assert [2] + [0] == [2, 0];
  }

  lemma LeafItemReads(items: seq<LeafItem>, pad: Blob, k: nat)
    requires Bounded(items) && Encodable(Encoded(items)) && k < |items|
    ensures var item := Item(EncodePage(Encoded(items)) + pad, k);
            && item.Some?
            && DecodeLeaf(item.value)
               == Some(if k + 1 == |items| && items[k].value.Put?
                 then items[k].(value := Put(items[k].value.blob + pad)) else items[k])
  {
    var chunks := Encoded(items);
    ItemRoundTrip(chunks, pad, k);
    if k + 1 < |items| {
      LeafRoundTrip(items[k], []);
      assert EncodeLeaf(items[k]) + [] == chunks[k];
      if items[k].value.Put? {
        assert items[k].value.blob + [] == items[k].value.blob;
      }
    } else {
      LeafRoundTrip(items[k], pad);
    }
  }

  // ----- The encoder and the builder

  /** The first `n` bytes at `from` replaced. */
  function Written(a: Blob, from: nat, bytes: Blob): Blob
    requires from + |bytes| <= |a|
  {
    a[..from] + bytes + a[from + |bytes|..]
  }

  /** A cursor over a window of a buffer. */
  class Encoder {
    const buf: array<Byte>
    const base: nat
    const len: nat
    var offset: nat

    ghost predicate Valid()
      reads this
    {
      base + len <= buf.Length && offset <= len
    }

    constructor (buf: array<Byte>, base: nat, len: nat)
      requires base + len <= buf.Length
      ensures Valid() && this.buf == buf && this.base == base && this.len == len && offset == 0
    {
      this.buf, this.base, this.len, offset := buf, base, len, 0;
    }

    method PutSlice(bytes: Blob)
      requires Valid() && offset + |bytes| <= len
      modifies this, buf
      ensures Valid() && offset == old(offset) + |bytes|
      ensures buf[..] == Written(old(buf[..]), base + old(offset), bytes)
    {
      var at := base + offset;
      for i := 0 to |bytes|
        invariant offset == old(offset)
        invariant forall k :: 0 <= k < buf.Length ==> buf[k] == if at <= k < at + i then bytes[k - at]
                  else old(buf[..])[k]
      {
        buf[at + i] := bytes[i];
      }
      offset := offset + |bytes|;
      assert buf[..] == Written(old(buf[..]), at, bytes);
    }
  }

  /** The content holds the first `i` offsets at its start. */
  ghost predicate TableDone(content: Blob, chunks: seq<Blob>, i: nat) {
    i <= |chunks| && 4 * i <= |content| && content[..4 * i] == OffsetTable(chunks, i)
  }

  /** The content holds the first `i` items behind all offsets. */
  ghost predicate ItemsDone(content: Blob, chunks: seq<Blob>, i: nat) {
    && i <= |chunks| && Start(chunks, i) <= |content|
    && content[4 * |chunks|..Start(chunks, i)] == Flatten(chunks[..i])
  }

  /** A write leaves the bytes before it and behind it. */
  lemma WrittenApart(a: Blob, from: nat, bytes: Blob, lo: nat, hi: nat)
    requires from + |bytes| <= |a| && lo <= hi <= |a| && (hi <= from || from + |bytes| <= lo)
    ensures Written(a, from, bytes)[lo..hi] == a[lo..hi]
  {
    var w := Written(a, from, bytes);
    forall k | lo <= k < hi
      ensures w[k] == a[k]
    {
      if from + |bytes| <= lo {
        assert w[k] == a[from + |bytes|..][k - from - |bytes|];
      }
    }
  }

  /** A write appends to what ends where it starts. */
  lemma WrittenAppends(a: Blob, from: nat, bytes: Blob, lo: nat)
    requires from + |bytes| <= |a| && lo <= from
    ensures Written(a, from, bytes)[lo..from + |bytes|] == a[lo..from] + bytes
  {
  }

  lemma StartNext(chunks: seq<Blob>, i: nat)
    requires i < |chunks|
    ensures Start(chunks, i + 1) == Start(chunks, i) + |chunks[i]| <= |EncodePage(chunks)|
    ensures Flatten(chunks[..i + 1]) == Flatten(chunks[..i]) + chunks[i]
    ensures 4 * i + 4 <= 4 * |chunks| <= Start(chunks, i)
  {
    FlattenAt(chunks, i);
    assert chunks[..i + 1][..i] == chunks[..i];
  }

  lemma OffsetWritten(content: Blob, chunks: seq<Blob>, i: nat)
    requires TableDone(content, chunks, i) && ItemsDone(content, chunks, i) && i < |chunks|
    ensures 4 * i + 4 <= |content|
    ensures var a := Written(content, 4 * i, PutInt(Start(chunks, i), 4));
            TableDone(a, chunks, i + 1) && ItemsDone(a, chunks, i)
  {
    StartNext(chunks, i);
    var bytes := PutInt(Start(chunks, i), 4);
    WrittenAppends(content, 4 * i, bytes, 0);
    WrittenApart(content, 4 * i, bytes, 4 * |chunks|, Start(chunks, i));
    assert content[..4 * i] == content[0..4 * i];
  }

  lemma ItemWritten(content: Blob, chunks: seq<Blob>, i: nat)
    requires i < |chunks| && TableDone(content, chunks, i + 1) && ItemsDone(content, chunks, i) &&
             |content| == |EncodePage(chunks)|
    ensures Start(chunks, i) + |chunks[i]| <= |content|
    ensures var a := Written(content, Start(chunks, i), chunks[i]);
            TableDone(a, chunks, i + 1) && ItemsDone(a, chunks, i + 1)
  {
    StartNext(chunks, i);
    WrittenApart(content, Start(chunks, i), chunks[i], 0, 4 * i + 4);
    WrittenAppends(content, Start(chunks, i), chunks[i], 4 * |chunks|);
    assert content[..4 * i + 4] == content[0..4 * i + 4];
  }

  /** A page under construction: its bytes, all its items, and how many of them are in place. */
  datatype Draft = Draft(content: Blob, chunks: seq<Blob>, added: nat)

  ghost predicate Sound(d: Draft) {
    match d
    case Draft(content, chunks, i) => TableDone(content, chunks, i) && ItemsDone(content, chunks, i)
  }

  /** The offsets and the items of a page under construction. */
  class SortedPageBuf {
    const content: array<Byte>
    const offsets: Encoder
    const payload: Encoder
    ghost const chunks: seq<Blob>
    ghost var added: nat

    ghost predicate Valid()
      reads this, content, offsets, payload
    {
      && Wired() && content.Length == |EncodePage(chunks)|
      && offsets.len == 4 * |chunks| && payload.base + payload.len == content.Length
      && added <= |chunks| && offsets.offset == 4 * added && payload.base + payload.offset == Start(chunks, added)
      && Sound(Draft(content[..], chunks, added))
    }

    constructor (content: array<Byte>, n: nat, ghost chunks: seq<Blob>)
      requires n == |chunks| && content.Length == |EncodePage(chunks)|
      ensures Valid() && added == 0 && this.content == content && this.chunks == chunks && fresh(offsets) &&
              fresh(payload)
    {
      this.content := content;
      this.chunks := chunks;
      offsets := new Encoder(content, 0, 4 * n);
      payload := new Encoder(content, 4 * n, content.Length - 4 * n);
      added := 0;
      new;
      assert chunks[..0] == [];
    }

    method Add(chunk: Blob)
      requires Valid() && added < |chunks| && chunk == chunks[added] && Encodable(chunks)
      modifies this, content, offsets, payload
      ensures Valid() && added == old(added) + 1
    {
      BothWritten(content[..], chunks, added);
      added := added + 1;
      Write(chunk);
    }

    ghost predicate Wired()
      reads this, offsets, payload
    {
      && offsets.Valid() && payload.Valid() && offsets != payload
      && offsets.buf == content && payload.buf == content && offsets.base == 0 && payload.base == offsets.len
    }

    method Write(chunk: Blob)
      requires Wired() && offsets.offset + 4 <= offsets.len && payload.offset + |chunk| <= payload.len
      modifies content, offsets, payload
      ensures Wired() && offsets.offset == old(offsets.offset) + 4 && payload.offset == old(payload.offset) + |chunk|
      ensures var at := old(payload.base + payload.offset);
              content[..] == Written(Written(old(content[..]), old(offsets.offset), PutInt(at, 4)), at, chunk)
    {
      offsets.PutSlice(PutInt(offsets.len + payload.offset, 4));
      payload.PutSlice(chunk);
    }
  }

  lemma BothWritten(c: Blob, chunks: seq<Blob>, i: nat)
    requires i < |chunks| && Sound(Draft(c, chunks, i)) && |c| == |EncodePage(chunks)|
    ensures 4 * i + 4 <= 4 * |chunks| <= |c|
    ensures Start(chunks, i + 1) == Start(chunks, i) + |chunks[i]| <= |c|
    ensures var a := Written(c, 4 * i, PutInt(Start(chunks, i), 4));
            && |a| == |c|
            && Sound(Draft(Written(a, Start(chunks, i), chunks[i]), chunks, i + 1))
  {
    StartNext(chunks, i);
    OffsetWritten(c, chunks, i);
    ItemWritten(Written(c, 4 * i, PutInt(Start(chunks, i), 4)), chunks, i);
  }

  /** The first pass of the builder: the size of the content. */
  method ContentSize(chunks: seq<Blob>) returns (size: nat)
    ensures size == |EncodePage(chunks)|
  {
    size := 0;
    for i := 0 to |chunks|
      invariant size == |Flatten(chunks[..i])|
    {
      StartNext(chunks, i);
      size := size + |chunks[i]|;
    }
    assert chunks[..|chunks|] == chunks;
    size := size + 4 * |chunks|;
  }

  /** Builds the content of a page item by item in a buffer of exactly its size. */
  method BuildPage(chunks: seq<Blob>) returns (content: array<Byte>)
    requires Encodable(chunks)
    ensures fresh(content) && content[..] == EncodePage(chunks)
  {
    var size := ContentSize(chunks);
    content := new Byte[size];
    var buf := new SortedPageBuf(content, |chunks|, chunks);
    for i := 0 to |chunks|
      invariant buf.Valid() && buf.added == i && buf.chunks == chunks && buf.content == content
      invariant fresh(buf) && fresh(buf.offsets) && fresh(buf.payload)
    {
      buf.Add(chunks[i]);
    }
    AllWritten(content[..], chunks);
  }

  lemma AllWritten(content: Blob, chunks: seq<Blob>)
    requires Sound(Draft(content, chunks, |chunks|)) && |content| == |EncodePage(chunks)|
    ensures content == EncodePage(chunks)
  {
    assert chunks[..|chunks|] == chunks;
    var n := 4 * |chunks|;
    assert content == content[..n] + content[n..|content|];
  }
}
