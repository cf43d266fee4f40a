/**
 Keys, values, indexes and ranges as the tree sees them (photondb/src/page/data.rs).

 A raw key is an element of a total order with a least element.  The program orders raw keys as
 byte strings; `Bytes` below shows that byte strings embed into the non-negative reals so that
 the order is kept in both directions, which is all the tree ever uses of them.
 */
module Data {
  import opened Options

  /** A raw key; 0.0 stands for the empty byte string, the least key. */
  type RawKey = k: real | 0.0 <= k

  const MAX_LSN: nat := 0xFFFF_FFFF_FFFF_FFFF

  type Lsn = n: nat | n <= MAX_LSN

  datatype Key = Key(raw: RawKey, lsn: Lsn)

  /** Raw ascending, LSN descending: the newest version of a raw key comes first. */
  predicate KeyLess(a: Key, b: Key) {
    a.raw < b.raw || (a.raw == b.raw && a.lsn > b.lsn)
  }

  /** Three-way comparison, as `Ord::cmp` on `Key`. */
  function CompareKeys(a: Key, b: Key): (c: int)
    ensures c < 0 <==> KeyLess(a, b)
    ensures c > 0 <==> KeyLess(b, a)
    ensures c == 0 <==> a == b
  {
    if a.raw < b.raw then -1
    else if a.raw > b.raw then 1
    else if a.lsn > b.lsn then -1
    else if a.lsn < b.lsn then 1
    else 0
  }

  newtype Byte = x: int | 0 <= x < 256

  type Blob = seq<Byte>

  datatype Value = Put(blob: Blob) | Delete

  /** One version of a raw key. */
  datatype Version = Version(key: Key, value: Value)

  /** A half-open range of raw keys; `None` stands for "no upper bound". */
  datatype Range = Range(lo: RawKey, hi: Option<RawKey>)

  const FULL_RANGE := Range(0.0, None)

  predicate Below(k: RawKey, hi: Option<RawKey>) {
    hi.None? || k < hi.value
  }

  predicate Contains(r: Range, k: RawKey) {
    r.lo <= k && Below(k, r.hi)
  }

  type Id = nat

  const NAN_ID: Id := 0
  const ROOT_ID: Id := 1

  /** An index to a child page: its id and the epoch its parent knows it by. */
  datatype Index = Index(id: Id, epoch: nat)

  const NULL_INDEX := Index(NAN_ID, 0)
  const ROOT_INDEX := Index(ROOT_ID, 0)

  /** An item of an inner page. */
  datatype Entry = Entry(key: RawKey, index: Index)

  ghost predicate SortedVersions(s: seq<Version>) {
    forall i, j :: 0 <= i < j < |s| ==> KeyLess(s[i].key, s[j].key)
  }

  ghost predicate SortedEntries(s: seq<Entry>) {
    forall i, j :: 0 <= i < j < |s| ==> s[i].key < s[j].key
  }
}

/** Byte strings under lexicographic order embed into the order of `Data.RawKey`. */
module Bytes {
  import opened Data

  /** Lexicographic order of byte strings, a proper prefix first (`<[u8] as Ord>::cmp`). */
  predicate BytesLess(a: Blob, b: Blob) {
    if b == [] then false
    else if a == [] then true
    else a[0] < b[0] || (a[0] == b[0] && BytesLess(a[1..], b[1..]))
  }

  /** Reads a byte string as a base-257 fraction with digits 1 to 256. */
  function Embed(s: Blob): (r: RawKey)
    ensures 0.0 <= r < 1.0
    ensures s != [] ==> r > 0.0
  {
    if s == [] then 0.0 else ((s[0] as int + 1) as real + Embed(s[1..])) / 257.0
  }

  lemma {:induction false} EmbeddingKeepsOrder(a: Blob, b: Blob)
    ensures BytesLess(a, b) <==> Embed(a) < Embed(b)
    ensures a == b <==> Embed(a) == Embed(b)
  {
    if a != [] && b != [] {
      EmbeddingKeepsOrder(a[1..], b[1..]);
      var x, y := a[0] as int, b[0] as int;
      var r, t := Embed(a[1..]), Embed(b[1..]);
      assert Embed(a) * 257.0 == (x + 1) as real + r;
      assert Embed(b) * 257.0 == (y + 1) as real + t;
      if x < y {
        assert (x + 1) as real <= y as real;
      } else if y < x {
        assert (y + 1) as real <= x as real;
      } else {
        assert a[1..] == b[1..] ==> a == [a[0]] + a[1..] == b;
      }
    }
  }
}
