/**
 Which pages of a group are still active, and how many bytes they take
 (photondb/src/util/bitmap.rs, photondb/src/page_store/page_file/types.rs).
 */
module PageGroup {
  import opened Options

  // ----- The bitmap

  /** A 64-bit word as its bits, the lowest first. */
  type Word = w: seq<bool> | |w| == 64 witness seq(64, _ => false)

  function Words(cap: nat): nat {
    if cap % 64 == 0 then cap / 64 else cap / 64 + 1
  }

  ghost predicate TestAt(words: seq<Word>, i: nat)
    requires i / 64 < |words|
  {
    words[i / 64][i % 64]
  }

  ghost function Members(words: seq<Word>, cap: nat): set<nat>
    requires |words| == Words(cap)
  {
    set i | 0 <= i < cap && TestAt(words, i)
  }

  /** Writing one bit adds its index to the members or removes it, and touches no other. */
  lemma MembersUpdate(words: seq<Word>, cap: nat, k: nat, on: bool)
    requires |words| == Words(cap) && k < cap
    ensures var words' := words[k / 64 := words[k / 64][k % 64 := on]];
            Members(words', cap) == if on then Members(words, cap) + {k} else Members(words, cap) - {k}
  {
    var words' := words[k / 64 := words[k / 64][k % 64 := on]];
    forall i | 0 <= i < cap
      ensures TestAt(words', i) <==> if i == k then on else TestAt(words, i)
    {
      assert i / 64 == k / 64 && i % 64 == k % 64 ==> i == k;
    }
  }

  class FixedBitmap {
    const cap: nat
    var len: nat
    const bits: array<Word>

    ghost predicate Valid()
      reads this, bits
    {
      bits.Length == Words(cap) && len == |Contents()|
    }

    ghost function Contents(): set<nat>
      reads this, bits
      requires bits.Length == Words(cap)
    {
      Members(bits[..], cap)
    }

    constructor (cap: nat)
      ensures Valid() && Contents() == {} && this.cap == cap && len == 0 && fresh(bits)
    {
      this.cap := cap;
      this.len := 0;
      bits := new Word[Words(cap)](_ => seq(64, _ => false));
      new;
      forall i | 0 <= i < cap
        ensures !TestAt(bits[..], i)
      {
      }
      assert Members(bits[..], cap) == {};
    }

    method Test(index: nat) returns (r: bool)
      requires Valid() && index < cap
      ensures r <==> index in Contents()
    {
      r := bits[index / 64][index % 64];
      assert r == TestAt(bits[..], index);
    }

    method Set(index: nat) returns (inserted: bool)
      requires Valid() && index < cap
      modifies this, bits
      ensures Valid() && Contents() == old(Contents()) + {index} && inserted == (index !in old(Contents()))
    {
      ghost var before := Contents();
      inserted := Write(index, true);
      if !inserted {
        assert before + {index} == before;
      }
      len := len + if inserted then 1 else 0;
    }

    method Clear(index: nat) returns (removed: bool)
      requires Valid() && index < cap
      modifies this, bits
      ensures Valid() && Contents() == old(Contents()) - {index} && removed == (index in old(Contents()))
    {
      removed := Write(index, false);
      len := len - if removed then 1 else 0;
    }

    /** Writes a bit and says whether it changed. */
    method Write(index: nat, on: bool) returns (changed: bool)
      requires bits.Length == Words(cap) && index < cap
      modifies bits
      ensures Contents() == if on then old(Contents()) + {index} else old(Contents()) - {index}
      ensures changed == (on != (index in old(Contents())))
    {
      ghost var words := bits[..];
      MembersUpdate(words, cap, index, on);
      var old_w := bits[index / 64];
      var new_w: Word := old_w[index % 64 := on];
      changed := old_w[index % 64] != new_w[index % 64];
      assert old_w[index % 64] == TestAt(words, index);
      bits[index / 64] := new_w;
      assert bits[..] == words[index / 64 := new_w];
    }

    /** `free` never panics, and no bit is free exactly when every bit is set. */
    method Free() returns (n: nat)
      requires Valid()
      ensures n == cap - |Contents()|
      ensures n == 0 <==> forall i :: 0 <= i < cap ==> i in Contents()
    {
      AtMost(Contents(), cap);
      n := cap - len;
    }
  }

  ghost function Below(n: nat): set<nat> {
    if n == 0 then {} else Below(n - 1) + {n - 1}
  }

  lemma {:induction false} BelowIs(n: nat)
    ensures |Below(n)| == n
    ensures forall i: nat {:trigger i in Below(n)} :: i in Below(n) <==> i < n
  {
    if n > 0 {
      BelowIs(n - 1);
    }
  }

  lemma AtMost(s: set<nat>, n: nat)
    requires forall i :: i in s ==> i < n
    ensures |s| <= n && (|s| == n <==> forall i :: 0 <= i < n ==> i in s)
  {
    BelowIs(n);
    SubsetSize(s, Below(n));
    if forall i :: 0 <= i < n ==> i in s {
      assert s == Below(n);
    }
  }

  lemma {:induction false} SubsetSize(s: set<nat>, t: set<nat>)
    requires s <= t
    ensures |s| <= |t| && (|s| == |t| ==> s == t)
    decreases |t|
  {
    if s != {} {
      var x :| x in s;
      SubsetSize(s - {x}, t - {x});
      assert s == s - {x} + {x} && t == t - {x} + {x};
    }
  }

  // ----- The pages of a group

  datatype PageMeta = PageMeta(index: nat, offset: nat, size: nat)

  ghost predicate Ascending(s: seq<nat>) {
    forall i, j :: 0 <= i < j < |s| ==> s[i] < s[j]
  }

  ghost predicate NonDescending(s: seq<nat>) {
    forall i, j :: 0 <= i < j < |s| ==> s[i] <= s[j]
  }

  /** Where the data of page `i` ends: at the next page, or at the page table. */
  function End(offsets: seq<nat>, table: nat, i: nat): nat {
    if i + 1 < |offsets| then offsets[i + 1] else table
  }

  /** The pages of a group in address order, with the offsets of their data blocks. */
  ghost predicate Layout(addrs: seq<nat>, offsets: seq<nat>, table: nat) {
    && |addrs| == |offsets| && Ascending(addrs) && NonDescending(offsets)
    && (offsets != [] ==> offsets[|offsets| - 1] <= table)
  }

  ghost predicate MetaFor(metas: map<nat, PageMeta>, addrs: seq<nat>, offsets: seq<nat>, table: nat) {
    && |addrs| == |offsets|
    && (forall addr {:trigger addr in metas} :: addr in metas <==> addr in addrs)
    && forall i {:trigger addrs[i]} :: 0 <= i < |addrs| ==>
         addrs[i] in metas && offsets[i] <= End(offsets, table, i)
         && metas[addrs[i]] == PageMeta(i, offsets[i], End(offsets, table, i) - offsets[i])
  }

  /** After `n` pages all sizes but the last one's are known. */
  ghost predicate EntryAt(metas: map<nat, PageMeta>, addrs: seq<nat>, offsets: seq<nat>, n: nat, i: nat) {
    i < n <= |addrs| == |offsets| ==>
      && addrs[i] in metas
      && (i + 1 < n ==> offsets[i] <= offsets[i + 1])
      && metas[addrs[i]] == PageMeta(i, offsets[i], if i + 1 < n then offsets[i + 1] - offsets[i] else 0)
  }

  ghost predicate Entries(metas: map<nat, PageMeta>, addrs: seq<nat>, offsets: seq<nat>, n: nat) {
    && (forall i: nat {:trigger EntryAt(metas, addrs, offsets, n, i)} :: EntryAt(metas, addrs, offsets, n, i))
    && (forall addr {:trigger addr in metas} :: addr in metas ==> exists i :: 0 <= i < n <= |addrs| && addrs[i] == addr)
  }

  /** A new page comes in, and the size of the one before it is fixed. */
  function WithPage(metas: map<nat, PageMeta>, addr: nat, index: nat, offset: nat): map<nat, PageMeta> {
    metas[addr := PageMeta(index, offset, 0)]
  }

  function WithSize(metas: map<nat, PageMeta>, addr: nat, end: nat): map<nat, PageMeta>
    requires addr in metas && metas[addr].offset <= end
  {
    metas[addr := metas[addr].(size := end - metas[addr].offset)]
  }

  lemma EntriesNext(metas: map<nat, PageMeta>, addrs: seq<nat>, offsets: seq<nat>, n: nat)
    requires |addrs| == |offsets| && Ascending(addrs) && Entries(metas, addrs, offsets, n) && n < |addrs|
    ensures var m := WithPage(metas, addrs[n], n, offsets[n]);
            && (n == 0 ==> Entries(m, addrs, offsets, 1))
            && (n > 0 ==> addrs[n - 1] in m && m[addrs[n - 1]].offset == offsets[n - 1])
            && (n > 0 && offsets[n - 1] <= offsets[n] ==> Entries(WithSize(m, addrs[n - 1], offsets[n]), addrs, offsets,
               n + 1))
  {
    var m := WithPage(metas, addrs[n], n, offsets[n]);
    if n > 0 {
      assert EntryAt(metas, addrs, offsets, n, n - 1);
      if offsets[n - 1] <= offsets[n] {
        var m', n' := WithSize(m, addrs[n - 1], offsets[n]), n + 1;
        forall i: nat
          ensures EntryAt(m', addrs, offsets, n', i)
        {
          assert EntryAt(metas, addrs, offsets, n, i);
        }
      }
    }
  }

  lemma EntriesEnd(metas: map<nat, PageMeta>, addrs: seq<nat>, offsets: seq<nat>, table: nat)
    requires |addrs| == |offsets| && Ascending(addrs) && Entries(metas, addrs, offsets, |addrs|) && |addrs| > 0
    ensures var n := |addrs| - 1;
            && addrs[n] in metas && metas[addrs[n]].offset == offsets[n]
            && (offsets[n] <= table ==> MetaFor(WithSize(metas, addrs[n], table), addrs, offsets, table))
  {
    var n := |addrs| - 1;
    assert EntryAt(metas, addrs, offsets, n + 1, n);
    if offsets[n] <= table {
      var m := WithSize(metas, addrs[n], table);
      forall i | 0 <= i < |addrs|
        ensures addrs[i] in m && offsets[i] <= End(offsets, table, i)
        ensures m[addrs[i]] == PageMeta(i, offsets[i], End(offsets, table, i) - offsets[i])
      {
        assert EntryAt(metas, addrs, offsets, n + 1, i);
      }
    }
  }

  /** The data of page `i` would end before it starts. */
  ghost predicate FallsAt(offsets: seq<nat>, table: nat, i: nat) {
    i < |offsets| && End(offsets, table, i) < offsets[i]
  }

  ghost predicate Falls(offsets: seq<nat>, table: nat) {
    exists i: nat :: FallsAt(offsets, table, i)
  }

  /** One pass in address order that fixes each size when the next page is seen. */
  method FixSizes(addrs: seq<nat>, offsets: seq<nat>, table: nat) returns (r: Option<map<nat, PageMeta>>)
    requires |addrs| == |offsets| && Ascending(addrs)
    ensures r == None <==> Falls(offsets, table)
    ensures r.Some? ==> MetaFor(r.value, addrs, offsets, table)
  {
    var metas: map<nat, PageMeta> := map[];
    for index := 0 to |addrs|
      invariant Entries(metas, addrs, offsets, index)
      invariant forall i: nat {:trigger FallsAt(offsets, table, i)} :: i + 1 < index ==> !FallsAt(offsets, table, i)
    {
      EntriesNext(metas, addrs, offsets, index);
      metas := WithPage(metas, addrs[index], index, offsets[index]);
      if index > 0 {
        var last := addrs[index - 1];
        if offsets[index] < metas[last].offset {
          assert FallsAt(offsets, table, index - 1);
          return None;
        }
        metas := WithSize(metas, last, offsets[index]);
      }
    }
    if |addrs| > 0 {
      EntriesEnd(metas, addrs, offsets, table);
      var last := addrs[|addrs| - 1];
      if table < metas[last].offset {
        assert FallsAt(offsets, table, |addrs| - 1);
        return None;
      }
      metas := WithSize(metas, last, table);
    }
    return Some(metas);
  }

  // ----- Truncation to 32 bits

  const U32: nat := 0x1_0000_0000

  /** `as u32` on every element. */
  function Lows(s: seq<nat>): seq<nat> {
    seq(|s|, i => if 0 <= i < |s| then s[i] % U32 else 0)
  }

  /** The addresses name one group in their upper halves. */
  ghost predicate OneGroup(addrs: seq<nat>) {
    forall i, j :: 0 <= i < j < |addrs| ==> addrs[i] / U32 == addrs[j] / U32
  }

  lemma LowsAscend(addrs: seq<nat>)
    requires Ascending(addrs) && OneGroup(addrs)
    ensures Ascending(Lows(addrs))
  {
    forall i, j | 0 <= i < j < |addrs|
      ensures Lows(addrs)[i] < Lows(addrs)[j]
    {
      assert addrs[i] == addrs[i] / U32 * U32 + addrs[i] % U32;
      assert addrs[j] == addrs[j] / U32 * U32 + addrs[j] % U32;
    }
  }

  /** The truncated offsets go down somewhere. */
  ghost predicate Wraps(offsets: seq<nat>, table: nat) {
    Falls(Lows(offsets), table % U32)
  }

  /** In a file below 4 GiB nothing is truncated. */
  lemma BelowFourGiB(addrs: seq<nat>, offsets: seq<nat>, table: nat)
    requires Layout(addrs, offsets, table) && table < U32
    ensures Lows(offsets) == offsets && table % U32 == table && !Wraps(offsets, table)
  {
    forall i | 0 <= i < |offsets|
      ensures offsets[i] <= table && offsets[i] % U32 == offsets[i]
    {
      assert offsets[i] <= offsets[|offsets| - 1];
    }
    assert Lows(offsets) == offsets;
  }

  /** A page that crosses the boundary makes the subtraction of the offsets fail. */
  lemma WrapsAtTheBoundary()
    ensures Layout([0, 16], [U32 - 8, U32 + 8], U32 + 16) && Wraps([U32 - 8, U32 + 8], U32 + 16)
  {
    var offsets := [U32 - 8, U32 + 8];
    assert Lows(offsets) == [U32 - 8, 8];
    assert FallsAt([U32 - 8, 8], 16, 0);
  }

  /** A group at or behind the boundary gets handles that are not where its pages are. */
  lemma TruncatedIsWrong(metas: map<nat, PageMeta>, lows: seq<nat>, offsets: seq<nat>, table: nat)
    requires MetaFor(metas, lows, Lows(offsets), table % U32) && offsets != [] && table >= U32
    ensures !MetaFor(metas, lows, offsets, table)
  {
    var n := |offsets| - 1;
    assert lows[n] in metas && metas[lows[n]] == PageMeta(n, offsets[n] % U32, table % U32 - offsets[n] % U32);
    if offsets[n] % U32 == offsets[n] {
      assert table % U32 < U32 <= table;
    }
  }

  /** The metadata of a group's pages by the lower halves of their addresses.  Addresses and offsets are
      truncated to 32 bits; `None` stands for the panic when a truncated offset is below the one before it. */
  method BuildPageMetaMap(addrs: seq<nat>, offsets: seq<nat>, table: nat) returns (r: Option<map<nat, PageMeta>>)
    requires Layout(addrs, offsets, table) && OneGroup(addrs)
    ensures r == None <==> Wraps(offsets, table)
    ensures r.Some? ==> MetaFor(r.value, Lows(addrs), Lows(offsets), table % U32)
    ensures table < U32 ==> r.Some? && MetaFor(r.value, Lows(addrs), offsets, table)
  {
    LowsAscend(addrs);
    if table < U32 {
      BelowFourGiB(addrs, offsets, table);
    }
    r := FixSizes(Lows(addrs), Lows(offsets), table % U32);
  }

  function AddressSet(addrs: seq<nat>): set<nat> {
    if addrs == [] then {} else AddressSet(addrs[..|addrs| - 1]) + {addrs[|addrs| - 1]}
  }

  lemma {:induction false} AddressSetHas(addrs: seq<nat>, a: nat)
    ensures a in AddressSet(addrs) <==> a in addrs
  {
    if addrs != [] {
      var n := |addrs| - 1;
      AddressSetHas(addrs[..n], a);
      assert addrs == addrs[..n] + [addrs[n]];
    }
  }

  lemma {:induction false} AddressCount(addrs: seq<nat>)
    requires Ascending(addrs)
    ensures |AddressSet(addrs)| == |addrs|
  {
    if addrs != [] {
      var n := |addrs| - 1;
      AddressCount(addrs[..n]);
      AddressSetHas(addrs[..n], addrs[n]);
    }
  }

  /** The map has as many entries as the group has pages. */
  lemma OnePerAddress(metas: map<nat, PageMeta>, addrs: seq<nat>, offsets: seq<nat>, table: nat)
    requires Layout(addrs, offsets, table) && MetaFor(metas, addrs, offsets, table)
    ensures |metas| == |addrs|
  {
    AddressCount(addrs);
    forall a: nat
      ensures a in metas.Keys <==> a in AddressSet(addrs)
    {
      AddressSetHas(addrs, a);
    }
    assert metas.Keys == AddressSet(addrs);
  }

  // ----- Active bytes

  /** The bytes of the pages from `i` on that are not in `dead`. */
  function ActiveFrom(offsets: seq<nat>, table: nat, dead: set<nat>, i: nat): int
    decreases |offsets| - i
  {
    if i >= |offsets| then 0
    else (if i in dead then 0 else End(offsets, table, i) - offsets[i]) + ActiveFrom(offsets, table, dead, i + 1)
  }

  function Active(offsets: seq<nat>, table: nat, dead: set<nat>): int {
    ActiveFrom(offsets, table, dead, 0)
  }

  /** Without dead pages the sizes telescope to the extent of the group. */
  lemma {:induction false} AllActive(offsets: seq<nat>, table: nat, i: nat)
    requires i < |offsets|
    ensures ActiveFrom(offsets, table, {}, i) == table - offsets[i]
    decreases |offsets| - i
  {
    if i + 1 < |offsets| {
      AllActive(offsets, table, i + 1);
    } else {
      assert ActiveFrom(offsets, table, {}, i + 1) == 0;
    }
  }

  lemma {:induction false} OneLess(offsets: seq<nat>, table: nat, dead: set<nat>, k: nat, i: nat)
    requires k < |offsets| && k !in dead && i <= |offsets|
    ensures ActiveFrom(offsets, table, dead + {k}, i)
         == ActiveFrom(offsets, table, dead, i) - if i <= k then End(offsets, table, k) - offsets[k] else 0
    decreases |offsets| - i
  {
    if i < |offsets| {
      OneLess(offsets, table, dead, k, i + 1);
    }
  }

  lemma {:induction false} ActiveNotNegative(addrs: seq<nat>, offsets: seq<nat>, table: nat, dead: set<nat>, i: nat)
    requires Layout(addrs, offsets, table) && i <= |offsets|
    ensures ActiveFrom(offsets, table, dead, i) >= 0
    decreases |offsets| - i
  {
    if i < |offsets| {
      ActiveNotNegative(addrs, offsets, table, dead, i + 1);
    }
  }

  /** A page group: the metadata of its pages by the lower halves `addrs` of their addresses, and the bitmap
      of the deallocated ones. */
  class Group {
    const metas: map<nat, PageMeta>
    const dealloc: FixedBitmap
    var activeSize: nat
    ghost const addrs: seq<nat>
    ghost const offsets: seq<nat>
    const base: nat
    const table: nat

    /** The active size is the sum of the sizes of the active pages; a group without data counts as
        one byte. */
    ghost predicate Valid()
      reads this, dealloc, dealloc.bits
    {
      && dealloc.Valid() && dealloc.cap == |addrs| && Layout(addrs, offsets, table) &&
         MetaFor(metas, addrs, offsets, table)
      && base <= table && (offsets != [] ==> base == offsets[0]) && (offsets == [] ==> base == table)
      && activeSize == if base == table then 1 else Active(offsets, table, dealloc.Contents())
    }

    constructor (metas: map<nat, PageMeta>, base: nat, table: nat, ghost addrs: seq<nat>, ghost offsets: seq<nat>)
      requires Layout(addrs, offsets, table) && MetaFor(metas, addrs, offsets, table)
      requires base <= table && (offsets != [] ==> base == offsets[0]) && (offsets == [] ==> base == table)
      ensures Valid() && dealloc.Contents() == {} && fresh(dealloc) && fresh(dealloc.bits)
    {
      this.metas, this.base, this.table, this.addrs, this.offsets := metas, base, table, addrs, offsets;
      OnePerAddress(metas, addrs, offsets, table);
      dealloc := new FixedBitmap(|metas|);
      activeSize := if table == base then 1 else table - base;
      new;
      if offsets != [] {
        AllActive(offsets, table, 0);
      }
    }

    /** Deactivates a page once; the active size goes down by the size of the page and never below zero.
        The page is found by the lower half of its address. */
    method DeactivatePage(pageAddr: nat) returns (changed: bool)
      requires Valid()
      modifies this, dealloc, dealloc.bits
      ensures Valid()
      ensures var addr := pageAddr % U32;
              && (changed <==> addr in metas && metas[addr].index !in old(dealloc.Contents()))
              && dealloc.Contents() == (if addr in metas then old(dealloc.Contents()) + {metas[addr].index}
                 else old(dealloc.Contents()))
              && activeSize == old(activeSize) - if changed then metas[addr].size else 0
    {
      var addr := pageAddr % U32;
      if addr !in metas {
        return false;
      }
      var meta := metas[addr];
      ghost var k :| 0 <= k < |addrs| && addrs[k] == addr;
      ghost var dead := dealloc.Contents();
      changed := dealloc.Set(meta.index);
      if changed {
        OneLess(offsets, table, dead, k, 0);
        ActiveNotNegative(addrs, offsets, table, dead + {k}, 0);
        if base == table {
          SizeZero(addrs, offsets, table, k);
        }
        activeSize := activeSize - meta.size;
      } else {
        assert dead + {meta.index} == dead;
      }
    }

    /** The handle of an active page; nothing for a page that is unknown or deallocated. */
    method GetPageHandle(pageAddr: nat) returns (r: Option<PageMeta>)
      requires Valid()
      ensures var addr := pageAddr % U32;
              r == if addr in metas && metas[addr].index !in dealloc.Contents() then Some(metas[addr]) else None
    {
      var addr := pageAddr % U32;
      if addr !in metas {
        return None;
      }
      ghost var k :| 0 <= k < |addrs| && addrs[k] == addr;
      var dead := dealloc.Test(metas[addr].index);
      r := if dead then None else Some(metas[addr]);
    }
  }

  /** In a group without data every page is empty. */
  lemma SizeZero(addrs: seq<nat>, offsets: seq<nat>, table: nat, k: nat)
    requires Layout(addrs, offsets, table) && k < |offsets| && offsets[0] == table
    ensures End(offsets, table, k) == offsets[k]
  {
  }
}
