/**
 Child lookup and consolidation on one inner chain
 (photondb/src/tree/mod.rs `find_child`, `reconcile_split_page`; photondb/src/tree/page.rs
 `MergingInnerPageIter`).

 An inner chain stands for a sorted list of entries that cuts the page's range into child
 ranges.  A reconcile delta overwrites one entry, adds one behind it, and marks the end of the
 affected range with a placeholder.
 */
module InnerChain {
  import opened Options
  import opened Data
  import opened Pages

  /** A child found for a key: its index and the range its page states for it. */
  datatype Child = Child(index: Index, lo: RawKey, hi: Option<RawKey>)

  /** The lookup of `find_child` in one data page. */
  function PageChild(entries: seq<Entry>, key: RawKey): Option<Child> {
    var p := UpperBound(entries, key);
    if p > 0 && entries[p - 1].index != NULL_INDEX then
      Some(Child(entries[p - 1].index, entries[p - 1].key, if p < |entries| then Some(entries[p].key) else None))
    else None
  }

  /** `find_child`: walk the chain and stop at the first data page that encloses the key. */
  function FindChild(chain: seq<Body>, key: RawKey): Option<Child> {
    if chain == [] then None
    else
      var r := if chain[0].InnerData? then PageChild(chain[0].entries, key) else None;
      if r.Some? then r else FindChild(chain[1..], key)
  }

  /** A child without a range end ends where its parent ends (`try_find_leaf`). */
  function Inherit(end: Option<RawKey>, outer: Option<RawKey>): Option<RawKey> {
    if end.Some? then end else outer
  }

  // ----- The list of entries behind a chain

  ghost predicate WellFormed(E: seq<Entry>, r: Range) {
    && |E| > 0 && SortedEntries(E)
    && E[0].key == r.lo
    && forall i :: 0 <= i < |E| ==> Below(E[i].key, r.hi) && E[i].index.id != NAN_ID
  }

  /** Where the child at `i` ends. */
  function EndOf(E: seq<Entry>, i: nat, hi: Option<RawKey>): Option<RawKey>
    requires i < |E|
  {
    if i + 1 < |E| then Some(E[i + 1].key) else hi
  }

  /** The child at `i` as a lookup for `key` has to report it. */
  ghost predicate Answers(c: Option<Child>, E: seq<Entry>, i: nat, hi: Option<RawKey>)
    requires i < |E|
  {
    && c.Some?
    && c.value.index == E[i].index
    && c.value.lo == E[i].key
    && Inherit(c.value.hi, hi) == EndOf(E, i, hi)
  }

  ghost predicate LookupAgrees(chain: seq<Body>, E: seq<Entry>, hi: Option<RawKey>) {
    forall i, key: RawKey {:trigger E[i], FindChild(chain, key)} ::
      0 <= i < |E| && E[i].key <= key && Below(key, EndOf(E, i, hi)) ==> Answers(FindChild(chain, key), E, i, hi)
  }

  lemma LookupAt(chain: seq<Body>, E: seq<Entry>, hi: Option<RawKey>, i: nat, key: RawKey)
    requires LookupAgrees(chain, E, hi)
    requires i < |E| && E[i].key <= key && Below(key, EndOf(E, i, hi))
    ensures Answers(FindChild(chain, key), E, i, hi)
  {
  }

  // ----- What the merging iterator sees

  /** The index that a page gives a start key, placeholders skipped. */
  ghost function PageIndex(entries: seq<Entry>, key: RawKey): Option<Index> {
    if exists i :: 0 <= i < |entries| && entries[i].key == key && entries[i].index != NULL_INDEX then
      var i :| 0 <= i < |entries| && entries[i].key == key && entries[i].index != NULL_INDEX;
      Some(entries[i].index)
    else None
  }

  /** The newest index of a start key in the chain. */
  ghost function NewestIndex(chain: seq<Body>, key: RawKey): Option<Index> {
    if chain == [] then None
    else
      var r := if chain[0].InnerData? then PageIndex(chain[0].entries, key) else None;
      if r.Some? then r else NewestIndex(chain[1..], key)
  }

  /** The first split key met on the walk limits the range. */
  function SplitLimit(chain: seq<Body>): Option<RawKey> {
    if chain == [] then None
    else if chain[0].SplitDelta? then Some(chain[0].splitKey)
    else SplitLimit(chain[1..])
  }

  /** The number of pages that `collect_consolidation_info` may merge: all of them, or at least
      two leaf data pages before an older data page. */
  ghost predicate Mergeable(chain: seq<Body>, n: nat) {
    && 0 < n <= |chain|
    && (n < |chain| ==> n >= 2 && SplitLimit(chain[..n]) == None && IsData(chain[n]))
  }

  /** The page that `MergingInnerPageIter` produces: per start key below the limit the newest
      index, placeholders and overwritten indexes left out, in ascending order. */
  ghost predicate InnerConsolidated(chain: seq<Body>, items: seq<Entry>) {
    && SortedEntries(items)
    && forall key: RawKey, x: Index ::
         Entry(key, x) in items <==> NewestIndex(chain, key) == Some(x) && Below(key, SplitLimit(chain))
  }

  ghost predicate SortedInner(chain: seq<Body>) {
    forall i {:trigger chain[i]} :: 0 <= i < |chain| && chain[i].InnerData? ==> SortedEntries(chain[i].entries)
  }

  ghost predicate HasStart(entries: seq<Entry>, key: RawKey) {
    exists i :: 0 <= i < |entries| && entries[i].key == key
  }

  /** Some page of the chain has an entry or a placeholder at `key`. */
  ghost predicate Meets(chain: seq<Body>, key: RawKey) {
    exists i :: 0 <= i < |chain| && chain[i].InnerData? && HasStart(chain[i].entries, key)
  }

  /** No page of the chain mentions a key of the range that starts no child: placeholders too stand where
      a child starts, or at the end of the range. */
  ghost predicate NoStray(chain: seq<Body>, E: seq<Entry>, hi: Option<RawKey>) {
    forall key: RawKey {:trigger Meets(chain, key)} :: Meets(chain, key) && Below(key, hi) ==> HasStart(E, key)
  }

  /** A chain of inner pages represents the entries `E` over the range `r`: lookups agree, the
      merge agrees, seeks agree, and a chain of one page is that list. */
  ghost predicate Represents(chain: seq<Body>, E: seq<Entry>, r: Range) {
    && WellFormed(E, r)
    && LookupAgrees(chain, E, r.hi)
    && InnerConsolidated(chain, E)
    && SortedInner(chain) && NoStray(chain, E, r.hi)
    && (|chain| == 1 ==> chain[0] == InnerData(E))
    && forall i :: 0 <= i < |chain| ==> TierOf(chain[i]) == Inner
  }

  lemma HasElement(s: seq<Entry>)
    requires s != []
    ensures exists e :: e in s
  {
    assert s[0] in s;
  }

  /** Two sorted lists with the same entries are the same list. */
  lemma {:induction false} SortedListsEqual(s: seq<Entry>, t: seq<Entry>)
    requires SortedEntries(s) && SortedEntries(t)
    requires forall e :: e in s <==> e in t
    ensures s == t
  {
    if s == [] {
      if t != [] {
        HasElement(t);
      }
    } else {
      assert s[0] in t && (t == [] || t[0] in s);
      var i :| 0 <= i < |t| && t[i] == s[0];
      var j :| 0 <= j < |s| && s[j] == t[0];
      assert s[0] == t[0];
      forall e
        ensures e in s[1..] <==> e in t[1..]
      {
        assert e in s <==> e == s[0] || e in s[1..];
        assert e in t <==> e == t[0] || e in t[1..];
        assert s[0] !in s[1..] && t[0] !in t[1..];
      }
      SortedListsEqual(s[1..], t[1..]);
      assert s == [s[0]] + s[1..] && t == [t[0]] + t[1..];
    }
  }

  /** The consolidated page is the list that the chain represents. */
  lemma ConsolidationIsEntries(chain: seq<Body>, E: seq<Entry>, r: Range, items: seq<Entry>)
    requires Represents(chain, E, r) && InnerConsolidated(chain, items)
    ensures items == E
  {
    forall e
      ensures e in items <==> e in E
    {
      assert e == Entry(e.key, e.index);
    }
    SortedListsEqual(items, E);
  }

  lemma PageIndexIs(entries: seq<Entry>, i: nat)
    requires SortedEntries(entries) && i < |entries| && entries[i].index != NULL_INDEX
    ensures PageIndex(entries, entries[i].key) == Some(entries[i].index)
  {
  }

  /** A single page of entries represents them. */
  lemma BaseRepresents(E: seq<Entry>, r: Range)
    requires WellFormed(E, r)
    ensures Represents([InnerData(E)], E, r)
  {
    var chain := [InnerData(E)];
    assert chain[1..] == [];
    forall i, key: RawKey | 0 <= i < |E| && E[i].key <= key && Below(key, EndOf(E, i, r.hi))
      ensures Answers(FindChild(chain, key), E, i, r.hi)
    {
      UpperBoundIs(E, key, i + 1);
    }
    forall key: RawKey, x: Index
      ensures Entry(key, x) in E <==> NewestIndex(chain, key) == Some(x)
    {
      if Entry(key, x) in E {
        var i :| 0 <= i < |E| && E[i] == Entry(key, x);
        PageIndexIs(E, i);
      }
      if NewestIndex(chain, key) == Some(x) {
        assert NewestIndex(chain[1..], key) == None;
        assert PageIndex(E, key) == Some(x);
        var i :| 0 <= i < |E| && E[i].key == key && E[i].index != NULL_INDEX;
        PageIndexIs(E, i);
        assert E[i] == Entry(key, x);
      }
    }
  }

  /** A consolidated inner page represents what its chain represented. */
  lemma ConsolidationRepresents(chain: seq<Body>, E: seq<Entry>, r: Range, items: seq<Entry>)
    requires Represents(chain, E, r) && InnerConsolidated(chain, items)
    ensures Represents([InnerData(items)], E, r)
  {
    ConsolidationIsEntries(chain, E, r, items);
    BaseRepresents(E, r);
  }

  // ----- The reconcile delta

  /** The delta page of `reconcile_split_page` for a child with range [lo, end). */
  function Delta(lo: RawKey, left: Index, splitKey: RawKey, right: Index, end: Option<RawKey>): seq<Entry> {
    [Entry(lo, left), Entry(splitKey, right)] + if end.Some? then [Entry(end.value, NULL_INDEX)] else []
  }

  /** The entries after the child at `i` was cut at `splitKey`. */
  function Refined(E: seq<Entry>, i: nat, left: Index, splitKey: RawKey, right: Index): seq<Entry>
    requires i < |E|
  {
    E[..i] + [Entry(E[i].key, left), Entry(splitKey, right)] + E[i + 1..]
  }

  lemma RefinedWellFormed(E: seq<Entry>, r: Range, i: nat, left: Index, splitKey: RawKey, right: Index)
    requires WellFormed(E, r) && i < |E|
    requires E[i].key < splitKey && Below(splitKey, EndOf(E, i, r.hi))
    requires left.id != NAN_ID && right.id != NAN_ID
    ensures WellFormed(Refined(E, i, left, splitKey, right), r)
  {
    var N := Refined(E, i, left, splitKey, right);
    assert N[i].key == E[i].key && N[i + 1].key == splitKey;
    assert forall j :: 0 <= j < i ==> N[j] == E[j];
    assert forall j :: i + 2 <= j < |N| ==> N[j] == E[j - 1];
    assert Below(splitKey, r.hi);
  }

  /** The delta mentions the two new starts and the end of the range that it cuts. */
  lemma DeltaNoStray(chain: seq<Body>, E: seq<Entry>, r: Range, i: nat, left: Index, splitKey: RawKey, right: Index)
    requires WellFormed(E, r) && NoStray(chain, E, r.hi) && i < |E|
    ensures NoStray([InnerData(Delta(E[i].key, left, splitKey, right, EndOf(E, i, r.hi)))] + chain,
                    Refined(E, i, left, splitKey, right), r.hi)
  {
    var D := Delta(E[i].key, left, splitKey, right, EndOf(E, i, r.hi));
    var c' := [InnerData(D)] + chain;
    var N := Refined(E, i, left, splitKey, right);
    assert N[i].key == E[i].key && N[i + 1].key == splitKey;
    forall key: RawKey | Meets(c', key) && Below(key, r.hi)
      ensures HasStart(N, key)
    {
      var k :| 0 <= k < |c'| && c'[k].InnerData? && HasStart(c'[k].entries, key);
      if k > 0 {
        assert chain[k - 1] == c'[k];
        assert Meets(chain, key);
      }
      if HasStart(E, key) {
        var j :| 0 <= j < |E| && E[j].key == key;
        assert N[if j <= i then j else j + 1].key == key;
      } else {
        assert key == splitKey;
      }
    }
  }

  lemma DeltaSorted(chain: seq<Body>, lo: RawKey, left: Index, splitKey: RawKey, right: Index, end: Option<RawKey>)
    requires SortedInner(chain) && (forall i :: 0 <= i < |chain| ==> TierOf(chain[i]) == Inner)
    requires lo < splitKey && Below(splitKey, end)
    ensures var c' := [InnerData(Delta(lo, left, splitKey, right, end))] + chain;
            SortedInner(c') && forall i :: 0 <= i < |c'| ==> TierOf(c'[i]) == Inner
  {
  }

  lemma DeltaLookupAt(chain: seq<Body>, E: seq<Entry>, r: Range, i: nat, left: Index, splitKey: RawKey, right: Index,
                      j: nat, key: RawKey)
    requires WellFormed(E, r) && i < |E| && j <= |E|
    requires E[i].key < splitKey && Below(splitKey, EndOf(E, i, r.hi))
    requires left.id != NAN_ID && right.id != NAN_ID
    requires var N := Refined(E, i, left, splitKey, right); N[j].key <= key && Below(key, EndOf(N, j, r.hi))
    requires j < i ==> Answers(FindChild(chain, key), E, j, r.hi)
    requires j > i + 1 ==> Answers(FindChild(chain, key), E, j - 1, r.hi)
    ensures Answers(FindChild([InnerData(Delta(E[i].key, left, splitKey, right, EndOf(E, i, r.hi)))] + chain, key),
                    Refined(E, i, left, splitKey, right), j, r.hi)
  {
    var D := Delta(E[i].key, left, splitKey, right, EndOf(E, i, r.hi));
    var c' := [InnerData(D)] + chain;
    assert c'[1..] == chain;
    if j < i {
      assert EndOf(E, j, r.hi).value <= E[i].key;
      UpperBoundIs(D, key, 0);
    } else if j == i {
      UpperBoundIs(D, key, 1);
    } else if j == i + 1 {
      UpperBoundIs(D, key, 2);
    } else {
      assert E[i + 1].key <= E[j - 1].key;
      UpperBoundIs(D, key, 3);
    }
  }

  lemma DeltaLookup(chain: seq<Body>, E: seq<Entry>, r: Range, i: nat, left: Index, splitKey: RawKey, right: Index)
    requires WellFormed(E, r) && LookupAgrees(chain, E, r.hi) && i < |E|
    requires E[i].key < splitKey && Below(splitKey, EndOf(E, i, r.hi))
    requires left.id != NAN_ID && right.id != NAN_ID
    ensures LookupAgrees([InnerData(Delta(E[i].key, left, splitKey, right, EndOf(E, i, r.hi)))] + chain,
                         Refined(E, i, left, splitKey, right), r.hi)
  {
    var c' := [InnerData(Delta(E[i].key, left, splitKey, right, EndOf(E, i, r.hi)))] + chain;
    var N := Refined(E, i, left, splitKey, right);
    forall j, key: RawKey | 0 <= j < |N| && N[j].key <= key && Below(key, EndOf(N, j, r.hi))
      ensures Answers(FindChild(c', key), N, j, r.hi)
    {
      if j < i {
        assert N[j] == E[j] && EndOf(N, j, r.hi) == EndOf(E, j, r.hi);
        LookupAt(chain, E, r.hi, j, key);
      } else if j > i + 1 {
        assert N[j] == E[j - 1] && EndOf(N, j, r.hi) == EndOf(E, j - 1, r.hi);
        LookupAt(chain, E, r.hi, j - 1, key);
      }
      DeltaLookupAt(chain, E, r, i, left, splitKey, right, j, key);
    }
  }

  lemma DeltaMerge(chain: seq<Body>, E: seq<Entry>, r: Range, i: nat, left: Index, splitKey: RawKey, right: Index)
    requires Represents(chain, E, r) && i < |E|
    requires E[i].key < splitKey && Below(splitKey, EndOf(E, i, r.hi))
    requires left.id != NAN_ID && right.id != NAN_ID
    requires Below(splitKey, SplitLimit(chain))
    ensures InnerConsolidated([InnerData(Delta(E[i].key, left, splitKey, right, EndOf(E, i, r.hi)))] + chain,
                              Refined(E, i, left, splitKey, right))
  {
    var D := Delta(E[i].key, left, splitKey, right, EndOf(E, i, r.hi));
    var c' := [InnerData(D)] + chain;
    var N := Refined(E, i, left, splitKey, right);
    assert c'[1..] == chain;
    RefinedWellFormed(E, r, i, left, splitKey, right);
    forall key: RawKey, x: Index
      ensures Entry(key, x) in N <==> NewestIndex(c', key) == Some(x) && Below(key, SplitLimit(c'))
    {
      assert Entry(key, x) in E <==> NewestIndex(chain, key) == Some(x) && Below(key, SplitLimit(chain));
      assert N[i] == Entry(E[i].key, left) && N[i + 1] == Entry(splitKey, right);
      assert E[i] in E;
      assert Entry(E[i].key, E[i].index) in E;
      if key == E[i].key {
        PageIndexIs(D, 0);
        assert Entry(key, x) in N <==> x == left;
      } else if key == splitKey {
        PageIndexIs(D, 1);
        assert Entry(key, x) in N <==> x == right;
      } else {
        assert PageIndex(D, key) == None;
        assert Entry(key, x) in N <==> Entry(key, x) in E by {
          InRefined(E, i, left, splitKey, right, Entry(key, x));
        }
      }
    }
  }

  lemma InRefined(E: seq<Entry>, i: nat, left: Index, splitKey: RawKey, right: Index, e: Entry)
    requires i < |E| && SortedEntries(E) && e.key != E[i].key && e.key != splitKey
    ensures e in Refined(E, i, left, splitKey, right) <==> e in E
  {
    var N := Refined(E, i, left, splitKey, right);
    if e in E {
      var j :| 0 <= j < |E| && E[j] == e;
      assert N[if j < i then j else j + 1] == e;
    }
    if e in N {
      var j :| 0 <= j < |N| && N[j] == e;
      assert E[if j < i then j else j - 1] == e;
    }
  }

  /** A reconcile delta refines exactly one child range: lookups and later consolidations of the
      longer chain both see the refined list. */
  lemma DeltaRepresents(chain: seq<Body>, E: seq<Entry>, r: Range, i: nat, left: Index, splitKey: RawKey, right: Index)
    requires Represents(chain, E, r) && i < |E| && |chain| > 0
    requires E[i].key < splitKey && Below(splitKey, EndOf(E, i, r.hi))
    requires left.id != NAN_ID && right.id != NAN_ID
    requires Below(splitKey, SplitLimit(chain))
    ensures Represents([InnerData(Delta(E[i].key, left, splitKey, right, EndOf(E, i, r.hi)))] + chain,
                       Refined(E, i, left, splitKey, right), r)
  {
    DeltaLookup(chain, E, r, i, left, splitKey, right);
    DeltaMerge(chain, E, r, i, left, splitKey, right);
    DeltaNoStray(chain, E, r, i, left, splitKey, right);
    DeltaSorted(chain, E[i].key, left, splitKey, right, EndOf(E, i, r.hi));
    RefinedWellFormed(E, r, i, left, splitKey, right);
  }

  // ----- The split of an inner page

  lemma SplitLeftLookup(E: seq<Entry>, r: Range, n: nat, right: Index)
    requires WellFormed(E, r) && 0 < n < |E|
    ensures LookupAgrees([SplitDelta(Inner, E[n].key, right), InnerData(E)], E[..n], Some(E[n].key))
  {
    var chain := [SplitDelta(Inner, E[n].key, right), InnerData(E)];
    assert chain[1..] == [InnerData(E)];
    var L, hi := E[..n], Some(E[n].key);
    forall i, key: RawKey | 0 <= i < |L| && L[i].key <= key && Below(key, EndOf(L, i, hi))
      ensures Answers(FindChild(chain, key), L, i, hi)
    {
      assert L[i] == E[i] && EndOf(L, i, hi) == Some(E[i + 1].key);
      UpperBoundIs(E, key, i + 1);
      assert FindChild(chain, key) == FindChild([InnerData(E)], key);
    }
  }

  lemma SplitLeftMerge(E: seq<Entry>, r: Range, n: nat, right: Index)
    requires WellFormed(E, r) && 0 < n < |E|
    ensures InnerConsolidated([SplitDelta(Inner, E[n].key, right), InnerData(E)], E[..n])
  {
    BaseRepresents(E, r);
    var base := [InnerData(E)];
    var chain := [SplitDelta(Inner, E[n].key, right), InnerData(E)];
    assert chain[1..] == base;
    var L := E[..n];
    forall key: RawKey, x: Index
      ensures Entry(key, x) in L <==> NewestIndex(chain, key) == Some(x) && key < E[n].key
    {
      assert Entry(key, x) in E <==> NewestIndex(base, key) == Some(x);
      if Entry(key, x) in E {
        var j :| 0 <= j < |E| && E[j] == Entry(key, x);
        assert j < n ==> L[j] == E[j];
      }
    }
  }

  /** The left half of a split inner page, whose chain still holds the whole list. */
  lemma SplitLeftRepresents(E: seq<Entry>, r: Range, n: nat, right: Index)
    requires WellFormed(E, r) && 0 < n < |E|
    ensures Represents([SplitDelta(Inner, E[n].key, right), InnerData(E)], E[..n], Range(r.lo, Some(E[n].key)))
  {
    SplitLeftLookup(E, r, n, right);
    SplitLeftMerge(E, r, n, right);
    SplitLeftNoStray(E, n, right);
  }

  lemma SplitLeftNoStray(E: seq<Entry>, n: nat, right: Index)
    requires SortedEntries(E) && n < |E|
    ensures NoStray([SplitDelta(Inner, E[n].key, right), InnerData(E)], E[..n], Some(E[n].key))
  {
    forall key: RawKey | HasStart(E, key) && key < E[n].key
      ensures HasStart(E[..n], key)
    {
      var j :| 0 <= j < |E| && E[j].key == key;
      assert E[..n][j].key == key;
    }
  }

  /** The right half of a split inner page. */
  lemma SplitRightRepresents(E: seq<Entry>, r: Range, n: nat)
    requires WellFormed(E, r) && 0 < n < |E|
    ensures Represents([InnerData(E[n..])], E[n..], Range(E[n].key, r.hi))
  {
    BaseRepresents(E[n..], Range(E[n].key, r.hi));
  }
}
