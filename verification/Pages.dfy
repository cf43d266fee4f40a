/**
 Page bodies and the search inside one sorted page
 (photondb/src/page/sorted_page.rs, photondb/src/page/base_page.rs).

 A logical page is a chain of immutable bodies, newest first.
 */
module Pages {
  import opened Data

  datatype Tier = Leaf | Inner

  /** The body of a delta page.  Data pages hold sorted items, a split page holds one index. */
  datatype Body =
    | LeafData(items: seq<Version>)
    | InnerData(entries: seq<Entry>)
    | SplitDelta(splitTier: Tier, splitKey: RawKey, right: Index)

  function TierOf(b: Body): Tier {
    match b
    case LeafData(_) => Leaf
    case InnerData(_) => Inner
    case SplitDelta(t, _, _) => t
  }

  predicate IsData(b: Body) {
    !b.SplitDelta?
  }

  /** The result of `rank`: `Ok(i)` for a match, `Err(i)` for an insertion point. */
  datatype Rank = Found(at: nat) | Missing(at: nat)

  /** The items before the target come first, then the equal ones, then those after it. */
  ghost predicate Monotone<T(!new)>(s: seq<T>, compare: T -> int) {
    forall i, j :: 0 <= i < j < |s| ==>
      (compare(s[i]) >= 0 ==> compare(s[j]) >= 0) && (compare(s[i]) > 0 ==> compare(s[j]) > 0)
  }

  /** The binary search of `SortedPageRef::rank`. */
  method FindRank<T(!new)>(s: seq<T>, compare: T -> int) returns (r: Rank)
    requires Monotone(s, compare)
    ensures r.Found? ==> r.at < |s| && compare(s[r.at]) == 0
    ensures r.Missing? ==> r.at <= |s|
    ensures r.Missing? ==> forall i :: 0 <= i < |s| ==> if i < r.at then compare(s[i]) < 0 else compare(s[i]) > 0
  {
    var left, right := 0, |s|;
    while left < right
      invariant left <= right <= |s|
      invariant forall i :: 0 <= i < left ==> compare(s[i]) < 0
      invariant forall i :: right <= i < |s| ==> compare(s[i]) > 0
    {
      var mid := (left + right) / 2;
      var c := compare(s[mid]);
      if c < 0 {
        left := mid + 1;
      } else if c > 0 {
        right := mid;
      } else {
        return Found(mid);
      }
    }
    r := Missing(left);
  }

  /** The number of items before the target: the position `rank` reports for distinct items. */
  function LowerBound(s: seq<Version>, target: Key): (p: nat)
    ensures p <= |s|
    ensures forall i :: 0 <= i < p ==> KeyLess(s[i].key, target)
    ensures p < |s| ==> !KeyLess(s[p].key, target)
  {
    if s == [] || !KeyLess(s[0].key, target) then 0 else 1 + LowerBound(s[1..], target)
  }

  /** The number of entries at or before the key; the last of them encloses it. */
  function UpperBound(s: seq<Entry>, key: RawKey): (p: nat)
    ensures p <= |s|
    ensures forall i :: 0 <= i < p ==> s[i].key <= key
    ensures p < |s| ==> key < s[p].key
  {
    if s == [] || key < s[0].key then 0 else 1 + UpperBound(s[1..], key)
  }

  lemma UpperBoundIs(s: seq<Entry>, key: RawKey, p: nat)
    requires SortedEntries(s) && p <= |s|
    requires p > 0 ==> s[p - 1].key <= key
    requires p < |s| ==> key < s[p].key
    ensures UpperBound(s, key) == p
  {
    assert !(UpperBound(s, key) < p);
  }

  lemma LowerBoundIs(s: seq<Version>, target: Key, p: nat)
    requires SortedVersions(s) && p <= |s|
    requires p > 0 ==> KeyLess(s[p - 1].key, target)
    requires p < |s| ==> !KeyLess(s[p].key, target)
    ensures LowerBound(s, target) == p
  {
    assert !(LowerBound(s, target) < p);
  }
}
