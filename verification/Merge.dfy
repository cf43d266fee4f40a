/**
 The merging iterator over the sorted delta pages of a chain (photondb/src/page/iter.rs).

 The children of the heap are ordered by their next key and, for equal keys, by rank; rank 0 is
 the newest page.  The binary heap is represented by the positions of its children, and the top
 of the heap by the least child.
 */
module Merge {
  import opened Options
  import opened Data
  import opened Pages

  ghost predicate SortedBy<T(!new)>(s: seq<T>, key: T -> Key) {
    forall i, j :: 0 <= i < j < |s| ==> KeyLess(key(s[i]), key(s[j]))
  }

  ghost predicate Positions<T>(pages: seq<seq<T>>, pos: seq<nat>) {
    |pos| == |pages| && forall i :: 0 <= i < |pages| ==> pos[i] <= |pages[i]|
  }

  /** The least of the first `n` children (`OrderedIter::cmp`): exhausted children come last,
      smaller next keys first, and smaller ranks first among equal keys. */
  function Least<T>(pages: seq<seq<T>>, pos: seq<nat>, key: T -> Key, n: nat): (m: Option<nat>)
    requires Positions(pages, pos) && n <= |pages|
    ensures m.None? ==> forall i :: 0 <= i < n ==> pos[i] == |pages[i]|
    ensures m.Some? ==> m.value < n && pos[m.value] < |pages[m.value]|
    ensures m.Some? ==> forall i :: 0 <= i < n && pos[i] < |pages[i]| ==>
              var k, l := key(pages[m.value][pos[m.value]]), key(pages[i][pos[i]]);
              KeyLess(k, l) || (k == l && m.value <= i)
  {
    if n == 0 then None
    else
      var m := Least(pages, pos, key, n - 1);
      if pos[n - 1] == |pages[n - 1]| then m
      else if m.None? || KeyLess(key(pages[n - 1][pos[n - 1]]), key(pages[m.value][pos[m.value]])) then Some(n - 1)
      else m
  }

  ghost function Remaining<T>(pages: seq<seq<T>>, pos: seq<nat>, n: nat): nat
    requires Positions(pages, pos) && n <= |pages|
  {
    if n == 0 then 0 else Remaining(pages, pos, n - 1) + (|pages[n - 1]| - pos[n - 1])
  }

  lemma {:induction false} RemainingShrinks<T>(pages: seq<seq<T>>, pos: seq<nat>, n: nat, i: nat)
    requires Positions(pages, pos) && n <= |pages| && i < |pages| && pos[i] < |pages[i]|
    ensures Remaining(pages, pos[i := pos[i] + 1], n) == Remaining(pages, pos, n) - if i < n then 1 else 0
  {
    if n > 0 {
      RemainingShrinks(pages, pos, n - 1, i);
    }
  }

  /** Everything the iterator still has to return, each item with the rank it comes from. */
  ghost function MergeFrom<T>(pages: seq<seq<T>>, pos: seq<nat>, key: T -> Key): seq<(T, nat)>
    requires Positions(pages, pos)
    decreases Remaining(pages, pos, |pages|)
  {
    var m := Least(pages, pos, key, |pages|);
    if m.None? then []
    else
      RemainingShrinks(pages, pos, |pages|, m.value);
      [(pages[m.value][pos[m.value]], m.value)] + MergeFrom(pages, pos[m.value := pos[m.value] + 1], key)
  }

  // ----- The merge is a sorted interleaving

  /** The items of one rank, in order. */
  ghost function OfRank<T>(s: seq<(T, nat)>, rank: nat): seq<T> {
    if s == [] then [] else (if s[0].1 == rank then [s[0].0] else []) + OfRank(s[1..], rank)
  }

  /** Every page comes out whole and in order: nothing is lost, doubled or invented. */
  lemma {:induction false} MergeInterleaves<T>(pages: seq<seq<T>>, pos: seq<nat>, key: T -> Key, rank: nat)
    requires Positions(pages, pos) && rank < |pages|
    ensures OfRank(MergeFrom(pages, pos, key), rank) == pages[rank][pos[rank]..]
    decreases Remaining(pages, pos, |pages|)
  {
    var m := Least(pages, pos, key, |pages|);
    if m.Some? {
      RemainingShrinks(pages, pos, |pages|, m.value);
      var pos' := pos[m.value := pos[m.value] + 1];
      MergeInterleaves(pages, pos', key, rank);
      assert MergeFrom(pages, pos, key)[1..] == MergeFrom(pages, pos', key);
    }
  }

  ghost predicate RanksBelow<T>(s: seq<(T, nat)>, n: nat) {
    forall i :: 0 <= i < |s| ==> s[i].1 < n
  }

  lemma {:induction false} MergeRanks<T>(pages: seq<seq<T>>, pos: seq<nat>, key: T -> Key)
    requires Positions(pages, pos)
    ensures RanksBelow(MergeFrom(pages, pos, key), |pages|)
    decreases Remaining(pages, pos, |pages|)
  {
    var m := Least(pages, pos, key, |pages|);
    if m.Some? {
      RemainingShrinks(pages, pos, |pages|, m.value);
      MergeRanks(pages, pos[m.value := pos[m.value] + 1], key);
    }
  }

  /** Ascending keys, and for equal keys ascending ranks: newer pages first. */
  ghost predicate SortedByKeyAndRank<T(!new)>(s: seq<(T, nat)>, key: T -> Key) {
    forall i, j :: 0 <= i < j < |s| ==>
      KeyLess(key(s[i].0), key(s[j].0)) || (key(s[i].0) == key(s[j].0) && s[i].1 < s[j].1)
  }

  lemma {:induction false} InOfRank<T>(s: seq<(T, nat)>, i: nat)
    requires i < |s|
    ensures s[i].0 in OfRank(s, s[i].1)
  {
    if i > 0 {
      InOfRank(s[1..], i - 1);
      assert s[1..][i - 1] == s[i];
    }
  }

  /** The least head is before every other item still ahead. */
  lemma LeastIsBelow<T(!new)>(pages: seq<seq<T>>, pos: seq<nat>, key: T -> Key, m: nat, r: nat, p: nat)
    requires Positions(pages, pos) && r < |pages| && SortedBy(pages[r], key)
    requires Least(pages, pos, key, |pages|) == Some(m)
    requires pos[r] <= p < |pages[r]| && (r == m ==> pos[r] < p)
    ensures var x := pages[m][pos[m]];
            KeyLess(key(x), key(pages[r][p])) || (key(x) == key(pages[r][p]) && m < r)
  {
    if pos[r] < p {
      assert KeyLess(key(pages[r][pos[r]]), key(pages[r][p]));
    }
  }

  /** Every item still ahead lies in its page at or after the position of that page. */
  lemma ItemAhead<T>(pages: seq<seq<T>>, pos: seq<nat>, key: T -> Key, j: nat) returns (p: nat)
    requires Positions(pages, pos) && j < |MergeFrom(pages, pos, key)|
    ensures var (x, r) := MergeFrom(pages, pos, key)[j];
            r < |pages| && pos[r] <= p < |pages[r]| && pages[r][p] == x
  {
    var M := MergeFrom(pages, pos, key);
    var r := M[j].1;
    MergeRanks(pages, pos, key);
    MergeInterleaves(pages, pos, key, r);
    InOfRank(M, j);
    var i :| 0 <= i < |pages[r][pos[r]..]| && pages[r][pos[r]..][i] == M[j].0;
    p := pos[r] + i;
  }

  /** The first of the remaining items is before all the others. */
  lemma HeadIsLeast<T(!new)>(pages: seq<seq<T>>, pos: seq<nat>, key: T -> Key, m: nat, pos': seq<nat>, j: nat)
    requires Positions(pages, pos) && forall i :: 0 <= i < |pages| ==> SortedBy(pages[i], key)
    requires Least(pages, pos, key, |pages|) == Some(m) && pos' == pos[m := pos[m] + 1]
    requires j < |MergeFrom(pages, pos', key)|
    ensures var x, y := (pages[m][pos[m]], m), MergeFrom(pages, pos', key)[j];
            KeyLess(key(x.0), key(y.0)) || (key(x.0) == key(y.0) && x.1 < y.1)
  {
    var p := ItemAhead(pages, pos', key, j);
    LeastIsBelow(pages, pos, key, m, MergeFrom(pages, pos', key)[j].1, p);
  }

  /** The heap merge of sorted pages is sorted, with ties newest first. */
  lemma {:induction false} MergeIsSorted<T(!new)>(pages: seq<seq<T>>, pos: seq<nat>, key: T -> Key)
    requires Positions(pages, pos) && forall i :: 0 <= i < |pages| ==> SortedBy(pages[i], key)
    ensures SortedByKeyAndRank(MergeFrom(pages, pos, key), key)
    decreases Remaining(pages, pos, |pages|)
  {
    var M := MergeFrom(pages, pos, key);
    var m := Least(pages, pos, key, |pages|);
    if m.Some? {
      RemainingShrinks(pages, pos, |pages|, m.value);
      var pos' := pos[m.value := pos[m.value] + 1];
      var N := MergeFrom(pages, pos', key);
      MergeIsSorted(pages, pos', key);
      assert M == [(pages[m.value][pos[m.value]], m.value)] + N;
      forall i, j | 0 <= i < j < |M|
        ensures KeyLess(key(M[i].0), key(M[j].0)) || (key(M[i].0) == key(M[j].0) && M[i].1 < M[j].1)
      {
        if i == 0 {
          HeadIsLeast(pages, pos, key, m.value, pos', j - 1);
        } else {
          assert M[i] == N[i - 1] && M[j] == N[j - 1];
        }
      }
    }
  }

  function Zeros(n: nat): seq<nat> {
    seq(n, _ => 0)
  }

  /** The whole merge. */
  ghost function Merged<T>(pages: seq<seq<T>>, key: T -> Key): seq<(T, nat)> {
    MergeFrom(pages, Zeros(|pages|), key)
  }

  /** Which items the whole merge returns, by rank. */
  lemma MergedItems<T(!new)>(pages: seq<seq<T>>, key: T -> Key, t: T, rank: nat)
    ensures (t, rank) in Merged(pages, key) <==> rank < |pages| && t in pages[rank]
  {
    var M := Merged(pages, key);
    MergeRanks(pages, Zeros(|pages|), key);
    if rank < |pages| {
      MergeInterleaves(pages, Zeros(|pages|), key, rank);
      assert pages[rank][0..] == pages[rank];
      OfRankItems(M, rank, t);
    }
  }

  lemma {:induction false} OfRankItems<T>(s: seq<(T, nat)>, rank: nat, t: T)
    ensures (t, rank) in s <==> t in OfRank(s, rank)
  {
    if s != [] {
      OfRankItems(s[1..], rank, t);
      assert (t, rank) in s <==> s[0] == (t, rank) || (t, rank) in s[1..];
    }
  }

  // ----- Seeking

  /** `SortedPageIter::seek`: the rank of the target in one page. */
  method SeekPage<T(!new)>(page: seq<T>, key: T -> Key, target: Key) returns (r: Rank)
    requires SortedBy(page, key)
    ensures r.at <= |page| && forall i :: 0 <= i < |page| ==> (KeyLess(key(page[i]), target) <==> i < r.at)
    ensures r.Found? <==> exists i :: 0 <= i < |page| && key(page[i]) == target
    ensures r.Found? ==> r.at < |page|
  {
    r := FindRank(page, t => CompareKeys(key(t), target));
  }

  /** What is left of a sorted sequence when the items before `target` are dropped. */
  ghost function SkipBelow<T>(s: seq<(T, nat)>, key: T -> Key, target: Key): seq<(T, nat)> {
    if s != [] && KeyLess(key(s[0].0), target) then SkipBelow(s[1..], key, target) else s
  }

  lemma {:induction false} SkipBelowIs<T>(s: seq<(T, nat)>, key: T -> Key, target: Key) returns (k: nat)
    ensures k <= |s| && SkipBelow(s, key, target) == s[k..]
    ensures forall i :: 0 <= i < k ==> KeyLess(key(s[i].0), target)
    ensures k < |s| ==> !KeyLess(key(s[k].0), target)
  {
    k := 0;
    if s != [] && KeyLess(key(s[0].0), target) {
      var n := SkipBelowIs(s[1..], key, target);
      k := n + 1;
    }
  }

  /** Page `i` stands at its first item that is not before `target`. */
  ghost predicate SoughtAt<T>(pages: seq<seq<T>>, pos: seq<nat>, key: T -> Key, target: Key, i: nat)
    requires Positions(pages, pos) && i < |pages|
  {
    && (forall j :: 0 <= j < pos[i] ==> KeyLess(key(pages[i][j]), target))
    && (pos[i] < |pages[i]| ==> !KeyLess(key(pages[i][pos[i]]), target))
  }

  ghost predicate Sought<T>(pages: seq<seq<T>>, pos: seq<nat>, key: T -> Key, target: Key) {
    Positions(pages, pos) && forall i {:trigger SoughtAt(pages, pos, key, target, i)} :: 0 <= i < |pages| ==>
      SoughtAt(pages, pos, key, target, i)
  }

  /** Moving every page to the target by itself is the same as dropping the items before the target from the
      merge. */
  lemma {:induction false} SeekSkips<T>(pages: seq<seq<T>>, from: seq<nat>, pos: seq<nat>, key: T -> Key, target: Key)
    requires Positions(pages, from) && Sought(pages, pos, key, target)
    requires forall i :: 0 <= i < |pages| ==> from[i] <= pos[i]
    ensures MergeFrom(pages, pos, key) == SkipBelow(MergeFrom(pages, from, key), key, target)
    decreases Remaining(pages, from, |pages|)
  {
    var m := Least(pages, from, key, |pages|);
    if m.Some? && KeyLess(key(pages[m.value][from[m.value]]), target) {
      RemainingShrinks(pages, from, |pages|, m.value);
      assert SoughtAt(pages, pos, key, target, m.value);
      var next := from[m.value := from[m.value] + 1];
      SeekSkips(pages, next, pos, key, target);
      assert MergeFrom(pages, from, key)[1..] == MergeFrom(pages, next, key);
    } else {
      AtTarget(pages, from, pos, key, target);
    }
  }

  /** When the least head is not before the target, no page is. */
  lemma AtTarget<T>(pages: seq<seq<T>>, from: seq<nat>, pos: seq<nat>, key: T -> Key, target: Key)
    requires Positions(pages, from) && Sought(pages, pos, key, target)
    requires forall i :: 0 <= i < |pages| ==> from[i] <= pos[i]
    requires var m := Least(pages, from, key, |pages|); m.Some? ==> !KeyLess(key(pages[m.value][from[m.value]]), target)
    ensures from == pos
  {
    forall i | 0 <= i < |pages|
      ensures from[i] == pos[i]
    {
      assert SoughtAt(pages, pos, key, target, i);
    }
  }

  /** `MergingIter`: `Next` takes the least child's item and advances that child. */
  class MergingIter<T(!new)> {
    const pages: seq<seq<T>>
    const key: T -> Key
    var pos: seq<nat>

    ghost predicate Valid()
      reads this
    {
      Positions(pages, pos)
    }

    ghost function Todo(): seq<(T, nat)>
      requires Valid()
      reads this
    {
      MergeFrom(pages, pos, key)
    }

    constructor (pages: seq<seq<T>>, key: T -> Key)
      ensures Valid() && this.pages == pages && this.key == key
      ensures Todo() == Merged(pages, key)
    {
      this.pages, this.key := pages, key;
      this.pos := Zeros(|pages|);
    }

    method Next() returns (r: Option<T>)
      requires Valid()
      modifies this
      ensures Valid()
      ensures old(Todo()) == [] ==> r == None && Todo() == []
      ensures old(Todo()) != [] ==> r == Some(old(Todo())[0].0) && Todo() == old(Todo())[1..]
    {
      var least: Option<nat> := None;
      for i := 0 to |pages|
        invariant least == Least(pages, pos, key, i)
        invariant pos == old(pos)
      {
        if pos[i] < |pages[i]| {
          if least.None? || KeyLess(key(pages[i][pos[i]]), key(pages[least.value][pos[least.value]])) {
            least := Some(i);
          }
        }
      }
      if least.None? {
        return None;
      }
      var m := least.value;
      r := Some(pages[m][pos[m]]);
      pos := pos[m := pos[m] + 1];
    }

    /** Every page is searched by itself; `found` says whether one of them has the target. */
    method Seek(target: Key) returns (found: bool)
      requires Valid() && forall i :: 0 <= i < |pages| ==> SortedBy(pages[i], key)
      modifies this
      ensures Valid() && Todo() == SkipBelow(Merged(pages, key), key, target)
      ensures found <==> exists i, j :: 0 <= i < |pages| && 0 <= j < |pages[i]| && key(pages[i][j]) == target
    {
      found := false;
      for i := 0 to |pages|
        invariant Positions(pages, pos)
        invariant forall k {:trigger SoughtAt(pages, pos, key, target, k)} :: 0 <= k < i ==>
                  SoughtAt(pages, pos, key, target, k)
        invariant found <==> exists k, j :: 0 <= k < i && 0 <= j < |pages[k]| && key(pages[k][j]) == target
      {
        var r := SeekPage(pages[i], key, target);
        ghost var before := pos;
        pos := pos[i := r.at];
        if r.Found? {
          found := true;
        }
        forall k | 0 <= k < i
          ensures SoughtAt(pages, pos, key, target, k)
        {
          assert SoughtAt(pages, before, key, target, k);
        }
        assert SoughtAt(pages, pos, key, target, i);
      }
      SeekSkips(pages, Zeros(|pages|), pos, key, target);
    }

    method Rewind()
      requires Valid()
      modifies this
      ensures Valid() && Todo() == Merged(pages, key)
    {
      pos := Zeros(|pages|);
    }
  }
}
