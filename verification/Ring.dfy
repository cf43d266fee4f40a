/** Circular doubly linked rings in explicit memory: pointers are keys of `next` and `prev` maps. */
module Ring {
  import opened Sequences

  type Ptr = nat

  /** The node after index `i` of a ring of `n` nodes. */
  function After(i: nat, n: nat): nat {
    if i + 1 == n then 0 else i + 1
  }

  /** `c[i]` and its successor point at each other. */
  ghost predicate Joined(next: map<Ptr, Ptr>, prev: map<Ptr, Ptr>, x: Ptr, y: Ptr) {
    x in next && y in prev && next[x] == y && prev[y] == x
  }

  ghost predicate JoinedAt(next: map<Ptr, Ptr>, prev: map<Ptr, Ptr>, c: seq<Ptr>, i: nat) {
    i < |c| ==> Joined(next, prev, c[i], c[After(i, |c|)])
  }

  ghost predicate IsRing(next: map<Ptr, Ptr>, prev: map<Ptr, Ptr>, c: seq<Ptr>) {
    && |c| > 0 && Distinct(c)
    && forall i: nat {:trigger JoinedAt(next, prev, c, i)} :: JoinedAt(next, prev, c, i)
  }

  function Inserted(c: seq<Ptr>, i: nat, e: Ptr): seq<Ptr>
    requires i < |c|
  {
    c[..i + 1] + [e] + c[i + 1..]
  }

  function Removed(c: seq<Ptr>, i: nat): seq<Ptr>
    requires i < |c|
  {
    c[..i] + c[i + 1..]
  }

  lemma InsertedDistinct(c: seq<Ptr>, i: nat, e: Ptr)
    requires Distinct(c) && i < |c| && e !in c
    ensures Distinct(Inserted(c, i, e))
    ensures forall x :: x in Inserted(c, i, e) <==> x in c || x == e
  {
    var d := Inserted(c, i, e);
    Spread(c);
    assert forall k :: 0 <= k < |d| ==> d[k] == if k <= i then c[k] else if k == i + 1 then e else c[k - 1];
    forall x
      ensures x in d <==> x in c || x == e
    {
      if x in c {
        var k :| 0 <= k < |c| && c[k] == x;
        assert d[if k <= i then k else k + 1] == x;
      }
      assert d[i + 1] == e;
    }
  }

  /** Four pointer writes insert `e` behind `c[i]`. */
  lemma InsertKeepsRing(next: map<Ptr, Ptr>, prev: map<Ptr, Ptr>, c: seq<Ptr>, i: nat, e: Ptr,
                        next': map<Ptr, Ptr>, prev': map<Ptr, Ptr>)
    requires IsRing(next, prev, c) && i < |c| && e !in c
    requires var a, b := c[i], c[After(i, |c|)];
             next' == next[e := b][a := e] && prev' == prev[e := a][b := e]
    ensures IsRing(next', prev', Inserted(c, i, e))
  {
    InsertedDistinct(c, i, e);
    forall k: nat
      ensures JoinedAt(next', prev', Inserted(c, i, e), k)
    {
      if k < |c| + 1 {
        InsertJoined(next, prev, c, i, e, next', prev', k);
      }
    }
  }

  lemma InsertJoined(next: map<Ptr, Ptr>, prev: map<Ptr, Ptr>, c: seq<Ptr>, i: nat, e: Ptr,
                     next': map<Ptr, Ptr>, prev': map<Ptr, Ptr>, k: nat)
    requires IsRing(next, prev, c) && i < |c| && e !in c && k <= |c|
    requires var a, b := c[i], c[After(i, |c|)];
             next' == next[e := b][a := e] && prev' == prev[e := a][b := e]
    ensures JoinedAt(next', prev', Inserted(c, i, e), k)
  {
    var d := Inserted(c, i, e);
    var n := |c|;
    Spread(c);
    if k < i {
      assert JoinedAt(next, prev, c, k);
      assert d[k] == c[k] && d[k + 1] == c[k + 1];
      assert c[k] != c[i] && c[k + 1] != c[After(i, n)];
    } else if k == i {
      assert d[i] == c[i] && d[i + 1] == e;
    } else if k == i + 1 {
      assert d[k] == e && d[After(k, n + 1)] == c[After(i, n)];
    } else {
      assert JoinedAt(next, prev, c, k - 1);
      assert d[k] == c[k - 1] && d[After(k, n + 1)] == c[After(k - 1, n)];
      assert c[k - 1] != c[i] && c[After(k - 1, n)] != c[After(i, n)];
    }
  }

  lemma RemovedDistinct(c: seq<Ptr>, i: nat)
    requires Distinct(c) && i < |c|
    ensures Distinct(Removed(c, i))
    ensures forall x :: x in Removed(c, i) <==> x in c && x != c[i]
  {
    var d := Removed(c, i);
    Spread(c);
    assert forall k :: 0 <= k < |d| ==> d[k] == if k < i then c[k] else c[k + 1];
    forall x
      ensures x in d <==> x in c && x != c[i]
    {
      if x in c && x != c[i] {
        var k :| 0 <= k < |c| && c[k] == x;
        assert d[if k < i then k else k - 1] == x;
      }
      if x in d {
        var k :| 0 <= k < |d| && d[k] == x;
        assert c[if k < i then k else k + 1] == x;
      }
    }
  }

  /** Two pointer writes take `c[i]` out of a ring of more than one node. */
  ghost predicate Unlinked(next: map<Ptr, Ptr>, prev: map<Ptr, Ptr>, c: seq<Ptr>, e: Ptr, next': map<Ptr, Ptr>,
                           prev': map<Ptr, Ptr>) {
    && e in next && e in prev
    && var p, n := prev[e], next[e];
    && forall x {:trigger x in c} :: x in c && x != e && x in next && x in prev ==>
         && x in next' && next'[x] == (if x == p then n else next[x])
         && x in prev' && prev'[x] == (if x == n then p else prev[x])
  }

  lemma RemoveJoined(next: map<Ptr, Ptr>, prev: map<Ptr, Ptr>, c: seq<Ptr>, i: nat,
                     next': map<Ptr, Ptr>, prev': map<Ptr, Ptr>, k: nat)
    requires IsRing(next, prev, c) && i < |c| && |c| > 1 && Unlinked(next, prev, c, c[i], next', prev') && k < |c| - 1
    ensures JoinedAt(next', prev', Removed(c, i), k)
  {
    var n, d := |c|, Removed(c, i);
    Spread(c);
    var before := if i == 0 then n - 1 else i - 1;
    assert JoinedAt(next, prev, c, before) && JoinedAt(next, prev, c, i);
    var k0 := if k < i then k else k + 1;
    assert d[k] == c[k0] && c[k0] in c && c[k0] != c[i];
    assert JoinedAt(next, prev, c, k0);
    if k0 == before {
      var t := After(i, n);
      assert d[After(k, n - 1)] == c[t] && c[t] in c && c[t] != c[i];
      assert JoinedAt(next, prev, c, t);
      assert JoinedAt(next, prev, c, if before == 0 then n - 1 else before - 1);
    } else {
      var t := After(k0, n);
      assert d[After(k, n - 1)] == c[t] && c[t] in c && c[t] != c[i];
      assert JoinedAt(next, prev, c, t);
      assert JoinedAt(next, prev, c, if k0 == 0 then n - 1 else k0 - 1);
      assert c[k0] != c[before] && c[t] != c[After(i, n)];
    }
  }

  lemma RemoveKeepsRing(next: map<Ptr, Ptr>, prev: map<Ptr, Ptr>, c: seq<Ptr>, i: nat,
                        next': map<Ptr, Ptr>, prev': map<Ptr, Ptr>)
    requires IsRing(next, prev, c) && i < |c| && |c| > 1 && Unlinked(next, prev, c, c[i], next', prev')
    ensures IsRing(next', prev', Removed(c, i))
  {
    RemovedDistinct(c, i);
    forall k: nat
      ensures JoinedAt(next', prev', Removed(c, i), k)
    {
      if k < |c| - 1 {
        RemoveJoined(next, prev, c, i, next', prev', k);
      }
    }
  }

  /** The position of a member. */
  lemma PositionOf(c: seq<Ptr>, x: Ptr) returns (i: nat)
    requires x in c
    ensures i < |c| && c[i] == x
  {
    i :| 0 <= i < |c| && c[i] == x;
  }

  /** Writes outside a ring do not matter to it. */
  lemma RingFrame(next: map<Ptr, Ptr>, prev: map<Ptr, Ptr>, next': map<Ptr, Ptr>, prev': map<Ptr, Ptr>, c: seq<Ptr>)
    requires IsRing(next, prev, c)
    requires forall x ::
               x in c ==>
                 x in next' && x in prev' && x in next && x in prev && next'[x] == next[x] && prev'[x] == prev[x]
    ensures IsRing(next', prev', c)
  {
    forall i: nat
      ensures JoinedAt(next', prev', c, i)
    {
      assert JoinedAt(next, prev, c, i);
      if i < |c| {
        assert c[i] in c && c[After(i, |c|)] in c;
      }
    }
  }

  lemma RingMembers(next: map<Ptr, Ptr>, prev: map<Ptr, Ptr>, c: seq<Ptr>, x: Ptr)
    requires IsRing(next, prev, c) && x in c
    ensures x in next && x in prev && next[x] in c && prev[x] in c
    ensures |c| == 1 ==> next[x] == x && prev[x] == x
    ensures |c| > 1 ==> next[x] != x
  {
    var i := PositionOf(c, x);
    var before := if i == 0 then |c| - 1 else i - 1;
    Spread(c);
    assert JoinedAt(next, prev, c, i) && JoinedAt(next, prev, c, before);
  }
}
