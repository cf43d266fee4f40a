/** The intrusive waiter list (photondb/src/util/linked_list.rs) and the loop that drains it. */
module LinkedList {
  import opened Options
  import opened Sequences

  datatype Kind = OneWaiter | AllWaiters

  class Waiter {
    var prev: Waiter?
    var next: Waiter?
    var notified: Option<Kind>

    constructor ()
      ensures prev == null && next == null && notified == None
    {
      prev, next, notified := null, null, None;
    }
  }

  /** The members of the list before and behind position `i`. */
  ghost function Before(nodes: seq<Waiter>, i: nat): Waiter?
    requires i < |nodes|
  {
    if i == 0 then null else nodes[i - 1]
  }

  ghost function Behind(nodes: seq<Waiter>, i: nat): Waiter?
    requires i < |nodes|
  {
    if i + 1 == |nodes| then null else nodes[i + 1]
  }

  ghost predicate LinkedAt(nodes: seq<Waiter>, i: nat)
    requires i < |nodes|
    reads nodes[i]
  {
    nodes[i].prev == Before(nodes, i) && nodes[i].next == Behind(nodes, i)
  }

  function Without(nodes: seq<Waiter>, k: nat): seq<Waiter>
    requires k < |nodes|
  {
    nodes[..k] + nodes[k + 1..]
  }

  lemma WithoutNeighbours(nodes: seq<Waiter>, k: nat, i: nat)
    requires k < |nodes| && i < |nodes| - 1 && Distinct(nodes)
    ensures var j := if i < k then i else i + 1;
            && Without(nodes, k)[i] == nodes[j] && nodes[j] != nodes[k]
            && Before(Without(nodes, k), i) == (if j == k + 1 then Before(nodes, k) else Before(nodes, j))
            && Behind(Without(nodes, k), i) == (if j + 1 == k then Behind(nodes, k) else Behind(nodes, j))
            && (j != k + 1 && k + 1 < |nodes| ==> nodes[j] != nodes[k + 1])
            && (j + 1 != k && k > 0 ==> nodes[j] != nodes[k - 1])
  {
    Spread(nodes);
  }

  lemma WithoutDistinct(nodes: seq<Waiter>, k: nat)
    requires k < |nodes| && Distinct(nodes)
    ensures Distinct(Without(nodes, k)) && nodes[k] !in Without(nodes, k)
  {
    Spread(nodes);
  }

  class WaitList {
    var head: Waiter?
    var tail: Waiter?
    ghost var nodes: seq<Waiter>

    ghost predicate Valid()
      reads this, nodes
    {
      && Distinct(nodes)
      && head == (if nodes == [] then null else nodes[0])
      && tail == (if nodes == [] then null else nodes[|nodes| - 1])
      && forall i: nat {:trigger LinkedAt(nodes, i)} :: i < |nodes| ==> LinkedAt(nodes, i)
    }

    constructor ()
      ensures Valid() && nodes == []
    {
      head, tail, nodes := null, null, [];
    }

    method IsEmpty() returns (r: bool)
      requires Valid()
      ensures r <==> nodes == []
      ensures r ==> tail == null
    {
      r := head == null;
    }

    method PushFront(w: Waiter)
      requires Valid() && w !in nodes
      modifies this, w`next, w`prev, nodes
      ensures Valid() && nodes == [w] + old(nodes)
      ensures forall x: Waiter :: x in nodes ==> x.notified == old(x.notified)
    {
      ghost var old_ := nodes;
      Spread(nodes);
      if head != null {
        assert LinkedAt(nodes, 0);
      }
      w.next := head;
      w.prev := null;
      if head != null {
        head.prev := w;
      }
      head := w;
      if tail == null {
        tail := w;
      }
      nodes := [w] + nodes;
      forall i: nat | i < |nodes|
        ensures LinkedAt(nodes, i)
      {
        if i > 0 {
          assert old(LinkedAt(old_, i - 1));
          assert nodes[i] == old_[i - 1];
          assert i > 1 ==> old_[i - 1] != old_[0];
        }
      }
    }

    method PopBack() returns (r: Option<Waiter>)
      requires Valid()
      modifies this, nodes
      ensures Valid()
      ensures old(nodes) == [] ==> r == None && nodes == []
      ensures old(nodes) != [] ==>
                var n := |old(nodes)| - 1;
                && r == Some(old(nodes)[n]) && nodes == old(nodes)[..n]
                && r.value !in nodes && r.value.next == null && r.value.prev == null
      ensures forall x: Waiter :: x in old(nodes) ==> x.notified == old(x.notified)
    {
      if tail == null {
        return None;
      }
      ghost var old_ := nodes;
      ghost var n := |nodes| - 1;
      Spread(nodes);
      var last := tail;
      assert LinkedAt(nodes, n);
      if n > 0 {
        assert LinkedAt(nodes, n - 1);
      }
      tail := last.prev;
      if last.prev != null {
        last.prev.next := null;
      } else {
        head := null;
      }
      last.prev := null;
      last.next := null;
      nodes := nodes[..n];
      forall i: nat | i < |nodes|
        ensures LinkedAt(nodes, i)
      {
        assert old(LinkedAt(old_, i));
        assert nodes[i] == old_[i] && old_[i] != last;
      }
      return Some(last);
    }

    /** Takes a member out; a waiter that is in no list is left alone. */
    method Remove(w: Waiter, ghost k: nat) returns (r: Option<Waiter>)
      requires Valid()
      requires if w in nodes then k < |nodes| && nodes[k] == w else w.prev == null && w.next == null
      modifies this, w`next, w`prev, nodes
      ensures Valid()
      ensures w !in old(nodes) ==> r == None && nodes == old(nodes)
      ensures w in old(nodes) ==> r == Some(w) && nodes == Without(old(nodes), k)
      ensures w !in nodes && w.next == null && w.prev == null
      ensures forall x: Waiter :: x in old(nodes) ==> x.notified == old(x.notified)
    {
      ghost var old_ := nodes;
      ghost var n := |nodes|;
      Spread(nodes);
      if w in nodes {
        assert LinkedAt(nodes, k);
        if k > 0 {
          assert LinkedAt(nodes, k - 1);
        }
        if k + 1 < n {
          assert LinkedAt(nodes, k + 1);
        }
      }
      if w.prev != null {
        w.prev.next := w.next;
      } else {
        if head != w {
          return None;
        }
        head := w.next;
      }
      if w.next != null {
        w.next.prev := w.prev;
      } else {
        assert tail == w;
        tail := w.prev;
      }
      w.next := null;
      w.prev := null;
      WithoutDistinct(nodes, k);
      nodes := Without(nodes, k);
      forall i: nat | i < |nodes|
        ensures LinkedAt(nodes, i)
      {
        var j := if i < k then i else i + 1;
        WithoutNeighbours(old_, k, i);
        assert old(LinkedAt(old_, j));
      }
      return Some(w);
    }
  }

  function Reversed(nodes: seq<Waiter>): seq<Waiter> {
    if nodes == [] then [] else [nodes[|nodes| - 1]] + Reversed(nodes[..|nodes| - 1])
  }

  /** The oldest waiter leaves the list and is notified; says whether it was the last one. */
  method NotifyOldest(list: WaitList, kind: Kind) returns (w: Waiter, last: bool)
    requires list.Valid() && list.nodes != []
    requires forall x :: x in list.nodes ==> x.notified == None
    modifies list, list.nodes
    ensures list.Valid() && w == old(list.nodes)[|old(list.nodes)| - 1] &&
            list.nodes == old(list.nodes)[..|old(list.nodes)| - 1]
    ensures w.notified == Some(kind) && w.prev == null && w.next == null
    ensures forall x: Waiter :: x in list.nodes ==> x.notified == None
    ensures last <==> list.nodes == []
  {
    var r := list.PopBack();
    w := r.value;
    w.notified := Some(kind);
    last := list.IsEmpty();
  }

  /** All waiters are notified, the oldest first, and the list ends empty. */
  method NotifyAll(list: WaitList) returns (woken: seq<Waiter>)
    requires list.Valid()
    requires forall x :: x in list.nodes ==> x.notified == None
    modifies list, list.nodes
    ensures list.Valid() && list.nodes == []
    ensures woken == Reversed(old(list.nodes))
    ensures forall x: Waiter ::
              x in old(list.nodes) ==> x.notified == Some(AllWaiters) && x.prev == null && x.next == null
  {
    woken := [];
    ghost var all := list.nodes;
    Spread(all);
    var empty := list.IsEmpty();
    while !empty
      invariant list.Valid() && (empty <==> list.nodes == [])
      invariant |list.nodes| <= |all| && list.nodes == all[..|list.nodes|]
      invariant forall x: Waiter :: x in list.nodes ==> x.notified == None
      invariant forall i {:trigger all[i]} :: |list.nodes| <= i < |all| ==>
                  all[i].notified == Some(AllWaiters) && all[i].prev == null && all[i].next == null
      invariant woken + Reversed(list.nodes) == Reversed(all)
      decreases |list.nodes|
    {
      ghost var n := |list.nodes|;
      assert forall i :: 0 <= i < n ==> list.nodes[i] == all[i];
      assert forall i :: n <= i < |all| ==> all[i] !in list.nodes;
      var w;
      w, empty := NotifyOldest(list, AllWaiters);
      woken := woken + [w];
    }
  }
}
