/**
 The table of page ids (photondb/src/page_store/page_table.rs): three levels of lazily installed
 arrays that act as one flat array, and a free list threaded through the unused entries.  `Alloc` and
 `Dealloc` are atomic steps, as the epoch-based reclamation that the code relies on makes them.
 */
module PageTable {
  import opened Options
  import opened Sequences

  const FANOUT: nat := 0x1_0000
  const L0_FANOUT: nat := 0x1_0000
  const L1_FANOUT: nat := 0x1_0000_0000

  const NAN_ID: nat := 0
  const MIN_ID: nat := 1
  const MAX_ID: nat := 0xffff_ffff_ffff

  // ----- The three levels

  datatype Path = Level0(i: nat) | Level1(i: nat, j: nat) | Level2(i: nat, j: nat, k: nat)

  function PathOf(id: nat): Path {
    if id < L0_FANOUT then Level0(id)
    else if id < L1_FANOUT then Level1((id - L0_FANOUT) / L0_FANOUT, (id - L0_FANOUT) % L0_FANOUT)
    else Level2((id - L1_FANOUT) / L1_FANOUT, (id - L1_FANOUT) % L1_FANOUT / L0_FANOUT,
      (id - L1_FANOUT) % L1_FANOUT % L0_FANOUT)
  }

  /** Every id of the table stays inside the arrays of its level; level 1 and level 2 have one
      entry less at the top than below. */
  lemma PathInBounds(id: nat)
    requires id <= MAX_ID
    ensures match PathOf(id)
            case Level0(i) => i < FANOUT
            case Level1(i, j) => i < FANOUT - 1 && j < FANOUT
            case Level2(i, j, k) => i < FANOUT - 1 && j < FANOUT && k < FANOUT
  {
  }

  function IdAt(p: Path): nat {
    match p
    case Level0(i) => i
    case Level1(i, j) => L0_FANOUT + i * L0_FANOUT + j
    case Level2(i, j, k) => L1_FANOUT + i * L1_FANOUT + (j * L0_FANOUT + k)
  }

  lemma PathRoundTrip(id: nat)
    ensures IdAt(PathOf(id)) == id
  {
  }

  /** Different ids never share an entry. */
  lemma NoAlias(a: nat, b: nat)
    requires PathOf(a) == PathOf(b)
    ensures a == b
  {
    PathRoundTrip(a);
    PathRoundTrip(b);
  }

  /** The arrays; an entry that was never stored is zero, and a child that was never installed is all
      zeros. */
  class Slots {
    var l0: map<nat, nat>
    var l1: map<nat, map<nat, nat>>
    var l2: map<nat, map<nat, map<nat, nat>>>

    constructor ()
      ensures forall id :: Get(id) == 0
    {
      l0, l1, l2 := map[], map[], map[];
    }

    ghost function GetAt(p: Path): nat
      reads this
    {
      match p
      case Level0(i) => if i in l0 then l0[i] else 0
      case Level1(i, j) => if i in l1 && j in l1[i] then l1[i][j] else 0
      case Level2(i, j, k) => if i in l2 && j in l2[i] && k in l2[i][j] then l2[i][j][k] else 0
    }

    /** The flat array. */
    ghost function Get(id: nat): nat
      reads this
    {
      GetAt(PathOf(id))
    }

    method Load(id: nat) returns (v: nat)
      requires id <= MAX_ID
      ensures v == Get(id)
    {
      match PathOf(id)
      case Level0(i) =>
        v := if i in l0 then l0[i] else 0;
      case Level1(i, j) =>
        v := if i in l1 && j in l1[i] then l1[i][j] else 0;
      case Level2(i, j, k) =>
        v := if i in l2 && j in l2[i] && k in l2[i][j] then l2[i][j][k] else 0;
    }

    /** A store installs the children on its way and changes its own entry and no other. */
    method Store(id: nat, v: nat)
      requires id <= MAX_ID
      modifies this
      ensures forall x {:trigger Get(x)} :: Get(x) == if x == id then v else old(Get(x))
    {
      match PathOf(id)
      case Level0(i) =>
        l0 := l0[i := v];
      case Level1(i, j) =>
        var child: map<nat, nat> := if i in l1 then l1[i] else map[];
        child := child[j := v];
        l1 := l1[i := child];
      case Level2(i, j, k) =>
        var child: map<nat, map<nat, nat>> := if i in l2 then l2[i] else map[];
        var leaf: map<nat, nat> := if j in child then child[j] else map[];
        leaf := leaf[k := v];
        child := child[j := leaf];
        l2 := l2[i := child];
      forall x
        ensures Get(x) == if x == id then v else old(Get(x))
      {
        if x != id && PathOf(x) == PathOf(id) {
          NoAlias(x, id);
        }
      }
    }
  }

  // ----- The free list

  ghost function HeadOf(list: seq<nat>): nat {
    if list == [] then NAN_ID else list[0]
  }

  ghost predicate ThreadedAt(slots: Slots, list: seq<nat>, i: nat)
    reads slots
  {
    i < |list| ==> slots.Get(list[i]) == HeadOf(list[i + 1..])
  }

  /** The entry of each free id holds the next free id, and the last one holds none. */
  ghost predicate Threaded(slots: Slots, list: seq<nat>)
    reads slots
  {
    forall i: nat {:trigger ThreadedAt(slots, list, i)} :: ThreadedAt(slots, list, i)
  }

  /** An unused id becomes the first of the free list. */
  method LinkFirst(slots: Slots, id: nat, free: nat, ghost list: seq<nat>)
    requires id <= MAX_ID && id !in list && Distinct(list) && Threaded(slots, list) && free == HeadOf(list)
    modifies slots
    ensures Threaded(slots, [id] + list)
    ensures forall x {:trigger slots.Get(x)} :: slots.Get(x) == if x == id then free else old(slots.Get(x))
  {
    PushThreaded(list, id);
    slots.Store(id, free);
    forall i: nat
      ensures ThreadedAt(slots, [id] + list, i)
    {
      if i > 0 {
        assert old(ThreadedAt(slots, list, i - 1));
        assert i <= |list| ==> list[i - 1] in list;
      }
    }
  }

  class Table {
    const slots: Slots
    var free: nat
    var next: nat
    ghost var list: seq<nat>
    ghost var held: set<nat>

    /** Every id below `next` is held by somebody or in the free list, never both. */
    ghost predicate Valid()
      reads this, slots
    {
      && MIN_ID <= next <= MAX_ID + 1
      && Distinct(list) && free == HeadOf(list) && Threaded(slots, list)
      && (forall id {:trigger id in list} :: id in list ==> MIN_ID <= id < next && id !in held)
      && (forall id {:trigger id in held} {:trigger id in list} :: MIN_ID <= id < next && id !in list <==> id in held)
    }

    constructor ()
      ensures Valid() && list == [] && held == {} && next == MIN_ID && fresh(slots)
    {
      slots := new Slots();
      free, next, list, held := NAN_ID, MIN_ID, [], {};
    }

    /** A table around existing entries. */
    constructor FromSlots(slots: Slots, free: nat, next: nat, ghost list: seq<nat>, ghost held: set<nat>)
      requires MIN_ID <= next <= MAX_ID + 1 && Distinct(list) && free == HeadOf(list) && Threaded(slots, list)
      requires forall id :: id in list ==> MIN_ID <= id < next && id !in held
      requires forall id :: MIN_ID <= id < next && id !in list <==> id in held
      ensures Valid() && this.slots == slots && this.list == list && this.held == held && this.next == next
    {
      this.slots, this.free, this.next, this.list, this.held := slots, free, next, list, held;
    }

    /** Hands out the newest free id, or else the next id; no id is handed out twice.  Nothing is handed
        out exactly when the ids are used up, or when the largest id, which is never handed out, is the
        first of the free list; it can get there only from a recovered mapping. */
    method Alloc() returns (r: Option<nat>)
      requires Valid()
      modifies this
      ensures Valid()
      ensures list == if old(list) == [] then [] else old(list)[1..]
      ensures next == old(next) + if old(list) == [] && old(next) < MAX_ID then 1 else 0
      ensures r == None <==> if old(list) == [] then old(next) >= MAX_ID else old(list)[0] == MAX_ID
      ensures r == None && old(next) <= MAX_ID ==> old(list) == [] && old(next) == MAX_ID
      ensures r != None ==> r.value == if old(list) == [] then old(next) else old(list)[0]
      ensures r != None ==> r.value !in old(held) && MIN_ID <= r.value < MAX_ID && held == old(held) + {r.value}
      ensures r == None ==> held == old(held) + if old(list) == [] then {} else {MAX_ID}
    {
      var id := free;
      assert list != [] ==> list[0] in list;
      if id != NAN_ID {
        assert ThreadedAt(slots, list, 0);
        var after := slots.Load(id);
        PopThreaded(list);
        forall i: nat
          ensures ThreadedAt(slots, list[1..], i)
        {
          assert old(ThreadedAt(slots, list, i + 1));
        }
        free := after;
        list := list[1..];
        held := held + {id};
      } else if next < MAX_ID {
        id := next;
        next := next + 1;
        held := held + {id};
      } else {
        id := next;
      }
      r := if id < MAX_ID then Some(id) else None;
    }

    /** Takes an id back; it is the first to be handed out again. */
    method Dealloc(id: nat)
      requires Valid() && id in held
      modifies this, slots
      ensures Valid() && list == [id] + old(list) && held == old(held) - {id} && next == old(next)
      ensures forall x {:trigger slots.Get(x)} :: x != id ==> slots.Get(x) == old(slots.Get(x))
    {
      PushThreaded(list, id);
      LinkFirst(slots, id, free, list);
      free := id;
      list := [id] + list;
      held := held - {id};
    }

    /** The compare-exchange of an entry that somebody holds leaves the free list alone. */
    method Cas(id: nat, expected: nat, addr: nat) returns (ok: bool)
      requires Valid() && id in held
      modifies slots
      ensures Valid()
      ensures ok <==> old(slots.Get(id)) == expected
      ensures forall x {:trigger slots.Get(x)} :: slots.Get(x) == if ok && x == id then addr else old(slots.Get(x))
    {
      var current := slots.Load(id);
      ok := current == expected;
      if ok {
        slots.Store(id, addr);
      }
      forall i: nat
        ensures ThreadedAt(slots, list, i)
      {
        assert old(ThreadedAt(slots, list, i));
        if i < |list| {
          assert list[i] in list;
        }
      }
    }
  }

  lemma PopThreaded(list: seq<nat>)
    requires Distinct(list) && list != []
    ensures Distinct(list[1..]) && forall id :: id in list[1..] <==> id in list && id != list[0]
    ensures forall i: nat {:trigger list[1..][i + 1..]} :: i < |list| - 1 ==> list[1..][i + 1..] == list[i + 2..]
  {
    forall i: nat, j: nat
      ensures Differ(list[1..], i, j)
    {
      assert Differ(list, i + 1, j + 1);
    }
    forall id
      ensures id in list[1..] <==> id in list && id != list[0]
    {
      if id in list[1..] {
        var k :| 0 <= k < |list[1..]| && list[1..][k] == id;
        assert Differ(list, 0, k + 1);
      }
    }
  }

  lemma PushThreaded(list: seq<nat>, id: nat)
    requires Distinct(list) && id !in list
    ensures Distinct([id] + list)
    ensures forall i: nat {:trigger ([id] + list)[i + 1..]} :: i <= |list| ==> ([id] + list)[i + 1..] == list[i..]
  {
    forall i: nat, j: nat
      ensures Differ([id] + list, i, j)
    {
      if 0 < i < j {
        assert Differ(list, i - 1, j - 1);
      }
    }
  }

  // ----- Building a table from recovered mappings

  ghost predicate Ascending(list: seq<nat>) {
    forall i, j :: 0 <= i < j < |list| ==> list[i] < list[j]
  }

  /** The ids from `from` to `to` whose entries are zero, in ascending order. */
  ghost function Unused(entry: nat -> nat, from: nat, to: nat): seq<nat>
    decreases if from < to then to - from else 0
  {
    if from >= to then []
    else if entry(from) == 0 then [from] + Unused(entry, from + 1, to)
    else Unused(entry, from + 1, to)
  }

  lemma {:induction false} UnusedHas(entry: nat -> nat, from: nat, to: nat, id: nat)
    ensures id in Unused(entry, from, to) <==> from <= id < to && entry(id) == 0
    decreases if from < to then to - from else 0
  {
    if from < to {
      UnusedHas(entry, from + 1, to, id);
    }
  }

  lemma {:induction false} UnusedOrdered(entry: nat -> nat, from: nat, to: nat, i: nat, j: nat)
    requires i < j < |Unused(entry, from, to)|
    ensures Unused(entry, from, to)[i] < Unused(entry, from, to)[j]
    decreases if from < to then to - from else 0
  {
    if entry(from) != 0 {
      UnusedOrdered(entry, from + 1, to, i, j);
    } else if i > 0 {
      UnusedOrdered(entry, from + 1, to, i - 1, j - 1);
    } else {
      var rest := Unused(entry, from + 1, to);
      assert rest[j - 1] in rest;
      UnusedHas(entry, from + 1, to, rest[j - 1]);
    }
  }

  class Builder {
    const slots: Slots
    var maxId: nat

    ghost predicate Valid()
      reads this, slots
    {
      maxId <= MAX_ID && forall id {:trigger slots.Get(id)} :: id > maxId ==> slots.Get(id) == 0
    }

    constructor ()
      ensures Valid() && maxId == 0 && fresh(slots) && forall id :: slots.Get(id) == 0
    {
      slots := new Slots();
      maxId := 0;
    }

    method Set(id: nat, addr: nat)
      requires Valid() && id <= MAX_ID
      modifies this, slots
      ensures Valid() && maxId == (if id > old(maxId) then id else old(maxId))
      ensures forall x {:trigger slots.Get(x)} :: slots.Get(x) == if x == id then addr else old(slots.Get(x))
    {
      slots.Store(id, addr);
      if id > maxId {
        maxId := id;
      }
    }

    /** Scans backward and threads every unused id in front of the larger ones. */
    method ThreadUnused(ghost entry: nat -> nat) returns (free: nat, ghost list: seq<nat>)
      requires Valid() && forall x: nat {:trigger slots.Get(x)} :: slots.Get(x) == entry(x)
      modifies slots
      ensures list == Unused(entry, MIN_ID, maxId + 1) && Distinct(list) && free == HeadOf(list) &&
              Threaded(slots, list)
      ensures forall x: nat {:trigger slots.Get(x)} :: entry(x) != 0 ==> slots.Get(x) == entry(x)
    {
      free := NAN_ID;
      list := [];
      for id := maxId + 1 downto MIN_ID
        invariant list == Unused(entry, id, maxId + 1) && Distinct(list) && free == HeadOf(list) &&
                  Threaded(slots, list)
        invariant forall x: nat {:trigger slots.Get(x)} :: x < id || entry(x) != 0 ==> slots.Get(x) == entry(x)
      {
        var v := slots.Load(id);
        if v == 0 {
          UnusedHas(entry, id + 1, maxId + 1, id);
          PushThreaded(list, id);
          LinkFirst(slots, id, free, list);
          free := id;
          list := [id] + list;
        }
      }
    }

    /** Keeps every mapping and offers the unused ids smallest first. */
    method Build() returns (table: Table)
      requires Valid()
      modifies slots
      ensures table.Valid() && table.slots == slots && table.next == maxId + 1
      ensures forall id {:trigger slots.Get(id)} :: old(slots.Get(id)) != 0 ==> slots.Get(id) == old(slots.Get(id))
      ensures forall id {:trigger id in table.list} :: id in table.list <==>
              MIN_ID <= id <= maxId && old(slots.Get(id)) == 0
      ensures Ascending(table.list)
    {
      ghost var entry := Snapshot(slots);
      ghost var held, list;
      var free;
      free, list := ThreadUnused(entry);
      held := UnusedFacts(entry, maxId + 1);
      table := new Table.FromSlots(slots, free, maxId + 1, list, held);
    }
  }

  lemma UnusedFacts(entry: nat -> nat, to: nat) returns (held: set<nat>)
    ensures Ascending(Unused(entry, MIN_ID, to))
    ensures forall id {:trigger id in Unused(entry, MIN_ID, to)} :: id in Unused(entry, MIN_ID, to) <==>
            MIN_ID <= id < to && entry(id) == 0
    ensures forall id :: MIN_ID <= id < to && id !in Unused(entry, MIN_ID, to) <==> id in held
  {
    var list := Unused(entry, MIN_ID, to);
    forall i, j | 0 <= i < j < |list|
      ensures list[i] < list[j]
    {
      UnusedOrdered(entry, MIN_ID, to, i, j);
    }
    forall id: nat
      ensures id in list <==> MIN_ID <= id < to && entry(id) == 0
    {
      UnusedHas(entry, MIN_ID, to, id);
    }
    held := set id | MIN_ID <= id < to && id !in list;
  }

  ghost function Snapshot(slots: Slots): nat -> nat
    reads slots
  {
    var l0, l1, l2 := slots.l0, slots.l1, slots.l2;
    (id: nat) =>
      match PathOf(id)
      case Level0(i) => if i in l0 then l0[i] else 0
      case Level1(i, j) => if i in l1 && j in l1[i] then l1[i][j] else 0
      case Level2(i, j, k) => if i in l2 && j in l2[i] && k in l2[i][j] then l2[i][j][k] else 0
  }
}
