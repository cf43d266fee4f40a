/** Every interleaving of allocations, seals and releases, and the iterator over what they leave. */
module WriteBufferTheorems {
  import opened Options
  import opened WriteBuffer

  // ----- Tiling

  lemma {:induction false} TotalMonotone(slots: seq<Slot>, i: nat, j: nat)
    requires i <= j <= |slots|
    ensures Total(slots[..i]) <= Total(slots[..j])
  {
    if i < j {
      TotalMonotone(slots, i, j - 1);
      assert slots[..j][..j - 1] == slots[..j - 1];
    }
  }

  lemma TotalNext(slots: seq<Slot>, i: nat)
    requires i < |slots|
    ensures Total(slots[..i + 1]) == Total(slots[..i]) + RecordSize(slots[i].pageSize)
  {
    assert slots[..i + 1][..i] == slots[..i];
  }

  lemma TiledPush(slots: seq<Slot>, slot: Slot)
    requires Tiled(slots) && slot.pageSize <= U32 - 24 && slot.offset == Total(slots)
    ensures Tiled(slots + [slot]) && Total(slots + [slot]) == Total(slots) + RecordSize(slot.pageSize)
  {
    var r := slots + [slot];
    assert r[..|slots|] == slots;
    forall i: nat
      ensures Placed(r, i)
    {
      if i < |slots| {
        assert Placed(slots, i);
        assert r[..i] == slots[..i];
      }
    }
  }

  // ----- Steps

  /** The threads other than `t` do not notice a step that leaves the slots and their guards. */
  lemma ThreadsStay(s: State, t: Tid, s': State)
    requires Inv(s) && t in s'.pc && s'.pc == s.pc[t := s'.pc[t]] && ThreadOk(s', t)
    requires Earlier(s.word, s'.word) && |s.slots| <= |s'.slots| && s'.slots[..|s.slots|] == s.slots
    requires forall u {:trigger u in s'.guards} :: u != t && u in s.guards ==> u in s'.guards
    ensures forall u {:trigger ThreadOk(s', u)} :: ThreadOk(s', u)
  {
    forall u
      ensures ThreadOk(s', u)
    {
      assert ThreadOk(s, u);
    }
  }

  /** A slot stays filled when nobody else's header is touched. */
  lemma SlotsStay(s: State, t: Tid, s': State)
    requires Inv(s) && t in s'.pc && s'.pc == s.pc[t := s'.pc[t]] && !At(s, t).MustWrite? && s'.mem == s.mem &&
             s'.slots == s.slots
    ensures forall i: nat {:trigger SlotOk(s', i)} :: SlotOk(s', i)
  {
    forall i: nat
      ensures SlotOk(s', i)
    {
      assert SlotOk(s, i);
      if i < |s.slots| && !(s.slots[i].offset in s.mem && s.mem[s.slots[i].offset].pageSize == s.slots[i].pageSize) {
        var u :| At(s, u) == MustWrite(s.slots[i]);
        assert At(s', u) == MustWrite(s'.slots[i]);
      }
    }
  }

  lemma BeginKeeps(s: State, t: Tid, op: Op, s': State)
    requires Inv(s) && Begin(s, t, op, s')
    ensures Inv(s')
  {
    ThreadsStay(s, t, s');
    SlotsStay(s, t, s');
  }

  lemma SealKeeps(s: State, t: Tid, s': State)
    requires Inv(s) && SealCas(s, t, s')
    ensures Inv(s')
  {
    assert ThreadOk(s, t);
    ApplyLoad(s.word);
    LoadApply(Load(s.word).(sealed := true));
    ThreadsStay(s, t, s');
    SlotsStay(s, t, s');
  }

  lemma ReleaseKeeps(s: State, t: Tid, s': State)
    requires Inv(s) && ReleaseCas(s, t, s')
    ensures Inv(s')
  {
    assert ThreadOk(s, t);
    ApplyLoad(s.word);
    if s.word == At(s, t).current {
      LoadApply(Load(s.word).(writers := Load(s.word).writers - 1));
    }
    ThreadsStay(s, t, s');
    SlotsStay(s, t, s');
  }

  lemma AllocResult(s: State, t: Tid)
    requires Inv(s) && At(s, t).Loaded? && At(s, t).op.AllocOp? && Wanted(s, t, s.word).writers < U31
    ensures var x := At(s, t).op.pageSize;
            var r := AllocSize(Wanted(s, t, s.word), RecordSize(x), s.capacity);
            r.Ok? ==>
              && r.offset == Total(s.slots)
              && r.state == Wanted(s, t, s.word).(taken := Total(s.slots) + RecordSize(x))
              && r.state.taken <= s.capacity && r.state.taken % ALIGN == 0
              && Representable(r.state)
  {
    assert ThreadOk(s, t);
    var x := At(s, t).op.pageSize;
    RecordHoldsPage(x);
    AllocExact(Wanted(s, t, s.word), RecordSize(x), s.capacity);
  }

  lemma AllocExact(b: BufferState, need: nat, capacity: nat)
    requires b.taken <= capacity < U31 && b.taken % ALIGN == 0 && capacity % ALIGN == 0 && need < U32 &&
             need % ALIGN == 0
    ensures var r := AllocSize(b, need, capacity);
            r.Ok? ==>
              && r.offset == b.taken && r.state == b.(taken := b.taken + need)
              && r.state.taken <= capacity && r.state.taken % ALIGN == 0
  {
    NextMultipleExact(need);
    SafeCapacities(capacity);
    assert InBounds(b, need, capacity);
    SumAligned(b.taken, need);
  }

  lemma NextMultipleExact(n: nat)
    requires n < U32 && n % ALIGN == 0
    ensures NextMultiple(n) == n
  {
    assert n <= U32 - 8;
    assert (n + 7) / 8 == n / 8;
  }

  lemma AllocKeeps(s: State, t: Tid, s': State)
    requires Inv(s) && AllocCas(s, t, s')
    ensures Inv(s')
  {
    assert ThreadOk(s, t);
    var x, current := At(s, t).op.pageSize, At(s, t).current;
    var r := AllocSize(Wanted(s, t, current), RecordSize(x), s.capacity);
    if Load(current).sealed || !r.Ok? || s.word != current {
      ThreadsStay(s, t, s');
      SlotsStay(s, t, s');
    } else {
      AllocResult(s, t);
      AllocWord(s, t, s');
      TiledPush(s.slots, Slot(r.offset, x));
      ThreadsStay(s, t, s');
      AllocSlots(s, t, s', Slot(r.offset, x));
    }
  }

  lemma AllocWord(s: State, t: Tid, s': State)
    requires Inv(s) && AllocCas(s, t, s') && At(s, t).current == s.word && !Load(s.word).sealed
    requires AllocSize(Wanted(s, t, s.word), RecordSize(At(s, t).op.pageSize), s.capacity).Ok?
    ensures WordOk(s') && Earlier(s.word, s'.word)
  {
    assert ThreadOk(s, t);
    AllocResult(s, t);
    var x := At(s, t).op.pageSize;
    var r := AllocSize(Wanted(s, t, s.word), RecordSize(x), s.capacity);
    LoadApply(r.state);
    TiledPush(s.slots, Slot(r.offset, x));
    if t in s.guards {
      assert s.guards + {t} == s.guards;
    }
  }

  lemma AllocSlots(s: State, t: Tid, s': State, slot: Slot)
    requires Inv(s) && At(s, t).Loaded? && s'.pc == s.pc[t := MustWrite(slot)] && s'.mem == s.mem &&
             s'.slots == s.slots + [slot]
    ensures forall i: nat {:trigger SlotOk(s', i)} :: SlotOk(s', i)
  {
    forall i: nat
      ensures SlotOk(s', i)
    {
      assert SlotOk(s, i);
      if i < |s.slots| && !(s.slots[i].offset in s.mem && s.mem[s.slots[i].offset].pageSize == s.slots[i].pageSize) {
        var u :| At(s, u) == MustWrite(s.slots[i]);
        assert At(s', u) == MustWrite(s'.slots[i]);
      } else if i == |s.slots| {
        assert At(s', t) == MustWrite(s'.slots[i]);
      }
    }
  }

  /** Two records start at different places. */
  lemma OffsetsDiffer(slots: seq<Slot>, i: nat, j: nat)
    requires Tiled(slots) && i < |slots| && j < |slots| && slots[i].offset == slots[j].offset
    ensures slots[i] == slots[j]
  {
    var a, b := if i <= j then i else j, if i <= j then j else i;
    assert Placed(slots, a) && Placed(slots, b);
    if a < b {
      RecordHoldsPage(slots[a].pageSize);
      TotalNext(slots, a);
      TotalMonotone(slots, a + 1, b);
      assert false;
    }
  }

  lemma WriteHeaderKeeps(s: State, t: Tid, h: Header, s': State)
    requires Inv(s) && WriteHeader(s, t, h, s')
    ensures Inv(s')
  {
    assert ThreadOk(s, t);
    ThreadsStay(s, t, s');
    var slot := At(s, t).slot;
    var k :| 0 <= k < |s.slots| && s.slots[k] == slot;
    forall i: nat
      ensures SlotOk(s', i)
    {
      assert SlotOk(s, i);
      if i < |s.slots| {
        if s.slots[i].offset == slot.offset {
          OffsetsDiffer(s.slots, i, k);
        } else if !(s.slots[i].offset in s.mem && s.mem[s.slots[i].offset].pageSize == s.slots[i].pageSize) {
          var u :| At(s, u) == MustWrite(s.slots[i]);
          assert At(s', u) == MustWrite(s'.slots[i]);
        }
      }
    }
  }

  lemma RemarkKeeps(s: State, t: Tid, offset: nat, h: Header, s': State)
    requires Inv(s) && Remark(s, t, offset, h, s')
    ensures Inv(s')
  {
    forall i: nat
      ensures SlotOk(s', i)
    {
      assert SlotOk(s, i);
      if i < |s.slots| && !(s.slots[i].offset in s.mem && s.mem[s.slots[i].offset].pageSize == s.slots[i].pageSize) {
        var u :| At(s, u) == MustWrite(s.slots[i]);
        assert At(s', u) == MustWrite(s'.slots[i]);
      }
    }
    forall u
      ensures ThreadOk(s', u)
    {
      assert ThreadOk(s, u);
    }
  }

  lemma StepKeeps(s: State, t: Tid, s': State)
    requires Inv(s) && StepOf(s, t, s')
    ensures Inv(s')
  {
    if op :| Begin(s, t, op, s') {
      BeginKeeps(s, t, op, s');
    } else if AllocCas(s, t, s') {
      AllocKeeps(s, t, s');
    } else if h :| WriteHeader(s, t, h, s') {
      WriteHeaderKeeps(s, t, h, s');
    } else if offset, h :| Remark(s, t, offset, h, s') {
      RemarkKeeps(s, t, offset, h, s');
    } else if SealCas(s, t, s') {
      SealKeeps(s, t, s');
    } else {
      ReleaseKeeps(s, t, s');
    }
  }

  // ----- Runs

  ghost predicate Run(run: seq<State>) {
    && |run| > 0 && InitState(run[0])
    && forall i {:trigger run[i]} :: 0 <= i < |run| - 1 ==> Step(run[i], run[i + 1])
  }

  lemma {:induction false} EveryState(run: seq<State>, i: nat)
    requires Run(run) && i < |run|
    ensures Inv(run[i])
  {
    if i > 0 {
      EveryState(run, i - 1);
      assert Step(run[i - 1], run[i - 1 + 1]);
      var t :| StepOf(run[i - 1], t, run[i]);
      StepKeeps(run[i - 1], t, run[i]);
    }
  }

  /** Every record is aligned and lies inside the buffer with room for its page. */
  lemma RecordInBounds(run: seq<State>, n: nat, i: nat)
    requires Run(run) && n < |run| && i < |run[n].slots|
    ensures var slot := run[n].slots[i];
            && slot.offset % ALIGN == 0
            && HEADER + slot.pageSize <= RecordSize(slot.pageSize)
            && slot.offset + RecordSize(slot.pageSize) <= run[n].capacity
  {
    EveryState(run, n);
    var slots := run[n].slots;
    assert Placed(slots, i);
    OffsetsAligned(slots, i);
    RecordHoldsPage(slots[i].pageSize);
    TotalNext(slots, i);
    TotalMonotone(slots, i + 1, |slots|);
    assert slots[..|slots|] == slots;
  }

  /** Records do not overlap: each ends before the next one starts. */
  lemma RecordsAreDisjoint(run: seq<State>, n: nat, i: nat, j: nat)
    requires Run(run) && n < |run| && i < j < |run[n].slots|
    ensures var a, b := run[n].slots[i], run[n].slots[j];
            && a.offset + HEADER + a.pageSize <= a.offset + RecordSize(a.pageSize) <= b.offset
            && b.offset + HEADER + b.pageSize <= run[n].capacity
  {
    EveryState(run, n);
    RecordInBounds(run, n, j);
    var slots := run[n].slots;
    assert Placed(slots, i) && Placed(slots, j);
    RecordHoldsPage(slots[i].pageSize);
    TotalNext(slots, i);
    TotalMonotone(slots, i + 1, j);
  }

  lemma SumAligned(a: nat, b: nat)
    requires a % ALIGN == 0 && b % ALIGN == 0
    ensures (a + b) % ALIGN == 0
  {
  }

  lemma {:induction false} OffsetsAligned(slots: seq<Slot>, i: nat)
    requires Tiled(slots) && i <= |slots|
    ensures Total(slots[..i]) % ALIGN == 0
  {
    if i > 0 {
      assert Placed(slots, i - 1);
      OffsetsAligned(slots, i - 1);
      TotalNext(slots, i - 1);
      RecordHoldsPage(slots[i - 1].pageSize);
      SumAligned(Total(slots[..i - 1]), RecordSize(slots[i - 1].pageSize));
    }
  }

  /** The header of a record passes the bounds assertion unless the record is empty and the last
      thing that fits. */
  lemma HeaderAssertion(run: seq<State>, n: nat, i: nat)
    requires Run(run) && n < |run| && i < |run[n].slots|
    ensures var slot := run[n].slots[i];
            HeaderFits(run[n], slot) <==> !(slot.pageSize == 0 && slot.offset + HEADER == run[n].capacity)
  {
    RecordInBounds(run, n, i);
  }

  /** The excluded case is reached: an empty page that ends at the capacity of the buffer is allocated, and
      its header fails the assertion. */
  lemma HeaderAssertionFails() returns (run: seq<State>)
    ensures Run(run) && |run| == 3 && run[0].capacity == HEADER && run[2].slots == [Slot(0, 0)]
    ensures At(run[2], 0) == MustWrite(Slot(0, 0)) && !HeaderFits(run[2], Slot(0, 0))
  {
    var s := State(HEADER, 0, map[], {}, map[], [], 0);
    var op := AllocOp(0);
    var s1 := Go(s, 0, Loaded(op, 0));
    var want := BufferState(false, 1, 0);
    assert Load(0) == BufferState(false, 0, 0) && Wanted(s1, 0, 0) == want;
    assert NextMultiple(0) == 0 && RecordSize(0) == HEADER && NextMultiple(HEADER) == HEADER;
    var r := AllocSize(want, RecordSize(0), HEADER);
    assert r == Ok(0, BufferState(false, 1, HEADER));
    var s2 := Go(s1, 0, MustWrite(Slot(0, 0))).(word := Apply(r.state), guards := {0}, slots := [Slot(0, 0)]);
    run := [s, s1, s2];
    assert Begin(s, 0, op, s1) && StepOf(s, 0, s1);
    assert AllocCas(s1, 0, s2) && StepOf(s1, 0, s2);
  }

  /** Nothing is allocated and no guard is acquired once the buffer is sealed, and it stays sealed. */
  lemma SealedIsFinal(s: State, t: Tid, s': State)
    requires Inv(s) && StepOf(s, t, s') && Load(s.word).sealed
    ensures Load(s'.word).sealed && s'.slots == s.slots && s'.guards <= s.guards
  {
    StepKeeps(s, t, s');
    assert ThreadOk(s, t);
    if AllocCas(s, t, s') && s.word == At(s, t).current {
      assert s' == Go(s, t, Idle);
    }
    if ReleaseCas(s, t, s') && s.word == At(s, t).current {
      ApplyLoad(s.word);
      LoadApply(Load(s.word).(writers := Load(s.word).writers - 1));
    }
  }

  /** The flush job is told exactly once, when the buffer is sealed and its last writer is gone. */
  lemma FlushedExactlyOnce(run: seq<State>, n: nat)
    requires Run(run) && n < |run|
    ensures var b := Load(run[n].word);
            run[n].flushes == if b.sealed && run[n].guards == {} then 1 else 0
  {
    EveryState(run, n);
    if Load(run[n].word).writers == 0 {
      assert run[n].guards == {};
    }
  }

  /** A writer that found no room or a sealed buffer was right, and still is. */
  lemma RefusalStands(run: seq<State>, n: nat, t: Tid)
    requires Run(run) && n < |run| && At(run[n], t).Loaded? && At(run[n], t).op.AllocOp?
    ensures var current, word, need := Load(At(run[n], t).current), Load(run[n].word),
            RecordSize(At(run[n], t).op.pageSize);
            && (current.sealed ==> word.sealed)
            && (AllocSize(current, need, run[n].capacity).Again? ==> AllocSize(word, need, run[n].capacity).Again?)
            && (AllocSize(current, need, run[n].capacity).TooLarge? ==> need > run[n].capacity)
  {
    EveryState(run, n);
    var s := run[n];
    assert ThreadOk(s, t);
    RecordHoldsPage(At(s, t).op.pageSize);
    RoomShrinks(Load(At(s, t).current), Load(s.word), RecordSize(At(s, t).op.pageSize), s.capacity);
  }

  lemma RoomShrinks(a: BufferState, b: BufferState, need: nat, capacity: nat)
    requires a.taken <= b.taken <= capacity < U31 && need < U32 && need % ALIGN == 0
    ensures AllocSize(a, need, capacity).Again? ==> AllocSize(b, need, capacity).Again?
    ensures AllocSize(a, need, capacity).TooLarge? ==> need > capacity
  {
    NextMultipleExact(need);
  }

  // ----- The iterator

  type Item = (nat, Header)

  ghost predicate Readable(mem: map<nat, Header>, slots: seq<Slot>) {
    && Tiled(slots)
    && forall i {:trigger slots[i]} ::
         0 <= i < |slots| ==> slots[i].offset in mem && mem[slots[i].offset].pageSize == slots[i].pageSize
  }

  /** Every record of a flushable buffer is initialized: its writer is gone. */
  lemma FlushableIsReadable(run: seq<State>, n: nat)
    requires Run(run) && n < |run| && Flushable(Load(run[n].word))
    ensures Readable(run[n].mem, run[n].slots) && Load(run[n].word).taken == Total(run[n].slots)
  {
    EveryState(run, n);
    var s := run[n];
    forall i | 0 <= i < |s.slots|
      ensures s.slots[i].offset in s.mem && s.mem[s.slots[i].offset].pageSize == s.slots[i].pageSize
    {
      assert SlotOk(s, i);
      forall t
        ensures At(s, t) != MustWrite(s.slots[i])
      {
        assert ThreadOk(s, t);
      }
    }
  }

  /** The records from `i` to `j` were turned into tombstones. */
  ghost predicate Tombstones(mem: map<nat, Header>, slots: seq<Slot>, i: nat, j: nat) {
    forall k {:trigger slots[k]} :: i <= k < j && k < |slots| ==>
      slots[k].offset in mem && mem[slots[k].offset].flag == Tombstone
  }

  /** `RecordIterator` over a flushable buffer. */
  class RecordIterator {
    const group: nat
    const mem: map<nat, Header>
    const end: nat
    var offset: nat
    ghost const slots: seq<Slot>
    ghost var passed: nat

    ghost predicate Valid()
      reads this
    {
      && Readable(mem, slots) && end == Total(slots) && passed <= |slots| && offset == Total(slots[..passed])
    }

    constructor (group: nat, mem: map<nat, Header>, end: nat, ghost slots: seq<Slot>)
      requires Readable(mem, slots) && end == Total(slots)
      ensures Valid() && passed == 0
      ensures this.group == group && this.mem == mem && this.slots == slots
    {
      this.group, this.mem, this.end, this.slots := group, mem, end, slots;
      offset, passed := 0, 0;
      new;
      assert slots[..0] == [];
    }

    /** Passes tombstones and stops behind the next page or dealloc record, which it returns at the address
        of its page. */
    method Next() returns (r: Option<Item>)
      requires Valid()
      modifies this
      ensures Valid() && passed >= old(passed)
      ensures r == None ==> passed == |slots| && Tombstones(mem, slots, old(passed), |slots|)
      ensures r != None ==>
                && passed > old(passed) && Tombstones(mem, slots, old(passed), passed - 1)
                && var slot := slots[passed - 1];
                && slot.offset in mem && r.value == (group * 0x1_0000_0000 + slot.offset + 16, mem[slot.offset])
                && (r.value.1.flag == NormalPage || r.value.1.flag == DeletedPages)
    {
      while offset < end
        invariant Valid() && old(passed) <= passed && Tombstones(mem, slots, old(passed), passed)
        decreases |slots| - passed
      {
        Advance(mem, slots, passed);
        var start := offset;
        var h := mem[start];
        offset := offset + RecordSize(h.pageSize);
        passed := passed + 1;
        if h.flag != Tombstone {
          return Some((group * U32 + start + HEADER, h));
        }
      }
      AtEnd(mem, slots, passed);
      return None;
    }
  }

  lemma Advance(mem: map<nat, Header>, slots: seq<Slot>, k: nat)
    requires Readable(mem, slots) && k <= |slots| && Total(slots[..k]) < Total(slots)
    ensures k < |slots| && slots[k].offset == Total(slots[..k]) && slots[k].offset in mem
    ensures Total(slots[..k + 1]) == Total(slots[..k]) + RecordSize(mem[slots[k].offset].pageSize)
  {
    assert slots[..|slots|] == slots;
    assert Placed(slots, k);
    TotalNext(slots, k);
  }

  lemma AtEnd(mem: map<nat, Header>, slots: seq<Slot>, k: nat)
    requires Readable(mem, slots) && k <= |slots|
    ensures k < |slots| ==> Total(slots[..k]) < Total(slots)
  {
    if k < |slots| {
      assert Placed(slots, k);
      RecordHoldsPage(slots[k].pageSize);
      TotalNext(slots, k);
      TotalMonotone(slots, k + 1, |slots|);
      assert slots[..|slots|] == slots;
    }
  }

  lemma OffsetsAscend(mem: map<nat, Header>, slots: seq<Slot>, i: nat, j: nat)
    requires Readable(mem, slots) && i < j < |slots|
    ensures slots[i].offset < slots[j].offset
  {
    assert Placed(slots, i) && Placed(slots, j);
    RecordHoldsPage(slots[i].pageSize);
    TotalNext(slots, i);
    TotalMonotone(slots, i + 1, j);
  }

  /** The slots of the records that are not tombstones. */
  ghost function Kept(mem: map<nat, Header>, slots: seq<Slot>, n: nat): set<nat>
    requires n <= |slots|
  {
    set i | 0 <= i < n && slots[i].offset in mem && mem[slots[i].offset].flag != Tombstone
  }

  lemma KeptNext(mem: map<nat, Header>, slots: seq<Slot>, n: nat, m: nat)
    requires n < m <= |slots| && Tombstones(mem, slots, n, m - 1) && slots[m - 1].offset in mem
    requires mem[slots[m - 1].offset].flag != Tombstone
    ensures Kept(mem, slots, m) == Kept(mem, slots, n) + {m - 1} && |Kept(mem, slots, m)| == |Kept(mem, slots, n)| + 1
  {
    assert m - 1 !in Kept(mem, slots, n);
    forall i
      ensures i in Kept(mem, slots, m) <==> i in Kept(mem, slots, n) + {m - 1}
    {
    }
  }

  lemma KeptEnd(mem: map<nat, Header>, slots: seq<Slot>, n: nat)
    requires n <= |slots| && Tombstones(mem, slots, n, |slots|)
    ensures Kept(mem, slots, |slots|) == Kept(mem, slots, n)
  {
  }

  /** The item is record `i`, at the address of its page, and the record is a page or a dealloc record. */
  ghost predicate IsRecord(group: nat, mem: map<nat, Header>, slots: seq<Slot>, i: nat, item: Item) {
    && i < |slots| && slots[i].offset in mem && item.1 == mem[slots[i].offset]
    && (item.1.flag == NormalPage || item.1.flag == DeletedPages)
    && item.0 == group * 0x1_0000_0000 + slots[i].offset + 16
  }

  /** The items are the records of `picked`, and these are all records before `n` that are not tombstones. */
  ghost predicate Collected(group: nat, mem: map<nat, Header>, slots: seq<Slot>, items: seq<Item>, picked: seq<nat>,
                            n: nat) {
    && |picked| == |items| && n <= |slots|
    && (forall k {:trigger picked[k]} :: 0 <= k < |items| ==>
       picked[k] < n && IsRecord(group, mem, slots, picked[k], items[k]))
    && (forall k, l :: 0 <= k < l < |items| ==> picked[k] < picked[l])
    && (forall i {:trigger i in picked} :: i in Kept(mem, slots, n) ==> i in picked)
    && |items| == |Kept(mem, slots, n)|
  }

  lemma CollectedNext(group: nat, mem: map<nat, Header>, slots: seq<Slot>, items: seq<Item>, picked: seq<nat>, n: nat,
                      m: nat, item: Item)
    requires Collected(group, mem, slots, items, picked, n) && n < m <= |slots| && Tombstones(mem, slots, n, m - 1)
    requires IsRecord(group, mem, slots, m - 1, item)
    ensures Collected(group, mem, slots, items + [item], picked + [m - 1], m)
  {
    KeptNext(mem, slots, n, m);
    var picked' := picked + [m - 1];
    forall i | i in Kept(mem, slots, m)
      ensures i in picked'
    {
      if i == m - 1 {
        assert picked'[|picked|] == i;
      } else {
        assert i in picked;
      }
    }
  }

  lemma CollectedEnd(group: nat, mem: map<nat, Header>, slots: seq<Slot>, items: seq<Item>, picked: seq<nat>, n: nat)
    requires Collected(group, mem, slots, items, picked, n) && Tombstones(mem, slots, n, |slots|)
    ensures Collected(group, mem, slots, items, picked, |slots|)
  {
    KeptEnd(mem, slots, n);
  }

  lemma CollectedMeans(group: nat, mem: map<nat, Header>, slots: seq<Slot>, items: seq<Item>, picked: seq<nat>)
    requires Readable(mem, slots) && Collected(group, mem, slots, items, picked, |slots|)
    ensures forall x: nat, h: Header ::
              (x, h) in items <==>
                exists i :: 0 <= i < |slots| && slots[i].offset in mem && mem[slots[i].offset] == h &&
                  (h.flag == NormalPage || h.flag == DeletedPages) && x == group * 0x1_0000_0000 + slots[i].offset + 16
    ensures forall k, l :: 0 <= k < l < |items| ==> items[k].0 < items[l].0
  {
    forall x: nat, h: Header
      ensures (x, h) in items <==>
              exists i :: 0 <= i < |slots| && slots[i].offset in mem && mem[slots[i].offset] == h &&
                (h.flag == NormalPage || h.flag == DeletedPages) && x == group * 0x1_0000_0000 + slots[i].offset + 16
    {
      if i :| 0 <= i < |slots| && slots[i].offset in mem && mem[slots[i].offset] == h &&
              (h.flag == NormalPage || h.flag == DeletedPages) && x == group * 0x1_0000_0000 + slots[i].offset + 16 {
        assert IsRecord(group, mem, slots, i, (x, h));
        assert i in Kept(mem, slots, |slots|) && i in picked;
        var k :| 0 <= k < |picked| && picked[k] == i;
        assert items[k] == (x, h);
      }
      if k :| 0 <= k < |items| && items[k] == (x, h) {
        assert IsRecord(group, mem, slots, picked[k], (x, h));
      }
    }
    forall k, l | 0 <= k < l < |items|
      ensures items[k].0 < items[l].0
    {
      OffsetsAscend(mem, slots, picked[k], picked[l]);
    }
  }

  /** What the flush job reads: exactly the pages and dealloc records of the buffer, each once, by ascending
      address. */
  method CollectRecords(group: nat, mem: map<nat, Header>, end: nat, ghost slots: seq<Slot>) returns (items: seq<Item>)
    requires Readable(mem, slots) && end == Total(slots)
    ensures forall x: nat, h: Header ::
              (x, h) in items <==>
                exists i :: 0 <= i < |slots| && slots[i].offset in mem && mem[slots[i].offset] == h &&
                  (h.flag == NormalPage || h.flag == DeletedPages) && x == group * 0x1_0000_0000 + slots[i].offset + 16
    ensures forall k, l :: 0 <= k < l < |items| ==> items[k].0 < items[l].0
    ensures |items| == |set i | 0 <= i < |slots| && slots[i].offset in mem && mem[slots[i].offset].flag != Tombstone|
  {
    var iter := new RecordIterator(group, mem, end, slots);
    items := [];
    ghost var picked: seq<nat> := [];
    var more := true;
    while more
      invariant iter.Valid() && iter.group == group && iter.mem == mem && iter.slots == slots && fresh(iter)
      invariant Collected(group, mem, slots, items, picked, if more then iter.passed else |slots|)
      decreases |slots| - iter.passed, more
    {
      ghost var n := iter.passed;
      var item := iter.Next();
      if item == None {
        more := false;
        CollectedEnd(group, mem, slots, items, picked, n);
      } else {
        CollectedNext(group, mem, slots, items, picked, n, iter.passed, item.value);
        items, picked := items + [item.value], picked + [iter.passed - 1];
      }
    }
    CollectedMeans(group, mem, slots, items, picked);
    assert |items| == |Kept(mem, slots, |slots|)|;
  }
}
