/**
 The shared write buffer (photondb/src/page_store/write_buffer.rs): a packed state word changed by
 compare-exchange loops, records laid out behind one another, and the iterator over a flushable
 buffer.  Arithmetic on `u32` is written out with its wrap-around.
 */
module WriteBuffer {

  const U31: nat := 0x8000_0000
  const U32: nat := 0x1_0000_0000
  const U63: nat := 0x8000_0000_0000_0000
  const U64: nat := 0x1_0000_0000_0000_0000
  const ALIGN: nat := 8
  const HEADER: nat := 16

  // ----- The state word

  datatype BufferState = BufferState(sealed: bool, writers: nat, taken: nat)

  ghost predicate Representable(b: BufferState) {
    b.writers < U31 && b.taken < U32
  }

  function Apply(b: BufferState): nat {
    (if b.sealed then U63 else 0) + b.writers * U32 + b.taken
  }

  function Load(word: nat): BufferState {
    BufferState(word / U63 % 2 == 1, word / U32 % U31, word % U32)
  }

  /** The three fields do not disturb each other in the word. */
  lemma LoadApply(b: BufferState)
    requires Representable(b)
    ensures Apply(b) < U64 && Load(Apply(b)) == b
  {
    var high := (if b.sealed then U31 else 0) + b.writers;
    assert Apply(b) == high * U32 + b.taken;
    assert Apply(b) / U32 == high && Apply(b) % U32 == b.taken;
  }

  lemma ApplyLoad(word: nat)
    requires word < U64
    ensures Representable(Load(word)) && Apply(Load(word)) == word
  {
    var high, rest := word / U32, word % U32;
    assert word == high * U32 + rest && high < U32;
    assert word / U63 == high / U31;
    assert high == high / U31 * U31 + high % U31;
  }

  function Flushable(b: BufferState): bool {
    b.sealed && b.writers == 0
  }

  // ----- Sizes

  /** `next_multiple_of_u32` with the alignment. */
  function NextMultiple(x: nat): nat {
    (x + (ALIGN - 1)) % U32 / ALIGN * ALIGN
  }

  function RecordSize(x: nat): nat {
    (HEADER + NextMultiple(x)) % U32
  }

  /** A record has room for its page exactly while the size does not wrap around. */
  lemma RecordHoldsPage(x: nat)
    requires x < U32
    ensures RecordSize(x) >= HEADER + x <==> x <= U32 - 24
    ensures x <= U32 - 24 ==> RecordSize(x) % ALIGN == 0 && RecordSize(x) < HEADER + x + ALIGN
  {
    if x <= U32 - 24 {
      var y := x + 7;
      assert NextMultiple(x) == y / 8 * 8 && y / 8 * 8 <= U32 - 24 + 7;
      assert RecordSize(x) == HEADER + y / 8 * 8;
    } else if x + 7 < U32 {
      assert (x + 7) / 8 == (U32 - 16) / 8 || (x + 7) / 8 == (U32 - 8) / 8;
    } else {
      assert x + 7 - U32 < 7;
      assert (x + 7) % U32 == x + 7 - U32;
      assert NextMultiple(x) == 0;
    }
  }

  datatype Allocation = Ok(offset: nat, state: BufferState) | TooLarge | Again

  function AllocSize(b: BufferState, required: nat, capacity: nat): Allocation {
    var need := NextMultiple(required);
    if need > capacity then TooLarge
    else if (b.taken + need) % U32 > capacity then Again
    else Ok(b.taken, b.(taken := (b.taken + need) % U32))
  }

  /** What an allocation promises: the record ends inside the buffer. */
  ghost predicate InBounds(b: BufferState, required: nat, capacity: nat) {
    var r := AllocSize(b, required, capacity);
    r.Ok? ==> r.offset + NextMultiple(required) <= capacity && r.state.taken == r.offset + NextMultiple(required)
  }

  ghost predicate Safe(capacity: nat) {
    forall b: BufferState, required: nat {:trigger InBounds(b, required, capacity)} ::
      b.taken <= capacity && b.taken % ALIGN == 0 && required < U32 ==> InBounds(b, required, capacity)
  }

  /** Capacities are powers of two that fit 32 bits.  Of these exactly the largest is unsafe: there
      two allocations of half the address space each wrap around. */
  lemma SafeCapacities(capacity: nat)
    requires capacity <= U31 && capacity % ALIGN == 0
    ensures Safe(capacity) <==> capacity < U31
  {
    if capacity < U31 {
      forall b: BufferState, required: nat | b.taken <= capacity && required < U32
        ensures InBounds(b, required, capacity)
      {
      }
    } else {
      var b := BufferState(false, 0, U31);
      assert NextMultiple(U31) == U31;
      assert !InBounds(b, U31, U31);
    }
  }

  /** In an empty buffer of capacity 2^31, two requests for pages of 2^31 - 16 bytes are both granted: the
      second record starts at the end of the buffer, and the buffer is empty again. */
  lemma LargestCapacityOverlaps()
    ensures var empty, need := BufferState(false, 0, 0), RecordSize(U31 - 16);
            var first := AllocSize(empty, need, U31);
            && first == Ok(0, BufferState(false, 0, U31))
            && AllocSize(first.state, need, U31) == Ok(U31, empty)
            && !InBounds(first.state, need, U31)
  {
    RecordHoldsPage(U31 - 16);
    assert NextMultiple(U31 - 16) == U31 - 16 && RecordSize(U31 - 16) == U31;
    assert NextMultiple(U31) == U31;
  }

  // ----- The protocol

  type Tid = nat

  datatype Flag = NormalPage | DeletedPages | Tombstone

  datatype Header = Header(data: nat, flag: Flag, pageSize: nat)

  datatype Slot = Slot(offset: nat, pageSize: nat)

  datatype Op = AllocOp(pageSize: nat) | SealOp | ReleaseOp

  datatype Pc = Idle | Loaded(op: Op, current: nat) | MustWrite(slot: Slot)

  /** `guards` are the transactions that hold a writer guard, `mem` the initialized headers, `slots` the
      allocations in the order of their compare-exchanges, `flushes` the number of `Flush` results. */
  datatype State = State(capacity: nat, word: nat, mem: map<nat, Header>, guards: set<Tid>, pc: map<Tid, Pc>,
                         slots: seq<Slot>, flushes: nat)

  function At(s: State, t: Tid): Pc {
    if t in s.pc then s.pc[t] else Idle
  }

  function Go(s: State, t: Tid, pc: Pc): State {
    s.(pc := s.pc[t := pc])
  }

  ghost predicate Begin(s: State, t: Tid, op: Op, s': State) {
    && At(s, t) == Idle
    && (op == ReleaseOp ==> t in s.guards)
    && (op.AllocOp? ==> op.pageSize <= U32 - 24)
    && s' == Go(s, t, Loaded(op, s.word))
  }

  /** A transaction that holds no guard yet acquires one with its first record. */
  function Wanted(s: State, t: Tid, current: nat): BufferState {
    var b := Load(current);
    if t in s.guards then b else b.(writers := b.writers + 1)
  }

  ghost predicate AllocCas(s: State, t: Tid, s': State) {
    && At(s, t).Loaded? && At(s, t).op.AllocOp?
    && var x, current := At(s, t).op.pageSize, At(s, t).current;
    && var want := Wanted(s, t, current);
    && want.writers < U31
    && var r := AllocSize(want, RecordSize(x), s.capacity);
    && s' == if Load(current).sealed || !r.Ok? then Go(s, t, Idle)
             else if s.word != current then Go(s, t, Loaded(AllocOp(x), s.word))
             else Go(s, t, MustWrite(Slot(r.offset, x))).(word := Apply(r.state), guards := s.guards + {t},
               slots := s.slots + [Slot(r.offset, x)])
  }

  /** The assertion of `record_uninit_mut`. */
  ghost predicate HeaderFits(s: State, slot: Slot) {
    slot.offset % ALIGN == 0 && slot.offset + HEADER < s.capacity
  }

  ghost predicate WriteHeader(s: State, t: Tid, h: Header, s': State) {
    && At(s, t).MustWrite? && HeaderFits(s, At(s, t).slot)
    && h.pageSize == At(s, t).slot.pageSize && h.flag != Tombstone
    && s' == Go(s, t, Idle).(mem := s.mem[At(s, t).slot.offset := h])
  }

  /** A transaction turns one of its records into a tombstone or gives it a page id. */
  ghost predicate Remark(s: State, t: Tid, offset: nat, h: Header, s': State) {
    && At(s, t) == Idle && t in s.guards && offset in s.mem && h.pageSize == s.mem[offset].pageSize
    && s' == s.(mem := s.mem[offset := h])
  }

  ghost predicate SealCas(s: State, t: Tid, s': State) {
    && At(s, t).Loaded? && At(s, t).op == SealOp
    && var current := At(s, t).current;
    && var b := Load(current).(sealed := true);
    && s' == if Load(current).sealed then Go(s, t, Idle)
             else if s.word != current then Go(s, t, Loaded(SealOp, s.word))
             else Go(s, t, Idle).(word := Apply(b), flushes := s.flushes + if b.writers > 0 then 0 else 1)
  }

  ghost predicate ReleaseCas(s: State, t: Tid, s': State) {
    && At(s, t).Loaded? && At(s, t).op == ReleaseOp
    && var current := At(s, t).current;
    && Load(current).writers > 0
    && var b := Load(current).(writers := Load(current).writers - 1);
    && s' == if s.word != current then Go(s, t, Loaded(ReleaseOp, s.word))
             else Go(s, t, Idle).(word := Apply(b), guards := s.guards - {t}, flushes := s.flushes + if Flushable(b)
               then 1 else 0)
  }

  ghost predicate StepOf(s: State, t: Tid, s': State) {
    || (exists op :: Begin(s, t, op, s')) || AllocCas(s, t, s') || (exists h :: WriteHeader(s, t, h, s'))
    || (exists offset, h :: Remark(s, t, offset, h, s')) || SealCas(s, t, s') || ReleaseCas(s, t, s')
  }

  ghost predicate Step(s: State, s': State) {
    exists t :: StepOf(s, t, s')
  }

  ghost predicate InitState(s: State) {
    s == State(s.capacity, 0, map[], {}, map[], [], 0) && s.capacity < U31 && s.capacity % ALIGN == 0
  }

  // ----- The invariant

  function Total(slots: seq<Slot>): nat {
    if slots == [] then 0 else Total(slots[..|slots| - 1]) + RecordSize(slots[|slots| - 1].pageSize)
  }

  /** The records lie behind one another from the start of the buffer. */
  ghost predicate Placed(slots: seq<Slot>, i: nat) {
    i < |slots| ==> slots[i].pageSize <= U32 - 24 && slots[i].offset == Total(slots[..i])
  }

  ghost predicate Tiled(slots: seq<Slot>) {
    forall i: nat {:trigger Placed(slots, i)} :: Placed(slots, i)
  }

  /** A record is initialized, or the transaction that allocated it is about to write its header. */
  ghost predicate Filled(s: State, slot: Slot) {
    || (slot.offset in s.mem && s.mem[slot.offset].pageSize == slot.pageSize)
    || exists t :: At(s, t) == MustWrite(slot)
  }

  ghost predicate SlotOk(s: State, i: nat) {
    i < |s.slots| ==> Filled(s, s.slots[i])
  }

  /** A word read earlier is no further than the current one. */
  ghost predicate Earlier(current: nat, word: nat) {
    && current < U64
    && (Load(current).sealed ==> Load(word).sealed)
    && Load(current).taken <= Load(word).taken
  }

  ghost predicate ThreadOk(s: State, t: Tid) {
    match At(s, t)
    case Idle => true
    case Loaded(op, current) =>
      Earlier(current, s.word) && (op == ReleaseOp ==> t in s.guards) && (op.AllocOp? ==> op.pageSize <= U32 - 24)
    case MustWrite(slot) => t in s.guards && slot in s.slots
  }

  ghost predicate WordOk(s: State) {
    var b := Load(s.word);
    && s.word < U64 && s.capacity < U31 && s.capacity % ALIGN == 0
    && b.writers == |s.guards| && b.taken == Total(s.slots) && b.taken <= s.capacity && b.taken % ALIGN == 0
    && s.flushes == if Flushable(b) then 1 else 0
  }

  ghost predicate Inv(s: State) {
    && WordOk(s) && Tiled(s.slots)
    && (forall i: nat {:trigger SlotOk(s, i)} :: SlotOk(s, i))
    && (forall t {:trigger ThreadOk(s, t)} :: ThreadOk(s, t))
  }
}
