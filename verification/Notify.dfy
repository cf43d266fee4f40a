/**
 The wake-up primitive (photondb/src/util/notify.rs) as a state machine.

 Every load, compare-exchange and store of the state word is a step of its own, and so is every
 piece of a locked section between two of them; steps of different threads interleave freely.  A
 `Notified` future is a number, and its polls and its drop are the steps of thread `Future(id)`.
 */
module Notify {
  import opened Options
  import opened Sequences

  datatype Mode = Empty | Waiting | Notified

  /** The state word: two bits of mode and the number of `notify_waiters` calls above them. */
  datatype Word = Word(mode: Mode, calls: nat)

  datatype Kind = OneWaiter | AllWaiters

  datatype Fut = Init | Listed | Done | Dropped

  datatype Tid = Caller(n: nat) | Future(id: nat)

  datatype Pc =
    | Idle
    // notify_one
    | OneLoaded(curr: Word)
    | OneLocked
    // notify_locked, for notify_one and for drop
    | Locked(curr: Word)
    | Forced(actual: Word)
    | Popped(curr: Word)
    // notify_waiters
    | AllLocked
    | AllCount
    | AllTurn(curr: Word)
    | AllPopped(curr: Word)
    // poll_notified of a future in state Init
    | PollLoaded(curr: Word)
    | PollWant
    | PollLocked
    | PollTurn(curr: Word)
    | PollEnter
    // drop of a listed future
    | DropLocked
    | DropRemoved(curr: Word, one: bool)
    | DropPass(curr: Word, one: bool)

  /** `list` is the waiter list from its front, `told` the waiters' `notified` fields, `born` the
      count of `notify_waiters` calls each future was created at.  The last three fields count
      the `notify_one` calls that took effect, the notifications futures received from them, and
      those merged into a permit that was already stored. */
  datatype State = State(
    word: Word, lock: Option<Tid>, list: seq<nat>, told: map<nat, Kind>, fut: map<nat, Fut>, born: map<nat, nat>,
    pc: map<Tid, Pc>, issued: nat, received: nat, merged: nat)

  function At(s: State, t: Tid): Pc {
    if t in s.pc then s.pc[t] else Idle
  }

  function Go(s: State, t: Tid, pc: Pc): State {
    s.(pc := s.pc[t := pc])
  }

  function Unlock(s: State, t: Tid): State {
    Go(s, t, Idle).(lock := None)
  }

  function Permit(w: Word): nat {
    if w.mode == Notified then 1 else 0
  }

  /** A permit is stored; a caller issues it, a dropped future passes its own on. */
  function Stored(s: State, t: Tid, w: Word): State {
    s.(word := w.(mode := Notified), issued := s.issued + Issue(t), merged := s.merged + Permit(s.word))
  }

  function Issue(t: Tid): nat {
    if t.Caller? then 1 else 0
  }

  // ----- Steps of notify_one

  ghost predicate StartOne(s: State, t: Tid, s': State) {
    t.Caller? && At(s, t) == Idle && s' == Go(s, t, OneLoaded(s.word))
  }

  ghost predicate OneCas(s: State, t: Tid, s': State) {
    && At(s, t).OneLoaded? && At(s, t).curr.mode != Waiting
    && s' == if s.word == At(s, t).curr then Stored(Go(s, t, Idle), t, s.word) else Go(s, t, OneLoaded(s.word))
  }

  ghost predicate OneLock(s: State, t: Tid, s': State) {
    && At(s, t).OneLoaded? && At(s, t).curr.mode == Waiting && s.lock == None
    && s' == Go(s, t, OneLocked).(lock := Some(t))
  }

  ghost predicate OneReload(s: State, t: Tid, s': State) {
    At(s, t) == OneLocked && s' == Go(s, t, Locked(s.word))
  }

  ghost predicate LockedCas(s: State, t: Tid, s': State) {
    && At(s, t).Locked? && At(s, t).curr.mode != Waiting
    && s' == if s.word == At(s, t).curr then Stored(Unlock(s, t), t, s.word) else Go(s, t, Forced(s.word))
  }

  ghost predicate ForcedStore(s: State, t: Tid, s': State) {
    At(s, t).Forced? && s' == Stored(Unlock(s, t), t, At(s, t).actual)
  }

  ghost predicate LockedPop(s: State, t: Tid, s': State) {
    && At(s, t).Locked? && At(s, t).curr.mode == Waiting && s.list != []
    && var n := |s.list| - 1;
    && var r := s.(list := s.list[..n], told := s.told[s.list[n] := OneWaiter], issued := s.issued + Issue(t));
    && s' == if n == 0 then Go(r, t, Popped(At(s, t).curr)) else Unlock(r, t)
  }

  ghost predicate PoppedStore(s: State, t: Tid, s': State) {
    At(s, t).Popped? && s' == Unlock(s, t).(word := At(s, t).curr.(mode := Empty))
  }

  // ----- Steps of notify_waiters

  ghost predicate StartAll(s: State, t: Tid, s': State) {
    t.Caller? && At(s, t) == Idle && s.lock == None && s' == Go(s, t, AllLocked).(lock := Some(t))
  }

  ghost predicate AllReload(s: State, t: Tid, s': State) {
    At(s, t) == AllLocked && s' == Go(s, t, if s.word.mode == Waiting then AllTurn(s.word) else AllCount)
  }

  ghost predicate AllInc(s: State, t: Tid, s': State) {
    At(s, t) == AllCount && s' == Unlock(s, t).(word := s.word.(calls := s.word.calls + 1))
  }

  ghost predicate AllPop(s: State, t: Tid, s': State) {
    && At(s, t).AllTurn?
    && s' == Go(s, t, AllPopped(At(s, t).curr)).(list := [], told := s.told + (map id | id in s.list :: AllWaiters))
  }

  ghost predicate AllStore(s: State, t: Tid, s': State) {
    At(s, t).AllPopped? && s' == Unlock(s, t).(word := Word(Empty, At(s, t).curr.calls + 1))
  }

  // ----- Steps of a future

  ghost predicate Create(s: State, t: Tid, s': State) {
    && t.Future? && t.id !in s.fut && At(s, t) == Idle
    && s' == s.(fut := s.fut[t.id := Init], born := s.born[t.id := s.word.calls])
  }

  ghost predicate StartPoll(s: State, t: Tid, s': State) {
    && t.Future? && At(s, t) == Idle && t.id in s.fut && s.fut[t.id] == Init
    && s' == Go(s, t, PollLoaded(s.word))
  }

  function Receive(s: State, t: Tid): State
    requires t.Future?
  {
    s.(fut := s.fut[t.id := Done], received := s.received + 1)
  }

  ghost predicate PollCas(s: State, t: Tid, s': State) {
    && t.Future? && At(s, t).PollLoaded?
    && s' == if s.word == At(s, t).curr.(mode := Notified)
             then Receive(Go(s, t, Idle), t).(word := s.word.(mode := Empty))
             else Go(s, t, PollWant)
  }

  ghost predicate PollLock(s: State, t: Tid, s': State) {
    At(s, t) == PollWant && s.lock == None && s' == Go(s, t, PollLocked).(lock := Some(t))
  }

  ghost predicate PollReload(s: State, t: Tid, s': State) {
    && t.Future? && At(s, t) == PollLocked && t.id in s.born
    && s' == if s.word.calls != s.born[t.id] then Unlock(s, t).(fut := s.fut[t.id := Done])
       else Go(s, t, PollTurn(s.word))
  }

  /** The word is WAITING, or becomes so: the future may join the list. */
  ghost predicate PollClaim(s: State, t: Tid, s': State) {
    && t.Future? && At(s, t).PollTurn?
    && var curr := At(s, t).curr;
    && (curr.mode == Waiting || (curr.mode == Empty && s.word == curr))
    && s' == Go(s, t, PollEnter).(word := s.word.(mode := Waiting))
  }

  /** A stored permit is taken under the lock. */
  ghost predicate PollTake(s: State, t: Tid, s': State) {
    && t.Future? && At(s, t).PollTurn?
    && var curr := At(s, t).curr;
    && curr.mode == Notified && s.word == curr
    && s' == Receive(Unlock(s, t), t).(word := curr.(mode := Empty))
  }

  /** The compare-exchange failed: try again with what it saw. */
  ghost predicate PollRetry(s: State, t: Tid, s': State) {
    && t.Future? && At(s, t).PollTurn?
    && At(s, t).curr.mode != Waiting && s.word != At(s, t).curr
    && s' == Go(s, t, PollTurn(s.word))
  }

  ghost predicate PollPush(s: State, t: Tid, s': State) {
    && t.Future? && At(s, t) == PollEnter
    && s' == Unlock(s, t).(list := [t.id] + s.list, fut := s.fut[t.id := Listed])
  }

  /** A poll of a listed future: ready when it was notified. */
  ghost predicate PollListed(s: State, t: Tid, s': State) {
    && t.Future? && At(s, t) == Idle && t.id in s.fut && s.fut[t.id] == Listed && s.lock == None
    && s' == if t.id !in s.told then s
             else s.(fut := s.fut[t.id := Done], told := s.told - {t.id},
                     received := s.received + if s.told[t.id] == OneWaiter then 1 else 0)
  }

  ghost predicate DropUnlisted(s: State, t: Tid, s': State) {
    && t.Future? && At(s, t) == Idle && t.id in s.fut && (s.fut[t.id] == Init || s.fut[t.id] == Done)
    && s' == s.(fut := s.fut[t.id := Dropped])
  }

  ghost predicate DropLock(s: State, t: Tid, s': State) {
    && t.Future? && At(s, t) == Idle && t.id in s.fut && s.fut[t.id] == Listed && s.lock == None
    && s' == Go(s, t, DropLocked).(lock := Some(t))
  }

  function Without(list: seq<nat>, id: nat): seq<nat> {
    if list == [] then [] else if list[0] == id then list[1..] else [list[0]] + Without(list[1..], id)
  }

  ghost predicate DropRemove(s: State, t: Tid, s': State) {
    && t.Future? && At(s, t) == DropLocked
    && var one := t.id in s.told && s.told[t.id] == OneWaiter;
    && s' == Go(s, t, DropRemoved(s.word, one)).(list := Without(s.list, t.id), told := s.told - {t.id},
       fut := s.fut[t.id := Dropped])
  }

  /** The last waiter left the list: the word goes back to EMPTY. */
  ghost predicate DropStore(s: State, t: Tid, s': State) {
    && At(s, t).DropRemoved?
    && var curr := At(s, t).curr;
    && s' == if s.list == [] && curr.mode == Waiting
             then Go(s, t, DropPass(curr.(mode := Empty), At(s, t).one)).(word := curr.(mode := Empty))
             else Go(s, t, DropPass(curr, At(s, t).one))
  }

  /** A notification that was not received is handed on. */
  ghost predicate DropEnd(s: State, t: Tid, s': State) {
    && At(s, t).DropPass?
    && s' == if At(s, t).one then Go(s, t, Locked(At(s, t).curr)) else Unlock(s, t)
  }

  ghost predicate NotifyStep(s: State, t: Tid, s': State) {
    || StartOne(s, t, s') || OneCas(s, t, s') || OneLock(s, t, s') || OneReload(s, t, s')
    || LockedCas(s, t, s') || ForcedStore(s, t, s') || LockedPop(s, t, s') || PoppedStore(s, t, s')
    || StartAll(s, t, s') || AllReload(s, t, s') || AllInc(s, t, s') || AllPop(s, t, s') || AllStore(s, t, s')
  }

  ghost predicate FutureStep(s: State, t: Tid, s': State) {
    || Create(s, t, s') || StartPoll(s, t, s') || PollCas(s, t, s') || PollLock(s, t, s') || PollReload(s, t, s')
    || PollClaim(s, t, s') || PollTake(s, t, s') || PollRetry(s, t, s') || PollPush(s, t, s') || PollListed(s, t, s')
    || DropUnlisted(s, t, s') || DropLock(s, t, s') || DropRemove(s, t, s') || DropStore(s, t, s') || DropEnd(s, t, s')
  }

  ghost predicate StepOf(s: State, t: Tid, s': State) {
    NotifyStep(s, t, s') || FutureStep(s, t, s')
  }

  ghost predicate Step(s: State, s': State) {
    exists t :: StepOf(s, t, s')
  }

  ghost predicate InitState(s: State) {
    s == State(Word(Empty, 0), None, [], map[], map[], map[], map[], 0, 0, 0)
  }

  // ----- The invariant

  ghost predicate Holding(pc: Pc) {
    pc.OneLocked? || pc.Locked? || pc.Forced? || pc.Popped? || pc.AllLocked? || pc.AllCount? || pc.AllTurn? ||
      pc.AllPopped?
    || pc.PollLocked? || pc.PollTurn? || pc.PollEnter? || pc.DropLocked? || pc.DropRemoved? || pc.DropPass?
  }

  /** The word says WAITING exactly when the list is not empty. */
  ghost predicate Agree(s: State) {
    s.word.mode == Waiting <==> s.list != []
  }

  /** A word loaded under the lock may be behind by permits stored or taken, but not by more. */
  ghost predicate Near(curr: Word, word: Word) {
    curr.calls == word.calls && (curr.mode == Waiting <==> word.mode == Waiting)
  }

  /** What the lock holder may rely on. */
  ghost predicate Phase(s: State, t: Tid) {
    match At(s, t)
    case Locked(curr) => Agree(s) && Near(curr, s.word)
    case Forced(actual) => Agree(s) && s.word.mode != Waiting && actual.calls == s.word.calls
    case Popped(curr) => s.list == [] && s.word == curr && curr.mode == Waiting
    case AllCount => Agree(s) && s.word.mode != Waiting
    case AllTurn(curr) => Agree(s) && s.word == curr && curr.mode == Waiting
    case AllPopped(curr) => s.list == [] && s.word == curr && curr.mode == Waiting
    case PollTurn(curr) => Agree(s) && Near(curr, s.word) && Born(s, t)
    case PollEnter => s.word.mode == Waiting && Born(s, t)
    case DropRemoved(curr, one) => Near(curr, s.word) && (s.list != [] ==> s.word.mode == Waiting)
    case DropPass(curr, one) => Agree(s) && Near(curr, s.word)
    case _ => Agree(s)
  }

  ghost predicate Born(s: State, t: Tid) {
    t.Future? && t.id in s.born && s.born[t.id] == s.word.calls
  }

  ghost predicate LockOf(s: State, t: Tid) {
    Holding(At(s, t)) <==> s.lock == Some(t)
  }

  /** The threads of futures run only the operations that their state allows. */
  ghost predicate Owner(s: State, t: Tid) {
    match At(s, t)
    case PollLoaded(_) => Is(s, t, Init)
    case PollWant => Is(s, t, Init)
    case PollLocked => Is(s, t, Init)
    case PollTurn(_) => Is(s, t, Init)
    case PollEnter => Is(s, t, Init)
    case DropLocked => Is(s, t, Listed)
    case DropRemoved(_, _) => t.Future?
    case DropPass(_, _) => t.Future?
    case OneLoaded(_) => t.Caller?
    case OneLocked => t.Caller?
    case _ => true
  }

  ghost predicate Is(s: State, t: Tid, f: Fut) {
    t.Future? && t.id in s.fut && s.fut[t.id] == f
  }

  /** A future is in the list exactly when it is listed and has not been notified, and then no
      `notify_waiters` happened since it was created. */
  ghost predicate Listing(s: State, id: nat) {
    && (id in s.list <==> id in s.fut && s.fut[id] == Listed && id !in s.told)
    && (id in s.told ==> id in s.fut && s.fut[id] == Listed)
    && (id in s.list ==> id in s.born && s.born[id] == s.word.calls)
    && (id in s.fut <==> id in s.born)
    && (id in s.born ==> s.born[id] <= s.word.calls)
  }

  ghost predicate Inv(s: State) {
    && (forall t {:trigger LockOf(s, t)} :: LockOf(s, t))
    && (forall t {:trigger Owner(s, t)} :: Owner(s, t))
    && (forall id {:trigger Listing(s, id)} :: Listing(s, id))
    && Distinct(s.list)
    && (if s.lock == None then Agree(s) else Phase(s, s.lock.value))
  }
}
