/**
 The write-buffer permits and the buffers they stand for (photondb/src/page_store/buffer_set.rs,
 photondb/src/page_store/jobs/flush.rs).

 The counter is 0 when a waiter is registered, 1 when no permit is left, and one more than the
 available permits otherwise.  Each compare-exchange that succeeds, and each load that decides
 something, is a step.  The wake-up primitive is seen through its count of `notify_waiters` calls: a
 future created at count `born` is ready once the count is larger.

 Buffers are numbered from 0: those below `installed` exist or existed, those below `sealed` are sealed,
 those below `flushed` are saved in a file.  The thread that seals the current buffer acquires a permit
 and installs the successor; the flush job saves the oldest buffer, releases a permit, and waits for
 the waiter to go and the successor to be installed before it goes on.
 */
module Permits {
  import opened Options

  type Tid = nat

  /** The one flush job. */
  const FLUSHER: Tid := 0

  datatype Kind = Acquire | NoWaiter | HasPermits

  datatype Pc =
    | Idle
    // a writer that switches buffers
    | Sealed
    | Stalled
    | Installing
    // `wait_cond`, for `acquire` and for `wait`
    | Want(kind: Kind)
    | Armed(kind: Kind, born: nat)
    | Blocked(kind: Kind, born: nat)
    // the flush job
    | Saved
    | MustNotify
    | Released
    | Awaiting

  /** `switcher` is the thread that sealed the current buffer, until it has installed the successor;
      `released` counts the permits that the flush job gave back. */
  datatype State = State(
    counter: nat, calls: nat, pc: map<Tid, Pc>,
    installed: nat, sealed: nat, flushed: nat, released: nat, switcher: Option<Tid>)

  function At(s: State, t: Tid): Pc {
    if t in s.pc then s.pc[t] else Idle
  }

  function Go(s: State, t: Tid, pc: Pc): State {
    s.(pc := s.pc[t := pc])
  }

  // ----- A writer switches buffers

  /** Only one thread succeeds in sealing a buffer. */
  ghost predicate Seal(s: State, t: Tid, s': State) {
    && t != FLUSHER && At(s, t) == Idle && s.sealed < s.installed
    && s' == Go(s, t, Sealed).(sealed := s.sealed + 1, switcher := Some(t))
  }

  ghost predicate TryAcquire(s: State, t: Tid, s': State) {
    && At(s, t) == Sealed
    && s' == if s.counter > 1 then Go(s, t, Installing).(counter := s.counter - 1) else Go(s, t, Stalled)
  }

  /** `acquire_fast` on behalf of `acquire`: takes a permit, or registers a waiter and goes on to `pc`. */
  function AcquireOr(s: State, t: Tid, pc: Pc): State {
    if s.counter > 1 then Go(s, t, Installing).(counter := s.counter - 1)
    else Go(s, t, pc).(counter := 0)
  }

  ghost predicate StartAcquire(s: State, t: Tid, s': State) {
    At(s, t) == Stalled && s' == AcquireOr(s, t, Want(Acquire))
  }

  ghost predicate Install(s: State, t: Tid, s': State) {
    At(s, t) == Installing && s' == Go(s, t, Idle).(installed := s.installed + 1, switcher := None)
  }

  // ----- Waiting

  function Bound(kind: Kind): nat {
    if kind == HasPermits then 1 else 0
  }

  /** Where a thread goes on after `wait`. */
  function After(t: Tid): Pc {
    if t == FLUSHER then Awaiting else Idle
  }

  ghost predicate StartWait(s: State, t: Tid, kind: Kind, s': State) {
    && kind != Acquire && (if t == FLUSHER then At(s, t) == Released && kind == NoWaiter else At(s, t) == Idle)
    && s' == Go(s, t, if s.counter > Bound(kind) then After(t) else Want(kind))
  }

  /** A new future is created and registered. */
  ghost predicate Arm(s: State, t: Tid, s': State) {
    At(s, t).Want? && s' == Go(s, t, Armed(At(s, t).kind, s.calls))
  }

  /** The condition is tried once more before the waiter blocks. */
  ghost predicate Check(s: State, t: Tid, s': State) {
    && At(s, t).Armed?
    && var kind, born := At(s, t).kind, At(s, t).born;
    && s' == if kind == Acquire then AcquireOr(s, t, Blocked(Acquire, born))
             else Go(s, t, if s.counter > Bound(kind) then After(t) else Blocked(kind, born))
  }

  ghost predicate Wake(s: State, t: Tid, s': State) {
    At(s, t).Blocked? && At(s, t).born < s.calls && s' == Go(s, t, Want(At(s, t).kind))
  }

  // ----- The flush job

  /** The oldest buffer is sealed and is saved in a file. */
  ghost predicate Flush(s: State, t: Tid, s': State) {
    && t == FLUSHER && At(s, t) == Idle && s.flushed < s.sealed
    && s' == Go(s, t, Saved).(flushed := s.flushed + 1)
  }

  ghost predicate Release(s: State, t: Tid, s': State) {
    && At(s, t) == Saved
    && s' == if s.counter == 0 then Go(s, t, MustNotify).(counter := 2, released := s.released + 1)
             else Go(s, t, Released).(counter := s.counter + 1, released := s.released + 1)
  }

  ghost predicate NotifyAll(s: State, t: Tid, s': State) {
    At(s, t) == MustNotify && s' == Go(s, t, Released).(calls := s.calls + 1)
  }

  /** The successor of the flushed buffer is there. */
  ghost predicate SeeSuccessor(s: State, t: Tid, s': State) {
    At(s, t) == Awaiting && s.installed > s.flushed && s' == Go(s, t, Idle)
  }

  // ----- Runs

  ghost predicate WriterStep(s: State, t: Tid, s': State) {
    Seal(s, t, s') || TryAcquire(s, t, s') || StartAcquire(s, t, s') || Install(s, t, s')
  }

  ghost predicate WaitStep(s: State, t: Tid, s': State) {
    || StartWait(s, t, NoWaiter, s') || StartWait(s, t, HasPermits, s')
    || Arm(s, t, s') || Check(s, t, s') || Wake(s, t, s')
  }

  ghost predicate JobStep(s: State, t: Tid, s': State) {
    Flush(s, t, s') || Release(s, t, s') || NotifyAll(s, t, s') || SeeSuccessor(s, t, s')
  }

  ghost predicate StepOf(s: State, t: Tid, s': State) {
    WriterStep(s, t, s') || WaitStep(s, t, s') || JobStep(s, t, s')
  }

  ghost predicate Step(s: State, s': State) {
    exists t :: StepOf(s, t, s')
  }

  /** `BufferSet::new`: the permit of the first buffer is taken, so `max - 1` are left. */
  ghost predicate InitState(s: State, max: nat) {
    max > 0 && s == State(max, 0, map[], 1, 0, 0, 0, None)
  }

  ghost predicate Run(run: seq<State>, max: nat) {
    && |run| > 0 && InitState(run[0], max)
    && forall i {:trigger run[i]} :: 0 <= i < |run| - 1 ==> Step(run[i], run[i + 1])
  }

  // ----- The invariant

  function Available(counter: nat): nat {
    if counter == 0 then 0 else counter - 1
  }

  /** The permits in use: one per installed buffer whose permit was not given back, and the one of a
      thread that is about to install. */
  function Held(s: State): int {
    s.installed - s.released
    + if s.switcher.Some? && At(s, s.switcher.value) == Installing then 1 else 0
  }

  /** The buffers that are installed and not yet saved in a file. */
  function Unflushed(s: State): int {
    s.installed - s.flushed
  }

  /** Somebody is about to wake everyone. */
  ghost predicate Due(s: State) {
    At(s, FLUSHER) == MustNotify
  }

  ghost predicate Switching(pc: Pc) {
    pc.Sealed? || pc.Stalled? || pc.Installing? || ((pc.Want? || pc.Armed? || pc.Blocked?) && pc.kind == Acquire)
  }

  ghost predicate ByFlusher(pc: Pc) {
    pc.Saved? || pc.MustNotify? || pc.Released? || pc.Awaiting?
  }

  /** The wake-up of a blocked thread happened, is due, or is not owed yet; and each thread is where its
      role lets it be. */
  ghost predicate ThreadOk(s: State, t: Tid) {
    && (Switching(At(s, t)) <==> s.switcher == Some(t))
    && (ByFlusher(At(s, t)) ==> t == FLUSHER)
    && match At(s, t)
       case Blocked(kind, born) =>
         && born <= s.calls
         && (kind != HasPermits ==> born < s.calls || s.counter == 0 || Due(s))
       case Armed(_, born) => born <= s.calls
       case _ => true
  }

  ghost predicate Counts(s: State, max: nat) {
    && Available(s.counter) + Held(s) == max
    && s.released <= s.flushed <= s.sealed && s.switcher != Some(FLUSHER)
    && s.sealed == s.installed - (if s.switcher.Some? then 0 else 1)
    && s.flushed == s.released + (if At(s, FLUSHER) == Saved then 1 else 0)
  }

  ghost predicate Inv(s: State, max: nat) {
    && Counts(s, max)
    && forall t {:trigger ThreadOk(s, t)} :: ThreadOk(s, t)
  }

  /** What the invariant says about the thread that moves. */
  lemma Mover(s: State, t: Tid, max: nat)
    requires Inv(s, max)
    ensures ThreadOk(s, t) && ThreadOk(s, FLUSHER)
    ensures s.switcher.Some? ==> Switching(At(s, s.switcher.value))
  {
    assert ThreadOk(s, t) && ThreadOk(s, FLUSHER);
    if s.switcher.Some? {
      assert ThreadOk(s, s.switcher.value);
    }
  }

  lemma WriterCounts(s: State, t: Tid, s': State, max: nat)
    requires Inv(s, max) && WriterStep(s, t, s')
    ensures Counts(s', max)
  {
    Mover(s, t, max);
  }

  lemma WaitCounts(s: State, t: Tid, s': State, max: nat)
    requires Inv(s, max) && WaitStep(s, t, s')
    ensures Counts(s', max)
  {
    Mover(s, t, max);
  }

  lemma JobCounts(s: State, t: Tid, s': State, max: nat)
    requires Inv(s, max) && JobStep(s, t, s')
    ensures Counts(s', max)
  {
    Mover(s, t, max);
  }

  /** A due wake-up stays due until it happens, and a release to a waiter makes one due. */
  lemma DueStays(s: State, t: Tid, s': State, max: nat)
    requires Inv(s, max) && StepOf(s, t, s')
    ensures Due(s) && !NotifyAll(s, t, s') ==> Due(s')
    ensures Release(s, t, s') && s.counter == 0 ==> Due(s')
  {
    assert ThreadOk(s, t);
  }

  lemma WriterThreads(s: State, t: Tid, s': State, max: nat, u: Tid)
    requires Inv(s, max) && WriterStep(s, t, s')
    ensures ThreadOk(s', u)
  {
    Mover(s, t, max);
    Mover(s, u, max);
    DueStays(s, t, s', max);
  }

  lemma WaitThreads(s: State, t: Tid, s': State, max: nat, u: Tid)
    requires Inv(s, max) && WaitStep(s, t, s')
    ensures ThreadOk(s', u)
  {
    Mover(s, t, max);
    Mover(s, u, max);
    DueStays(s, t, s', max);
  }

  lemma JobThreads(s: State, t: Tid, s': State, max: nat, u: Tid)
    requires Inv(s, max) && JobStep(s, t, s')
    ensures ThreadOk(s', u)
  {
    Mover(s, t, max);
    Mover(s, u, max);
    DueStays(s, t, s', max);
  }

  lemma StepKeeps(s: State, t: Tid, s': State, max: nat)
    requires Inv(s, max) && StepOf(s, t, s')
    ensures Inv(s', max)
  {
    if WriterStep(s, t, s') {
      WriterCounts(s, t, s', max);
    } else if WaitStep(s, t, s') {
      WaitCounts(s, t, s', max);
    } else {
      JobCounts(s, t, s', max);
    }
    forall u
      ensures ThreadOk(s', u)
    {
      if WriterStep(s, t, s') {
        WriterThreads(s, t, s', max, u);
      } else if WaitStep(s, t, s') {
        WaitThreads(s, t, s', max, u);
      } else {
        JobThreads(s, t, s', max, u);
      }
    }
  }

  lemma {:induction false} EveryState(run: seq<State>, max: nat, i: nat)
    requires Run(run, max) && i < |run|
    ensures Inv(run[i], max)
  {
    if i > 0 {
      EveryState(run, max, i - 1);
      assert Step(run[i - 1], run[i - 1 + 1]);
      var t :| StepOf(run[i - 1], t, run[i]);
      StepKeeps(run[i - 1], t, run[i], max);
    }
  }

  // ----- What holds in every run

  /** The available and the held permits add up to the configured number in every state. */
  lemma PermitsAreConserved(run: seq<State>, max: nat, i: nat)
    requires Run(run, max) && i < |run|
    ensures Available(run[i].counter) + Held(run[i]) == max
  {
    EveryState(run, max, i);
  }

  /** Every buffer that is not yet saved holds a permit, so there are never more of them than configured;
      and all of them but at most the newest are sealed. */
  lemma UnflushedBuffersAreBounded(run: seq<State>, max: nat, i: nat)
    requires Run(run, max) && i < |run|
    ensures 0 <= Unflushed(run[i]) <= Held(run[i]) <= max
    ensures run[i].installed - 1 <= run[i].sealed <= run[i].installed
  {
    EveryState(run, max, i);
  }

  /** A thread blocked in `acquire` or waiting for the waiter to go is not forgotten: the counter still
      says that a waiter is there, or it can wake up, or somebody is about to notify. */
  lemma BlockedIsRemembered(run: seq<State>, max: nat, i: nat, t: Tid)
    requires Run(run, max) && i < |run| && At(run[i], t).Blocked? && At(run[i], t).kind != HasPermits
    ensures run[i].counter == 0 || Due(run[i]) || exists s' :: Wake(run[i], t, s')
  {
    EveryState(run, max, i);
    assert ThreadOk(run[i], t);
    if At(run[i], t).born < run[i].calls {
      assert Wake(run[i], t, Go(run[i], t, Want(At(run[i], t).kind)));
    }
  }

  // ----- Waiting for a permit without taking one

  /** A thread that waits for `HasPermits` although there is one, with nobody left to wake it. */
  ghost predicate Stranded(s: State, t: Tid) {
    && At(s, t).Blocked? && At(s, t).kind == HasPermits && At(s, t).born == s.calls
    && s.counter > 1 && !Due(s)
  }

  /** `release` from counter 1 notifies nobody, so this wait can be left behind. */
  lemma WaiterCanBeStranded() returns (run: seq<State>)
    ensures Run(run, 2) && Stranded(run[|run| - 1], 2)
  {
    run := [Stage(0), Stage(1), Stage(2), Stage(3), Stage(4), Stage(5), Stage(6), Stage(7), Stage(8)];
    forall i | 0 <= i < 8
      ensures Step(run[i], run[i + 1])
    {
      assert run[i] == Stage(i) && run[i + 1] == Stage(i + 1);
      StageStep(i);
    }
  }

  /** Thread 1 switches to a second buffer, thread 2 waits for a permit and blocks, and the flush of the
      first buffer gives its permit back. */
  ghost function Stage(i: nat): State {
    if i == 0 then State(2, 0, map[], 1, 0, 0, 0, None)
    else if i == 1 then State(2, 0, map[1 := Sealed], 1, 1, 0, 0, Some(1))
    else if i == 2 then State(1, 0, map[1 := Installing], 1, 1, 0, 0, Some(1))
    else if i == 3 then State(1, 0, map[1 := Idle], 2, 1, 0, 0, None)
    else if i == 4 then State(1, 0, map[1 := Idle, 2 := Want(HasPermits)], 2, 1, 0, 0, None)
    else if i == 5 then State(1, 0, map[1 := Idle, 2 := Armed(HasPermits, 0)], 2, 1, 0, 0, None)
    else if i == 6 then State(1, 0, map[1 := Idle, 2 := Blocked(HasPermits, 0)], 2, 1, 0, 0, None)
    else if i == 7 then State(1, 0, map[1 := Idle, 2 := Blocked(HasPermits, 0), FLUSHER := Saved], 2, 1, 1, 0, None)
    else State(2, 0, map[1 := Idle, 2 := Blocked(HasPermits, 0), FLUSHER := Released], 2, 1, 1, 1, None)
  }

  lemma StageStep(i: nat)
    requires i < 8
    ensures Step(Stage(i), Stage(i + 1))
  {
    var s, s' := Stage(i), Stage(i + 1);
    var t := if i < 3 then 1 else if i < 6 then 2 else FLUSHER;
    assert s'.pc == s.pc[t := s'.pc[t]];
    assert StepOf(s, t, s');
  }

  /** And that is the only way: a step strands a waiter exactly when it is a release from counter 1
      while the waiter is blocked without a wake-up. */
  lemma StrandedIff(s: State, t: Tid, s': State, u: Tid, max: nat)
    requires Inv(s, max) && StepOf(s, t, s') && !Stranded(s, u)
    ensures Stranded(s', u) <==>
            && Release(s, t, s') && s.counter == 1
            && At(s, u).Blocked? && At(s, u).kind == HasPermits && At(s, u).born == s.calls
  {
    assert ThreadOk(s, u) && ThreadOk(s, t);
    DueStays(s, t, s', max);
  }
}
