/** What every run of the wake-up primitive guarantees. */
module NotifyTheorems {
  import opened Options
  import opened Notify
  import opened NotifySteps

  lemma StepKeeps(s: State, t: Tid, s': State)
    requires Inv(s) && StepOf(s, t, s')
    ensures Inv(s')
  {
    if StartOne(s, t, s') { StartOneKeeps(s, t, s'); }
    if OneCas(s, t, s') { OneCasKeeps(s, t, s'); }
    if OneLock(s, t, s') { OneLockKeeps(s, t, s'); }
    if OneReload(s, t, s') { OneReloadKeeps(s, t, s'); }
    if LockedCas(s, t, s') { LockedCasKeeps(s, t, s'); }
    if ForcedStore(s, t, s') { ForcedStoreKeeps(s, t, s'); }
    if LockedPop(s, t, s') { LockedPopKeeps(s, t, s'); }
    if PoppedStore(s, t, s') { PoppedStoreKeeps(s, t, s'); }
    if StartAll(s, t, s') { StartAllKeeps(s, t, s'); }
    if AllReload(s, t, s') { AllReloadKeeps(s, t, s'); }
    if AllInc(s, t, s') { AllIncKeeps(s, t, s'); }
    if AllPop(s, t, s') { AllPopKeeps(s, t, s'); }
    if AllStore(s, t, s') { AllStoreKeeps(s, t, s'); }
    FutureStepKeeps(s, t, s');
  }

  lemma FutureStepKeeps(s: State, t: Tid, s': State)
    requires Inv(s)
    ensures FutureStep(s, t, s') ==> Inv(s')
  {
    if Create(s, t, s') { CreateKeeps(s, t, s'); }
    if StartPoll(s, t, s') { StartPollKeeps(s, t, s'); }
    if PollCas(s, t, s') { PollCasKeeps(s, t, s'); }
    if PollLock(s, t, s') { PollLockKeeps(s, t, s'); }
    if PollReload(s, t, s') { PollReloadKeeps(s, t, s'); }
    if PollClaim(s, t, s') { PollClaimKeeps(s, t, s'); }
    if PollTake(s, t, s') { PollTakeKeeps(s, t, s'); }
    if PollRetry(s, t, s') { PollRetryKeeps(s, t, s'); }
    if PollPush(s, t, s') { PollPushKeeps(s, t, s'); }
    if PollListed(s, t, s') { PollListedKeeps(s, t, s'); }
    if DropUnlisted(s, t, s') { DropUnlistedKeeps(s, t, s'); }
    if DropLock(s, t, s') { DropLockKeeps(s, t, s'); }
    if DropRemove(s, t, s') { DropRemoveKeeps(s, t, s'); }
    if DropStore(s, t, s') { DropStoreKeeps(s, t, s'); }
    if DropEnd(s, t, s') { DropEndKeeps(s, t, s'); }
  }

  // ----- Conservation of notifications

  ghost function Ones(told: map<nat, Kind>): set<nat> {
    set id | id in told && told[id] == OneWaiter
  }

  /** The lock holder is passing on the notification of a future that was dropped. */
  ghost function Pending(s: State): nat {
    if s.lock == None || s.lock.value.Caller? then 0 else
    match At(s, s.lock.value)
    case Locked(_) => 1
    case Forced(_) => 1
    case DropRemoved(_, one) => if one then 1 else 0
    case DropPass(_, one) => if one then 1 else 0
    case _ => 0
  }

  /** Every `notify_one` that took effect was received by a future, was merged into a permit that
      was stored already, or is still there: as the stored permit, with a waiter that has not
      looked yet, or in the hands of a drop that is passing it on. */
  ghost predicate Balanced(s: State) {
    s.issued == s.received + s.merged + Permit(s.word) + |Ones(s.told)| + Pending(s)
  }

  lemma OnesAdd(told: map<nat, Kind>, id: nat, kind: Kind)
    requires id !in told
    ensures |Ones(told[id := kind])| == |Ones(told)| + if kind == OneWaiter then 1 else 0
  {
    if kind == OneWaiter {
      assert Ones(told[id := kind]) == Ones(told) + {id};
    } else {
      assert Ones(told[id := kind]) == Ones(told);
    }
  }

  lemma OnesRemove(told: map<nat, Kind>, id: nat)
    ensures |Ones(told - {id})| + (if id in told && told[id] == OneWaiter then 1 else 0) == |Ones(told)|
  {
    if id in told && told[id] == OneWaiter {
      assert Ones(told - {id}) == Ones(told) - {id};
    } else {
      assert Ones(told - {id}) == Ones(told);
    }
  }

  lemma OnesAll(told: map<nat, Kind>, list: seq<nat>)
    requires forall id :: id in list ==> id !in told
    ensures Ones(told + (map id | id in list :: AllWaiters)) == Ones(told)
  {
  }

  lemma StoreBalances(s: State, t: Tid, s': State)
    requires Inv(s) && Balanced(s)
    requires OneCas(s, t, s') || LockedCas(s, t, s') || ForcedStore(s, t, s')
    ensures Balanced(s')
  {
    LockedHere(s, t);
  }

  lemma PopBalances(s: State, t: Tid, s': State)
    requires Inv(s) && Balanced(s) && LockedPop(s, t, s')
    ensures Balanced(s')
  {
    LockedHere(s, t);
    var id := s.list[|s.list| - 1];
    assert Listing(s, id);
    OnesAdd(s.told, id, OneWaiter);
  }

  lemma AllBalances(s: State, t: Tid, s': State)
    requires Inv(s) && Balanced(s)
    requires PoppedStore(s, t, s') || AllInc(s, t, s') || AllPop(s, t, s') || AllStore(s, t, s')
    ensures Balanced(s')
  {
    LockedHere(s, t);
    forall id | id in s.list
      ensures id !in s.told
    {
      assert Listing(s, id);
    }
    OnesAll(s.told, s.list);
  }

  lemma TakeBalances(s: State, t: Tid, s': State)
    requires Inv(s) && Balanced(s)
    requires PollCas(s, t, s') || PollTake(s, t, s') || PollListed(s, t, s') || PollClaim(s, t, s')
    ensures Balanced(s')
  {
    LockedHere(s, t);
    if PollListed(s, t, s') {
      OnesRemove(s.told, t.id);
    }
  }

  lemma DropBalances(s: State, t: Tid, s': State)
    requires Inv(s) && Balanced(s)
    requires DropRemove(s, t, s') || DropStore(s, t, s') || DropEnd(s, t, s')
    ensures Balanced(s')
  {
    if DropRemove(s, t, s') {
      RemoveBalances(s, t, s');
    } else {
      LockedHere(s, t);
    }
  }

  lemma RemoveBalances(s: State, t: Tid, s': State)
    requires Inv(s) && Balanced(s) && DropRemove(s, t, s')
    ensures Balanced(s')
  {
    LockedHere(s, t);
    OnesRemove(s.told, t.id);
  }

  lemma OtherBalances(s: State, t: Tid, s': State)
    requires Inv(s) && Balanced(s)
    requires || StartOne(s, t, s') || OneLock(s, t, s') || OneReload(s, t, s') || StartAll(s, t, s')
             || AllReload(s, t, s') || Create(s, t, s') || StartPoll(s, t, s') || PollLock(s, t, s')
             || PollReload(s, t, s') || PollRetry(s, t, s')
             || PollPush(s, t, s') || DropUnlisted(s, t, s') || DropLock(s, t, s')
    ensures Balanced(s')
  {
    LockedHere(s, t);
    if s.lock != None {
      LockedHere(s, s.lock.value);
    }
  }

  lemma StepBalances(s: State, t: Tid, s': State)
    requires Inv(s) && Balanced(s) && StepOf(s, t, s')
    ensures Balanced(s')
  {
    if OneCas(s, t, s') || LockedCas(s, t, s') || ForcedStore(s, t, s') {
      StoreBalances(s, t, s');
    } else if LockedPop(s, t, s') {
      PopBalances(s, t, s');
    } else if PoppedStore(s, t, s') || AllInc(s, t, s') || AllPop(s, t, s') || AllStore(s, t, s') {
      AllBalances(s, t, s');
    } else if PollCas(s, t, s') || PollTake(s, t, s') || PollListed(s, t, s') || PollClaim(s, t, s') {
      TakeBalances(s, t, s');
    } else if DropRemove(s, t, s') || DropStore(s, t, s') || DropEnd(s, t, s') {
      DropBalances(s, t, s');
    } else {
      OtherBalances(s, t, s');
    }
  }

  // ----- Runs

  ghost predicate Run(run: seq<State>) {
    && |run| > 0 && InitState(run[0])
    && forall i {:trigger run[i]} :: 0 <= i < |run| - 1 ==> Step(run[i], run[i + 1])
  }

  lemma {:induction false} EveryState(run: seq<State>, i: nat)
    requires Run(run) && i < |run|
    ensures Inv(run[i]) && Balanced(run[i])
  {
    if i == 0 {
      assert Ones(map[]) == {};
      forall t
        ensures LockOf(run[0], t)
      {
      }
    } else {
      EveryState(run, i - 1);
      assert Step(run[i - 1], run[i - 1 + 1]);
      var t :| StepOf(run[i - 1], t, run[i]);
      StepKeeps(run[i - 1], t, run[i]);
      StepBalances(run[i - 1], t, run[i]);
    }
  }

  /** Whenever the lock is free, the word is WAITING exactly when the list is not empty; a stored
      permit and a listed waiter never exist together, and every notification is accounted for. */
  lemma WaitingMeansListed(run: seq<State>, i: nat)
    requires Run(run) && i < |run| && run[i].lock == None
    ensures run[i].word.mode == Waiting <==> run[i].list != []
    ensures !(run[i].word.mode == Notified && run[i].list != [])
    ensures run[i].issued == run[i].received + run[i].merged + Permit(run[i].word) + |Ones(run[i].told)|
  {
    EveryState(run, i);
  }

  /** None of the assertions of the code can fail: the list is not empty when a waiter is popped,
      popped waiters have not been notified, and a failed compare-exchange under the lock saw the
      one word it may see. */
  lemma NoAssertionFails(run: seq<State>, i: nat, t: Tid)
    requires Run(run) && i < |run|
    ensures var s := run[i];
            match At(s, t)
            case Locked(curr) =>
              && (curr.mode == Waiting ==> s.list != [] && s.list[|s.list| - 1] !in s.told)
              && (curr.mode != Waiting ==> s.word.mode != Waiting)
            case AllTurn(curr) => forall id :: id in s.list ==> id !in s.told
            case PollTurn(curr) =>
              && (curr.mode == Empty && s.word != curr ==> s.word.mode == Notified)
              && (curr.mode == Notified && s.word != curr ==> s.word.mode == Empty)
            case _ => true
  {
    EveryState(run, i);
    var s := run[i];
    LockedHere(s, t);
    forall id | id in s.list
      ensures id !in s.told
    {
      assert Listing(s, id);
    }
  }

  /** A future created before a call of `notify_waiters` is ready when it is polled after it.  If it waited, it
      has left the list and its next poll finds the notification.  If it did not wait yet, it never gets to:
      no poll of it is past the test of the count, and every poll that makes the test ends. */
  lemma NotifyWaitersReachesAll(run: seq<State>, i: nat, id: nat)
    requires Run(run) && i < |run| && id in run[i].born && id in run[i].fut
    requires run[i].born[id] < run[i].word.calls
    ensures id !in run[i].list
    ensures run[i].fut[id] == Listed ==> id in run[i].told
    ensures !At(run[i], Future(id)).PollTurn? && !At(run[i], Future(id)).PollEnter?
    ensures forall s' :: PollListed(run[i], Future(id), s') || PollReload(run[i], Future(id), s') ==> s'.fut[id] == Done
  {
    EveryState(run, i);
    assert Listing(run[i], id);
    LockedHere(run[i], Future(id));
  }

  /** A dropped future that was notified by `notify_one` and did not look keeps nothing: once the lock
      is free again, the notification is with another waiter, or stored, or joined a stored one. */
  lemma DropPassesOn(s: State, t: Tid, s': State)
    requires Inv(s) && Balanced(s) && StepOf(s, t, s') && t.Future? && s.lock == Some(t) && Pending(s) == 1 &&
             s'.lock == None
    ensures s'.received == s.received && s'.issued == s.issued
    ensures s'.merged + Permit(s'.word) + |Ones(s'.told)| == s.merged + Permit(s.word) + |Ones(s.told)| + 1
    ensures s'.merged > s.merged ==> s.word.mode == Notified && s'.word.mode == Notified
  {
    LockedHere(s, t);
    StepBalances(s, t, s');
  }
}
