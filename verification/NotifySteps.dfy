/** Every step of the wake-up primitive keeps its invariant. */
module NotifySteps {
  import opened Options
  import opened Notify
  import opened Sequences

  /** A step changes its own thread's place only, and the lock only between free and its own. */
  ghost predicate Moves(s: State, t: Tid, s': State) {
    && (s'.pc == s.pc || (t in s'.pc && s'.pc == s.pc[t := s'.pc[t]]))
    && (s'.lock == s.lock || (s.lock == None && s'.lock == Some(t)) || (s.lock == Some(t) && s'.lock == None))
    && (s'.fut == s.fut || (t.Future? && t.id in s'.fut && s'.fut == s.fut[t.id := s'.fut[t.id]]))
  }

  lemma ThreadsKeep(s: State, t: Tid, s': State)
    requires Inv(s) && Moves(s, t, s') && LockOf(s', t) && Owner(s', t)
    ensures forall u {:trigger LockOf(s', u)} :: LockOf(s', u)
    ensures forall u {:trigger Owner(s', u)} :: Owner(s', u)
  {
    forall u
      ensures LockOf(s', u)
    {
      assert LockOf(s, u);
      assert LockOf(s, t);
    }
    forall u
      ensures Owner(s', u)
    {
      assert Owner(s, u);
    }
  }

  lemma ListingSame(s: State, s': State)
    requires Inv(s) && s'.list == s.list && s'.told == s.told && s'.fut == s.fut && s'.born == s.born &&
             s'.word.calls == s.word.calls
    ensures forall id {:trigger Listing(s', id)} :: Listing(s', id)
  {
    forall id
      ensures Listing(s', id)
    {
      assert Listing(s, id);
    }
  }

  lemma LockedHere(s: State, t: Tid)
    requires Inv(s)
    ensures Holding(At(s, t)) ==> s.lock == Some(t) && Phase(s, t)
    ensures s.lock == Some(t) ==> Holding(At(s, t))
    ensures Owner(s, t)
  {
    assert LockOf(s, t) && Owner(s, t);
  }

  lemma StartOneKeeps(s: State, t: Tid, s': State)
    requires Inv(s) && StartOne(s, t, s')
    ensures Inv(s')
  {
    LockedHere(s, t);
    ThreadsKeep(s, t, s');
    ListingSame(s, s');
  }

  lemma OneCasKeeps(s: State, t: Tid, s': State)
    requires Inv(s) && OneCas(s, t, s')
    ensures Inv(s')
  {
    LockedHere(s, t);
    if s.lock != None {
      PhaseFrame(s, s.lock.value, s');
    }
    ThreadsKeep(s, t, s');
    ListingSame(s, s');
  }

  lemma OneLockKeeps(s: State, t: Tid, s': State)
    requires Inv(s) && OneLock(s, t, s')
    ensures Inv(s')
  {
    LockedHere(s, t);
    ThreadsKeep(s, t, s');
    ListingSame(s, s');
  }

  lemma OneReloadKeeps(s: State, t: Tid, s': State)
    requires Inv(s) && OneReload(s, t, s')
    ensures Inv(s')
  {
    LockedHere(s, t);
    ThreadsKeep(s, t, s');
    ListingSame(s, s');
  }

  lemma LockedCasKeeps(s: State, t: Tid, s': State)
    requires Inv(s) && LockedCas(s, t, s')
    ensures Inv(s')
  {
    LockedHere(s, t);
    ThreadsKeep(s, t, s');
    ListingSame(s, s');
  }

  lemma ForcedStoreKeeps(s: State, t: Tid, s': State)
    requires Inv(s) && ForcedStore(s, t, s')
    ensures Inv(s')
  {
    LockedHere(s, t);
    ThreadsKeep(s, t, s');
    ListingSame(s, s');
  }

  lemma LockedPopKeeps(s: State, t: Tid, s': State)
    requires Inv(s) && LockedPop(s, t, s')
    ensures Inv(s')
  {
    LockedHere(s, t);
    PopBack(s.list);
    ThreadsKeep(s, t, s');
    forall id
      ensures Listing(s', id)
    {
      assert Listing(s, id);
    }
  }

  lemma PoppedStoreKeeps(s: State, t: Tid, s': State)
    requires Inv(s) && PoppedStore(s, t, s')
    ensures Inv(s')
  {
    LockedHere(s, t);
    ThreadsKeep(s, t, s');
    ListingSame(s, s');
  }

  lemma StartAllKeeps(s: State, t: Tid, s': State)
    requires Inv(s) && StartAll(s, t, s')
    ensures Inv(s')
  {
    LockedHere(s, t);
    ThreadsKeep(s, t, s');
    ListingSame(s, s');
  }

  lemma AllReloadKeeps(s: State, t: Tid, s': State)
    requires Inv(s) && AllReload(s, t, s')
    ensures Inv(s')
  {
    LockedHere(s, t);
    ThreadsKeep(s, t, s');
    ListingSame(s, s');
  }

  lemma AllIncKeeps(s: State, t: Tid, s': State)
    requires Inv(s) && AllInc(s, t, s')
    ensures Inv(s')
  {
    LockedHere(s, t);
    ThreadsKeep(s, t, s');
    forall id
      ensures Listing(s', id)
    {
      assert Listing(s, id);
    }
  }

  lemma AllPopKeeps(s: State, t: Tid, s': State)
    requires Inv(s) && AllPop(s, t, s')
    ensures Inv(s')
  {
    LockedHere(s, t);
    ThreadsKeep(s, t, s');
    forall id
      ensures Listing(s', id)
    {
      assert Listing(s, id);
    }
  }

  lemma AllStoreKeeps(s: State, t: Tid, s': State)
    requires Inv(s) && AllStore(s, t, s')
    ensures Inv(s')
  {
    LockedHere(s, t);
    ThreadsKeep(s, t, s');
    forall id
      ensures Listing(s', id)
    {
      assert Listing(s, id);
    }
  }

  lemma CreateKeeps(s: State, t: Tid, s': State)
    requires Inv(s) && Create(s, t, s')
    ensures Inv(s')
  {
    LockedHere(s, t);
    assert Listing(s, t.id);
    ThreadsKeep(s, t, s');
    forall id
      ensures Listing(s', id)
    {
      assert Listing(s, id);
    }
  }

  lemma StartPollKeeps(s: State, t: Tid, s': State)
    requires Inv(s) && StartPoll(s, t, s')
    ensures Inv(s')
  {
    LockedHere(s, t);
    ThreadsKeep(s, t, s');
    ListingSame(s, s');
  }

  lemma PollCasKeeps(s: State, t: Tid, s': State)
    requires Inv(s) && PollCas(s, t, s')
    ensures Inv(s')
  {
    LockedHere(s, t);
    assert Listing(s, t.id);
    if s.lock != None {
      PhaseFrame(s, s.lock.value, s');
    }
    ThreadsKeep(s, t, s');
    forall id
      ensures Listing(s', id)
    {
      assert Listing(s, id);
    }
  }

  lemma PollLockKeeps(s: State, t: Tid, s': State)
    requires Inv(s) && PollLock(s, t, s')
    ensures Inv(s')
  {
    LockedHere(s, t);
    ThreadsKeep(s, t, s');
    ListingSame(s, s');
  }

  lemma PollReloadKeeps(s: State, t: Tid, s': State)
    requires Inv(s) && PollReload(s, t, s')
    ensures Inv(s')
  {
    LockedHere(s, t);
    assert Listing(s, t.id);
    ThreadsKeep(s, t, s');
    forall id
      ensures Listing(s', id)
    {
      assert Listing(s, id);
    }
  }

  lemma PollClaimKeeps(s: State, t: Tid, s': State)
    requires Inv(s) && PollClaim(s, t, s')
    ensures Inv(s')
  {
    LockedHere(s, t);
    ThreadsKeep(s, t, s');
    ListingSame(s, s');
  }

  lemma PollTakeKeeps(s: State, t: Tid, s': State)
    requires Inv(s) && PollTake(s, t, s')
    ensures Inv(s')
  {
    LockedHere(s, t);
    assert Listing(s, t.id);
    ThreadsKeep(s, t, s');
    forall id
      ensures Listing(s', id)
    {
      assert Listing(s, id);
    }
  }

  lemma PollRetryKeeps(s: State, t: Tid, s': State)
    requires Inv(s) && PollRetry(s, t, s')
    ensures Inv(s')
  {
    LockedHere(s, t);
    ThreadsKeep(s, t, s');
    ListingSame(s, s');
  }

  lemma PollPushKeeps(s: State, t: Tid, s': State)
    requires Inv(s) && PollPush(s, t, s')
    ensures Inv(s')
  {
    LockedHere(s, t);
    assert Listing(s, t.id);
    PushFront(s.list, t.id);
    ThreadsKeep(s, t, s');
    forall id
      ensures Listing(s', id)
    {
      assert Listing(s, id);
    }
  }

  lemma PollListedKeeps(s: State, t: Tid, s': State)
    requires Inv(s) && PollListed(s, t, s')
    ensures Inv(s')
  {
    LockedHere(s, t);
    assert Listing(s, t.id);
    ThreadsKeep(s, t, s');
    forall id
      ensures Listing(s', id)
    {
      assert Listing(s, id);
    }
  }

  lemma DropUnlistedKeeps(s: State, t: Tid, s': State)
    requires Inv(s) && DropUnlisted(s, t, s')
    ensures Inv(s')
  {
    LockedHere(s, t);
    assert Listing(s, t.id);
    ThreadsKeep(s, t, s');
    forall id
      ensures Listing(s', id)
    {
      assert Listing(s, id);
    }
  }

  lemma DropLockKeeps(s: State, t: Tid, s': State)
    requires Inv(s) && DropLock(s, t, s')
    ensures Inv(s')
  {
    LockedHere(s, t);
    ThreadsKeep(s, t, s');
    ListingSame(s, s');
  }

  lemma DropRemoveKeeps(s: State, t: Tid, s': State)
    requires Inv(s) && DropRemove(s, t, s')
    ensures Inv(s')
  {
    LockedHere(s, t);
    assert Listing(s, t.id);
    WithoutMembers(s.list, t.id);
    ThreadsKeep(s, t, s');
    forall id
      ensures Listing(s', id)
    {
      assert Listing(s, id);
    }
  }

  lemma DropStoreKeeps(s: State, t: Tid, s': State)
    requires Inv(s) && DropStore(s, t, s')
    ensures Inv(s')
  {
    LockedHere(s, t);
    ThreadsKeep(s, t, s');
    ListingSame(s, s');
  }

  lemma DropEndKeeps(s: State, t: Tid, s': State)
    requires Inv(s) && DropEnd(s, t, s')
    ensures Inv(s')
  {
    LockedHere(s, t);
    ThreadsKeep(s, t, s');
    ListingSame(s, s');
  }

  /** Permits that come and go do not disturb the lock holder. */
  lemma PhaseFrame(s: State, u: Tid, s': State)
    requires Phase(s, u) && At(s', u) == At(s, u) && s'.list == s.list && s'.born == s.born
    requires Near(s.word, s'.word) && (s.word.mode == Waiting ==> s'.word == s.word)
    ensures Phase(s', u)
  {
  }

  lemma PushFront(list: seq<nat>, id: nat)
    requires Distinct(list) && id !in list
    ensures Distinct([id] + list)
  {
    Spread(list);
  }

  lemma PopBack(list: seq<nat>)
    requires list != [] && Distinct(list)
    ensures var n := |list| - 1;
            Distinct(list[..n]) && forall id :: id in list[..n] <==> id in list && id != list[n]
  {
    var n := |list| - 1;
    Spread(list);
    forall id
      ensures id in list[..n] <==> id in list && id != list[n]
    {
      if id in list && id != list[n] {
        var i :| 0 <= i < |list| && list[i] == id;
        assert list[..n][i] == id;
      }
    }
  }

  lemma {:induction false} WithoutMembers(list: seq<nat>, id: nat)
    requires Distinct(list)
    ensures forall x :: x in Without(list, id) <==> x in list && x != id
    ensures Distinct(Without(list, id))
  {
    if list != [] {
      var rest := list[1..];
      Spread(list);
      assert forall i, j :: 0 <= i < j < |rest| ==> rest[i] == list[i + 1] && rest[j] == list[j + 1];
      WithoutMembers(rest, id);
      assert list[0] !in rest;
      assert forall x :: x in list <==> x == list[0] || x in rest;
      if list[0] != id {
        PushFront(Without(rest, id), list[0]);
      }
    }
  }
}
