/**
 What holds in every state of every run of the page store, with any number of restarts.
 */
module PageStoreTheorems {
  import opened PageStore
  import opened PageStoreInv
  import opened PageStoreSteps
  import opened PageStoreJobs
  import opened PageStoreRecovery

  lemma InitInv(s: State)
    requires Init(s)
    ensures Inv(s)
  {
    forall k: nat
      ensures Successive(s.versions, k)
    {
    }
    assert VersionOk(s, s.versions[0]);
  }

  lemma StepInv(s: State, s': State, step: Step)
    requires Inv(s) && Next(s, s', step)
    ensures Inv(s')
  {
    match step
    case AllocStep(t, a) => AllocInv(s, s', t, a);
    case PublishNewStep(t, id, a) => PublishNewInv(s, s', t, id, a);
    case PublishOverStep(t, id, a, n) => PublishOverInv(s, s', t, id, a, n);
    case FinishStep(t) => FinishInv(s, s', t);
    case SealStep => SealInv(s, s');
    case InstallBufferStep => InstallBufferInv(s, s');
    case TakeFileIdStep => TakeFileIdInv(s, s');
    case FlushStep(file) => FlushInv(s, s', file);
    case CompactStartStep(k, victims, file) => CompactStartInv(s, s', k, victims, file);
    case CompactInstallStep => CompactInstallInv(s, s');
    case PinStep(g) => PinInv(s, s', g);
    case UnpinStep(g) => UnpinInv(s, s', g);
    case CleanupStep => CleanupInv(s, s');
    case RestartStep(next, groups, table) => RestartInv(s, s', next, groups, table);
  }

  ghost predicate IsRun(states: seq<State>, steps: seq<Step>) {
    && |states| == |steps| + 1
    && Init(states[0])
    && forall i :: 0 <= i < |steps| ==> Next(states[i], states[i + 1], steps[i])
  }

  lemma {:induction false} EveryStateInv(states: seq<State>, steps: seq<Step>, n: nat)
    requires IsRun(states, steps) && n < |states|
    ensures Inv(states[n])
  {
    if n == 0 {
      InitInv(states[0]);
    } else {
      EveryStateInv(states, steps, n - 1);
      assert Next(states[n - 1], states[n - 1 + 1], steps[n - 1]);
      StepInv(states[n - 1], states[n], steps[n - 1]);
    }
  }

  /** In every state of every run, a guard can read every address that was reachable from the page
      table at any moment since it was pinned, whatever was flushed, compacted and cleaned up. */
  lemma NoMissingPage(states: seq<State>, steps: seq<Step>, n: nat, g: GuardId, a: Addr)
    requires IsRun(states, steps) && n < |states| && g in states[n].guards && a in states[n].guards[g].seen
    ensures var s := states[n];
            s.guards[g].ver < |s.versions| && Resolves(s, s.versions[s.guards[g].ver], a)
  {
    EveryStateInv(states, steps, n);
    assert GuardOk(states[n], states[n].guards[g]);
    PinnedGuardResolves(states[n], g, a);
  }

  /** In every run, every turn of the cleanup job releases exactly the next buffer and removes no file
      that a version still in use lists. */
  lemma NoCleanupPanic(states: seq<State>, steps: seq<Step>, n: nat)
    requires IsRun(states, steps) && n < |steps| && steps[n] == CleanupStep
    ensures var s := states[n];
            && s.cleaned + 1 < |s.versions|
            && (s.versions[s.cleaned + 1].flush ==> s.bufMin + 1 == s.versions[s.cleaned + 1].first)
            && forall k :: s.cleaned < k < |s.versions| ==> s.versions[s.cleaned + 1].obsoleted !! s.versions[k].files
  {
    EveryStateInv(states, steps, n);
    assert Next(states[n], states[n + 1], steps[n]);
    CleanupIsSafe(states[n], states[n + 1]);
  }

  /** The table entry of a page id strictly increases. */
  lemma EntriesGrow(s: State, id: Id, i: nat, j: nat)
    requires Inv(s) && id in s.heads && i < j < |s.heads[id]|
    ensures Less(s.heads[id][i], s.heads[id][j])
    ensures id in s.chain && s.chain[id] != [] && s.chain[id][0] == s.heads[id][|s.heads[id]| - 1]
  {
    assert HeadOk(s.pages, s.dead, s.chainAt, s.heads[id], id, j);
    assert IdOk(s, id);
    assert HeadOk(s.pages, s.dead, s.chainAt, s.heads[id], id, |s.heads[id]| - 1);
  }
}
