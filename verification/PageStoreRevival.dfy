/**
 A run in which a compaction brings a dead page back (photondb/src/page_store/jobs/reclaim.rs): the page is
 deallocated by a flush between the start of the compaction and its installation.
 */
module PageStoreRevival {
  import opened Options
  import opened PageStore
  import opened PageStoreTheorems

  const OLD := Addr(1, 0)
  const NEW := Addr(2, 0)

  const OLD_FILE := FileMeta(map[1 := map[OLD := 1]], {})
  const NEW_FILE := FileMeta(map[2 := map[NEW := 1]], {OLD})

  const EMPTY := Version(1, map[], {}, {}, true)
  const FIRST := Version(2, map[1 := Group(1, {OLD})], {1}, {}, true)
  const SECOND := Version(3, map[2 := Group(3, {NEW})], {3}, {1}, true)
  const COMPACTED := Version(3, map[2 := Group(3, {NEW}), 1 := Group(2, {OLD})], {3, 2}, {1}, false)
  const JOB := Job(1, {1}, 2)

  // ----- The states: page id 1 gets a page, which is flushed; the compaction of its file starts; the page is
  //       replaced, and that is flushed; the compaction is installed

  function S0(): State {
    State(map[], {}, {}, 1, 2, {}, map[],
          map[], map[], map[],
          map[], {}, [EMPTY],
          0, None, map[], 1, None)
  }

  function S1(): State {
    State(map[], {}, {}, 1, 2, {OLD}, map[0 := Txn(1, {OLD})],
          map[], map[], map[],
          map[], {}, [EMPTY],
          0, None, map[], 1, None)
  }

  function S2(): State {
    State(map[OLD := 1], {}, {}, 1, 2, {OLD}, map[0 := Txn(1, {OLD})],
          map[1 := [OLD]], map[1 := [OLD]], map[OLD := [OLD]],
          map[], {}, [EMPTY],
          0, None, map[], 1, None)
  }

  function S3(): State {
    State(map[OLD := 1], {}, {}, 1, 2, {OLD}, map[],
          map[1 := [OLD]], map[1 := [OLD]], map[OLD := [OLD]],
          map[], {}, [EMPTY],
          0, None, map[], 1, None)
  }

  function S4(): State {
    State(map[OLD := 1], {}, {1}, 1, 2, {OLD}, map[],
          map[1 := [OLD]], map[1 := [OLD]], map[OLD := [OLD]],
          map[], {}, [EMPTY],
          0, None, map[], 1, None)
  }

  function S5(): State {
    State(map[OLD := 1], {}, {1}, 1, 3, {OLD}, map[],
          map[1 := [OLD]], map[1 := [OLD]], map[OLD := [OLD]],
          map[], {}, [EMPTY],
          0, None, map[], 1, None)
  }

  function S6(): State {
    State(map[OLD := 1], {}, {1}, 1, 3, {OLD}, map[],
          map[1 := [OLD]], map[1 := [OLD]], map[OLD := [OLD]],
          map[], {}, [EMPTY],
          0, None, map[], 2, Some(1))
  }

  function S7(): State {
    State(map[OLD := 1], {}, {1}, 1, 3, {OLD}, map[],
          map[1 := [OLD]], map[1 := [OLD]], map[OLD := [OLD]],
          map[1 := OLD_FILE], {1}, [EMPTY, FIRST],
          0, None, map[], 2, None)
  }

  function S8(): State {
    State(map[OLD := 1], {}, {1}, 1, 3, {OLD}, map[],
          map[1 := [OLD]], map[1 := [OLD]], map[OLD := [OLD]],
          map[1 := OLD_FILE, 2 := OLD_FILE], {1, 2}, [EMPTY, FIRST],
          0, Some(JOB), map[], 3, None)
  }

  function S9(): State {
    State(map[OLD := 1], {}, {1}, 1, 3, {OLD, NEW}, map[0 := Txn(2, {NEW})],
          map[1 := [OLD]], map[1 := [OLD]], map[OLD := [OLD]],
          map[1 := OLD_FILE, 2 := OLD_FILE], {1, 2}, [EMPTY, FIRST],
          0, Some(JOB), map[], 3, None)
  }

  function S10(): State {
    State(map[OLD := 1, NEW := 1], {(2, OLD)}, {1}, 1, 3, {OLD, NEW}, map[0 := Txn(2, {NEW})],
          map[1 := [NEW]], map[1 := [OLD, NEW]], map[OLD := [OLD], NEW := [NEW]],
          map[1 := OLD_FILE, 2 := OLD_FILE], {1, 2}, [EMPTY, FIRST],
          0, Some(JOB), map[], 3, None)
  }

  function S11(): State {
    State(map[OLD := 1, NEW := 1], {(2, OLD)}, {1}, 1, 3, {OLD, NEW}, map[],
          map[1 := [NEW]], map[1 := [OLD, NEW]], map[OLD := [OLD], NEW := [NEW]],
          map[1 := OLD_FILE, 2 := OLD_FILE], {1, 2}, [EMPTY, FIRST],
          0, Some(JOB), map[], 3, None)
  }

  function S12(): State {
    State(map[OLD := 1, NEW := 1], {(2, OLD)}, {1, 2}, 1, 3, {OLD, NEW}, map[],
          map[1 := [NEW]], map[1 := [OLD, NEW]], map[OLD := [OLD], NEW := [NEW]],
          map[1 := OLD_FILE, 2 := OLD_FILE], {1, 2}, [EMPTY, FIRST],
          0, Some(JOB), map[], 3, None)
  }

  function S13(): State {
    State(map[OLD := 1, NEW := 1], {(2, OLD)}, {1, 2}, 1, 4, {OLD, NEW}, map[],
          map[1 := [NEW]], map[1 := [OLD, NEW]], map[OLD := [OLD], NEW := [NEW]],
          map[1 := OLD_FILE, 2 := OLD_FILE], {1, 2}, [EMPTY, FIRST],
          0, Some(JOB), map[], 3, None)
  }

  function S14(): State {
    State(map[OLD := 1, NEW := 1], {(2, OLD)}, {1, 2}, 1, 4, {OLD, NEW}, map[],
          map[1 := [NEW]], map[1 := [OLD, NEW]], map[OLD := [OLD], NEW := [NEW]],
          map[1 := OLD_FILE, 2 := OLD_FILE], {1, 2}, [EMPTY, FIRST],
          0, Some(JOB), map[], 4, Some(3))
  }

  function S15(): State {
    State(map[OLD := 1, NEW := 1], {(2, OLD)}, {1, 2}, 1, 4, {OLD, NEW}, map[],
          map[1 := [NEW]], map[1 := [OLD, NEW]], map[OLD := [OLD], NEW := [NEW]],
          map[1 := OLD_FILE, 2 := OLD_FILE, 3 := NEW_FILE], {1, 2, 3}, [EMPTY, FIRST, SECOND],
          0, Some(JOB), map[], 4, None)
  }

  function S16(): State {
    State(map[OLD := 1, NEW := 1], {(2, OLD)}, {1, 2}, 1, 4, {OLD, NEW}, map[],
          map[1 := [NEW]], map[1 := [OLD, NEW]], map[OLD := [OLD], NEW := [NEW]],
          map[1 := OLD_FILE, 2 := OLD_FILE, 3 := NEW_FILE], {1, 2, 3}, [EMPTY, FIRST, SECOND, COMPACTED],
          0, None, map[], 4, None)
  }

  // ----- The steps

  lemma PublishesOld()
    ensures Observe(Publish(S1(), 1, OLD, [OLD], [])) == S2()
  {
    var p := Publish(S1(), 1, OLD, [OLD], []);
    var q := S2();
    var none: seq<Addr> := [];
    assert none + [OLD] == [OLD];
    assert p.dead == q.dead && p.heads == q.heads && p.pages == q.pages && p.chain == q.chain && p.chainAt == q.chainAt;
    assert Observe(p).guards == q.guards;
  }

  lemma FlushesOld()
    ensures FlushVersion(S6(), EMPTY, 1, 1) == FIRST
    ensures FileMeta(map[1 := FlushedPages(S6(), 1)], ForeignDealloc(S6(), 1)) == OLD_FILE
  {
    var s := S6();
    assert FlushedPages(s, 1) == map[OLD := 1];
    assert ForeignDealloc(s, 1) == {};
    assert Deactivate(EMPTY.groups, {}) == map[];
    assert NeededFiles(s, {}, map[]) == {};
    assert map[OLD := 1].Keys == {OLD};
  }

  lemma Moves(s: State)
    requires 1 in s.meta && s.meta[1] == OLD_FILE
    ensures Moved(s, FIRST, {1}, 1) && MovedPages(s, FIRST, 1) == map[OLD := 1]
    ensures CompactedMeta(s, FIRST, {1}) == OLD_FILE
  {
    assert MovedPages(s, FIRST, 1) == map[OLD := 1];
    assert CompactedMeta(s, FIRST, {1}).groups == map[1 := map[OLD := 1]];
    assert CompactedMeta(s, FIRST, {1}).dealloc == {};
  }

  lemma Installs(s: State)
    requires 1 in s.meta && s.meta[1] == OLD_FILE && s.versions == [EMPTY, FIRST, SECOND]
    ensures CompactVersion(s, SECOND, JOB) == COMPACTED
  {
    Moves(s);
    assert MovedGroups(s, FIRST, {1}, 2) == map[1 := Group(2, {OLD})];
    assert SECOND.groups + map[1 := Group(2, {OLD})] == COMPACTED.groups;
    assert (SECOND.files - {1}) + {2} == COMPACTED.files;
  }

  lemma PublishesNew()
    ensures S9().chain[1][1..] == [] && S9().chain[1][..1] == [OLD]
    ensures Observe(Publish(S9(), 1, NEW, [NEW] + [], [OLD])) == S10()
  {
    var p := Publish(S9(), 1, NEW, [NEW] + [], [OLD]);
    var q := S10();
    assert p.dead == q.dead && p.pages == q.pages;
    assert p.heads == q.heads by {
      assert [OLD] + [NEW] == [OLD, NEW];
    }
    assert [NEW] + [] == [NEW];
    assert p.chain == q.chain && p.chainAt == q.chainAt;
    assert Observe(p).guards == q.guards;
  }

  /** The flush drops the group of the replaced page, which is then empty, and its file. */
  lemma FlushesNew()
    ensures FlushVersion(S14(), FIRST, 3, 2) == SECOND
    ensures FileMeta(map[2 := FlushedPages(S14(), 2)], ForeignDealloc(S14(), 2)) == NEW_FILE
  {
    var s := S14();
    assert FlushedPages(s, 2) == map[NEW := 1];
    assert ForeignDealloc(s, 2) == {OLD};
    assert Deactivate(FIRST.groups, {OLD}) == map[];
    assert NeededFiles(s, {1}, map[]) == {};
    assert map[NEW := 1].Keys == {NEW};
  }

  lemma Step1()
    ensures Next(S0(), S1(), AllocStep(0, OLD))
  {
    var s, s' := S0(), S1();
    var none: set<Addr> := {};
    assert none + {OLD} == {OLD};
    assert s'.taken == s.taken + {OLD} && s'.txns == s.txns[0 := Txn(1, none + {OLD})];
  }

  lemma Step2()
    ensures Next(S1(), S2(), PublishNewStep(0, 1, OLD))
  {
    PublishesOld();
  }

  lemma Step3()
    ensures Next(S2(), S3(), FinishStep(0))
  {
    assert S3().txns == map u | u in S2().txns && u != 0 :: S2().txns[u];
  }

  lemma Step4()
    ensures Next(S3(), S4(), SealStep)
  {
  }

  lemma Step5()
    ensures Next(S4(), S5(), InstallBufferStep)
  {
  }

  lemma Step6()
    ensures Next(S5(), S6(), TakeFileIdStep)
  {
  }

  lemma Step7()
    ensures Next(S6(), S7(), FlushStep(1))
  {
    FlushesOld();
  }

  lemma Step8()
    ensures Next(S7(), S8(), CompactStartStep(1, {1}, 2))
  {
    Moves(S7());
    assert CompactedMeta(S7(), FIRST, {1}).dealloc == {};
  }

  lemma Step9()
    ensures Next(S8(), S9(), AllocStep(0, NEW))
  {
    var s, s' := S8(), S9();
    var none: set<Addr> := {};
    assert none + {NEW} == {NEW};
    assert s'.taken == s.taken + {NEW} && s'.txns == s.txns[0 := Txn(2, none + {NEW})];
  }

  lemma Step10()
    ensures Next(S9(), S10(), PublishOverStep(0, 1, NEW, 1))
  {
    PublishesNew();
  }

  lemma Step11()
    ensures Next(S10(), S11(), FinishStep(0))
  {
    assert S11().txns == map u | u in S10().txns && u != 0 :: S10().txns[u];
  }

  lemma Step12()
    ensures Next(S11(), S12(), SealStep)
  {
  }

  lemma Step13()
    ensures Next(S12(), S13(), InstallBufferStep)
  {
  }

  lemma Step14()
    ensures Next(S13(), S14(), TakeFileIdStep)
  {
  }

  lemma Step15()
    ensures Next(S14(), S15(), FlushStep(3))
  {
    FlushesNew();
  }

  lemma Step16()
    ensures Next(S15(), S16(), CompactInstallStep)
  {
    Installs(S15());
  }

  // ----- The run

  lemma Longer(states: seq<State>, steps: seq<Step>, s: State, step: Step)
    returns (states': seq<State>, steps': seq<Step>)
    requires IsRun(states, steps) && Next(states[|states| - 1], s, step)
    ensures IsRun(states', steps') && steps' == steps + [step] && |states'| == |states| + 1
    ensures states'[|states|] == s
  {
    states', steps' := states + [s], steps + [step];
  }

  lemma RunToStart() returns (states: seq<State>, steps: seq<Step>)
    ensures IsRun(states, steps) && |steps| == 8 && states[8] == S8()
  {
    states, steps := [S0()], [];
    Step1();
    states, steps := Longer(states, steps, S1(), AllocStep(0, OLD));
    Step2();
    states, steps := Longer(states, steps, S2(), PublishNewStep(0, 1, OLD));
    Step3();
    states, steps := Longer(states, steps, S3(), FinishStep(0));
    Step4();
    states, steps := Longer(states, steps, S4(), SealStep);
    Step5();
    states, steps := Longer(states, steps, S5(), InstallBufferStep);
    Step6();
    states, steps := Longer(states, steps, S6(), TakeFileIdStep);
    Step7();
    states, steps := Longer(states, steps, S7(), FlushStep(1));
    Step8();
    states, steps := Longer(states, steps, S8(), CompactStartStep(1, {1}, 2));
  }

  /** After a run of sixteen steps the current version has a page as active that a flushed buffer deallocated. */
  lemma CompactionCanRevive() returns (states: seq<State>, steps: seq<Step>)
    ensures IsRun(states, steps) && |steps| == 16 && steps[15] == CompactInstallStep
    ensures |states[16].versions| > 0 && (2, OLD) in states[16].dead
    ensures var v := Current(states[16]); v.first == 3 && 1 in v.groups && OLD in v.groups[1].active
  {
    states, steps := RunToStart();
    Step9();
    states, steps := Longer(states, steps, S9(), AllocStep(0, NEW));
    Step10();
    states, steps := Longer(states, steps, S10(), PublishOverStep(0, 1, NEW, 1));
    Step11();
    states, steps := Longer(states, steps, S11(), FinishStep(0));
    Step12();
    states, steps := Longer(states, steps, S12(), SealStep);
    Step13();
    states, steps := Longer(states, steps, S13(), InstallBufferStep);
    Step14();
    states, steps := Longer(states, steps, S14(), TakeFileIdStep);
    Step15();
    states, steps := Longer(states, steps, S15(), FlushStep(3));
    Step16();
    states, steps := Longer(states, steps, S16(), CompactInstallStep);
  }
}
