/** The rules under which mutual exclusion holds are exactly the disciplined ones: each rule that
    is dropped admits a run in which two sides' jobs run together, even when pods check the
    fencing token before they start. */
module FailoverLimits {
  import opened Wrappers
  import opened Coord
  import opened Failover
  import FailoverSafety

  ghost predicate Reaches(rules: Rules, s: System, s': System) {
    exists run, actions :: IsRun(rules, run, actions) && run[0] == s && run[|run| - 1] == s'
  }

  lemma One(rules: Rules, s: System, a: Action) returns (s': System)
    requires Enabled(rules, s, a)
    ensures s' == Apply(rules, s, a) && Reaches(rules, s, s')
  {
    s' := Apply(rules, s, a);
    assert IsRun(rules, [s, s'], [a]);
  }

  lemma Trans(rules: Rules, s: System, t: System, u: System)
    requires Reaches(rules, s, t) && Reaches(rules, t, u)
    ensures Reaches(rules, s, u)
  {
    var run1, actions1 :| IsRun(rules, run1, actions1) && run1[0] == s && run1[|run1| - 1] == t;
    var run2, actions2 :| IsRun(rules, run2, actions2) && run2[0] == t && run2[|run2| - 1] == u;
    var run, actions := run1 + run2[1..], actions1 + actions2;
    forall i | 0 <= i < |actions|
      ensures Enabled(rules, run[i], actions[i]) && run[i + 1] == Apply(rules, run[i], actions[i])
    {
      if i >= |actions1| {
        assert run[i] == run2[i - |actions1|] && run[i + 1] == run2[i - |actions1| + 1];
      }
    }
    assert IsRun(rules, run, actions);
  }

  lemma Then(rules: Rules, s: System, t: System, a: Action) returns (u: System)
    requires Reaches(rules, s, t) && Enabled(rules, t, a)
    ensures u == Apply(rules, t, a) && Reaches(rules, s, u)
  {
    u := One(rules, t, a);
    Trans(rules, s, t, u);
  }

  /** A Release from its first step to the token write. `zero` says how the wait ends. */
  lemma ReleaseUntilStopped(rules: Rules, s: System, id: TaskId, savepoint: string, zero: bool) returns (s': System)
    requires id in s.tasks && s.tasks[id].op.Release? && s.tasks[id].step.Savepoint? && s.tasks[id].side in s.jobs
    requires zero || rules.waitTimeout
    ensures Reaches(rules, s, s')
    ensures s'.tasks == s.tasks[id := s.tasks[id].(step := TokenNeutral(SavepointOf(savepoint)))]
    ensures s'.jobs == s.jobs[s.tasks[id].side := Job(false, if zero then false else s.jobs[s.tasks[id].side].pods)]
    ensures s'.store == s.store && s'.neutral == s.neutral
  {
    var side := s.tasks[id].side;
    s' := One(rules, s, Advance(id, Saved(savepoint)));
    var rp := SavepointOf(savepoint);
    s' := Then(rules, s, s', Advance(id, Wrote(Delivered)));
    if zero {
      s' := Then(rules, s, s', PodsDown(side));
    }
    s' := Then(rules, s, s', Advance(id, WaitEnded(zero)));
    assert s'.tasks == s.tasks[id := s.tasks[id].(step := TokenNeutral(rp))];
  }

  /** The two last steps of a Release. */
  lemma ReleaseTail(rules: Rules, s: System, id: TaskId) returns (s': System)
    requires id in s.tasks && s.tasks[id].op.Release? && s.tasks[id].step.TokenNeutral? && s.tasks[id].side in s.jobs
    requires s.store.handoff.Some?
    ensures Reaches(rules, s, s')
    ensures s'.jobs == s.jobs && s'.tasks == s.tasks - {id} && s'.neutral == s.neutral
    ensures s'.store.token == s.neutral && s'.store.handoff.Some?
    ensures s'.store.handoff.value.record
            == ReleasedRecord(CurrentRecord(s.store), s.tasks[id].side, s.tasks[id].step.rp)
  {
    s' := One(rules, s, Advance(id, Wrote(Delivered)));
    s' := Then(rules, s, s', Advance(id, HandoffRead(true)));
    s' := Then(rules, s, s', Advance(id, Wrote(Delivered)));
    assert s'.tasks == s.tasks - {id};
  }

  lemma FullRelease(rules: Rules, s: System, id: TaskId, side: ClusterId, savepoint: string, zero: bool)
    returns (s': System)
    requires Enabled(rules, s, StartRelease(id, side)) && s.store.handoff.Some?
    requires zero || rules.waitTimeout
    ensures Reaches(rules, s, s')
    ensures s'.jobs == s.jobs[side := Job(false, if zero then false else s.jobs[side].pods)]
    ensures s'.tasks == s.tasks && s'.neutral == s.neutral
    ensures s'.store.token == s.neutral
    ensures s'.store.handoff.Some?
    ensures var held, record := s.store.handoff.value.record, s'.store.handoff.value.record;
            && record.activeClusterId == held.activeClusterId && record.epoch == held.epoch
            && record.phase == Released && record.releasedBy == side
            && (if savepoint == "" then record.recoveryPoint.path == ""
                else record.recoveryPoint == RecoveryPointRef(savepoint, "savepoint"))
  {
    var s1 := One(rules, s, StartRelease(id, side));
    var s2 := ReleaseUntilStopped(rules, s1, id, savepoint, zero);
    Trans(rules, s, s1, s2);
    s' := ReleaseTail(rules, s2, id);
    Trans(rules, s, s2, s');
    assert s'.tasks == s.tasks;
  }

  /** A Promote that has read the record and passed the gate. */
  lemma PromoteUntilRead(rules: Rules, s: System, id: TaskId, side: ClusterId, force: bool) returns (s': System)
    requires Enabled(rules, s, StartPromote(id, side, force)) && MayPromote(Promote(force), CurrentRecord(s.store))
    ensures Reaches(rules, s, s')
    ensures var step := PickRecovery(CurrentRecord(s.store), CurrentTag(s.store));
            s' == s.(tasks := s.tasks[id := Task(side, Promote(force), step)])
  {
    s' := One(rules, s, StartPromote(id, side, force));
    s' := Then(rules, s, s', Advance(id, HandoffRead(true)));
  }

  /** A Promote up to its accepted compare-and-swap. */
  lemma PromoteUntilClaimed(rules: Rules, s: System, id: TaskId, side: ClusterId, force: bool,
                            listing: Option<seq<RecoveryPoint>>)
    returns (s': System)
    requires Enabled(rules, s, StartPromote(id, side, force)) && s.store.handoff.Some?
    requires MayPromote(Promote(force), CurrentRecord(s.store))
    ensures Reaches(rules, s, s')
    ensures var rp := RecoveryChoice(CurrentRecord(s.store), listing);
            s'.tasks == s.tasks[id := Task(side, Promote(force), TokenToSelf(rp, |s.accepted|))]
    ensures s'.jobs == s.jobs && s'.started == s.started && s'.neutral == s.neutral && s'.store.token == s.store.token
    ensures CurrentRecord(s'.store) == Some(ClaimOver(CurrentRecord(s.store), side, listing))
  {
    var rp := RecoveryChoice(CurrentRecord(s.store), listing);
    s' := PromoteUntilRead(rules, s, id, side, force);
    s' := Then(rules, s, s', Advance(id, Listed(listing)));
    s' := Then(rules, s, s', Advance(id, Wrote(Delivered)));
    assert s'.tasks == s.tasks[id := Task(side, Promote(force), TokenToSelf(rp, |s.accepted|))];
  }

  /** A Promote in which every request succeeds, followed by the start of the pods. */
  lemma FullPromote(rules: Rules, s: System, id: TaskId, side: ClusterId, force: bool,
                    listing: Option<seq<RecoveryPoint>>)
    returns (s': System)
    requires Enabled(rules, s, StartPromote(id, side, force)) && s.store.handoff.Some?
    requires MayPromote(Promote(force), CurrentRecord(s.store))
    ensures Reaches(rules, s, s')
    ensures s'.jobs == s.jobs[side := Job(true, true)] && s'.tasks == s.tasks
    ensures s'.store.token == side && s'.neutral == s.neutral
    ensures var rp := RecoveryChoice(CurrentRecord(s.store), listing);
            && CurrentRecord(s'.store)
               == Some(HandoffRecord(side, WrapInt64(s.store.handoff.value.record.epoch + 1), Stable, rp, ""))
            && |s'.started| > 0 && s'.started[|s'.started| - 1].path == rp.path
  {
    s' := PromoteUntilClaimed(rules, s, id, side, force, listing);
    s' := Then(rules, s, s', Advance(id, Wrote(Delivered)));
    s' := Then(rules, s, s', Advance(id, Wrote(Delivered)));
    assert s'.jobs[side].desired && s'.tasks[id].step == VerifyLocal;
    s' := Then(rules, s, s', Advance(id, Verified));
    assert s'.tasks == s.tasks;
    s' := Then(rules, s, s', PodsUp(side));
  }

  /** The planned switch does work: from any initial state whose owner is running, a Release there
      and a Promote elsewhere end with only the other side running. It starts from the savepoint of the
      Release; without one from the newest checkpoint of the listing, if it could be listed. */
  lemma PlannedSwitch(rules: Rules, s: System, from: ClusterId, to: ClusterId, savepoint: string,
                      listing: Option<seq<RecoveryPoint>>)
    returns (s': System, rp: RecoveryPointRef)
    requires Initial(s) && s.store.token == from && s.jobs[from].pods
    requires to in s.jobs && to != from
    ensures Reaches(rules, s, s') && s'.tasks == map[]
    ensures s'.jobs == s.jobs[from := Job(false, false)][to := Job(true, true)]
    ensures s'.store.token == to
    ensures CurrentRecord(s'.store)
            == Some(HandoffRecord(to, WrapInt64(s.store.handoff.value.record.epoch + 1), Stable, rp, ""))
    ensures |s'.started| > 0 && s'.started[|s'.started| - 1].path == rp.path
    ensures savepoint != "" ==> rp == RecoveryPointRef(savepoint, "savepoint")
    ensures savepoint == "" && listing.None? ==> rp == RecoveryPointRef("", "none")
    ensures savepoint == "" && listing.Some? && NewestFirst(listing.value) ==> IsNewestChoice(rp, listing.value)
  {
    var s1 := FullRelease(rules, s, 0, from, savepoint, true);
    s' := FullPromote(rules, s1, 1, to, false, listing);
    Trans(rules, s, s1, s');
    rp := RecoveryChoice(CurrentRecord(s1.store), listing);
    if savepoint == "" && listing.Some? && NewestFirst(listing.value) {
      ChoiceIsNewestCheckpoint(CurrentRecord(s1.store), listing.value);
    }
  }

  // ---------- one run for every rule that is dropped ----------

  const A: ClusterId := "cluster-a"
  const B: ClusterId := "cluster-b"

  /** Cluster A owns the group and runs, cluster B is on standby. */
  const PAIR := System(
    Store(A, Some(Stored(HandoffRecord(A, 1, Stable, RecoveryPointRef("", "none"), ""), Tag(1))), 1),
    "__switching__",
    map[A := Job(true, true), B := Job(false, false)],
    map[], [], [])

  lemma DistinctNames()
    ensures A != B && "__switching__" != A && "__switching__" != B
  {
    assert A[8] != B[8] && |A| != |"__switching__"| && |B| != |"__switching__"|;
  }

  ghost predicate SplitBrain(s: System) {
    A in s.jobs && B in s.jobs && s.jobs[A].pods && s.jobs[B].pods
  }

  /** A forced Promote starts B while A runs. */
  lemma ForcedPromoteBreaks(rules: Rules) returns (s: System)
    requires rules.forcedPromote
    ensures Reaches(rules, PAIR, s) && SplitBrain(s)
  {
    DistinctNames();
    s := FullPromote(rules, PAIR, 0, B, true, None);
  }

  /** The wait times out, A's pods are still up when B starts. */
  lemma WaitTimeoutBreaks(rules: Rules) returns (s: System)
    requires rules.waitTimeout
    ensures Reaches(rules, PAIR, s) && SplitBrain(s)
  {
    DistinctNames();
    var s1 := FullRelease(rules, PAIR, 0, A, "", false);
    s := FullPromote(rules, s1, 0, B, false, None);
    Trans(rules, PAIR, s1, s);
  }

  /** The idle side B releases what it does not own, and is then free to promote itself. */
  lemma IdleReleaseBreaks(rules: Rules) returns (s: System)
    requires rules.releaseWhileIdle
    ensures Reaches(rules, PAIR, s) && SplitBrain(s)
  {
    DistinctNames();
    var s1 := FullRelease(rules, PAIR, 0, B, "", true);
    s := FullPromote(rules, s1, 0, B, false, None);
    Trans(rules, PAIR, s1, s);
  }

  /** A second Release of A, started while A still ran, publishes `released` once B has taken over. */
  lemma OverlappingTasksBreak(rules: Rules) returns (s: System)
    requires rules.overlappingTasks
    ensures Reaches(rules, PAIR, s) && SplitBrain(s)
  {
    DistinctNames();
    var s1 := One(rules, PAIR, StartRelease(7, A));
    var s2 := FullRelease(rules, s1, 0, A, "", true);
    Trans(rules, PAIR, s1, s2);
    var s3 := FullPromote(rules, s2, 0, B, false, None);
    Trans(rules, PAIR, s2, s3);
    var s4 := ReleaseUntilStopped(rules, s3, 7, "", true);
    Trans(rules, PAIR, s3, s4);
    var s5 := ReleaseTail(rules, s4, 7);
    Trans(rules, PAIR, s4, s5);
    s := FullPromote(rules, s5, 0, A, false, None);
    Trans(rules, PAIR, s5, s);
  }

  /** A is resumed from the Jobs page after its Release has seen it stop. */
  lemma OtherLifecycleBreaks(rules: Rules) returns (s: System)
    requires rules.otherLifecycle
    ensures Reaches(rules, PAIR, s) && SplitBrain(s)
  {
    DistinctNames();
    var s1 := One(rules, PAIR, StartRelease(0, A));
    var s2 := ReleaseUntilStopped(rules, s1, 0, "", true);
    Trans(rules, PAIR, s1, s2);
    var s3 := Then(rules, PAIR, s2, Resume(A));
    s3 := Then(rules, PAIR, s3, PodsUp(A));
    var s4 := ReleaseTail(rules, s3, 0);
    Trans(rules, PAIR, s3, s4);
    s := FullPromote(rules, s4, 0, B, false, None);
    Trans(rules, PAIR, s4, s);
  }

  /** Every run that starts from one owner keeps the jobs exclusive. */
  ghost predicate AlwaysExclusive(rules: Rules) {
    forall run, actions :: IsRun(rules, run, actions) && Initial(run[0]) ==> Exclusive(run[|run| - 1])
  }

  /** Mutual exclusion holds in every run if and only if no rule is dropped. */
  lemma ExclusiveExactlyWhenDisciplined(rules: Rules)
    ensures AlwaysExclusive(rules) <==> Disciplined(rules)
  {
    if Disciplined(rules) {
      forall run, actions | IsRun(rules, run, actions) && Initial(run[0])
        ensures Exclusive(run[|run| - 1])
      {
        FailoverSafety.MutualExclusion(rules, run, actions, |run| - 1);
      }
    } else {
      DistinctNames();
      var s: System;
      if rules.forcedPromote {
        s := ForcedPromoteBreaks(rules);
      } else if rules.overlappingTasks {
        s := OverlappingTasksBreak(rules);
      } else if rules.releaseWhileIdle {
        s := IdleReleaseBreaks(rules);
      } else if rules.waitTimeout {
        s := WaitTimeoutBreaks(rules);
      } else {
        s := OtherLifecycleBreaks(rules);
      }
      var run, actions :| IsRun(rules, run, actions) && run[0] == PAIR && run[|run| - 1] == s;
      assert Initial(PAIR) && !Exclusive(s);
    }
  }
}
