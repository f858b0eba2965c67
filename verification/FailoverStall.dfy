/** The dead end of the failover protocol: a Promote that stops between its claim and the start of
    its job leaves a stable record under which nobody runs. When this happens, and what ends it. */
module FailoverStall {
  import opened Wrappers
  import opened Coord
  import opened Failover
  import opened FailoverSafety
  import opened FailoverLimits

  /** The record is stable and names a side, but nobody runs, nobody is asked to run, and no task
      holds a claim. */
  ghost predicate Stalled(s: System) {
    && Inv(s)
    && s.store.handoff.value.record.phase.Stable?
    && s.store.handoff.value.record.activeClusterId in s.jobs
    && (forall c :: c in s.jobs ==> s.jobs[c] == Job(false, false))
    && (forall id :: id in s.tasks ==> !Claiming(s.tasks[id]))
  }

  // ---------- which Promotes stall ----------

  /** The action ends the Promote after its claim has been accepted and before a request to start the
      job takes effect: the answer to the claim is lost, the token write fails or its answer is lost,
      the start request fails, or the console crashes in between. */
  predicate StopsShort(s: System, id: TaskId, a: Action)
    requires id in s.tasks && (a.Advance? ==> Fits(s.tasks[id].step, a.answer))
  {
    match s.tasks[id].step
    case ClaimHandoff(_, etag, _, _) => a.Advance? && Accepts(s.store, etag, a.answer.delivery)
    case TokenToSelf(_, _) => true
    case StartLocal(_, _) => a.Abandon? || (a.Advance? && a.answer.delivery.Lost?)
    case _ => false
  }

  /** The token write of the Promote took effect. */
  predicate TokenTaken(s: System, id: TaskId, a: Action)
    requires id in s.tasks && (a.Advance? ==> Fits(s.tasks[id].step, a.answer))
  {
    || s.tasks[id].step.StartLocal?
    || (s.tasks[id].step.TokenToSelf? && a.Advance? && a.answer.delivery.ReplyLost?)
  }

  predicate Ends(rules: Rules, s: System, id: TaskId, a: Action) {
    && (a == Abandon(id) || (a.Advance? && a.id == id))
    && Enabled(rules, s, a)
    && id !in Apply(rules, s, a).tasks
  }

  lemma StoppedIsStalled(rules: Rules, s: System, id: TaskId, a: Action)
    requires Disciplined(rules) && Inv(s) && id in s.tasks && s.tasks[id].op == Promote(false) && Ends(rules, s, id, a)
    requires StopsShort(s, id, a)
    ensures Stalled(Apply(rules, s, a))
  {
    StepKeepsInv(rules, s, a);
    var s' := Apply(rules, s, a);
    assert TaskOk(s, s.tasks[id]);
    assert forall c | c in s.jobs && s.jobs[c] != Job(false, false) :: Owns(s.store, c);
    assert forall j | j in s'.tasks && Claiming(s'.tasks[j]) :: Owns(s'.store, s'.tasks[j].side);
    assert s'.tasks == s.tasks - {id};
  }

  lemma OtherEndings(rules: Rules, s: System, id: TaskId, a: Action)
    requires Disciplined(rules) && Inv(s) && id in s.tasks && s.tasks[id].op == Promote(false) && Ends(rules, s, id, a)
    requires !StopsShort(s, id, a)
    ensures Stalled(Apply(rules, s, a)) <==> Stalled(s)
  {
    StepKeepsInv(rules, s, a);
    var s' := Apply(rules, s, a);
    assert TaskOk(s, s.tasks[id]);
    assert s'.tasks == s.tasks - {id};
    if s.tasks[id].step.StartLocal? || s.tasks[id].step.VerifyLocal? {
      assert s'.jobs[s.tasks[id].side].desired;
    } else {
      assert s'.store == s.store && s'.jobs == s.jobs && !Claiming(s.tasks[id]);
      assert forall j | j in s.tasks && j != id :: j in s'.tasks && s'.tasks[j] == s.tasks[j];
    }
  }

  /** However a Promote ends, it leaves the group stalled if and only if it was stalled before or the
      Promote stopped short; the token then names the promoter if and only if its token write took
      effect. */
  lemma PromoteStallsExactly(rules: Rules, s: System, id: TaskId, a: Action)
    requires Disciplined(rules) && Inv(s) && id in s.tasks && s.tasks[id].op == Promote(false) && Ends(rules, s, id, a)
    ensures Stalled(Apply(rules, s, a)) <==> Stalled(s) || StopsShort(s, id, a)
    ensures StopsShort(s, id, a) ==>
              (Apply(rules, s, a).store.token == s.tasks[id].side <==> TokenTaken(s, id, a))
  {
    assert TaskOk(s, s.tasks[id]);
    if StopsShort(s, id, a) {
      StoppedIsStalled(rules, s, id, a);
    } else {
      OtherEndings(rules, s, id, a);
    }
  }

  /** A Promote that crashes between its compare-and-swap and its token write leaves the group stalled
      with a token that does not name the promoter. */
  lemma AbandonedClaimStalls(rules: Rules, s: System, id: TaskId)
    requires Disciplined(rules) && Inv(s)
    requires id in s.tasks && s.tasks[id].op == Promote(false) && s.tasks[id].step.TokenToSelf?
    ensures Stalled(Apply(rules, s, Abandon(id)))
    ensures Apply(rules, s, Abandon(id)).store.token != s.tasks[id].side
  {
    PromoteStallsExactly(rules, s, id, Abandon(id));
  }

  lemma ReachesKeepsInv(rules: Rules, s: System, s': System)
    requires Disciplined(rules) && Inv(s) && Reaches(rules, s, s')
    ensures Inv(s')
  {
    var run, actions :| IsRun(rules, run, actions) && run[0] == s && run[|run| - 1] == s';
    RunKeepsInv(rules, run, actions, |run| - 1);
  }

  /** It does happen: A releases, B claims the record and crashes. */
  lemma StallIsReachable(rules: Rules) returns (s: System)
    requires Disciplined(rules)
    ensures Reaches(rules, PAIR, s) && Stalled(s) && s.tasks == map[] && s.store.token == PAIR.neutral
  {
    DistinctNames();
    var s1 := FullRelease(rules, PAIR, 0, A, "", true);
    var s2 := PromoteUntilClaimed(rules, s1, 1, B, false, None);
    Trans(rules, PAIR, s1, s2);
    InitialInv(PAIR);
    ReachesKeepsInv(rules, PAIR, s2);
    AbandonedClaimStalls(rules, s2, 1);
    s := Then(rules, PAIR, s2, Abandon(1));
    assert s.tasks == map[];
  }

  // ---------- what ends a stall ----------

  lemma StepKeepsStall(rules: Rules, s: System, a: Action)
    requires Disciplined(rules) && Stalled(s) && Enabled(rules, s, a)
    ensures Stalled(Apply(rules, s, a))
    ensures Apply(rules, s, a).store == s.store
  {
    StepKeepsInv(rules, s, a);
    if a.Advance? {
      assert TaskOk(s, s.tasks[a.id]);
    }
  }

  /** Under the five rules a stalled group stays stalled: record and token stay as they are for ever,
      every Promote is refused and no job starts. */
  lemma {:induction false} StalledForever(rules: Rules, run: seq<System>, actions: seq<Action>, k: nat)
    requires Disciplined(rules) && IsRun(rules, run, actions) && Stalled(run[0])
    requires k < |run|
    ensures Stalled(run[k]) && run[k].store == run[0].store
  {
    if k > 0 {
      StalledForever(rules, run, actions, k - 1);
      StepKeepsStall(rules, run[k - 1], actions[k - 1]);
    }
  }

  /** What can end a stall: a forced Promote, a Release by a side that does not run, or a resume from
      outside, the last only if the pods' check of the token lets some side start. */
  predicate CanEnd(rules: Rules, s: System) {
    || rules.forcedPromote
    || rules.releaseWhileIdle
    || (rules.otherLifecycle && (!rules.podFencing || s.store.token in s.jobs))
  }

  predicate SomeoneRuns(s: System) {
    exists c | c in s.jobs :: s.jobs[c].pods
  }

  /** A Promote that was not forced and holds a released record that has been replaced since. */
  predicate Outdated(store: Store, task: Task) {
    && task.op == Promote(false)
    && match task.step
       case ReadHandoff => true
       case PickRecovery(_, etag) => etag.Tag? && CurrentTag(store) != etag
       case ClaimHandoff(_, etag, _, _) => etag.Tag? && CurrentTag(store) != etag
       case _ => false
  }

  /** Nobody runs, the record is stable, and no task can change it. */
  predicate Dead(rules: Rules, s: System) {
    && s.store.handoff.Some? && s.store.handoff.value.record.phase.Stable?
    && (forall id | id in s.tasks :: Outdated(s.store, s.tasks[id]))
    && (forall c | c in s.jobs :: !s.jobs[c].pods && (s.jobs[c].desired ==> rules.otherLifecycle))
  }

  lemma StepKeepsDead(rules: Rules, s: System, a: Action)
    requires !CanEnd(rules, s) && Dead(rules, s) && Enabled(rules, s, a)
    ensures Dead(rules, Apply(rules, s, a))
    ensures Apply(rules, s, a).store == s.store && Apply(rules, s, a).jobs.Keys == s.jobs.Keys
  {
    if a.Advance? {
      assert Outdated(s.store, s.tasks[a.id]);
    }
  }

  lemma {:induction false} DeadForever(rules: Rules, run: seq<System>, actions: seq<Action>, k: nat)
    requires IsRun(rules, run, actions) && k < |run| && !CanEnd(rules, run[0]) && Dead(rules, run[0])
    ensures Dead(rules, run[k]) && run[k].store == run[0].store && run[k].jobs.Keys == run[0].jobs.Keys
  {
    if k > 0 {
      DeadForever(rules, run, actions, k - 1);
      StepKeepsDead(rules, run[k - 1], actions[k - 1]);
    }
  }

  lemma StalledIsDead(rules: Rules, s: System)
    requires Stalled(s)
    ensures Dead(rules, s)
  {
    forall id | id in s.tasks
      ensures Outdated(s.store, s.tasks[id])
    {
      assert TaskOk(s, s.tasks[id]) && !Claiming(s.tasks[id]);
    }
  }

  lemma FreshId(tasks: map<TaskId, Task>) returns (id: TaskId)
    ensures id !in tasks
  {
    var rest := tasks.Keys;
    id := 0;
    while rest != {}
      invariant rest <= tasks.Keys && forall j | j in tasks && j !in rest :: j < id
      decreases |rest|
    {
      var j :| j in rest;
      if j >= id {
        id := j + 1;
      }
      rest := rest - {j};
    }
  }

  /** Whatever task a side still has can be given up first. */
  lemma ClearSide(rules: Rules, s: System, side: ClusterId) returns (s': System)
    requires Stalled(s)
    ensures Reaches(rules, s, s') && NoTaskOn(s', side)
    ensures s'.jobs == s.jobs && s'.store == s.store && s'.neutral == s.neutral
  {
    if id :| id in s.tasks && s.tasks[id].side == side {
      s' := One(rules, s, Abandon(id));
    } else {
      s' := s;
      assert IsRun(rules, [s], []);
    }
  }

  /** With a forced Promote, or with an idle Release and then a plain Promote, any side takes over. */
  lemma StallEndsBySwitch(rules: Rules, s: System, side: ClusterId) returns (s': System)
    requires Stalled(s) && side in s.jobs && (rules.forcedPromote || rules.releaseWhileIdle)
    ensures Reaches(rules, s, s') && s'.jobs == s.jobs[side := Job(true, true)]
    ensures s'.store.token == side && Owns(s'.store, side)
  {
    var s1 := ClearSide(rules, s, side);
    var id := FreshId(s1.tasks);
    if rules.forcedPromote {
      s' := FullPromote(rules, s1, id, side, true, None);
    } else {
      var s2 := FullRelease(rules, s1, id, side, "", true);
      s' := FullPromote(rules, s2, id, side, false, None);
      Trans(rules, s1, s2, s');
    }
    Trans(rules, s, s1, s');
  }

  lemma StallEndsByResume(rules: Rules, s: System, side: ClusterId) returns (s': System)
    requires Stalled(s) && side in s.jobs && rules.otherLifecycle && (rules.podFencing ==> s.store.token == side)
    ensures Reaches(rules, s, s') && s'.jobs == s.jobs[side := Job(true, true)]
  {
    s' := One(rules, s, Resume(side));
    s' := Then(rules, s, s', PodsUp(side));
  }

  /** A stalled group can come to run again if and only if one of the three is allowed. In particular
      no number of plain Promotes helps, but an unforced Release of a side that does not run does. */
  lemma StallEndsExactly(rules: Rules, s: System)
    requires Stalled(s)
    ensures (exists s' :: Reaches(rules, s, s') && SomeoneRuns(s')) <==> CanEnd(rules, s)
  {
    var owner := s.store.handoff.value.record.activeClusterId;
    if rules.forcedPromote || rules.releaseWhileIdle {
      var s' := StallEndsBySwitch(rules, s, owner);
      assert s'.jobs[owner].pods;
    } else if CanEnd(rules, s) {
      var side := if rules.podFencing then s.store.token else owner;
      var s' := StallEndsByResume(rules, s, side);
      assert s'.jobs[side].pods;
    } else {
      StalledIsDead(rules, s);
      forall s' | Reaches(rules, s, s')
        ensures !SomeoneRuns(s')
      {
        var run, actions :| IsRun(rules, run, actions) && run[0] == s && run[|run| - 1] == s';
        DeadForever(rules, run, actions, |run| - 1);
      }
    }
  }
}
