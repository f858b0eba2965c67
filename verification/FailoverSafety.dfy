/** What every disciplined run of the failover protocol keeps: mutual exclusion and fail-closed
    fencing. */
module FailoverSafety {
  import opened Wrappers
  import opened Coord
  import opened Failover

  /** A task that may still have its side's job running, or may yet start it. */
  predicate Claiming(task: Task) {
    task.op.Release? || task.step.TokenToSelf? || task.step.StartLocal? || task.step.VerifyLocal?
  }

  /** A held record is the stored one for as long as the ETag read with it is current. */
  predicate HeldOk(store: Store, held: Option<HandoffRecord>, etag: ETag) {
    && (etag.Tag? ==> etag.version <= store.writes)
    && (etag == CurrentTag(store) ==> held == CurrentRecord(store))
  }

  predicate TaskOk(s: System, task: Task) {
    && task.side in s.jobs
    && match task.op
       case Release =>
         (match task.step
          case Savepoint => true
          case SuspendLocal(_) => true
          case WaitStopped(_) => !s.jobs[task.side].desired
          case TokenNeutral(_) => s.jobs[task.side] == Job(false, false)
          case ReadForRelease(_, _) => s.jobs[task.side] == Job(false, false) && s.store.token == s.neutral
          case WriteReleased(_, _, held, etag) =>
            s.jobs[task.side] == Job(false, false) && s.store.token == s.neutral && HeldOk(s.store, held, etag)
          case _ => false)
       case Promote(force) =>
         && !force
         && (match task.step
             case ReadHandoff => true
             case PickRecovery(held, etag) => held.Some? && held.value.phase.Released? && etag.Tag?
               && HeldOk(s.store, held, etag)
             case ClaimHandoff(held, etag, _, _) => held.Some? && held.value.phase.Released? && etag.Tag?
               && HeldOk(s.store, held, etag)
             case TokenToSelf(_, _) => s.jobs[task.side] == Job(false, false) && s.store.token == s.neutral
             case StartLocal(_, _) => s.jobs[task.side] == Job(false, false) && s.store.token == task.side
             case VerifyLocal => s.jobs[task.side].desired
             case _ => false)
  }

  ghost predicate Inv(s: System) {
    && ValidStore(s.store)
    && s.store.handoff.Some?
    && !s.store.handoff.value.record.phase.OtherPhase?
    && s.neutral !in s.jobs
    && (s.store.token == s.neutral || (s.store.token in s.jobs && Owns(s.store, s.store.token)))
    && (forall c :: c in s.jobs && (s.jobs[c].desired || s.jobs[c].pods) ==> Owns(s.store, c))
    && (forall id :: id in s.tasks ==> TaskOk(s, s.tasks[id]))
    && (forall id :: id in s.tasks && Claiming(s.tasks[id]) ==> Owns(s.store, s.tasks[id].side))
    && (forall i, j :: i in s.tasks && j in s.tasks && s.tasks[i].side == s.tasks[j].side ==> i == j)
  }

  lemma InitialInv(s: System)
    requires Initial(s)
    ensures Inv(s)
  {
  }

  lemma FinishKeepsInv(s: System, id: TaskId)
    requires Inv(s)
    ensures Inv(Finish(s, id))
  {
  }

  lemma GotoKeepsInv(s: System, id: TaskId, step: Step)
    requires Inv(s) && id in s.tasks
    requires TaskOk(s, s.tasks[id].(step := step))
    requires Claiming(s.tasks[id].(step := step)) ==> Owns(s.store, s.tasks[id].side)
    ensures Inv(Goto(s, id, step))
  {
  }

  lemma StartKeepsInv(rules: Rules, s: System, id: TaskId, side: ClusterId, a: Action)
    requires Disciplined(rules) && Inv(s) && Enabled(rules, s, a)
    requires a == StartRelease(id, side) || a == StartPromote(id, side, false)
    ensures Inv(Apply(rules, s, a))
  {
    var s' := Apply(rules, s, a);
    forall j | j in s'.tasks
      ensures TaskOk(s', s'.tasks[j])
    {
      assert j != id ==> TaskOk(s, s.tasks[j]);
    }
  }

  lemma PodsKeepInv(rules: Rules, s: System, side: ClusterId, up: bool)
    requires Inv(s) && side in s.jobs && (up ==> s.jobs[side].desired)
    ensures Inv(SetPods(s, side, up))
  {
    var s' := SetPods(s, side, up);
    forall id | id in s'.tasks
      ensures TaskOk(s', s'.tasks[id])
    {
      assert TaskOk(s, s.tasks[id]);
    }
  }

  lemma SuspendKeepsInv(s: System, id: TaskId, answer: Answer)
    requires Inv(s) && id in s.tasks && s.tasks[id].op.Release? && s.tasks[id].step.SuspendLocal? && answer.Wrote?
    ensures Inv(StepTask(s, id, answer))
  {
    var s1 := SetDesired(s, s.tasks[id].side, false, answer.delivery);
    forall j | j in s1.tasks
      ensures TaskOk(s1, s1.tasks[j])
    {
      assert TaskOk(s, s.tasks[j]);
    }
    if answer.delivery.Delivered? {
      GotoKeepsInv(s1, id, WaitStopped(s.tasks[id].step.rp));
    } else {
      FinishKeepsInv(s1, id);
    }
  }

  lemma NeutralKeepsInv(s: System, id: TaskId, answer: Answer)
    requires Inv(s) && id in s.tasks && s.tasks[id].op.Release? && s.tasks[id].step.TokenNeutral? && answer.Wrote?
    ensures Inv(StepTask(s, id, answer))
  {
    var s1 := s.(store := TokenStore(s.store, s.neutral, answer.delivery));
    forall j | j in s1.tasks
      ensures TaskOk(s1, s1.tasks[j])
    {
      assert TaskOk(s, s.tasks[j]);
    }
    if answer.delivery.Delivered? {
      GotoKeepsInv(s1, id, ReadForRelease(s.tasks[id].step.rp, 0));
    } else {
      FinishKeepsInv(s1, id);
    }
  }

  /** Accepting the compare-and-swap of a Release leaves no job and no claim behind. */
  lemma ReleaseCasKeepsInv(s: System, id: TaskId, answer: Answer)
    requires Inv(s) && id in s.tasks && s.tasks[id].op.Release? && s.tasks[id].step.WriteReleased? && answer.Wrote?
    ensures Inv(StepTask(s, id, answer))
  {
    var task := s.tasks[id];
    if Accepts(s.store, task.step.etag, answer.delivery) {
      var s' := StepTask(s, id, answer);
      assert Owns(s.store, task.side) && s'.tasks == s.tasks - {id};
      forall j | j in s'.tasks
        ensures TaskOk(s', s'.tasks[j]) && !Claiming(s'.tasks[j])
      {
        assert TaskOk(s, s.tasks[j]);
      }
    } else if CasResult(s.store, task.step.etag, answer.delivery).Conflict?
      && task.step.attempt + 1 < RELEASE_ATTEMPTS {
      GotoKeepsInv(s, id, ReadForRelease(task.step.rp, task.step.attempt + 1));
    } else {
      FinishKeepsInv(s, id);
    }
  }

  /** The compare-and-swap of a Promote can only replace a released record, when nothing runs. */
  lemma ClaimKeepsInv(s: System, id: TaskId, answer: Answer)
    requires Inv(s) && id in s.tasks && s.tasks[id].op.Promote? && s.tasks[id].step.ClaimHandoff? && answer.Wrote?
    ensures Inv(StepTask(s, id, answer))
  {
    if Accepts(s.store, s.tasks[id].step.etag, answer.delivery) {
      WonClaimKeepsInv(s, id, answer);
    } else {
      FinishKeepsInv(s, id);
    }
  }

  lemma WonClaimKeepsInv(s: System, id: TaskId, answer: Answer)
    requires Inv(s) && id in s.tasks && s.tasks[id].op.Promote? && s.tasks[id].step.ClaimHandoff? && answer.Wrote?
    requires Accepts(s.store, s.tasks[id].step.etag, answer.delivery)
    ensures Inv(StepTask(s, id, answer))
  {
    var s' := StepTask(s, id, answer);
    assert s.store.handoff.value.record.phase.Released?;
    forall j | j in s'.tasks
      ensures TaskOk(s', s'.tasks[j]) && (Claiming(s'.tasks[j]) ==> j == id)
    {
      assert TaskOk(s, s.tasks[j]);
    }
  }

  lemma TokenToSelfKeepsInv(s: System, id: TaskId, answer: Answer)
    requires Inv(s) && id in s.tasks && s.tasks[id].op.Promote? && s.tasks[id].step.TokenToSelf? && answer.Wrote?
    ensures Inv(StepTask(s, id, answer))
  {
    var s' := StepTask(s, id, answer);
    forall j | j in s'.tasks
      ensures TaskOk(s', s'.tasks[j])
    {
      assert TaskOk(s, s.tasks[j]);
      assert j != id ==> !Claiming(s.tasks[j]);
    }
  }

  lemma StartLocalKeepsInv(s: System, id: TaskId, answer: Answer)
    requires Inv(s) && id in s.tasks && s.tasks[id].op.Promote? && s.tasks[id].step.StartLocal? && answer.Wrote?
    ensures Inv(StepTask(s, id, answer))
  {
    var s' := StepTask(s, id, answer);
    forall j | j in s'.tasks
      ensures TaskOk(s', s'.tasks[j])
    {
      assert TaskOk(s, s.tasks[j]);
      assert j != id ==> !Claiming(s.tasks[j]);
    }
  }

  lemma AdvanceKeepsInv(rules: Rules, s: System, id: TaskId, answer: Answer)
    requires Disciplined(rules) && Inv(s) && Enabled(rules, s, Advance(id, answer))
    ensures Inv(StepTask(s, id, answer))
  {
    var task := s.tasks[id];
    assert TaskOk(s, task);
    match task.step
    case Savepoint =>
      GotoKeepsInv(s, id, StepTask(s, id, answer).tasks[id].step);
    case SuspendLocal(_) => SuspendKeepsInv(s, id, answer);
    case WaitStopped(rp) => GotoKeepsInv(s, id, TokenNeutral(rp));
    case TokenNeutral(_) => NeutralKeepsInv(s, id, answer);
    case WriteReleased(_, _, _, _) => ReleaseCasKeepsInv(s, id, answer);
    case ClaimHandoff(_, _, _, _) => ClaimKeepsInv(s, id, answer);
    case TokenToSelf(_, _) => TokenToSelfKeepsInv(s, id, answer);
    case StartLocal(_, _) => StartLocalKeepsInv(s, id, answer);
    case VerifyLocal => FinishKeepsInv(s, id);
    case _ =>
      var s' := StepTask(s, id, answer);
      if id in s'.tasks {
        GotoKeepsInv(s, id, s'.tasks[id].step);
      } else {
        FinishKeepsInv(s, id);
      }
  }

  lemma StepKeepsInv(rules: Rules, s: System, a: Action)
    requires Disciplined(rules) && Inv(s) && Enabled(rules, s, a)
    ensures Inv(Apply(rules, s, a))
  {
    match a
    case StartRelease(id, side) => StartKeepsInv(rules, s, id, side, a);
    case StartPromote(id, side, _) => StartKeepsInv(rules, s, id, side, a);
    case Advance(id, answer) => AdvanceKeepsInv(rules, s, id, answer);
    case Abandon(id) => FinishKeepsInv(s, id);
    case PodsUp(side) => PodsKeepInv(rules, s, side, true);
    case PodsDown(side) => PodsKeepInv(rules, s, side, false);
    case _ =>
  }

  lemma {:induction false} RunKeepsInv(rules: Rules, run: seq<System>, actions: seq<Action>, k: nat)
    requires Disciplined(rules) && IsRun(rules, run, actions) && Inv(run[0])
    requires k < |run|
    ensures Inv(run[k])
  {
    if k > 0 {
      RunKeepsInv(rules, run, actions, k - 1);
      StepKeepsInv(rules, run[k - 1], actions[k - 1]);
    }
  }

  /** Mutual exclusion: however Releases and non-forced Promotes of any number of sides
      interleave, fail or stop half-way, no two sides' jobs ever run together. It does not even
      rely on the fencing check at pod start. */
  lemma MutualExclusion(rules: Rules, run: seq<System>, actions: seq<Action>, k: nat)
    requires Disciplined(rules) && IsRun(rules, run, actions) && Initial(run[0])
    requires k < |run|
    ensures Exclusive(run[k])
  {
    InitialInv(run[0]);
    RunKeepsInv(rules, run, actions, k);
  }

  /** Fail-closed fencing: while the token names a cluster, the stored record is stable and names
      the same cluster. */
  lemma FencingFailsClosed(rules: Rules, run: seq<System>, actions: seq<Action>, k: nat)
    requires Disciplined(rules) && IsRun(rules, run, actions) && Initial(run[0])
    requires k < |run|
    ensures run[k].store.token != run[k].neutral ==>
            run[k].store.token in run[k].jobs && Owns(run[k].store, run[k].store.token)
    ensures forall c :: c in run[k].jobs && run[k].store.token == c ==> Owns(run[k].store, c)
  {
    InitialInv(run[0]);
    RunKeepsInv(rules, run, actions, k);
  }
}
