/** What the compare-and-swap on the handoff record gives under any rules at all, with forced
    Promotes, overlapping tasks and failed reads: a chain of accepted writes, ordered epochs, and
    a recovery point that comes from the Release that was consumed. */
module FailoverHistory {
  import opened Wrappers
  import opened Coord
  import opened Failover
  import opened FailoverSafety

  /** A state before any switch; the record may be absent, stable or released. */
  predicate Fresh(s: System) {
    ValidStore(s.store) && s.tasks == map[] && s.accepted == [] && s.started == []
  }

  /** The ETag and the record after the first `i` accepted writes. */
  function TagAfter(first: Store, accepted: seq<Accepted>, i: nat): ETag
    requires i <= |accepted|
  {
    if i == 0 then CurrentTag(first) else accepted[i - 1].installed
  }

  function RecordAfter(first: Store, accepted: seq<Accepted>, i: nat): Option<HandoffRecord>
    requires i <= |accepted|
  {
    if i == 0 then CurrentRecord(first) else Some(accepted[i - 1].record)
  }

  /** A missing record counts as epoch 0, which is what a Release of it publishes. */
  function EpochOf(record: Option<HandoffRecord>): int {
    if record.Some? then record.value.epoch else 0
  }

  predicate SavepointRef(rp: RecoveryPointRef) {
    rp == RecoveryPointRef("", "") || (rp.kind == "savepoint" && rp.path != "")
  }

  ghost predicate EntryOk(first: Store, accepted: seq<Accepted>, i: nat)
    requires i < |accepted|
  {
    var e := accepted[i];
    && e.expected == TagAfter(first, accepted, i)
    && e.replaced == RecordAfter(first, accepted, i)
    && e.installed == Tag(first.writes + i + 1)
    && match e.op
       case Release =>
         SavepointRef(e.record.recoveryPoint) && e.record == ReleasedRecord(e.replaced, e.side, e.record.recoveryPoint)
       case Promote(_) =>
         && MayPromote(e.op, e.replaced)
         && e.record.recoveryPoint == RecoveryChoice(e.replaced, e.listing)
         && e.record == PromotedRecord(e.replaced, e.side, e.record.recoveryPoint)
  }

  ghost predicate ClaimOk(accepted: seq<Accepted>, claim: nat, side: ClusterId, op: Op, path: string) {
    && op.Promote?
    && claim < |accepted|
    && accepted[claim].side == side
    && accepted[claim].op == op
    && accepted[claim].record.recoveryPoint.path == path
  }

  ghost predicate StepOk(s: System, task: Task) {
    match task.step
    case Savepoint => task.op.Release?
    case SuspendLocal(rp) => task.op.Release? && SavepointRef(rp)
    case WaitStopped(rp) => task.op.Release? && SavepointRef(rp)
    case TokenNeutral(rp) => task.op.Release? && SavepointRef(rp)
    case ReadForRelease(rp, _) => task.op.Release? && SavepointRef(rp)
    case WriteReleased(rp, _, held, etag) => task.op.Release? && SavepointRef(rp) && HeldOk(s.store, held, etag)
    case ReadHandoff => task.op.Promote?
    case PickRecovery(held, etag) => task.op.Promote? && MayPromote(task.op, held) && HeldOk(s.store, held, etag)
    case ClaimHandoff(held, etag, rp, listing) =>
      && task.op.Promote? && MayPromote(task.op, held) && HeldOk(s.store, held, etag)
      && rp == RecoveryChoice(held, listing)
    case TokenToSelf(rp, claim) => ClaimOk(s.accepted, claim, task.side, task.op, rp.path)
    case StartLocal(rp, claim) => ClaimOk(s.accepted, claim, task.side, task.op, rp.path)
    case VerifyLocal => task.op.Promote?
  }

  ghost predicate History(first: Store, s: System) {
    && ValidStore(first)
    && ValidStore(s.store)
    && s.store.writes == first.writes + |s.accepted|
    && CurrentTag(s.store) == TagAfter(first, s.accepted, |s.accepted|)
    && CurrentRecord(s.store) == RecordAfter(first, s.accepted, |s.accepted|)
    && (forall i :: 0 <= i < |s.accepted| ==> EntryOk(first, s.accepted, i))
    && (forall id :: id in s.tasks ==> StepOk(s, s.tasks[id]))
    && (forall i :: 0 <= i < |s.started| ==>
          ClaimOk(s.accepted, s.started[i].claim, s.started[i].side, s.started[i].op, s.started[i].path))
  }

  /** Appending one well-formed write keeps the chain. */
  lemma CasKeepsHistory(first: Store, s: System, id: TaskId, record: HandoffRecord, held: Option<HandoffRecord>,
                        etag: ETag, delivery: Delivery, listing: Option<seq<RecoveryPoint>>)
    requires History(first, s) && id in s.tasks && Accepts(s.store, etag, delivery) && HeldOk(s.store, held, etag)
    requires var task := s.tasks[id];
             match task.op
             case Release =>
               SavepointRef(record.recoveryPoint) && record == ReleasedRecord(held, task.side, record.recoveryPoint)
             case Promote(_) =>
               && MayPromote(task.op, held) && record.recoveryPoint == RecoveryChoice(held, listing)
               && record == PromotedRecord(held, task.side, record.recoveryPoint)
    ensures History(first, Cas(s, id, record, etag, delivery, listing))
  {
    var s' := Cas(s, id, record, etag, delivery, listing);
    var n := |s.accepted|;
    forall i | 0 <= i < |s'.accepted|
      ensures EntryOk(first, s'.accepted, i)
    {
      if i < n {
        assert EntryOk(first, s.accepted, i);
      }
    }
    forall j | j in s'.tasks
      ensures StepOk(s', s'.tasks[j])
    {
      assert StepOk(s, s.tasks[j]);
    }
  }

  lemma GotoKeepsHistory(first: Store, s: System, id: TaskId, step: Step)
    requires History(first, s) && id in s.tasks && StepOk(s, s.tasks[id].(step := step))
    ensures History(first, Goto(s, id, step))
  {
    var s' := Goto(s, id, step);
    forall j | j in s'.tasks
      ensures StepOk(s', s'.tasks[j])
    {
      assert j != id ==> StepOk(s, s.tasks[j]);
    }
  }

  lemma FinishKeepsHistory(first: Store, s: System, id: TaskId)
    requires History(first, s)
    ensures History(first, Finish(s, id))
  {
    var s' := Finish(s, id);
    forall j | j in s'.tasks
      ensures StepOk(s', s'.tasks[j])
    {
      assert StepOk(s, s.tasks[j]);
    }
  }

  /** Jobs, the token and a further start are not part of the chain. */
  lemma FrameKeepsHistory(first: Store, s: System, s': System)
    requires History(first, s)
    requires s'.accepted == s.accepted && s'.tasks == s.tasks
    requires s'.store == s.store.(token := s'.store.token)
    requires s'.started == s.started
             || exists id, step, claim :: id in s.tasks && s.tasks[id].step == StartLocal(step, claim)
                  && s'.started == s.started + [Started(s.tasks[id].side, s.tasks[id].op, claim, step.path)]
    ensures History(first, s')
  {
    forall j | j in s'.tasks
      ensures StepOk(s', s'.tasks[j])
    {
      assert StepOk(s, s.tasks[j]);
    }
  }

  lemma MoveKeepsHistory(first: Store, s: System, id: TaskId, ok: bool, step: Step)
    requires History(first, s) && id in s.tasks && (ok ==> StepOk(s, s.tasks[id].(step := step)))
    ensures History(first, GotoIf(ok, s, id, step))
  {
    if ok {
      GotoKeepsHistory(first, s, id, step);
    } else {
      FinishKeepsHistory(first, s, id);
    }
  }

  lemma ReleaseWriteKeepsHistory(first: Store, s: System, id: TaskId, answer: Answer)
    requires History(first, s) && id in s.tasks && s.tasks[id].side in s.jobs && s.tasks[id].step.WriteReleased?
             && answer.Wrote?
    ensures History(first, StepTask(s, id, answer))
  {
    var task := s.tasks[id];
    assert StepOk(s, task);
    var again := CasResult(s.store, task.step.etag, answer.delivery).Conflict?
      && task.step.attempt + 1 < RELEASE_ATTEMPTS;
    var record := ReleasedRecord(task.step.held, task.side, task.step.rp);
    var s1 := Cas(s, id, record, task.step.etag, answer.delivery, None);
    if Accepts(s.store, task.step.etag, answer.delivery) {
      CasKeepsHistory(first, s, id, record, task.step.held, task.step.etag, answer.delivery, None);
    }
    MoveKeepsHistory(first, s1, id, again, ReadForRelease(task.step.rp, task.step.attempt + 1));
  }

  lemma ClaimKeepsHistory(first: Store, s: System, id: TaskId, answer: Answer)
    requires History(first, s) && id in s.tasks && s.tasks[id].side in s.jobs && s.tasks[id].step.ClaimHandoff?
             && answer.Wrote?
    ensures History(first, StepTask(s, id, answer))
  {
    var task := s.tasks[id];
    assert StepOk(s, task);
    var record := PromotedRecord(task.step.held, task.side, task.step.rp);
    var s1 := Cas(s, id, record, task.step.etag, answer.delivery, task.step.listing);
    if Accepts(s.store, task.step.etag, answer.delivery) {
      CasKeepsHistory(first, s, id, record, task.step.held, task.step.etag, answer.delivery, task.step.listing);
    }
    MoveKeepsHistory(first, s1, id, CasResult(s.store, task.step.etag, answer.delivery).WriteOk?,
                     TokenToSelf(task.step.rp, |s.accepted|));
  }

  lemma AdvanceKeepsHistory(first: Store, s: System, id: TaskId, answer: Answer)
    requires History(first, s)
    requires id in s.tasks && s.tasks[id].side in s.jobs && Fits(s.tasks[id].step, answer)
    ensures History(first, StepTask(s, id, answer))
  {
    var task := s.tasks[id];
    assert StepOk(s, task);
    match task.step
    case Savepoint =>
      GotoKeepsHistory(first, s, id, StepTask(s, id, answer).tasks[id].step);
    case SuspendLocal(rp) =>
      var s1 := SetDesired(s, task.side, false, answer.delivery);
      FrameKeepsHistory(first, s, s1);
      MoveKeepsHistory(first, s1, id, answer.delivery.Delivered?, WaitStopped(rp));
    case WaitStopped(rp) =>
      GotoKeepsHistory(first, s, id, TokenNeutral(rp));
    case TokenNeutral(rp) =>
      var s1 := s.(store := TokenStore(s.store, s.neutral, answer.delivery));
      FrameKeepsHistory(first, s, s1);
      MoveKeepsHistory(first, s1, id, answer.delivery.Delivered?, ReadForRelease(rp, 0));
    case ReadForRelease(rp, attempt) =>
      MoveKeepsHistory(first, s, id, answer.ok,
                       WriteReleased(rp, attempt, CurrentRecord(s.store), CurrentTag(s.store)));
    case WriteReleased(_, _, _, _) =>
      ReleaseWriteKeepsHistory(first, s, id, answer);
    case ReadHandoff =>
      var held := if answer.ok then CurrentRecord(s.store) else None;
      var etag := if answer.ok then CurrentTag(s.store) else NoTag;
      MoveKeepsHistory(first, s, id, MayPromote(task.op, held), PickRecovery(held, etag));
    case PickRecovery(held, etag) =>
      GotoKeepsHistory(first, s, id, ClaimHandoff(held, etag, RecoveryChoice(held, answer.listing), answer.listing));
    case ClaimHandoff(_, _, _, _) =>
      ClaimKeepsHistory(first, s, id, answer);
    case TokenToSelf(rp, claim) =>
      var s1 := s.(store := TokenStore(s.store, task.side, answer.delivery));
      FrameKeepsHistory(first, s, s1);
      MoveKeepsHistory(first, s1, id, answer.delivery.Delivered?, StartLocal(rp, claim));
    case StartLocal(rp, claim) =>
      var s1 := SetDesired(s, task.side, true, answer.delivery);
      var s2 := if answer.delivery.Lost? then s1
        else s1.(started := s1.started + [Started(task.side, task.op, claim, rp.path)]);
      FrameKeepsHistory(first, s, s2);
      MoveKeepsHistory(first, s2, id, answer.delivery.Delivered?, VerifyLocal);
    case VerifyLocal =>
      FinishKeepsHistory(first, s, id);
  }

  lemma StepKeepsHistory(rules: Rules, first: Store, s: System, a: Action)
    requires History(first, s) && Enabled(rules, s, a)
    ensures History(first, Apply(rules, s, a))
    ensures s.accepted <= Apply(rules, s, a).accepted
    ensures |Apply(rules, s, a).accepted| <= |s.accepted| + 1
  {
    var s' := Apply(rules, s, a);
    match a
    case StartRelease(id, side) =>
      forall j | j in s'.tasks
        ensures StepOk(s', s'.tasks[j])
      {
        assert j != id ==> StepOk(s, s.tasks[j]);
      }
    case StartPromote(id, side, force) =>
      forall j | j in s'.tasks
        ensures StepOk(s', s'.tasks[j])
      {
        assert j != id ==> StepOk(s, s.tasks[j]);
      }
    case Advance(id, answer) => AdvanceKeepsHistory(first, s, id, answer);
    case Abandon(id) => FinishKeepsHistory(first, s, id);
    case _ => FrameKeepsHistory(first, s, s');
  }

  lemma {:induction false} RunKeepsHistory(rules: Rules, run: seq<System>, actions: seq<Action>, j: nat, k: nat)
    requires IsRun(rules, run, actions) && Fresh(run[0])
    requires j <= k < |run|
    ensures History(run[0].store, run[j]) && History(run[0].store, run[k])
    ensures run[j].accepted <= run[k].accepted
    ensures |run[k].accepted| <= k
    decreases k
  {
    if k == 0 {
    } else {
      RunKeepsHistory(rules, run, actions, if j < k then j else 0, k - 1);
      StepKeepsHistory(rules, run[0].store, run[k - 1], actions[k - 1]);
    }
  }

  // ---------- one winner per ETag ----------

  /** Of several writers holding one ETag, including the empty one, at most one ever succeeds. */
  lemma OneWinnerPerTag(rules: Rules, run: seq<System>, actions: seq<Action>, k: nat, i: nat, j: nat)
    requires IsRun(rules, run, actions) && Fresh(run[0]) && k < |run|
    requires i < j < |run[k].accepted|
    ensures run[k].accepted[i].expected != run[k].accepted[j].expected
  {
    RunKeepsHistory(rules, run, actions, k, k);
    assert EntryOk(run[0].store, run[k].accepted, i) && EntryOk(run[0].store, run[k].accepted, j);
    assert EntryOk(run[0].store, run[k].accepted, j - 1);
    if i > 0 {
      assert EntryOk(run[0].store, run[k].accepted, i - 1);
    }
  }

  // ---------- epochs ----------

  /** No accepted Promote replaced a record with the largest epoch. */
  predicate NeverAtTop(accepted: seq<Accepted>) {
    forall a | 0 <= a < |accepted| && accepted[a].op.Promote? :: EpochOf(accepted[a].replaced) < INT64_MAX
  }

  /** A Promote raises the epoch by one over the record it replaced, a Release keeps it. */
  predicate RaisesRightly(e: Accepted) {
    e.record.epoch == EpochOf(e.replaced) + (if e.op.Promote? then 1 else 0)
  }

  /** Every accepted write raises the epoch rightly, and it never decreases along the chain. */
  ghost predicate EpochsRise(first: Store, accepted: seq<Accepted>) {
    && (forall a | 0 <= a < |accepted| :: RaisesRightly(accepted[a]))
    && forall i: nat, j: nat | i <= j <= |accepted| ::
       EpochOf(RecordAfter(first, accepted, i)) <= EpochOf(RecordAfter(first, accepted, j))
  }

  lemma {:induction false} EpochsAlongChain(first: Store, s: System, i: nat, j: nat)
    requires History(first, s) && IsInt64(EpochOf(CurrentRecord(first)))
    requires i <= j <= |s.accepted|
    ensures IsInt64(EpochOf(RecordAfter(first, s.accepted, j)))
    ensures NeverAtTop(s.accepted) ==>
            EpochOf(RecordAfter(first, s.accepted, i)) <= EpochOf(RecordAfter(first, s.accepted, j))
    decreases j
  {
    if j > 0 {
      assert EntryOk(first, s.accepted, j - 1);
      EpochsAlongChain(first, s, if i < j then i else 0, j - 1);
    }
  }

  /** Epoch order, over any interleaving of Releases and Promotes, forced or not: accepted Promotes
      raise the epoch by exactly one and it never decreases, if and only if none of them replaced a
      record with the largest epoch, over which int64 arithmetic wraps around. */
  lemma EpochOrder(rules: Rules, run: seq<System>, actions: seq<Action>, k: nat)
    requires IsRun(rules, run, actions) && Fresh(run[0]) && k < |run|
    requires IsInt64(EpochOf(CurrentRecord(run[0].store)))
    ensures EpochsRise(run[0].store, run[k].accepted) <==> NeverAtTop(run[k].accepted)
  {
    RunKeepsHistory(rules, run, actions, k, k);
    var first, s := run[0].store, run[k];
    forall a | 0 <= a < |s.accepted|
      ensures RaisesRightly(s.accepted[a]) <==> s.accepted[a].op.Release? || EpochOf(s.accepted[a].replaced) < INT64_MAX
    {
      assert EntryOk(first, s.accepted, a);
      EpochsAlongChain(first, s, a, a);
    }
    if NeverAtTop(s.accepted) {
      forall i: nat, j: nat | i <= j <= |s.accepted|
        ensures EpochOf(RecordAfter(first, s.accepted, i)) <= EpochOf(RecordAfter(first, s.accepted, j))
      {
        EpochsAlongChain(first, s, i, j);
      }
    }
  }

  /** So the stored epoch never decreases from one state of a run to a later one, and no two
      accepted Promotes share an epoch. */
  lemma EpochsAreDistinct(rules: Rules, run: seq<System>, actions: seq<Action>, j: nat, k: nat)
    requires IsRun(rules, run, actions) && Fresh(run[0]) && j <= k < |run|
    requires IsInt64(EpochOf(CurrentRecord(run[0].store))) && NeverAtTop(run[k].accepted)
    ensures EpochOf(CurrentRecord(run[j].store)) <= EpochOf(CurrentRecord(run[k].store))
    ensures forall a, b :: 0 <= a < b < |run[k].accepted| && run[k].accepted[b].op.Promote? ==>
              run[k].accepted[a].record.epoch < run[k].accepted[b].record.epoch
  {
    RunKeepsHistory(rules, run, actions, j, k);
    var first, s := run[0].store, run[k];
    EpochsAlongChain(first, s, |run[j].accepted|, |s.accepted|);
    assert RecordAfter(first, s.accepted, |run[j].accepted|) == RecordAfter(first, run[j].accepted, |run[j].accepted|);
    forall a, b | 0 <= a < b < |s.accepted| && s.accepted[b].op.Promote?
      ensures s.accepted[a].record.epoch < s.accepted[b].record.epoch
    {
      assert EntryOk(first, s.accepted, b);
      EpochsAlongChain(first, s, a + 1, b);
    }
  }

  // ---------- recovery-point handover ----------

  /** `listing` is what the environment answered, before state `k`, to the Promote `id` of `side`
      when it held this record and ETag. */
  ghost predicate Answered(run: seq<System>, actions: seq<Action>, k: nat, id: TaskId, side: ClusterId, op: Op,
                           held: Option<HandoffRecord>, etag: ETag, listing: Option<seq<RecoveryPoint>>)
  {
    exists n ::
      && 0 <= n < k && n < |actions| && n < |run| && actions[n] == Advance(id, Listed(listing))
      && id in run[n].tasks && run[n].tasks[id] == Task(side, op, PickRecovery(held, etag))
  }

  ghost predicate TaskAnswered(run: seq<System>, actions: seq<Action>, k: nat, id: TaskId, task: Task) {
    task.step.ClaimHandoff? ==>
      Answered(run, actions, k, id, task.side, task.op, task.step.held, task.step.etag, task.step.listing)
  }

  ghost predicate EntryAnswered(run: seq<System>, actions: seq<Action>, k: nat, e: Accepted) {
    e.op.Promote? ==> Answered(run, actions, k, e.task, e.side, e.op, e.replaced, e.expected, e.listing)
  }

  ghost predicate AllAnswered(run: seq<System>, actions: seq<Action>, k: nat)
    requires k < |run|
  {
    && (forall id | id in run[k].tasks :: TaskAnswered(run, actions, k, id, run[k].tasks[id]))
    && (forall a | 0 <= a < |run[k].accepted| :: EntryAnswered(run, actions, k, run[k].accepted[a]))
  }

  lemma AdvanceFrame(s: System, id: TaskId, answer: Answer, j: TaskId)
    requires id in s.tasks && s.tasks[id].side in s.jobs && Fits(s.tasks[id].step, answer)
    requires j in StepTask(s, id, answer).tasks
    ensures j in s.tasks
    ensures j != id ==> StepTask(s, id, answer).tasks[j] == s.tasks[j]
    ensures j == id && StepTask(s, id, answer).tasks[j].step.ClaimHandoff? ==> s.tasks[j].step.PickRecovery?
  {
  }

  /** A step leaves alone all tasks but the one that takes it, and only the answer to a listing
      brings a task to its claim. */
  lemma StepFrame(rules: Rules, s: System, a: Action, id: TaskId)
    requires Enabled(rules, s, a) && id in Apply(rules, s, a).tasks
    ensures (id in s.tasks && Apply(rules, s, a).tasks[id] == s.tasks[id])
            || !Apply(rules, s, a).tasks[id].step.ClaimHandoff?
            || (a.Advance? && a.id == id && s.tasks[id].step.PickRecovery?)
  {
    if a.Advance? {
      AdvanceFrame(s, a.id, a.answer, id);
    }
  }

  lemma WriteOfClaim(rules: Rules, first: Store, s: System, a: Action)
    requires Enabled(rules, s, a) && History(first, s) && Apply(rules, s, a).accepted != s.accepted
    ensures var after := Apply(rules, s, a).accepted;
            && after == s.accepted + [after[|s.accepted|]]
            && var e := after[|s.accepted|];
            e.op.Promote? ==>
              && a.Advance? && a.id in s.tasks && e.task == a.id
              && s.tasks[a.id].step.ClaimHandoff? && e.side == s.tasks[a.id].side && e.op == s.tasks[a.id].op
              && e.replaced == s.tasks[a.id].step.held && e.expected == s.tasks[a.id].step.etag
              && e.listing == s.tasks[a.id].step.listing
  {
    assert StepOk(s, s.tasks[a.id]);
  }

  lemma StepKeepsAnswered(rules: Rules, run: seq<System>, actions: seq<Action>, k: nat)
    requires IsRun(rules, run, actions) && k < |actions| && AllAnswered(run, actions, k)
             && History(run[0].store, run[k])
    ensures AllAnswered(run, actions, k + 1)
  {
    var s, a, s' := run[k], actions[k], run[k + 1];
    forall id | id in s'.tasks
      ensures TaskAnswered(run, actions, k + 1, id, s'.tasks[id])
    {
      StepFrame(rules, s, a, id);
      if id in s.tasks && s'.tasks[id] == s.tasks[id] {
        assert TaskAnswered(run, actions, k, id, s.tasks[id]);
      }
    }
    forall i | 0 <= i < |s'.accepted|
      ensures EntryAnswered(run, actions, k + 1, s'.accepted[i])
    {
      if s'.accepted != s.accepted {
        WriteOfClaim(rules, run[0].store, s, a);
      }
      if i < |s.accepted| {
        assert EntryAnswered(run, actions, k, s.accepted[i]);
      } else {
        assert s'.accepted[i].op.Promote? ==> TaskAnswered(run, actions, k, a.id, s.tasks[a.id]);
      }
    }
  }

  lemma {:induction false} RunKeepsAnswered(rules: Rules, run: seq<System>, actions: seq<Action>, k: nat)
    requires IsRun(rules, run, actions) && Fresh(run[0]) && k < |run|
    ensures AllAnswered(run, actions, k)
  {
    if k > 0 {
      RunKeepsAnswered(rules, run, actions, k - 1);
      RunKeepsHistory(rules, run, actions, k - 1, k - 1);
      StepKeepsAnswered(rules, run, actions, k - 1);
    }
  }

  // ---------- the savepoint of a Release ----------

  /** The savepoint that a Release carries along. */
  function Carried(step: Step): Option<RecoveryPointRef> {
    match step
    case SuspendLocal(rp) => Some(rp)
    case WaitStopped(rp) => Some(rp)
    case TokenNeutral(rp) => Some(rp)
    case ReadForRelease(rp, _) => Some(rp)
    case WriteReleased(rp, _, _, _) => Some(rp)
    case _ => None
  }

  /** From state `n` to state `k`, `id` is one and the same Release of `side`. */
  ghost predicate Releasing(run: seq<System>, id: TaskId, side: ClusterId, n: nat, k: nat) {
    forall j | n <= j <= k && j < |run| ::
      id in run[j].tasks && run[j].tasks[id].side == side && run[j].tasks[id].op == Release
  }

  /** The Release `id` of `side`, at work in state `k`, was answered `path` when it asked for a
      savepoint; the empty path says that none could be taken. */
  ghost predicate Took(run: seq<System>, actions: seq<Action>, k: nat, id: TaskId, side: ClusterId, path: string) {
    exists n ::
      && 0 <= n < k && n < |actions| && n < |run| && actions[n] == Advance(id, Saved(path))
      && id in run[n].tasks && run[n].tasks[id].step == Savepoint
      && Releasing(run, id, side, n, k)
  }

  /** The savepoint at that path, or no recovery point. */
  predicate HandsOver(rp: RecoveryPointRef, path: string) {
    if path == "" then rp.path == "" else rp == RecoveryPointRef(path, "savepoint")
  }

  ghost predicate TookWhat(run: seq<System>, actions: seq<Action>, k: nat, id: TaskId, side: ClusterId,
                           rp: RecoveryPointRef)
  {
    exists path :: Took(run, actions, k, id, side, path) && HandsOver(rp, path)
  }

  ghost predicate TaskSaved(run: seq<System>, actions: seq<Action>, k: nat, id: TaskId, task: Task) {
    Carried(task.step).Some? ==> TookWhat(run, actions, k, id, task.side, Carried(task.step).value)
  }

  /** The Release that published `e` was answered this savepoint, and did not end before it published. */
  ghost predicate EntrySaved(run: seq<System>, actions: seq<Action>, k: nat, e: Accepted) {
    e.op.Release? ==>
      exists w: nat :: w < k && w < |actions| && actions[w].Advance? && actions[w].id == e.task
        && TookWhat(run, actions, w, e.task, e.side, e.record.recoveryPoint)
  }

  ghost predicate AllSaved(run: seq<System>, actions: seq<Action>, k: nat)
    requires k < |run|
  {
    && (forall id | id in run[k].tasks :: TaskSaved(run, actions, k, id, run[k].tasks[id]))
    && (forall a | 0 <= a < |run[k].accepted| :: EntrySaved(run, actions, k, run[k].accepted[a]))
  }

  lemma CarriedFrame(s: System, id: TaskId, answer: Answer, j: TaskId)
    requires id in s.tasks && s.tasks[id].side in s.jobs && Fits(s.tasks[id].step, answer)
    requires j in StepTask(s, id, answer).tasks
    ensures j in s.tasks
    ensures var t, t' := s.tasks[j], StepTask(s, id, answer).tasks[j];
            && t'.side == t.side && t'.op == t.op
            && (j != id ==> t' == t)
            && (j == id && Carried(t'.step).Some? ==>
                  (t.step.Savepoint? && answer.Saved? && HandsOver(Carried(t'.step).value, answer.path))
                  || Carried(t.step) == Carried(t'.step))
  {
  }

  /** Every task but a new one goes on as the same switch; only the answer to its savepoint request
      gives a Release something to carry. */
  lemma CarryFrame(rules: Rules, s: System, a: Action, id: TaskId)
    requires Enabled(rules, s, a) && id in Apply(rules, s, a).tasks
             && Carried(Apply(rules, s, a).tasks[id].step).Some?
    ensures id in s.tasks
    ensures var t, t' := s.tasks[id], Apply(rules, s, a).tasks[id];
            && t'.side == t.side && t'.op == t.op
            && (Carried(t.step) == Carried(t'.step)
                || (t.step.Savepoint? && a.Advance? && a.id == id && a.answer.Saved?
                    && HandsOver(Carried(t'.step).value, a.answer.path)))
  {
    if a.Advance? {
      CarriedFrame(s, a.id, a.answer, id);
    }
  }

  lemma StillTook(run: seq<System>, actions: seq<Action>, k: nat, id: TaskId, side: ClusterId, rp: RecoveryPointRef)
    requires TookWhat(run, actions, k, id, side, rp) && k + 1 < |run|
    requires id in run[k + 1].tasks && run[k + 1].tasks[id].side == side && run[k + 1].tasks[id].op == Release
    ensures TookWhat(run, actions, k + 1, id, side, rp)
  {
    var path :| Took(run, actions, k, id, side, path) && HandsOver(rp, path);
    assert Took(run, actions, k + 1, id, side, path);
  }

  lemma JustTook(run: seq<System>, actions: seq<Action>, k: nat, id: TaskId, side: ClusterId, path: string)
    requires k + 1 < |run| && k < |actions| && actions[k] == Advance(id, Saved(path))
    requires id in run[k].tasks && run[k].tasks[id] == Task(side, Release, Savepoint)
    requires id in run[k + 1].tasks && run[k + 1].tasks[id].side == side && run[k + 1].tasks[id].op == Release
    ensures Took(run, actions, k + 1, id, side, path)
  {
    assert Releasing(run, id, side, k, k + 1);
  }

  lemma TaskKeepsSaved(rules: Rules, run: seq<System>, actions: seq<Action>, k: nat, id: TaskId)
    requires IsRun(rules, run, actions) && k < |actions| && AllSaved(run, actions, k) && History(run[0].store, run[k])
    requires id in run[k + 1].tasks
    ensures TaskSaved(run, actions, k + 1, id, run[k + 1].tasks[id])
  {
    var s, a, s' := run[k], actions[k], run[k + 1];
    if Carried(s'.tasks[id].step).Some? {
      CarryFrame(rules, s, a, id);
      var rp := Carried(s'.tasks[id].step).value;
      assert StepOk(s, s.tasks[id]);
      if Carried(s.tasks[id].step) == Carried(s'.tasks[id].step) {
        assert TaskSaved(run, actions, k, id, s.tasks[id]);
        StillTook(run, actions, k, id, s.tasks[id].side, rp);
      } else {
        JustTook(run, actions, k, id, s.tasks[id].side, a.answer.path);
      }
    }
  }

  lemma WriteOfRelease(rules: Rules, first: Store, s: System, a: Action)
    requires Enabled(rules, s, a) && History(first, s) && Apply(rules, s, a).accepted != s.accepted
    ensures var after := Apply(rules, s, a).accepted;
            && after == s.accepted + [after[|s.accepted|]]
            && var e := after[|s.accepted|];
            e.op.Release? ==>
              && a.Advance? && a.id in s.tasks && e.task == a.id && e.side == s.tasks[a.id].side
              && Carried(s.tasks[a.id].step) == Some(e.record.recoveryPoint)
  {
    assert StepOk(s, s.tasks[a.id]);
  }

  lemma StepKeepsSaved(rules: Rules, run: seq<System>, actions: seq<Action>, k: nat)
    requires IsRun(rules, run, actions) && k < |actions| && AllSaved(run, actions, k) && History(run[0].store, run[k])
    ensures AllSaved(run, actions, k + 1)
  {
    var s, a, s' := run[k], actions[k], run[k + 1];
    forall id | id in s'.tasks
      ensures TaskSaved(run, actions, k + 1, id, s'.tasks[id])
    {
      TaskKeepsSaved(rules, run, actions, k, id);
    }
    forall i | 0 <= i < |s'.accepted|
      ensures EntrySaved(run, actions, k + 1, s'.accepted[i])
    {
      if s'.accepted != s.accepted {
        WriteOfRelease(rules, run[0].store, s, a);
      }
      if i < |s.accepted| {
        assert EntrySaved(run, actions, k, s.accepted[i]);
      } else if s'.accepted[i].op.Release? {
        assert TaskSaved(run, actions, k, a.id, s.tasks[a.id]);
      }
    }
  }

  /** The record that a Release publishes hands over the savepoint that this Release was answered. */
  lemma {:induction false} RunKeepsSaved(rules: Rules, run: seq<System>, actions: seq<Action>, k: nat)
    requires IsRun(rules, run, actions) && Fresh(run[0]) && k < |run|
    ensures AllSaved(run, actions, k)
  {
    if k > 0 {
      RunKeepsSaved(rules, run, actions, k - 1);
      RunKeepsHistory(rules, run, actions, k - 1, k - 1);
      StepKeepsSaved(rules, run, actions, k - 1);
    }
  }

  /** The choice of a Promote, given what it read: the savepoint of the record, or the newest
      checkpoint of a listing that is sorted newest first. */
  lemma ChoiceOfClaim(replaced: HandoffRecord, choice: RecoveryPointRef, listing: Option<seq<RecoveryPoint>>)
    requires choice == RecoveryChoice(Some(replaced), listing)
    ensures replaced.recoveryPoint.path != "" ==> choice == replaced.recoveryPoint
    ensures replaced.recoveryPoint.path == "" ==> choice == RecoveryChoice(None, listing)
    ensures replaced.recoveryPoint.path == "" && listing.None? ==> choice == RecoveryPointRef("", "none")
    ensures replaced.recoveryPoint.path == "" && listing.Some? && NewestFirst(listing.value) ==>
              IsNewestChoice(choice, listing.value)
  {
    if replaced.recoveryPoint.path == "" && listing.Some? && NewestFirst(listing.value) {
      ChoiceIsNewestCheckpoint(Some(replaced), listing.value);
    }
  }

  /** A non-forced Promote that starts the local job starts it from the recovery point of the
      record it installed, and consumed the record of one Release: if that very Release was answered
      a savepoint, this is where the job starts; if it was answered none, the job starts from the
      choice out of the listing that the Promote was answered, which is the newest checkpoint if the
      listing is sorted newest first. */
  lemma RecoveryPointHandover(rules: Rules, run: seq<System>, actions: seq<Action>, k: nat, i: nat)
    returns (w: nat, savepoint: string)
    requires IsRun(rules, run, actions) && Fresh(run[0]) && k < |run|
    requires run[0].store.handoff.Some? ==> !run[0].store.handoff.value.record.phase.Released?
    requires i < |run[k].started| && run[k].started[i].op == Promote(false)
    ensures var accepted, start := run[k].accepted, run[k].started[i];
            && 0 < start.claim < |accepted|
            && (var claim, release := accepted[start.claim], accepted[start.claim - 1];
                && claim.side == start.side && claim.op == start.op
                && release.op.Release? && release.record.phase.Released? && release.record.releasedBy == release.side
                && claim.expected == release.installed && claim.replaced == Some(release.record)
                && claim.record.recoveryPoint.path == start.path
                && Answered(run, actions, k, claim.task, claim.side, claim.op, claim.replaced, claim.expected,
                            claim.listing)
                && w < k && Took(run, actions, w, release.task, release.side, savepoint)
                && if savepoint == "" then
                     && claim.record.recoveryPoint == RecoveryChoice(None, claim.listing)
                     && (claim.listing.None? ==> claim.record.recoveryPoint == RecoveryPointRef("", "none"))
                     && (claim.listing.Some? && NewestFirst(claim.listing.value) ==>
                           IsNewestChoice(claim.record.recoveryPoint, claim.listing.value))
                   else
                     && claim.record.recoveryPoint == RecoveryPointRef(savepoint, "savepoint")
                     && start.path == savepoint)
  {
    RunKeepsAnswered(rules, run, actions, k);
    RunKeepsSaved(rules, run, actions, k);
    RunKeepsHistory(rules, run, actions, k, k);
    var accepted, claim := run[k].accepted, run[k].started[i].claim;
    ConsumedRelease(run[0].store, run[k], i);
    assert EntryAnswered(run, actions, k, accepted[claim]);
    ChoiceOfClaim(accepted[claim].replaced.value, accepted[claim].record.recoveryPoint, accepted[claim].listing);
    w, savepoint := SavepointOfEntry(run, actions, k, claim - 1);
  }

  lemma ConsumedRelease(first: Store, s: System, i: nat)
    requires History(first, s) && (first.handoff.Some? ==> !first.handoff.value.record.phase.Released?)
    requires i < |s.started| && s.started[i].op == Promote(false)
    ensures var start := s.started[i];
            && 0 < start.claim < |s.accepted|
            && (var claim, release := s.accepted[start.claim], s.accepted[start.claim - 1];
                && claim.side == start.side && claim.op == start.op
                && release.op.Release? && release.record.phase.Released? && release.record.releasedBy == release.side
                && claim.expected == release.installed && claim.replaced == Some(release.record)
                && claim.record.recoveryPoint == RecoveryChoice(claim.replaced, claim.listing)
                && claim.record.recoveryPoint.path == start.path)
  {
    var start := s.started[i];
    assert ClaimOk(s.accepted, start.claim, start.side, start.op, start.path);
    assert EntryOk(first, s.accepted, start.claim);
    assert start.claim > 0;
    assert EntryOk(first, s.accepted, start.claim - 1);
  }

  lemma SavepointOfEntry(run: seq<System>, actions: seq<Action>, k: nat, a: nat) returns (w: nat, savepoint: string)
    requires k < |run| && a < |run[k].accepted| && AllSaved(run, actions, k) && run[k].accepted[a].op.Release?
    ensures var e := run[k].accepted[a];
            w < k && Took(run, actions, w, e.task, e.side, savepoint) && HandsOver(e.record.recoveryPoint, savepoint)
  {
    var e := run[k].accepted[a];
    assert EntrySaved(run, actions, k, e);
    w :| w < k && w < |actions| && actions[w].Advance? && actions[w].id == e.task
         && TookWhat(run, actions, w, e.task, e.side, e.record.recoveryPoint);
    savepoint :| Took(run, actions, w, e.task, e.side, savepoint) && HandsOver(e.record.recoveryPoint, savepoint);
  }

  // ---------- the records themselves ----------

  /** Every accepted record, field by field: a Release keeps owner and epoch, a Promote names its side
      with the next epoch; without a record to replace they start from nothing. */
  lemma AcceptedRecords(rules: Rules, run: seq<System>, actions: seq<Action>, k: nat, a: nat)
    requires IsRun(rules, run, actions) && Fresh(run[0]) && k < |run| && a < |run[k].accepted|
    ensures var e := run[k].accepted[a];
            match e.replaced
            case None =>
              && (e.op.Release? ==> e.record == HandoffRecord("", 0, Released, e.record.recoveryPoint, e.side))
              && (e.op.Promote? ==> e.record == HandoffRecord(e.side, 1, Stable, e.record.recoveryPoint, ""))
            case Some(held) =>
              && (e.op.Release? ==>
                    e.record
                    == HandoffRecord(held.activeClusterId, held.epoch, Released, e.record.recoveryPoint, e.side))
              && (e.op.Promote? && IsInt64(held.epoch) ==>
                    e.record == HandoffRecord(e.side, if held.epoch == INT64_MAX then INT64_MIN else held.epoch + 1,
                                              Stable, e.record.recoveryPoint, ""))
  {
    RunKeepsHistory(rules, run, actions, k, k);
    assert EntryOk(run[0].store, run[k].accepted, a);
  }
}
