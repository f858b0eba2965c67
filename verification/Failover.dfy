/** Release and Promote (internal/failover/switch.go) as a transition system. Consoles share the
    store of module `Coord`; each switch is a task that advances one request at a time, so tasks
    interleave freely, requests may fail, and a task may be abandoned between any two steps. */
module Failover {
  import opened Wrappers
  import opened Coord

  type TaskId = nat

  const RELEASE_ATTEMPTS := 3

  // ---------- recovery points ----------

  datatype RecoveryPoint = RecoveryPoint(kind: string, path: string, modified: int)

  /** The first point of the given kind at index `from` or later. */
  function FirstOfKind(points: seq<RecoveryPoint>, kind: string, from: nat): Option<RecoveryPoint>
    decreases |points| - from
  {
    if from >= |points| then None
    else if points[from].kind == kind then Some(points[from])
    else FirstOfKind(points, kind, from + 1)
  }

  /** The savepoint of the record, else the first checkpoint listed, else the first savepoint
      listed, else none. A failed or unconfigured listing is `None`. */
  function RecoveryChoice(held: Option<HandoffRecord>, listing: Option<seq<RecoveryPoint>>): RecoveryPointRef {
    if held.Some? && held.value.recoveryPoint.path != "" then held.value.recoveryPoint
    else if listing.None? then RecoveryPointRef("", "none")
    else
      match FirstOfKind(listing.value, "checkpoint", 0)
      case Some(p) => RecoveryPointRef(p.path, "checkpoint")
      case None =>
        match FirstOfKind(listing.value, "savepoint", 0)
        case Some(p) => RecoveryPointRef(p.path, "savepoint")
        case None => RecoveryPointRef("", "none")
  }

  /** The `i`-th point is the first of its kind. */
  predicate IsFirst(points: seq<RecoveryPoint>, kind: string, i: nat) {
    i < |points| && points[i].kind == kind && forall j | 0 <= j < i :: points[j].kind != kind
  }

  predicate HasNone(points: seq<RecoveryPoint>, kind: string) {
    forall i | 0 <= i < |points| :: points[i].kind != kind
  }

  /** The first checkpoint listed; if there is none the first savepoint listed; else nothing. */
  ghost predicate IsFirstChoice(path: string, kind: string, points: seq<RecoveryPoint>) {
    || (kind == "checkpoint" && exists i: nat :: IsFirst(points, "checkpoint", i) && path == points[i].path)
    || (kind == "savepoint" && HasNone(points, "checkpoint")
        && exists i: nat :: IsFirst(points, "savepoint", i) && path == points[i].path)
    || (kind == "none" && path == "" && HasNone(points, "checkpoint") && HasNone(points, "savepoint"))
  }

  lemma {:induction false} FirstOfKindIsFirst(points: seq<RecoveryPoint>, kind: string, from: nat)
    requires from <= |points| && forall j | 0 <= j < from :: points[j].kind != kind
    ensures match FirstOfKind(points, kind, from)
            case Some(p) => exists i: nat :: IsFirst(points, kind, i) && p == points[i]
            case None => HasNone(points, kind)
    decreases |points| - from
  {
    if from < |points| {
      if points[from].kind == kind {
        assert IsFirst(points, kind, from);
      } else {
        FirstOfKindIsFirst(points, kind, from + 1);
      }
    }
  }

  lemma ChoiceIsFirst(held: Option<HandoffRecord>, listing: Option<seq<RecoveryPoint>>)
    ensures var rp := RecoveryChoice(held, listing);
            if held.Some? && held.value.recoveryPoint.path != "" then rp == held.value.recoveryPoint
            else if listing.Some? then IsFirstChoice(rp.path, rp.kind, listing.value)
            else rp == RecoveryPointRef("", "none")
  {
    if listing.Some? {
      FirstOfKindIsFirst(listing.value, "checkpoint", 0);
      FirstOfKindIsFirst(listing.value, "savepoint", 0);
    }
  }

  method PickRecoveryPoint(held: Option<HandoffRecord>, listing: Option<seq<RecoveryPoint>>)
    returns (path: string, kind: string)
    ensures RecoveryPointRef(path, kind) == RecoveryChoice(held, listing)
    ensures if held.Some? && held.value.recoveryPoint.path != "" then
              path == held.value.recoveryPoint.path && kind == held.value.recoveryPoint.kind
            else if listing.Some? then IsFirstChoice(path, kind, listing.value)
            else path == "" && kind == "none"
  {
    ChoiceIsFirst(held, listing);
    if held.Some? && held.value.recoveryPoint.path != "" {
      return held.value.recoveryPoint.path, held.value.recoveryPoint.kind;
    }
    if listing.Some? {
      var points := listing.value;
      for i := 0 to |points|
        invariant FirstOfKind(points, "checkpoint", 0) == FirstOfKind(points, "checkpoint", i)
      {
        if points[i].kind == "checkpoint" {
          return points[i].path, "checkpoint";
        }
      }
      for i := 0 to |points|
        invariant FirstOfKind(points, "checkpoint", 0) == None
        invariant FirstOfKind(points, "savepoint", 0) == FirstOfKind(points, "savepoint", i)
      {
        if points[i].kind == "savepoint" {
          return points[i].path, "savepoint";
        }
      }
    }
    return "", "none";
  }

  /** The listing is sorted newest first. */
  ghost predicate NewestFirst(points: seq<RecoveryPoint>) {
    forall i, j :: 0 <= i < j < |points| ==> points[i].modified >= points[j].modified
  }

  lemma {:induction false} FirstIsNewest(points: seq<RecoveryPoint>, kind: string, from: nat)
    requires NewestFirst(points) && from <= |points|
    ensures var first := FirstOfKind(points, kind, from);
            if first.None? then forall q :: q in points[from..] ==> q.kind != kind
            else first.value in points && first.value.kind == kind
                 && forall q :: q in points[from..] && q.kind == kind ==> q.modified <= first.value.modified
    decreases |points| - from
  {
    if from < |points| {
      assert points[from..] == [points[from]] + points[from + 1..];
      if points[from].kind != kind {
        FirstIsNewest(points, kind, from + 1);
      }
    }
  }

  /** `choice` is the newest checkpoint there is; it is a savepoint, again the newest, only when
      there is no checkpoint, and nothing only when there is neither. */
  ghost predicate IsNewestChoice(choice: RecoveryPointRef, points: seq<RecoveryPoint>) {
    && choice.kind in {"checkpoint", "savepoint", "none"}
    && (choice.kind == "none" <==> forall p :: p in points ==> p.kind != "checkpoint" && p.kind != "savepoint")
    && (choice.kind == "savepoint" ==> forall p :: p in points ==> p.kind != "checkpoint")
    && (choice.kind != "none" ==>
          exists p :: p in points && p.kind == choice.kind && p.path == choice.path
            && forall q :: q in points && q.kind == p.kind ==> q.modified <= p.modified)
  }

  /** Without a handed-over savepoint, Promote starts from the newest checkpoint. */
  lemma ChoiceIsNewestCheckpoint(held: Option<HandoffRecord>, points: seq<RecoveryPoint>)
    requires NewestFirst(points)
    requires held.None? || held.value.recoveryPoint.path == ""
    ensures IsNewestChoice(RecoveryChoice(held, Some(points)), points)
  {
    assert points[0..] == points;
    FirstIsNewest(points, "checkpoint", 0);
    FirstIsNewest(points, "savepoint", 0);
    var cp := FirstOfKind(points, "checkpoint", 0);
    var sp := FirstOfKind(points, "savepoint", 0);
    if cp.Some? {
      assert cp.value in points;
    } else if sp.Some? {
      assert sp.value in points;
    }
  }

  // ---------- the system ----------

  datatype Op = Release | Promote(force: bool)

  /** The next request of a task, with the local variables that are live there. The first five
      constructors belong to doRelease, the others to doPromote. */
  datatype Step =
    | Savepoint
    | SuspendLocal(rp: RecoveryPointRef)
    | WaitStopped(rp: RecoveryPointRef)
    | TokenNeutral(rp: RecoveryPointRef)
    | ReadForRelease(rp: RecoveryPointRef, attempt: nat)
    | WriteReleased(rp: RecoveryPointRef, attempt: nat, held: Option<HandoffRecord>, etag: ETag)
    | ReadHandoff
    | PickRecovery(held: Option<HandoffRecord>, etag: ETag)
    | ClaimHandoff(held: Option<HandoffRecord>, etag: ETag, rp: RecoveryPointRef, listing: Option<seq<RecoveryPoint>>)
    | TokenToSelf(rp: RecoveryPointRef, claim: nat)
    | StartLocal(rp: RecoveryPointRef, claim: nat)
    | VerifyLocal

  datatype Task = Task(side: ClusterId, op: Op, step: Step)

  /** `desired` is spec.job.state == "running"; `pods` says that the job's pods are up. */
  datatype Job = Job(desired: bool, pods: bool)

  /** History: an accepted handoff write, with the listing that a Promote chose its recovery point
      from, and an accepted request to start a local job. */
  datatype Accepted = Accepted(task: TaskId, side: ClusterId, op: Op, expected: ETag, replaced: Option<HandoffRecord>,
                               installed: ETag, record: HandoffRecord, listing: Option<seq<RecoveryPoint>>)
  datatype Started = Started(side: ClusterId, op: Op, claim: nat, path: string)

  datatype System = System(
    store: Store,
    neutral: string,
    jobs: map<ClusterId, Job>,
    tasks: map<TaskId, Task>,
    accepted: seq<Accepted>,
    started: seq<Started>)

  /** How the environment answers the pending request of a task. */
  datatype Answer =
    | Saved(path: string) // "" when no savepoint could be taken
    | Wrote(delivery: Delivery)
    | WaitEnded(sawZeroPods: bool) // false: the wait timed out
    | HandoffRead(ok: bool)
    | Listed(listing: Option<seq<RecoveryPoint>>)
    | Verified

  datatype Action =
    | StartRelease(id: TaskId, side: ClusterId)
    | StartPromote(id: TaskId, side: ClusterId, force: bool)
    | Advance(id: TaskId, answer: Answer)
    | Abandon(id: TaskId) // the console crashes, or a local error ends it
    | PodsUp(side: ClusterId)
    | PodsDown(side: ClusterId)
    | Resume(side: ClusterId) // lifecycle operations outside the switch
    | Suspend(side: ClusterId)

  /** What operators and the environment are allowed to do. The code itself enforces none of
      the first five; `podFencing` is the check of the token at pod start. */
  datatype Rules = Rules(
    forcedPromote: bool,
    overlappingTasks: bool,
    releaseWhileIdle: bool,
    waitTimeout: bool,
    otherLifecycle: bool,
    podFencing: bool)

  predicate Disciplined(rules: Rules) {
    !rules.forcedPromote && !rules.overlappingTasks && !rules.releaseWhileIdle && !rules.waitTimeout
      && !rules.otherLifecycle
  }

  predicate Fits(step: Step, answer: Answer) {
    match step
    case Savepoint => answer.Saved?
    case WaitStopped(_) => answer.WaitEnded?
    case ReadForRelease(_, _) => answer.HandoffRead?
    case ReadHandoff => answer.HandoffRead?
    case PickRecovery(_, _) => answer.Listed?
    case VerifyLocal => answer.Verified?
    case _ => answer.Wrote?
  }

  predicate NoTaskOn(s: System, side: ClusterId) {
    forall id | id in s.tasks :: s.tasks[id].side != side
  }

  predicate Enabled(rules: Rules, s: System, a: Action) {
    match a
    case StartRelease(id, side) =>
      && side in s.jobs && id !in s.tasks
      && (rules.overlappingTasks || NoTaskOn(s, side))
      && (rules.releaseWhileIdle || s.jobs[side].pods)
    case StartPromote(id, side, force) =>
      && side in s.jobs && id !in s.tasks
      && (rules.overlappingTasks || NoTaskOn(s, side))
      && (force ==> rules.forcedPromote)
    case Advance(id, answer) =>
      && id in s.tasks && s.tasks[id].side in s.jobs && Fits(s.tasks[id].step, answer)
      && (answer.WaitEnded? ==> if answer.sawZeroPods then !s.jobs[s.tasks[id].side].pods else rules.waitTimeout)
    case Abandon(id) => id in s.tasks
    case PodsUp(side) => side in s.jobs && s.jobs[side].desired && (rules.podFencing ==> s.store.token == side)
    case PodsDown(side) => side in s.jobs
    case Resume(side) => side in s.jobs && rules.otherLifecycle
    case Suspend(side) => side in s.jobs && rules.otherLifecycle
  }

  function Finish(s: System, id: TaskId): System {
    s.(tasks := s.tasks - {id})
  }

  function Goto(s: System, id: TaskId, step: Step): System
    requires id in s.tasks
  {
    s.(tasks := s.tasks[id := s.tasks[id].(step := step)])
  }

  /** Continue when the request was acknowledged, else end the switch. */
  function GotoIf(ok: bool, s: System, id: TaskId, step: Step): System
    requires id in s.tasks
  {
    if ok then Goto(s, id, step) else Finish(s, id)
  }

  function SetDesired(s: System, side: ClusterId, desired: bool, delivery: Delivery): System
    requires side in s.jobs
  {
    if delivery.Lost? then s else s.(jobs := s.jobs[side := s.jobs[side].(desired := desired)])
  }

  function SetPods(s: System, side: ClusterId, up: bool): System
    requires side in s.jobs
  {
    s.(jobs := s.jobs[side := s.jobs[side].(pods := up)])
  }

  /** What a Release publishes: its savepoint, or nothing. */
  function SavepointOf(savepoint: string): RecoveryPointRef {
    if savepoint != "" then RecoveryPointRef(savepoint, "savepoint") else RecoveryPointRef("", "")
  }

  /** The record a Release publishes over the one it read. */
  function ReleasedRecord(held: Option<HandoffRecord>, side: ClusterId, rp: RecoveryPointRef): HandoffRecord {
    var base := if held.Some? then held.value else HandoffRecord("", 0, OtherPhase(""), RecoveryPointRef("", ""), "");
    base.(phase := Released, releasedBy := side, recoveryPoint := rp)
  }

  function PromotedEpoch(held: Option<HandoffRecord>): int {
    if held.Some? then WrapInt64(held.value.epoch + 1) else 1
  }

  function PromotedRecord(held: Option<HandoffRecord>, side: ClusterId, rp: RecoveryPointRef): HandoffRecord {
    HandoffRecord(side, PromotedEpoch(held), Stable, rp, "")
  }

  /** The record that a Promote of `side` installs over `held`. */
  function ClaimOver(held: Option<HandoffRecord>, side: ClusterId, listing: Option<seq<RecoveryPoint>>)
    : HandoffRecord
  {
    PromotedRecord(held, side, RecoveryChoice(held, listing))
  }

  /** A compare-and-swap of the handoff record by a task, with its history entry. */
  function Cas(s: System, id: TaskId, record: HandoffRecord, expected: ETag, delivery: Delivery,
               listing: Option<seq<RecoveryPoint>>): System
    requires id in s.tasks
  {
    if !Accepts(s.store, expected, delivery) then s
    else
      s.(store := Put(s.store, record),
         accepted := s.accepted + [Accepted(id, s.tasks[id].side, s.tasks[id].op, expected, CurrentRecord(s.store),
                                            CurrentTag(Put(s.store, record)), record, listing)])
  }

  predicate MayPromote(op: Op, held: Option<HandoffRecord>) {
    (op.Promote? && op.force) || (held.Some? && held.value.phase.Released?)
  }

  /** One step of a task. */
  function StepTask(s: System, id: TaskId, answer: Answer): System
    requires id in s.tasks && s.tasks[id].side in s.jobs && Fits(s.tasks[id].step, answer)
  {
    var task := s.tasks[id];
    match task.step
    case Savepoint =>
      Goto(s, id, SuspendLocal(SavepointOf(answer.path)))
    case SuspendLocal(rp) =>
      GotoIf(answer.delivery.Delivered?, SetDesired(s, task.side, false, answer.delivery), id, WaitStopped(rp))
    case WaitStopped(rp) =>
      Goto(s, id, TokenNeutral(rp))
    case TokenNeutral(rp) =>
      GotoIf(answer.delivery.Delivered?, s.(store := TokenStore(s.store, s.neutral, answer.delivery)), id,
             ReadForRelease(rp, 0))
    case ReadForRelease(rp, attempt) =>
      GotoIf(answer.ok, s, id, WriteReleased(rp, attempt, CurrentRecord(s.store), CurrentTag(s.store)))
    case WriteReleased(rp, attempt, held, etag) =>
      var again := CasResult(s.store, etag, answer.delivery).Conflict? && attempt + 1 < RELEASE_ATTEMPTS;
      GotoIf(again, Cas(s, id, ReleasedRecord(held, task.side, rp), etag, answer.delivery, None), id,
             ReadForRelease(rp, attempt + 1))
    case ReadHandoff =>
      var held := if answer.ok then CurrentRecord(s.store) else None;
      var etag := if answer.ok then CurrentTag(s.store) else NoTag;
      GotoIf(MayPromote(task.op, held), s, id, PickRecovery(held, etag))
    case PickRecovery(held, etag) =>
      Goto(s, id, ClaimHandoff(held, etag, RecoveryChoice(held, answer.listing), answer.listing))
    case ClaimHandoff(held, etag, rp, listing) =>
      GotoIf(CasResult(s.store, etag, answer.delivery).WriteOk?,
             Cas(s, id, PromotedRecord(held, task.side, rp), etag, answer.delivery, listing), id,
             TokenToSelf(rp, |s.accepted|))
    case TokenToSelf(rp, claim) =>
      GotoIf(answer.delivery.Delivered?, s.(store := TokenStore(s.store, task.side, answer.delivery)), id,
             StartLocal(rp, claim))
    case StartLocal(rp, claim) =>
      var s' := SetDesired(s, task.side, true, answer.delivery);
      var s'' := if answer.delivery.Lost? then s'
        else s'.(started := s'.started + [Started(task.side, task.op, claim, rp.path)]);
      GotoIf(answer.delivery.Delivered?, s'', id, VerifyLocal)
    case VerifyLocal =>
      Finish(s, id)
  }

  function Apply(rules: Rules, s: System, a: Action): System
    requires Enabled(rules, s, a)
  {
    match a
    case StartRelease(id, side) => s.(tasks := s.tasks[id := Task(side, Release, Savepoint)])
    case StartPromote(id, side, force) => s.(tasks := s.tasks[id := Task(side, Promote(force), ReadHandoff)])
    case Advance(id, answer) => StepTask(s, id, answer)
    case Abandon(id) => Finish(s, id)
    case PodsUp(side) => SetPods(s, side, true)
    case PodsDown(side) => SetPods(s, side, false)
    case Resume(side) => SetDesired(s, side, true, Delivered)
    case Suspend(side) => SetDesired(s, side, false, Delivered)
  }

  // ---------- runs ----------

  /** `run` lists the states of an execution in which `actions` were taken. */
  ghost predicate IsRun(rules: Rules, run: seq<System>, actions: seq<Action>) {
    && |run| == |actions| + 1
    && forall i :: 0 <= i < |actions| ==>
       Enabled(rules, run[i], actions[i]) && run[i + 1] == Apply(rules, run[i], actions[i])
  }

  /** One owner, named by the token and by a stable record, and no switch under way. */
  predicate Initial(s: System) {
    && ValidStore(s.store)
    && s.store.handoff.Some?
    && s.store.handoff.value.record.phase.Stable?
    && s.store.token == s.store.handoff.value.record.activeClusterId
    && s.neutral !in s.jobs
    && s.store.token in s.jobs
    && (forall c | c in s.jobs && (s.jobs[c].desired || s.jobs[c].pods) :: c == s.store.token)
    && s.tasks == map[] && s.accepted == [] && s.started == []
  }

  /** No two sides' local jobs run together. */
  predicate Exclusive(s: System) {
    forall c, d | c in s.jobs && d in s.jobs && s.jobs[c].pods && s.jobs[d].pods :: c == d
  }
}
