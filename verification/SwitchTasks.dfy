/** doRelease and doPromote (internal/failover/switch.go) as the programs they are: ordered writes
    to the shared store and to the local deployment, with a retry loop around the handoff record.
    Each is shown to take the steps of module `Failover`, also when other consoles write the record
    or the token between any two of its requests to the store. */
module SwitchTasks {
  import opened Wrappers
  import opened Coord
  import opened Failover

  // ---------- other consoles ----------

  /** A write of another console: a record that replaces the stored one, or a token. */
  datatype Rival = RivalRecord(record: HandoffRecord) | RivalToken(value: string)

  function AfterRivals(store: Store, rivals: seq<Rival>): Store {
    if rivals == [] then store
    else
      var before := AfterRivals(store, rivals[..|rivals| - 1]);
      match rivals[|rivals| - 1]
      case RivalRecord(record) => Put(before, record)
      case RivalToken(value) => before.(token := value)
  }

  /** The record is still the one that was there, or it has an ETag that was not there before. */
  lemma {:induction false} RivalsKeepValid(store: Store, rivals: seq<Rival>)
    requires ValidStore(store)
    ensures var after := AfterRivals(store, rivals);
            && ValidStore(after) && store.writes <= after.writes
            && (after.handoff == store.handoff
                || (after.handoff.Some? && after.handoff.value.etag.version > store.writes))
  {
    if rivals != [] {
      RivalsKeepValid(store, rivals[..|rivals| - 1]);
    }
  }

  /** Any record written by others carries a new ETag. */
  lemma {:induction false} RivalsChangeTag(store: Store, rivals: seq<Rival>)
    requires ValidStore(store) && !KeepRecord(rivals)
    ensures var after := AfterRivals(store, rivals);
            && after.handoff.Some? && after.handoff.value.etag.Tag?
            && after.handoff.value.etag.version > store.writes
  {
    if rivals != [] {
      var n := |rivals| - 1;
      RivalsKeepValid(store, rivals[..n]);
      if rivals[n].RivalToken? {
        RivalsChangeTag(store, rivals[..n]);
      }
    }
  }

  /** A compare-and-swap against an ETag of before finds it unchanged exactly if only tokens were
      written since. */
  lemma TagUnchanged(store: Store, rivals: seq<Rival>)
    requires ValidStore(store)
    ensures CurrentTag(AfterRivals(store, rivals)) == CurrentTag(store) <==> KeepRecord(rivals)
    ensures CurrentTag(AfterRivals(store, rivals)) == NoTag <==> store.handoff.None? && KeepRecord(rivals)
  {
    if KeepRecord(rivals) {
      RecordKept(store, rivals);
    } else {
      RivalsChangeTag(store, rivals);
    }
  }

  /** Only tokens were written. */
  predicate KeepRecord(rivals: seq<Rival>) {
    forall i | 0 <= i < |rivals| :: rivals[i].RivalToken?
  }

  lemma {:induction false} RecordKept(store: Store, rivals: seq<Rival>)
    requires KeepRecord(rivals)
    ensures AfterRivals(store, rivals).handoff == store.handoff
  {
    if rivals != [] {
      RecordKept(store, rivals[..|rivals| - 1]);
    }
  }

  // ---------- the moves of one switch ----------

  /** A step of the switch itself, or a write of another console. */
  datatype Move = Own(answer: Answer) | Other(rival: Rival)

  predicate CanStep(s: System, id: TaskId, answer: Answer) {
    id in s.tasks && s.tasks[id].side in s.jobs && Fits(s.tasks[id].step, answer)
  }

  /** The moves in order, until the switch has ended. */
  function TaskRun(s: System, id: TaskId, moves: seq<Move>): System
    decreases |moves|
  {
    if moves == [] || id !in s.tasks then s
    else
      match moves[0]
      case Other(rival) => TaskRun(s.(store := AfterRivals(s.store, [rival])), id, moves[1..])
      case Own(answer) => if CanStep(s, id, answer) then TaskRun(StepTask(s, id, answer), id, moves[1..]) else s
  }

  lemma OwnMove(s: System, id: TaskId, answer: Answer, rest: seq<Move>)
    requires CanStep(s, id, answer)
    ensures TaskRun(s, id, [Own(answer)] + rest) == TaskRun(StepTask(s, id, answer), id, rest)
  {
    assert ([Own(answer)] + rest)[1..] == rest;
  }

  function Others(rivals: seq<Rival>): seq<Move> {
    seq(|rivals|, i requires 0 <= i < |rivals| => Other(rivals[i]))
  }

  function Disturbed(s: System, rivals: seq<Rival>): System {
    s.(store := AfterRivals(s.store, rivals))
  }

  lemma {:induction false} OtherMoves(s: System, id: TaskId, rivals: seq<Rival>, rest: seq<Move>)
    requires id in s.tasks
    ensures TaskRun(s, id, Others(rivals) + rest) == TaskRun(Disturbed(s, rivals), id, rest)
    decreases |rivals|
  {
    if rivals == [] {
      assert Others(rivals) + rest == rest;
    } else {
      var n := |rivals| - 1;
      var last := [Other(rivals[n])] + rest;
      assert Others(rivals) + rest == Others(rivals[..n]) + last;
      OtherMoves(s, id, rivals[..n], last);
      assert last[1..] == rest && [rivals[n]][..0] == [];
      assert AfterRivals(AfterRivals(s.store, rivals[..n]), [rivals[n]]) == AfterRivals(s.store, rivals);
    }
  }

  lemma Ended(s: System, id: TaskId, moves: seq<Move>)
    requires id !in s.tasks
    ensures TaskRun(s, id, moves) == s
  {
  }

  /** One try of the retry loop: the read and the compare-and-swap, each after writes of others. */
  datatype Try = Try(before: seq<Rival>, read: Delivery, between: seq<Rival>, cas: Delivery)

  /** Both requests get through, and nobody has replaced the record between them. */
  predicate Undisturbed(t: Try) {
    t.read.Delivered? && t.cas.Delivered? && KeepRecord(t.between)
  }

  /** Both requests get through, but somebody has replaced the record between them. */
  predicate Overtaken(t: Try) {
    t.read.Delivered? && t.cas.Delivered? && !KeepRecord(t.between)
  }

  /** One of the first three tries is undisturbed, and those before it were only overtaken. */
  predicate GetsThrough(tries: seq<Try>)
    requires |tries| == 3
  {
    || Undisturbed(tries[0])
    || (Overtaken(tries[0]) && Undisturbed(tries[1]))
    || (Overtaken(tries[0]) && Overtaken(tries[1]) && Undisturbed(tries[2]))
  }

  function TryMoves(t: Try): seq<Move> {
    Others(t.before) + ([Own(HandoffRead(t.read.Delivered?))] + (Others(t.between) + [Own(Wrote(t.cas))]))
  }

  function TriesMoves(tries: seq<Try>): seq<Move> {
    if tries == [] then [] else TryMoves(tries[0]) + TriesMoves(tries[1..])
  }

  function ReleaseMoves(savepoint: string, suspend: Delivery, sawZeroPods: bool, beforeToken: seq<Rival>,
                        token: Delivery,
                        tries: seq<Try>): seq<Move> {
    [Own(Saved(savepoint))] +
      ([Own(Wrote(suspend))] + ([Own(WaitEnded(sawZeroPods))] + FenceMoves(beforeToken, token, tries)))
  }

  function FenceMoves(beforeToken: seq<Rival>, token: Delivery, tries: seq<Try>): seq<Move> {
    Others(beforeToken) + ([Own(Wrote(token))] + TriesMoves(tries))
  }

  /** What happens to a Promote: the answers to its requests, and the writes of others before its
      claim, before its token write and before its start. */
  datatype PromoteNet = PromoteNet(read: Delivery, listing: Option<seq<RecoveryPoint>>, beforeClaim: seq<Rival>,
                                   claim: Delivery, beforeToken: seq<Rival>, token: Delivery,
                                   beforeStart: seq<Rival>, start: Delivery)

  function PromoteMoves(net: PromoteNet): seq<Move> {
    [Own(HandoffRead(net.read.Delivered?))] + PickMoves(net)
  }

  function PickMoves(net: PromoteNet): seq<Move> {
    [Own(Listed(net.listing))] + (Others(net.beforeClaim) + ClaimMoves(net))
  }

  function ClaimMoves(net: PromoteNet): seq<Move> {
    [Own(Wrote(net.claim))] + (Others(net.beforeToken) + TakeMoves(net))
  }

  function TakeMoves(net: PromoteNet): seq<Move> {
    [Own(Wrote(net.token))] + (Others(net.beforeStart) + [Own(Wrote(net.start))])
  }

  // ---------- what success means ----------

  /** The record says that `side` has stepped down and hands over `rp`. */
  predicate Published(store: Store, side: ClusterId, rp: RecoveryPointRef) {
    && store.handoff.Some?
    && store.handoff.value.record.phase.Released? && store.handoff.value.record.releasedBy == side
    && store.handoff.value.record.recoveryPoint == rp
  }

  /** The token and a stable record name `side`. */
  predicate Fenced(store: Store, side: ClusterId) {
    store.token == side && Owns(store, side)
  }

  /** The store after a successful Promote: its claim over the record that was stored when it began, its
      token, and what others wrote in between. */
  function StoreAfterPromote(s: System, side: ClusterId, net: PromoteNet): Store {
    var claimed := Put(AfterRivals(s.store, net.beforeClaim), ClaimOver(CurrentRecord(s.store), side, net.listing));
    AfterRivals(AfterRivals(claimed, net.beforeToken).(token := side), net.beforeStart)
  }

  /** When a Promote succeeds: it is forced or has read a released record, it has read what is there,
      nobody has replaced that before its claim, and its three writes get through. */
  predicate Granted(s: System, force: bool, net: PromoteNet) {
    && (force || (net.read.Delivered? && s.store.handoff.Some? && s.store.handoff.value.record.phase.Released?))
    && (net.read.Delivered? || s.store.handoff.None?)
    && KeepRecord(net.beforeClaim)
    && net.claim.Delivered? && net.token.Delivered? && net.start.Delivered?
  }

  /** Unless others write the record or, after the token write, the token, record and token name the
      promoter when it is done. */
  lemma UndisturbedIsFenced(s: System, side: ClusterId, net: PromoteNet)
    requires KeepRecord(net.beforeToken) && net.beforeStart == []
    ensures Fenced(StoreAfterPromote(s, side, net), side)
  {
    var claim := ClaimOver(CurrentRecord(s.store), side, net.listing);
    RecordKept(Put(AfterRivals(s.store, net.beforeClaim), claim), net.beforeToken);
  }

  /** What a console writes of its local deployment: whether spec.job.state is "running", the savepoint
      path to start from, and the redeploy nonce. */
  datatype Local = Local(desired: bool, startPath: string, nonce: int)

  /** A patch of the state; the path and the nonce go along only if there is a path. */
  function StatePatched(l: Local, running: bool, path: string, nonce: int): Local {
    if path != "" then Local(running, path, nonce) else l.(desired := running)
  }

  /** The job is asked to run from `path` under the new nonce; without a path the old ones stay. */
  function StartedFrom(l: Local, path: string, newNonce: int): Local {
    Local(true, if path == "" then l.startPath else path, if path == "" then l.nonce else newNonce)
  }

  /** One console with its local deployment. */
  class Console {
    const side: ClusterId
    const neutral: string
    const coord: Backend
    /** spec.job.state of the local deployment is "running". */
    var desired: bool
    /** spec.job.initialSavepointPath and spec.job.savepointRedeployNonce. */
    var startPath: string
    var nonce: int

    function LocalJob(): Local
      reads this
    {
      Local(desired, startPath, nonce)
    }

    constructor (side: ClusterId, neutral: string, coord: Backend, job: Local)
      ensures this.side == side && this.neutral == neutral && this.coord == coord && LocalJob() == job
    {
      this.side, this.neutral, this.coord := side, neutral, coord;
      desired, startPath, nonce := job.desired, job.startPath, job.nonce;
    }

    /** The console's view of the system agrees with `s`. */
    ghost predicate Shows(s: System)
      reads this, coord
    {
      && s.store == coord.View() && ValidStore(s.store)
      && s.neutral == neutral && side in s.jobs && s.jobs[side].desired == desired
    }

    /** ... and `id` is a task of this console about to take `step`. */
    ghost predicate At(s: System, id: TaskId, op: Op, step: Step)
      reads this, coord
    {
      Shows(s) && id in s.tasks && s.tasks[id] == Task(side, op, step)
    }

    method PatchState(running: bool, path: string, nonce: int, d: Delivery) returns (ok: bool)
      modifies this`desired, this`startPath, this`nonce
      ensures LocalJob() == (if d.Lost? then old(LocalJob()) else StatePatched(old(LocalJob()), running, path, nonce))
      ensures ok == d.Delivered?
    {
      if !d.Lost? {
        desired := running;
        if path != "" {
          startPath := path;
          this.nonce := nonce;
        }
      }
      ok := d.Delivered?;
    }

    method Interfere(rivals: seq<Rival>)
      requires ValidStore(coord.View())
      modifies coord
      ensures coord.View() == AfterRivals(old(coord.View()), rivals) && ValidStore(coord.View())
    {
      ghost var before := coord.View();
      assert rivals[..0] == [];
      for i := 0 to |rivals|
        invariant coord.View() == AfterRivals(before, rivals[..i])
      {
        assert rivals[..i + 1][..i] == rivals[..i];
        match rivals[i]
        case RivalRecord(record) =>
          var _ := coord.PutObjectCond(record, NoTag, false, Delivered);
        case RivalToken(value) =>
          var _ := coord.WriteToken(value, Delivered);
      }
      assert rivals[..|rivals|] == rivals;
      RivalsKeepValid(before, rivals);
    }

    /** One try: read the record, change it, and write it back if nobody else has. */
    method TryWriteReleased(rp: RecoveryPointRef, t: Try, attempt: nat, ghost s: System, ghost id: TaskId)
      returns (r: WriteResult, ghost s': System)
      requires At(s, id, Release, ReadForRelease(rp, attempt))
      modifies coord
      ensures Shows(s') && forall rest :: TaskRun(s, id, TryMoves(t) + rest) == TaskRun(s', id, rest)
      ensures if r.Conflict? && attempt + 1 < RELEASE_ATTEMPTS then At(s', id, Release, ReadForRelease(rp, attempt + 1))
              else id !in s'.tasks
      ensures r.WriteOk? ==> Published(coord.View(), side, rp)
      ensures r.WriteOk? <==> Undisturbed(t)
      ensures r.Conflict? <==> Overtaken(t)
    {
      Interfere(t.before);
      TagUnchanged(coord.View(), t.between);
      ghost var s0 := Disturbed(s, t.before);
      var held, etag, readOk := coord.ReadHandoffWithETag(t.read);
      ghost var s1 := StepTask(s0, id, HandoffRead(t.read.Delivered?));
      if !readOk {
        r, s' := WriteFailed, s1;
      } else {
        var record := ReleasedRecord(held, side, rp);
        ghost var s2 := Disturbed(s1, t.between);
        Interfere(t.between);
        s' := StepTask(s2, id, Wrote(t.cas));
        r := coord.WriteHandoffCAS(record, etag, t.cas);
      }
      forall rest
        ensures TaskRun(s, id, TryMoves(t) + rest) == TaskRun(s', id, rest)
      {
        TryRun(s, id, rp, attempt, t, rest);
      }
    }

    /** writeReleasedHandoff: at most three tries, and another one only after a conflict. */
    method WriteReleasedHandoff(rp: RecoveryPointRef, tries: seq<Try>, ghost s: System, ghost id: TaskId)
      returns (ok: bool, ghost s': System)
      requires |tries| == RELEASE_ATTEMPTS && At(s, id, Release, ReadForRelease(rp, 0))
      modifies coord
      ensures Shows(s') && s' == TaskRun(s, id, TriesMoves(tries)) && id !in s'.tasks
      ensures ok ==> Published(coord.View(), side, rp)
      ensures ok <==> GetsThrough(tries)
    {
      s' := s;
      assert tries[0..] == tries;
      for i := 0 to RELEASE_ATTEMPTS
        invariant if i < RELEASE_ATTEMPTS then At(s', id, Release, ReadForRelease(rp, i))
                  else Shows(s') && id !in s'.tasks
        invariant TaskRun(s, id, TriesMoves(tries)) == TaskRun(s', id, TriesMoves(tries[i..]))
        invariant forall j | 0 <= j < i :: Overtaken(tries[j])
      {
        assert tries[i..][0] == tries[i] && tries[i..][1..] == tries[i + 1..];
        var r;
        r, s' := TryWriteReleased(rp, tries[i], i, s', id);
        if !r.Conflict? {
          Ended(s', id, TriesMoves(tries[i + 1..]));
          return r.WriteOk?, s';
        }
      }
      Ended(s', id, TriesMoves(tries[RELEASE_ATTEMPTS..]));
      return false, s';
    }

    /** doRelease: savepoint, suspend, wait, neutral token, released record, in this order, and
        nothing after a request that failed. `savepoint` is "" when none could be taken. */
    method DoRelease(savepoint: string, suspend: Delivery, sawZeroPods: bool, beforeToken: seq<Rival>, token: Delivery,
                     tries: seq<Try>, ghost s: System, ghost id: TaskId)
      returns (ok: bool, ghost s': System)
      requires |tries| == RELEASE_ATTEMPTS && At(s, id, Release, Savepoint)
      modifies this, coord
      ensures Shows(s') && id !in s'.tasks
      ensures s' == TaskRun(s, id, ReleaseMoves(savepoint, suspend, sawZeroPods, beforeToken, token, tries))
      ensures ok ==> !desired
      ensures startPath == old(startPath) && nonce == old(nonce)
      ensures ok && savepoint != "" ==> Published(coord.View(), side, RecoveryPointRef(savepoint, "savepoint"))
      ensures ok && savepoint == "" ==> Published(coord.View(), side, RecoveryPointRef("", ""))
      ensures ok <==> suspend.Delivered? && token.Delivered? && GetsThrough(tries)
    {
      ghost var fence := FenceMoves(beforeToken, token, tries);
      var rp := SavepointOf(savepoint);
      s' := StepTask(s, id, Saved(savepoint));
      OwnMove(s, id, Saved(savepoint), [Own(Wrote(suspend))] + ([Own(WaitEnded(sawZeroPods))] + fence));
      OwnMove(s', id, Wrote(suspend), [Own(WaitEnded(sawZeroPods))] + fence);
      s' := StepTask(s', id, Wrote(suspend));
      var suspended := PatchState(false, "", 0, suspend);
      if !suspended {
        return false, s';
      }
      OwnMove(s', id, WaitEnded(sawZeroPods), fence);
      s' := StepTask(s', id, WaitEnded(sawZeroPods));
      ok, s' := FenceAndPublish(rp, beforeToken, token, tries, s', id);
    }

    method FenceAndPublish(rp: RecoveryPointRef, beforeToken: seq<Rival>, token: Delivery, tries: seq<Try>,
                           ghost s: System,
                           ghost id: TaskId)
      returns (ok: bool, ghost s': System)
      requires |tries| == RELEASE_ATTEMPTS && At(s, id, Release, TokenNeutral(rp))
      modifies coord
      ensures Shows(s') && id !in s'.tasks && s' == TaskRun(s, id, FenceMoves(beforeToken, token, tries))
      ensures ok ==> Published(coord.View(), side, rp)
      ensures ok <==> token.Delivered? && GetsThrough(tries)
    {
      OtherMoves(s, id, beforeToken, [Own(Wrote(token))] + TriesMoves(tries));
      Interfere(beforeToken);
      s' := Disturbed(s, beforeToken);
      OwnMove(s', id, Wrote(token), TriesMoves(tries));
      s' := StepTask(s', id, Wrote(token));
      var fenced := coord.WriteToken(neutral, token);
      if !fenced {
        return false, s';
      }
      ok, s' := WriteReleasedHandoff(rp, tries, s', id);
    }

    /** doPromote: read and gate, choose the recovery point, claim the record, take the token, start
        the local job, in this order, and nothing after a request that failed. On success its claim
        was accepted over the record that was stored when it began, and its token write and its start
        took effect; what others wrote meanwhile is still there. */
    method DoPromote(force: bool, net: PromoteNet, newNonce: int, ghost s: System, ghost id: TaskId)
      returns (ok: bool, ghost s': System)
      requires At(s, id, Promote(force), ReadHandoff)
      modifies this, coord
      ensures Shows(s') && s' == TaskRun(s, id, PromoteMoves(net))
      ensures if ok then At(s', id, Promote(force), VerifyLocal) else id !in s'.tasks
      ensures ok ==> desired && coord.View() == StoreAfterPromote(s, side, net)
      ensures ok && KeepRecord(net.beforeToken) && net.beforeStart == [] ==> Fenced(coord.View(), side)
      ensures ok <==> Granted(s, force, net)
      ensures var rp := RecoveryChoice(CurrentRecord(s.store), net.listing);
              ok ==> LocalJob() == StartedFrom(old(LocalJob()), rp.path, newNonce)
    {
      var held, etag, readOk := coord.ReadHandoffWithETag(net.read);
      OwnMove(s, id, HandoffRead(net.read.Delivered?), PickMoves(net));
      s' := StepTask(s, id, HandoffRead(net.read.Delivered?));
      if !force && !(held.Some? && held.value.phase.Released?) {
        return false, s';
      }
      ok, s' := PickAndClaim(force, held, etag, net, newNonce, s', id);
      if KeepRecord(net.beforeToken) && net.beforeStart == [] {
        UndisturbedIsFenced(s, side, net);
      }
    }

    /** `held` and `etag` are what was read, or nothing after a failed read. */
    method PickAndClaim(force: bool, held: Option<HandoffRecord>, etag: ETag, net: PromoteNet, newNonce: int,
                        ghost s: System, ghost id: TaskId)
      returns (ok: bool, ghost s': System)
      requires At(s, id, Promote(force), PickRecovery(held, etag))
      requires (etag == CurrentTag(s.store) && held == CurrentRecord(s.store)) || (etag == NoTag && held == None)
      modifies this, coord
      ensures Shows(s') && s' == TaskRun(s, id, PickMoves(net))
      ensures if ok then At(s', id, Promote(force), VerifyLocal) else id !in s'.tasks
      ensures ok ==> desired && coord.View() == StoreAfterPromote(s, side, net)
      ensures ok <==> etag == CurrentTag(s.store) && KeepRecord(net.beforeClaim)
                      && net.claim.Delivered? && net.token.Delivered? && net.start.Delivered?
      ensures ok ==> LocalJob() == StartedFrom(old(LocalJob()), RecoveryChoice(held, net.listing).path, newNonce)
    {
      TagUnchanged(s.store, net.beforeClaim);
      OwnMove(s, id, Listed(net.listing), Others(net.beforeClaim) + ClaimMoves(net));
      s' := StepTask(s, id, Listed(net.listing));
      var path, kind := PickRecoveryPoint(held, net.listing);
      var epoch := if held.Some? then WrapInt64(held.value.epoch + 1) else 1;
      OtherMoves(s', id, net.beforeClaim, ClaimMoves(net));
      s' := Disturbed(s', net.beforeClaim);
      Interfere(net.beforeClaim);
      var record := HandoffRecord(side, epoch, Stable, RecoveryPointRef(path, kind), "");
      RivalsKeepValid(s.store, net.beforeClaim);
      ok, s' := ClaimAndStart(force, held, etag, record, net, newNonce, s', id);
    }

    method ClaimAndStart(force: bool, ghost held: Option<HandoffRecord>, etag: ETag, record: HandoffRecord,
                         net: PromoteNet, newNonce: int, ghost s: System, ghost id: TaskId)
      returns (ok: bool, ghost s': System)
      requires At(s, id, Promote(force), ClaimHandoff(held, etag, record.recoveryPoint, net.listing))
      requires record == PromotedRecord(held, side, record.recoveryPoint)
      modifies this, coord
      ensures Shows(s') && s' == TaskRun(s, id, ClaimMoves(net))
      ensures if ok then At(s', id, Promote(force), VerifyLocal) else id !in s'.tasks
      ensures ok ==>
                && desired && etag == CurrentTag(s.store)
                && coord.View()
                   == AfterRivals(AfterRivals(Put(s.store, record), net.beforeToken).(token := side), net.beforeStart)
      ensures ok <==> etag == CurrentTag(s.store)
                      && net.claim.Delivered? && net.token.Delivered? && net.start.Delivered?
      ensures ok ==> LocalJob() == StartedFrom(old(LocalJob()), record.recoveryPoint.path, newNonce)
    {
      OwnMove(s, id, Wrote(net.claim), Others(net.beforeToken) + TakeMoves(net));
      s' := StepTask(s, id, Wrote(net.claim));
      var r := coord.WriteHandoffCAS(record, etag, net.claim);
      if !r.WriteOk? {
        return false, s';
      }
      OtherMoves(s', id, net.beforeToken, TakeMoves(net));
      s' := Disturbed(s', net.beforeToken);
      Interfere(net.beforeToken);
      ok, s' := TakeAndStart(force, record.recoveryPoint, |s.accepted|, net, newNonce, s', id);
    }

    method TakeAndStart(force: bool, rp: RecoveryPointRef, ghost claim: nat, net: PromoteNet, newNonce: int,
                        ghost s: System, ghost id: TaskId)
      returns (ok: bool, ghost s': System)
      requires At(s, id, Promote(force), TokenToSelf(rp, claim))
      modifies this, coord
      ensures Shows(s') && s' == TaskRun(s, id, TakeMoves(net))
      ensures if ok then At(s', id, Promote(force), VerifyLocal) else id !in s'.tasks
      ensures ok ==> desired && coord.View() == AfterRivals(s.store.(token := side), net.beforeStart)
      ensures ok <==> net.token.Delivered? && net.start.Delivered?
      ensures ok ==> LocalJob() == StartedFrom(old(LocalJob()), rp.path, newNonce)
    {
      OwnMove(s, id, Wrote(net.token), Others(net.beforeStart) + [Own(Wrote(net.start))]);
      s' := StepTask(s, id, Wrote(net.token));
      var taken := coord.WriteToken(side, net.token);
      if !taken {
        return false, s';
      }
      OtherMoves(s', id, net.beforeStart, [Own(Wrote(net.start))]);
      s' := Disturbed(s', net.beforeStart);
      Interfere(net.beforeStart);
      assert [Own(Wrote(net.start))] + [] == [Own(Wrote(net.start))];
      OwnMove(s', id, Wrote(net.start), []);
      s' := StepTask(s', id, Wrote(net.start));
      ok := PatchState(true, rp.path, newNonce, net.start);
    }
  }

  lemma TryRun(s: System, id: TaskId, rp: RecoveryPointRef, attempt: nat, t: Try, rest: seq<Move>)
    requires id in s.tasks && s.tasks[id].side in s.jobs && s.tasks[id].step == ReadForRelease(rp, attempt)
    ensures var s1 := StepTask(Disturbed(s, t.before), id, HandoffRead(t.read.Delivered?));
            TaskRun(s, id, TryMoves(t) + rest)
            == if !t.read.Delivered? then s1
              else TaskRun(StepTask(Disturbed(s1, t.between), id, Wrote(t.cas)), id, rest)
  {
    var read, cas := HandoffRead(t.read.Delivered?), Wrote(t.cas);
    var s0 := Disturbed(s, t.before);
    var s1 := StepTask(s0, id, read);
    var back := Others(t.between) + ([Own(cas)] + rest);
    assert TryMoves(t) + rest == Others(t.before) + ([Own(read)] + back);
    OtherMoves(s, id, t.before, [Own(read)] + back);
    OwnMove(s0, id, read, back);
    if t.read.Delivered? {
      OtherMoves(s1, id, t.between, [Own(cas)] + rest);
      OwnMove(Disturbed(s1, t.between), id, cas, rest);
    }
  }
}
