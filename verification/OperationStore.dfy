/** The registry of lifecycle operations (operationStore in internal/flink/operations.go), kept by
    the same rules as the one of the switch tasks. */
module OperationStore {
  import opened Wrappers
  import opened Retention

  const RUNNING := "running"
  const SUCCEEDED := "succeeded"
  const FAILED := "failed"

  /** The contents of an operation, apart from its times. */
  datatype OpValue = OpValue(id: string, kind: string, deployment: string, jobName: string, status: string,
                             progress: string, outcome: string, error: string)

  /** The mutations that the operations hand to `Update`. */
  datatype OpEdit =
    | Progress(text: string)
    | SetOutcome(outcome: string)
    | Fail(error: string)
    | Succeed(outcome: string, progress: string)

  function EditValue(edit: OpEdit, v: OpValue): OpValue {
    match edit
    case Progress(text) => v.(progress := text)
    case SetOutcome(outcome) => v.(outcome := outcome)
    case Fail(error) => v.(status := FAILED, error := error, progress := "failed")
    case Succeed(outcome, progress) => v.(status := SUCCEEDED, outcome := outcome, progress := progress)
  }

  function EditOf(edit: OpEdit): OpValue -> OpValue {
    (v: OpValue) => EditValue(edit, v)
  }

  function IsRunning(): OpValue -> bool {
    (v: OpValue) => v.status == RUNNING
  }

  /** What each edit leaves behind, field by field; identity and kind never change. */
  lemma EditsInLiterals(v: OpValue, edit: OpEdit)
    ensures var w := EditValue(edit, v);
            && w.id == v.id && w.kind == v.kind && w.deployment == v.deployment && w.jobName == v.jobName
            && w.status == (if edit.Succeed? then "succeeded" else if edit.Fail? then "failed" else v.status)
            && w.progress == (match edit
                              case Progress(text) => text
                              case SetOutcome(_) => v.progress
                              case Fail(_) => "failed"
                              case Succeed(_, text) => text)
            && w.outcome == (match edit
                             case Progress(_) => v.outcome
                             case SetOutcome(text) => text
                             case Fail(_) => v.outcome
                             case Succeed(text, _) => text)
            && w.error == (if edit.Fail? then edit.error else v.error)
    ensures IsRunning()(v) <==> v.status == "running"
    ensures v.status == "running" ==> (IsRunning()(EditValue(edit, v)) <==> !edit.Succeed? && !edit.Fail?)
  {
    var running, succeeded, failed := "running", "succeeded", "failed";
    assert |running| == 7 && |succeeded| == 9 && |failed| == 6;
  }

  function NewValue(id: string, kind: string, deployment: string, jobName: string): OpValue {
    OpValue(id, kind, deployment, jobName, RUNNING, "starting", "", "")
  }

  /** A new operation: running, starting, without outcome or error. */
  lemma NewInLiterals(id: string, kind: string, deployment: string, jobName: string)
    ensures NewValue(id, kind, deployment, jobName)
            == OpValue(id, kind, deployment, jobName, "running", "starting", "", "")
  {
  }

  class Operation {
    const id: string
    const kind: string
    const deployment: string
    const jobName: string
    var status: string
    var progress: string
    var outcome: string
    var error: string
    var finished: bool

    function Value(): OpValue
      reads this
    {
      OpValue(id, kind, deployment, jobName, status, progress, outcome, error)
    }

    constructor (v: OpValue, finished: bool)
      ensures Value() == v && this.finished == finished
    {
      id, kind, deployment, jobName := v.id, v.kind, v.deployment, v.jobName;
      status, progress, outcome, error := v.status, v.progress, v.outcome, v.error;
      this.finished := finished;
    }

    method Apply(edit: OpEdit)
      modifies this`status, this`progress, this`outcome, this`error
      ensures Value() == EditValue(edit, old(Value()))
    {
      match edit
      case Progress(text) => progress := text;
      case SetOutcome(result) => outcome := result;
      case Fail(text) => status, error, progress := FAILED, text, "failed";
      case Succeed(result, text) => status, outcome, progress := SUCCEEDED, result, text;
    }
  }

  class OperationStore {
    var ops: map<string, Operation>
    var finished: seq<string>
    const maxKeep: nat
    /** The objects that belong to the store. */
    ghost var repr: set<object>

    ghost predicate Valid()
      reads this
    {
      && this !in repr
      && (forall id | id in ops :: ops[id].id == id && ops[id] in repr)
    }

    ghost function EntryOf(id: string): Entry<OpValue>
      requires Valid() && id in ops
      reads this, repr
    {
      Entry(ops[id].Value(), ops[id].finished)
    }

    ghost function View(): Registry<OpValue>
      requires Valid()
      reads this, repr
    {
      Registry(map id | id in ops :: EntryOf(id), finished)
    }

    constructor (maxKeep: nat)
      ensures Valid() && repr == {} && View() == Registry(map[], []) && this.maxKeep == maxKeep
    {
      ops, finished := map[], [];
      this.maxKeep := maxKeep;
      repr := {};
    }

    /** `id` is the new random UUID. */
    method Create(id: string, kind: string, deployment: string, jobName: string) returns (op: Operation)
      requires Valid() && id !in ops
      modifies this
      ensures Valid() && fresh(repr - old(repr))
      ensures View() == Created(old(View()), id, NewValue(id, kind, deployment, jobName))
      ensures fresh(op) && op !in repr && op.Value() == NewValue(id, kind, deployment, jobName)
    {
      var tracked := new Operation(NewValue(id, kind, deployment, jobName), false);
      Add(tracked);
      op := new Operation(tracked.Value(), tracked.finished);
    }

    method Add(op: Operation)
      requires Valid() && op.id !in ops && op !in repr
      modifies this
      ensures Valid() && repr == old(repr) + {op}
      ensures View() == Registry(old(View()).entries[op.id := Entry(op.Value(), op.finished)], old(View()).finished)
    {
      ops := ops[op.id := op];
      repr := repr + {op};
      assert forall other | other in old(ops) :: EntryOf(other) == old(EntryOf(other));
      EntryAdded(old(View()), View(), op.id, Entry(op.Value(), op.finished));
    }

    method Update(id: string, edit: OpEdit)
      requires Valid()
      modifies this, repr
      ensures Valid() && repr == old(repr)
      ensures View() == Updated(old(View()), id, EditOf(edit), IsRunning(), maxKeep)
    {
      if id !in ops {
        return;
      }
      ghost var before := View();
      var ends := Edit(id, edit);
      ghost var mid := View();
      if ends {
        Finish(id);
      }
      EditThenStamp(before, mid, View(), id, EditOf(edit), IsRunning());
      if ends {
        PruneLocked();
      }
    }

    method Edit(id: string, edit: OpEdit) returns (ends: bool)
      requires Valid() && id in ops
      modifies repr
      ensures Valid()
              && OnlyEntry(old(View()), View(), id,
                           Entry(EditOf(edit)(old(EntryOf(id)).value), old(EntryOf(id)).stamped))
      ensures ends <==> Ends(old(EntryOf(id)), EditOf(edit), IsRunning())
    {
      var op := ops[id];
      op.Apply(edit);
      assert forall other | other in ops && other != id :: EntryOf(other) == old(EntryOf(other));
      ends := op.status != RUNNING && !op.finished;
    }

    method Finish(id: string)
      requires Valid() && id in ops
      modifies this`finished, repr
      ensures Valid() && OnlyEntry(old(View()), View(), id, Entry(old(EntryOf(id)).value, true))
      ensures finished == old(finished) + [id]
    {
      var op := ops[id];
      op.finished := true;
      assert forall other | other in ops && other != id :: EntryOf(other) == old(EntryOf(other));
      finished := finished + [id];
    }

    method PruneLocked()
      requires Valid()
      modifies this
      ensures Valid() && repr == old(repr)
      ensures View() == Pruned(old(View()), maxKeep)
    {
      while |finished| > maxKeep
        invariant Valid() && repr == old(repr)
        invariant Pruned(View(), maxKeep) == Pruned(old(View()), maxKeep)
        decreases |finished|
      {
        ghost var before := View();
        ops, finished := ops - {finished[0]}, finished[1..];
        assert View().entries == before.entries - {before.finished[0]};
      }
    }

    method Get(id: string) returns (op: Option<Operation>)
      requires Valid()
      ensures op.Some? <==> id in View().entries
      ensures op.Some? ==> fresh(op.value) && Entry(op.value.Value(), op.value.finished) == View().entries[id]
    {
      if id !in ops {
        return None;
      }
      var copy := new Operation(ops[id].Value(), ops[id].finished);
      return Some(copy);
    }
  }

  /** One call of the two methods that change a store. */
  datatype Call =
    | CallCreate(id: string, kind: string, deployment: string, jobName: string)
    | CallUpdate(id: string, edit: OpEdit)

  function CommandOf(call: Call): Command<OpValue> {
    match call
    case CallCreate(id, kind, deployment, jobName) => Create(id, NewValue(id, kind, deployment, jobName))
    case CallUpdate(id, edit) => Update(id, EditOf(edit))
  }

  function CommandsOf(calls: seq<Call>): seq<Command<OpValue>> {
    seq(|calls|, i requires 0 <= i < |calls| => CommandOf(calls[i]))
  }

  /** In every run of a store, what can be looked up is every operation except the finished ones
      that `keep` later finished operations have displaced. */
  method Serve(keep: nat, calls: seq<Call>) returns (store: OperationStore)
    requires FreshIds(CommandsOf(calls))
    ensures fresh(store) && store.Valid() && store.maxKeep == keep
    ensures store.View() == Newest(Ideal(CommandsOf(calls), IsRunning()), keep)
  {
    store := new OperationStore(keep);
    for i := 0 to |calls|
      invariant store.Valid() && fresh(store) && fresh(store.repr) && store.maxKeep == keep
      invariant store.View() == Run(CommandsOf(calls[..i]), IsRunning(), keep)
    {
      assert CommandsOf(calls[..i + 1]) == CommandsOf(calls[..i]) + [CommandOf(calls[i])];
      match calls[i]
      case CallCreate(id, kind, deployment, jobName) =>
        assert CommandsOf(calls[..i]) == CommandsOf(calls)[..i];
        NewIdIsUnused(CommandsOf(calls), i, IsRunning(), keep);
        var _ := store.Create(id, kind, deployment, jobName);
      case CallUpdate(id, edit) =>
        store.Update(id, edit);
    }
    assert calls[..|calls|] == calls;
    RetentionIsExact(CommandsOf(calls), IsRunning(), keep);
  }

  function EditsOf(updates: seq<(string, OpEdit)>): seq<(string, OpValue -> OpValue)> {
    seq(|updates|, i requires 0 <= i < |updates| => (updates[i].0, EditOf(updates[i].1)))
  }

  method UpdateAll(store: OperationStore, updates: seq<(string, OpEdit)>)
    requires store.Valid()
    modifies store, store.repr
    ensures store.Valid() && store.repr == old(store.repr)
    ensures store.View() == UpdatedAll(old(store.View()), EditsOf(updates), IsRunning(), store.maxKeep)
  {
    ghost var edits := EditsOf(updates);
    assert edits[..0] == [];
    for i := 0 to |updates|
      invariant store.Valid() && store.repr == old(store.repr)
      invariant store.View() == UpdatedAll(old(store.View()), edits[..i], IsRunning(), store.maxKeep)
    {
      assert edits[..i + 1][..i] == edits[..i];
      store.Update(updates[i].0, updates[i].1);
    }
    assert edits[..|updates|] == edits;
  }

  /** A snapshot stays as it was taken whatever is updated afterwards, and what is done to the
      snapshot does not reach the store. */
  method SnapshotIsIndependent(store: OperationStore, id: string, updates: seq<(string, OpEdit)>, edit: OpEdit)
    returns (snapshot: Operation)
    requires store.Valid() && id in store.ops
    modifies store, store.repr
    ensures store.Valid() && store.View() == UpdatedAll(old(store.View()), EditsOf(updates), IsRunning(), store.maxKeep)
    ensures snapshot.Value() == EditValue(edit, old(store.View()).entries[id].value)
  {
    var found := store.Get(id);
    snapshot := found.value;
    UpdateAll(store, updates);
    EditSnapshot(store, snapshot, edit);
  }

  method EditSnapshot(store: OperationStore, snapshot: Operation, edit: OpEdit)
    requires store.Valid() && snapshot !in store.repr
    modifies snapshot
    ensures store.Valid() && store.View() == old(store.View())
    ensures snapshot.Value() == EditValue(edit, old(snapshot.Value()))
  {
    snapshot.Apply(edit);
  }
}
