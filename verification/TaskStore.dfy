/** The registry of switch tasks (taskStore in internal/failover/switch.go): objects with a list of
    steps, changed in place under a lock and handed out as deep copies. */
module TaskStore {
  import opened Wrappers
  import opened Coord
  import opened Retention

  const RUNNING := "running"
  const SUCCEEDED := "succeeded"
  const FAILED := "failed"
  const PENDING := "pending"

  datatype StepState = StepState(name: string, status: string, message: string)

  /** The contents of a task, apart from its times. */
  datatype TaskValue = TaskValue(id: string, group: string, op: string, status: string, steps: seq<StepState>,
                                 recoveryPoint: RecoveryPointRef, epoch: int, error: string)

  /** The mutations that the switch operations hand to `Update`. */
  datatype TaskEdit =
    | SetStep(name: string, status: string, message: string)
    | Fail(error: string)
    | Succeed
    | SetRecoveryPoint(recoveryPoint: RecoveryPointRef)
    | SetEpoch(epoch: int)

  /** The first step of that name, or the number of steps. */
  function FirstNamed(steps: seq<StepState>, name: string): (k: nat)
    ensures k <= |steps|
    ensures forall i | 0 <= i < k :: steps[i].name != name
    ensures k < |steps| ==> steps[k].name == name
  {
    if steps == [] || steps[0].name == name then 0 else 1 + FirstNamed(steps[1..], name)
  }

  function WithStep(steps: seq<StepState>, name: string, status: string, message: string): seq<StepState> {
    var k := FirstNamed(steps, name);
    if k == |steps| then steps
    else steps[k := StepState(name, status, if message != "" then message else steps[k].message)]
  }

  function EditValue(edit: TaskEdit, v: TaskValue): TaskValue {
    match edit
    case SetStep(name, status, message) => v.(steps := WithStep(v.steps, name, status, message))
    case Fail(error) => v.(status := FAILED, error := error)
    case Succeed => v.(status := SUCCEEDED)
    case SetRecoveryPoint(recoveryPoint) => v.(recoveryPoint := recoveryPoint)
    case SetEpoch(epoch) => v.(epoch := epoch)
  }

  function EditOf(edit: TaskEdit): TaskValue -> TaskValue {
    (v: TaskValue) => EditValue(edit, v)
  }

  function IsRunning(): TaskValue -> bool {
    (v: TaskValue) => v.status == RUNNING
  }

  /** What each edit leaves behind, field by field; identity and kind never change. */
  lemma EditsInLiterals(v: TaskValue, edit: TaskEdit)
    ensures var w := EditValue(edit, v);
            && w.id == v.id && w.group == v.group && w.op == v.op
            && w.status == (if edit.Succeed? then "succeeded" else if edit.Fail? then "failed" else v.status)
            && w.error == (if edit.Fail? then edit.error else v.error)
            && w.recoveryPoint == (if edit.SetRecoveryPoint? then edit.recoveryPoint else v.recoveryPoint)
            && w.epoch == (if edit.SetEpoch? then edit.epoch else v.epoch)
            && |w.steps| == |v.steps| && (!edit.SetStep? ==> w.steps == v.steps)
    ensures IsRunning()(v) <==> v.status == "running"
    ensures v.status == "running" ==> (IsRunning()(EditValue(edit, v)) <==> !edit.Succeed? && !edit.Fail?)
  {
    var running, succeeded, failed := "running", "succeeded", "failed";
    assert |running| == 7 && |succeeded| == 9 && |failed| == 6;
  }

  /** Of the steps, the first with the name gets the status, and the message unless it is empty. */
  lemma StepInLiterals(v: TaskValue, name: string, status: string, message: string, i: nat)
    requires i < |v.steps|
    ensures var w := EditValue(SetStep(name, status, message), v).steps;
            |w| == |v.steps|
            && w[i] == if v.steps[i].name == name && forall j | 0 <= j < i :: v.steps[j].name != name
                       then StepState(name, status, if message == "" then v.steps[i].message else message)
                       else v.steps[i]
  {
  }

  /** A new task: running, its steps pending, in the given order and without messages. */
  lemma NewInLiterals(id: string, group: string, op: string, stepNames: seq<string>)
    ensures var v := NewValue(id, group, op, stepNames);
            && v.id == id && v.group == group && v.op == op && v.status == "running" && v.epoch == 0 && v.error == ""
            && v.recoveryPoint.path == "" && |v.steps| == |stepNames|
            && forall i | 0 <= i < |stepNames| :: v.steps[i] == StepState(stepNames[i], "pending", "")
  {
  }

  function NewValue(id: string, group: string, op: string, stepNames: seq<string>): TaskValue {
    TaskValue(id, group, op, RUNNING,
              seq(|stepNames|, i requires 0 <= i < |stepNames| => StepState(stepNames[i], PENDING, "")),
              RecoveryPointRef("", ""), 0, "")
  }

  class HATask {
    const id: string
    const group: string
    const op: string
    var status: string
    const steps: array<StepState>
    var recoveryPoint: RecoveryPointRef
    var epoch: int
    var error: string
    var finished: bool

    function Value(): TaskValue
      reads this, steps
    {
      TaskValue(id, group, op, status, steps[..], recoveryPoint, epoch, error)
    }

    constructor (v: TaskValue, finished: bool)
      ensures Value() == v && this.finished == finished && fresh(steps)
    {
      id, group, op, status := v.id, v.group, v.op, v.status;
      recoveryPoint, epoch, error := v.recoveryPoint, v.epoch, v.error;
      this.finished := finished;
      steps := new StepState[|v.steps|](i requires 0 <= i < |v.steps| => v.steps[i]);
    }

    /** cloneTask: neither the copy nor its steps are shared with the original. */
    method Clone() returns (t: HATask)
      ensures fresh(t) && fresh(t.steps) && t.Value() == Value() && t.finished == finished
    {
      t := new HATask(Value(), finished);
    }

    method Apply(edit: TaskEdit)
      modifies this`status, this`recoveryPoint, this`epoch, this`error, steps
      ensures Value() == EditValue(edit, old(Value()))
    {
      match edit
      case SetStep(name, status, message) => ApplyStep(name, status, message);
      case Fail(text) =>
        status := FAILED;
        error := text;
      case Succeed => status := SUCCEEDED;
      case SetRecoveryPoint(point) => recoveryPoint := point;
      case SetEpoch(n) => epoch := n;
    }

    method ApplyStep(name: string, status: string, message: string)
      modifies steps
      ensures steps[..] == WithStep(old(steps[..]), name, status, message)
    {
      for i := 0 to steps.Length
        invariant steps[..] == old(steps[..])
        invariant forall j | 0 <= j < i :: steps[j].name != name
      {
        if steps[i].name == name {
          steps[i] := StepState(name, status, if message != "" then message else steps[i].message);
          return;
        }
      }
    }
  }

  class TaskStore {
    var tasks: map<string, HATask>
    var finished: seq<string>
    const maxKeep: nat
    /** The objects that belong to the store. */
    ghost var repr: set<object>

    /** The tasks and their steps belong to the store, and no two tasks share them. */
    ghost predicate Valid()
      reads this
    {
      && this !in repr
      && (forall id | id in tasks :: tasks[id].id == id && tasks[id] in repr && tasks[id].steps in repr)
      && (forall a, b | a in tasks && b in tasks && a != b :: tasks[a].steps != tasks[b].steps)
    }

    ghost function EntryOf(id: string): Entry<TaskValue>
      requires Valid() && id in tasks
      reads this, repr
    {
      Entry(tasks[id].Value(), tasks[id].finished)
    }

    ghost function View(): Registry<TaskValue>
      requires Valid()
      reads this, repr
    {
      Registry(map id | id in tasks :: EntryOf(id), finished)
    }

    constructor (maxKeep: nat)
      ensures Valid() && repr == {} && View() == Registry(map[], []) && this.maxKeep == maxKeep
    {
      tasks, finished := map[], [];
      this.maxKeep := maxKeep;
      repr := {};
    }

    /** `id` is the new random UUID. */
    method Create(id: string, group: string, op: string, stepNames: seq<string>) returns (t: HATask)
      requires Valid() && id !in tasks
      modifies this
      ensures Valid() && fresh(repr - old(repr))
      ensures View() == Created(old(View()), id, NewValue(id, group, op, stepNames))
      ensures fresh(t) && fresh(t.steps) && t !in repr && t.steps !in repr
              && t.Value() == NewValue(id, group, op, stepNames)
    {
      var task := new HATask(NewValue(id, group, op, stepNames), false);
      Add(task);
      t := task.Clone();
    }

    method Add(task: HATask)
      requires Valid() && task.id !in tasks && task !in repr && task.steps !in repr
      modifies this
      ensures Valid() && repr == old(repr) + {task, task.steps}
      ensures View()
              == Registry(old(View()).entries[task.id := Entry(task.Value(), task.finished)], old(View()).finished)
    {
      tasks := tasks[task.id := task];
      repr := repr + {task, task.steps};
      assert forall other | other in old(tasks) :: EntryOf(other) == old(EntryOf(other));
      EntryAdded(old(View()), View(), task.id, Entry(task.Value(), task.finished));
    }

    method Update(id: string, edit: TaskEdit)
      requires Valid()
      modifies this, repr
      ensures Valid() && repr == old(repr)
      ensures View() == Updated(old(View()), id, EditOf(edit), IsRunning(), maxKeep)
    {
      if id !in tasks {
        return;
      }
      var ends := Change(id, edit);
      if ends {
        Prune();
      }
    }

    /** The edit itself, and the stamp if it ends there. */
    method Change(id: string, edit: TaskEdit) returns (ends: bool)
      requires Valid() && id in tasks
      modifies this, repr
      ensures Valid() && repr == old(repr)
      ensures View() == Edited(old(View()), id, EditOf(edit), IsRunning())
      ensures ends <==> View().finished != old(View()).finished
    {
      ghost var before := View();
      ends := Edit(id, edit);
      ghost var mid := View();
      if ends {
        Finish(id);
      }
      EditThenStamp(before, mid, View(), id, EditOf(edit), IsRunning());
    }

    method Edit(id: string, edit: TaskEdit) returns (ends: bool)
      requires Valid() && id in tasks
      modifies repr
      ensures Valid()
              && OnlyEntry(old(View()), View(), id,
                           Entry(EditOf(edit)(old(EntryOf(id)).value), old(EntryOf(id)).stamped))
      ensures ends <==> Ends(old(EntryOf(id)), EditOf(edit), IsRunning())
    {
      var t := tasks[id];
      t.Apply(edit);
      assert forall other | other in tasks && other != id :: EntryOf(other) == old(EntryOf(other));
      ends := t.status != RUNNING && !t.finished;
    }

    method Finish(id: string)
      requires Valid() && id in tasks
      modifies this`finished, repr
      ensures Valid() && OnlyEntry(old(View()), View(), id, Entry(old(EntryOf(id)).value, true))
      ensures finished == old(finished) + [id]
    {
      var t := tasks[id];
      t.finished := true;
      assert forall other | other in tasks && other != id :: EntryOf(other) == old(EntryOf(other));
      finished := finished + [id];
    }

    method Prune()
      requires Valid()
      modifies this
      ensures Valid() && repr == old(repr)
      ensures View() == Pruned(old(View()), maxKeep)
    {
      while |finished| > maxKeep
        invariant Valid() && repr == old(repr)
        invariant Pruned(View(), maxKeep) == Pruned(old(View()), maxKeep)
        decreases |finished|
      {
        ghost var before := View();
        tasks, finished := tasks - {finished[0]}, finished[1..];
        assert View().entries == before.entries - {before.finished[0]};
      }
    }

    method Get(id: string) returns (t: Option<HATask>)
      requires Valid()
      ensures t.Some? <==> id in View().entries
      ensures t.Some? ==> fresh(t.value) && fresh(t.value.steps)
                          && Entry(t.value.Value(), t.value.finished) == View().entries[id]
    {
      if id !in tasks {
        return None;
      }
      var copy := tasks[id].Clone();
      return Some(copy);
    }
  }

  /** One call of the two methods that change a store. */
  datatype Call =
    | CallCreate(id: string, group: string, op: string, stepNames: seq<string>)
    | CallUpdate(id: string, edit: TaskEdit)

  function CommandOf(call: Call): Command<TaskValue> {
    match call
    case CallCreate(id, group, op, stepNames) => Create(id, NewValue(id, group, op, stepNames))
    case CallUpdate(id, edit) => Update(id, EditOf(edit))
  }

  function CommandsOf(calls: seq<Call>): seq<Command<TaskValue>> {
    seq(|calls|, i requires 0 <= i < |calls| => CommandOf(calls[i]))
  }

  /** In every run of a store, what can be looked up is every task except the finished ones that
      `keep` later finished tasks have displaced. */
  method Serve(keep: nat, calls: seq<Call>) returns (store: TaskStore)
    requires FreshIds(CommandsOf(calls))
    ensures fresh(store) && store.Valid() && store.maxKeep == keep
    ensures store.View() == Newest(Ideal(CommandsOf(calls), IsRunning()), keep)
  {
    store := new TaskStore(keep);
    for i := 0 to |calls|
      invariant store.Valid() && fresh(store) && fresh(store.repr) && store.maxKeep == keep
      invariant store.View() == Run(CommandsOf(calls[..i]), IsRunning(), keep)
    {
      assert CommandsOf(calls[..i + 1]) == CommandsOf(calls[..i]) + [CommandOf(calls[i])];
      match calls[i]
      case CallCreate(id, group, op, stepNames) =>
        assert CommandsOf(calls[..i]) == CommandsOf(calls)[..i];
        NewIdIsUnused(CommandsOf(calls), i, IsRunning(), keep);
        var _ := store.Create(id, group, op, stepNames);
      case CallUpdate(id, edit) =>
        store.Update(id, edit);
    }
    assert calls[..|calls|] == calls;
    RetentionIsExact(CommandsOf(calls), IsRunning(), keep);
  }

  function EditsOf(updates: seq<(string, TaskEdit)>): seq<(string, TaskValue -> TaskValue)> {
    seq(|updates|, i requires 0 <= i < |updates| => (updates[i].0, EditOf(updates[i].1)))
  }

  method UpdateAll(store: TaskStore, updates: seq<(string, TaskEdit)>)
    requires store.Valid()
    modifies store, store.repr
    ensures store.Valid() && store.repr == old(store.repr)
    ensures store.View() == UpdatedAll(old(store.View()), EditsOf(updates), IsRunning(), store.maxKeep)
  {
    ghost var edits := EditsOf(updates);
    assert edits[..0] == [];
    for i := 0 to |updates|
      invariant store.Valid() && store.repr == old(store.repr)
      invariant store.View() == UpdatedAll(old(store.View()), edits[..i], IsRunning(), store.maxKeep)
    {
      assert edits[..i + 1][..i] == edits[..i];
      store.Update(updates[i].0, updates[i].1);
    }
    assert edits[..|updates|] == edits;
  }

  method EditSnapshot(store: TaskStore, snapshot: HATask, edit: TaskEdit)
    requires store.Valid() && snapshot !in store.repr && snapshot.steps !in store.repr
    modifies snapshot, snapshot.steps
    ensures store.Valid() && store.View() == old(store.View())
    ensures snapshot.Value() == EditValue(edit, old(snapshot.Value()))
  {
    snapshot.Apply(edit);
  }

  /** A snapshot stays as it was taken whatever is updated afterwards, and what is done to the
      snapshot does not reach the store. */
  method SnapshotIsIndependent(store: TaskStore, id: string, updates: seq<(string, TaskEdit)>, edit: TaskEdit)
    returns (snapshot: HATask)
    requires store.Valid() && id in store.tasks
    modifies store, store.repr
    ensures store.Valid() && store.View() == UpdatedAll(old(store.View()), EditsOf(updates), IsRunning(), store.maxKeep)
    ensures snapshot.Value() == EditValue(edit, old(store.View()).entries[id].value)
  {
    var found := store.Get(id);
    snapshot := found.value;
    UpdateAll(store, updates);
    EditSnapshot(store, snapshot, edit);
  }
}
