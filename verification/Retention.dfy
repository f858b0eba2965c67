/** The bounded registries of background work (taskStore in internal/failover/switch.go and
    operationStore in internal/flink/operations.go): finished entries are kept in the order in
    which they finished, and the oldest are evicted beyond a limit. */
module Retention {
  import opened Wrappers

  /** `stamped` says that the entry has a finishing time. */
  datatype Entry<T> = Entry(value: T, stamped: bool)

  datatype Registry<T> = Registry(entries: map<string, Entry<T>>, finished: seq<string>)

  /** `Update` carries the mutation that the caller hands over. */
  datatype Command<!T> = Create(id: string, value: T) | Update(id: string, edit: T -> T)

  function Created<T>(r: Registry<T>, id: string, value: T): Registry<T> {
    r.(entries := r.entries[id := Entry(value, false)])
  }

  /** The entry after an edit; the first time it is found not running it finishes. */
  function Edited<T>(r: Registry<T>, id: string, edit: T -> T, running: T -> bool): Registry<T>
    requires id in r.entries
  {
    var e := r.entries[id];
    var v := edit(e.value);
    if !running(v) && !e.stamped then Registry(r.entries[id := Entry(v, true)], r.finished + [id])
    else r.(entries := r.entries[id := Entry(v, e.stamped)])
  }

  /** Eviction from the front of the list. */
  function Pruned<T>(r: Registry<T>, keep: nat): Registry<T>
    decreases |r.finished|
  {
    if |r.finished| <= keep then r
    else Pruned(Registry(r.entries - {r.finished[0]}, r.finished[1..]), keep)
  }

  function Updated<T>(r: Registry<T>, id: string, edit: T -> T, running: T -> bool, keep: nat): Registry<T> {
    if id !in r.entries then r
    else
      var e := Edited(r, id, edit, running);
      if e.finished != r.finished then Pruned(e, keep) else e
  }

  function Stepped<T>(r: Registry<T>, c: Command<T>, running: T -> bool, keep: nat): Registry<T> {
    match c
    case Create(id, value) => Created(r, id, value)
    case Update(id, edit) => Updated(r, id, edit, running, keep)
  }

  function Run<T>(commands: seq<Command<T>>, running: T -> bool, keep: nat): Registry<T> {
    if commands == [] then Registry(map[], [])
    else Stepped(Run(commands[..|commands| - 1], running, keep), commands[|commands| - 1], running, keep)
  }

  /** A list of updates, each of an identifier and the mutation for it. */
  function UpdatedAll<T>(r: Registry<T>, updates: seq<(string, T -> T)>, running: T -> bool, keep: nat): Registry<T> {
    if updates == [] then r
    else
      var n := |updates| - 1;
      Updated(UpdatedAll(r, updates[..n], running, keep), updates[n].0, updates[n].1, running, keep)
  }

  // ---------- one entry at a time ----------

  /** Nothing but the entry of `id` differs. */
  predicate OnlyEntry<T(==)>(before: Registry<T>, after: Registry<T>, id: string, e: Entry<T>) {
    && after.entries.Keys == before.entries.Keys
    && forall other | other in before.entries ::
       after.entries[other] == if other == id then e else before.entries[other]
  }

  lemma OnlyEntryChanged<T>(before: Registry<T>, after: Registry<T>, id: string, e: Entry<T>)
    requires OnlyEntry(before, after, id, e) && id in before.entries
    ensures after.entries == before.entries[id := e]
  {
  }

  lemma EntryAdded<T>(before: Registry<T>, after: Registry<T>, id: string, e: Entry<T>)
    requires after.entries.Keys == before.entries.Keys + {id} && after.entries[id] == e
             && after.finished == before.finished
    requires forall other | other in before.entries && other != id :: after.entries[other] == before.entries[other]
    ensures after == Registry(before.entries[id := e], before.finished)
  {
  }

  /** Does this edit end an entry that has no finishing time yet? */
  predicate Ends<T>(e: Entry<T>, edit: T -> T, running: T -> bool) {
    !running(edit(e.value)) && !e.stamped
  }

  /** An edit and, if it ends the entry, the stamp after it make up one registry edit. */
  lemma EditThenStamp<T>(before: Registry<T>, mid: Registry<T>, after: Registry<T>, id: string, edit: T -> T,
                         running: T -> bool)
    requires id in before.entries && mid.finished == before.finished
    requires var e := before.entries[id];
             && OnlyEntry(before, mid, id, Entry(edit(e.value), e.stamped))
             && if Ends(e, edit, running)
                then OnlyEntry(mid, after, id, Entry(edit(e.value), true)) && after.finished == mid.finished + [id]
                else after == mid
    ensures after == Edited(before, id, edit, running)
    ensures after.finished != before.finished <==> Ends(before.entries[id], edit, running)
  {
    var e := before.entries[id];
    OnlyEntryChanged(before, mid, id, Entry(edit(e.value), e.stamped));
    if Ends(e, edit, running) {
      OnlyEntryChanged(mid, after, id, Entry(edit(e.value), true));
      assert |after.finished| > |before.finished|;
    }
  }

  // ---------- the registry that never evicts ----------

  function Ideal<T>(commands: seq<Command<T>>, running: T -> bool): Registry<T> {
    if commands == [] then Registry(map[], [])
    else
      var r := Ideal(commands[..|commands| - 1], running);
      match commands[|commands| - 1]
      case Create(id, value) => Created(r, id, value)
      case Update(id, edit) => if id in r.entries then Edited(r, id, edit, running) else r
  }

  function Excess(finished: seq<string>, keep: nat): nat {
    if |finished| > keep then |finished| - keep else 0
  }

  function Elements(s: seq<string>): set<string> {
    set id | id in s
  }

  /** What is left of a registry when all but the newest `keep` finished entries are gone. */
  function Newest<T>(r: Registry<T>, keep: nat): Registry<T> {
    var n := Excess(r.finished, keep);
    Registry(r.entries - Elements(r.finished[..n]), r.finished[n..])
  }

  /** The finished entries are the stamped ones, once each. */
  ghost predicate Consistent<T>(r: Registry<T>) {
    NoDuplicates(r.finished) && forall id :: id in r.finished <==> id in r.entries && r.entries[id].stamped
  }

  /** No identifier is handed out twice, as with random UUIDs. */
  predicate FreshIds<T>(commands: seq<Command<T>>) {
    forall i, j | 0 <= i < j < |commands| :: commands[i].Create? && commands[j].Create? ==>
      commands[i].id != commands[j].id
  }

  lemma PrunedIsNewest<T>(r: Registry<T>, keep: nat)
    ensures Pruned(r, keep) == Newest(r, keep)
    decreases |r.finished|
  {
    var n := Excess(r.finished, keep);
    if n == 0 {
      assert r.finished[..0] == [] && r.finished[0..] == r.finished;
      assert r.entries - {} == r.entries;
    } else {
      var first, rest := r.finished[0], r.finished[1..];
      var next := Registry(r.entries - {first}, rest);
      PrunedIsNewest(next, keep);
      assert Excess(rest, keep) == n - 1;
      assert r.finished[..n] == [first] + rest[..n - 1];
      assert r.finished[n..] == rest[n - 1..];
      assert r.entries - Elements(r.finished[..n]) == next.entries - Elements(rest[..n - 1]);
    }
  }

  lemma EditKeepsConsistent<T>(r: Registry<T>, id: string, edit: T -> T, running: T -> bool)
    requires Consistent(r) && id in r.entries
    ensures Consistent(Edited(r, id, edit, running))
  {
  }

  lemma {:induction false} IdealIsConsistent<T>(commands: seq<Command<T>>, running: T -> bool)
    requires FreshIds(commands)
    ensures Consistent(Ideal(commands, running))
    ensures forall id ::
              id in Ideal(commands, running).entries
              <==> (exists i :: 0 <= i < |commands| && commands[i].Create? && commands[i].id == id)
  {
    if commands != [] {
      var n := |commands| - 1;
      IdealIsConsistent(commands[..n], running);
      match commands[n]
      case Create(id, value) =>
        assert id !in Ideal(commands[..n], running).entries;
      case Update(id, edit) =>
        if id in Ideal(commands[..n], running).entries {
          EditKeepsConsistent(Ideal(commands[..n], running), id, edit, running);
        }
    }
  }

  /** The value of one entry: that of its creation with all updates since, in order. */
  function Tracked<T>(commands: seq<Command<T>>, id: string): Option<T> {
    if commands == [] then None
    else
      var before := Tracked(commands[..|commands| - 1], id);
      match commands[|commands| - 1]
      case Create(other, value) => if other == id then Some(value) else before
      case Update(other, edit) => if other == id && before.Some? then Some(edit(before.value)) else before
  }

  /** The `n`-th command is an update of the entry and does not leave it running. */
  ghost predicate EndsAt<T>(commands: seq<Command<T>>, id: string, running: T -> bool, n: nat) {
    && n < |commands| && commands[n].Update? && commands[n].id == id
    && Tracked(commands[..n + 1], id).Some? && !running(Tracked(commands[..n + 1], id).value)
  }

  ghost predicate HasEnded<T>(commands: seq<Command<T>>, id: string, running: T -> bool) {
    exists n: nat :: EndsAt(commands, id, running, n)
  }

  lemma EndedBefore<T>(commands: seq<Command<T>>, id: string, running: T -> bool)
    requires commands != []
    ensures HasEnded(commands, id, running)
            <==> HasEnded(commands[..|commands| - 1], id, running) || EndsAt(commands, id, running, |commands| - 1)
  {
    var m := |commands| - 1;
    forall n: nat | n < m
      ensures EndsAt(commands, id, running, n) <==> EndsAt(commands[..m], id, running, n)
    {
      assert commands[..m][..n + 1] == commands[..n + 1];
    }
    if HasEnded(commands[..m], id, running) {
      var n: nat :| EndsAt(commands[..m], id, running, n);
      assert EndsAt(commands, id, running, n);
    }
    if HasEnded(commands, id, running) {
      var n: nat :| EndsAt(commands, id, running, n);
      assert n < m ==> EndsAt(commands[..m], id, running, n);
    }
  }

  /** The unbounded registry holds every entry that was created, with all its updates, and stamps it
      once an update has left it not running. */
  lemma {:induction false} IdealIsHistory<T>(commands: seq<Command<T>>, running: T -> bool, id: string)
    requires FreshIds(commands)
    ensures var entries := Ideal(commands, running).entries;
            && (id in entries <==> Tracked(commands, id).Some?)
            && (id in entries ==> entries[id].value == Tracked(commands, id).value)
            && (id in entries ==> (entries[id].stamped <==> HasEnded(commands, id, running)))
            && (HasEnded(commands, id, running) ==> id in entries)
  {
    if commands != [] {
      var m := |commands| - 1;
      IdealIsHistory(commands[..m], running, id);
      EndedBefore(commands, id, running);
      assert commands[..m + 1] == commands;
      if commands[m].Create? && commands[m].id == id {
        IdealIsConsistent(commands[..m], running);
        assert id !in Ideal(commands[..m], running).entries;
      }
    }
  }

  /** Entries are listed in the order in which they finished: what was listed once stays in front. */
  lemma {:induction false} FinishedInOrder<T>(commands: seq<Command<T>>, running: T -> bool, n: nat)
    requires n <= |commands|
    ensures Ideal(commands[..n], running).finished <= Ideal(commands, running).finished
    decreases |commands|
  {
    if n == |commands| {
      assert commands[..n] == commands;
    } else {
      var m := |commands| - 1;
      FinishedInOrder(commands[..m], running, n);
      assert commands[..m][..n] == commands[..n];
    }
  }

  /** Trimming and then editing leaves the same as editing and then trimming: an edit of an entry
      that is gone changes nothing that is left. */
  lemma EditNewest<T>(r: Registry<T>, id: string, edit: T -> T, running: T -> bool, keep: nat)
    requires Consistent(r) && id in r.entries
    ensures Updated(Newest(r, keep), id, edit, running, keep) == Newest(Edited(r, id, edit, running), keep)
  {
    var n, trimmed, after := Excess(r.finished, keep), Newest(r, keep), Edited(r, id, edit, running);
    var gone := r.finished[..n];
    if id in gone {
      assert r.entries[id].stamped;
      assert after.finished == r.finished && id !in trimmed.entries;
      assert after.entries - Elements(gone) == trimmed.entries;
    } else {
      assert id in trimmed.entries;
      var e := Edited(trimmed, id, edit, running);
      if after.finished == r.finished {
        assert e.entries == after.entries - Elements(gone);
      } else {
        PrunedIsNewest(e, keep);
        TrimTwice(r, after, e, id, keep);
      }
    }
  }

  lemma ElementsOfSum(a: seq<string>, b: seq<string>)
    ensures Elements(a + b) == Elements(a) + Elements(b)
  {
  }

  lemma RemoveTwice<T>(m: map<string, T>, a: set<string>, b: set<string>)
    ensures m - a - b == m - (a + b)
  {
  }

  lemma UpdateOutside<T>(m: map<string, T>, a: set<string>, id: string, x: T)
    requires id !in a
    ensures (m - a)[id := x] == m[id := x] - a
  {
  }

  lemma CutTwice(s: seq<string>, t: seq<string>, n: nat, k: nat)
    requires n <= |s| && t == s[n..] && k <= |t|
    ensures s[..n + k] == s[..n] + t[..k] && s[n + k..] == t[k..]
  {
  }

  lemma TrimTwice<T>(r: Registry<T>, after: Registry<T>, e: Registry<T>, id: string, keep: nat)
    requires id in r.entries && id in after.entries && id !in r.finished && after.finished == r.finished + [id]
    requires after.entries == r.entries[id := after.entries[id]]
    requires e == Registry(Newest(r, keep).entries[id := after.entries[id]], Newest(r, keep).finished + [id])
    ensures Newest(e, keep) == Newest(after, keep)
  {
    var n := Excess(r.finished, keep);
    var m := Excess(after.finished, keep);
    var k := Excess(e.finished, keep);
    var first, second := r.finished[..n], e.finished[..k];
    assert e.finished == after.finished[n..] && m == n + k && after.finished[..n] == first;
    CutTwice(after.finished, e.finished, n, k);
    ElementsOfSum(first, second);
    RemoveTwice(after.entries, Elements(first), Elements(second));
    UpdateOutside(r.entries, Elements(first), id, after.entries[id]);
  }

  /** The bounded registry is at every moment the unbounded one without all but the newest `keep`
      finished entries: eviction is oldest first, and nothing unfinished is ever lost. */
  lemma {:induction false} RetentionIsExact<T>(commands: seq<Command<T>>, running: T -> bool, keep: nat)
    requires FreshIds(commands)
    ensures Run(commands, running, keep) == Newest(Ideal(commands, running), keep)
  {
    if commands == [] {
      var none: map<string, Entry<T>> := map[];
      assert none - {} == none;
    } else {
      var n := |commands| - 1;
      var before := commands[..n];
      var ideal := Ideal(before, running);
      RetentionIsExact(before, running, keep);
      IdealIsConsistent(before, running);
      match commands[n]
      case Create(id, value) =>
        assert id !in ideal.entries;
        var gone := ideal.finished[..Excess(ideal.finished, keep)];
        UpdateOutside(ideal.entries, Elements(gone), id, Entry(value, false));
      case Update(id, edit) =>
        if id in ideal.entries {
          EditNewest(ideal, id, edit, running, keep);
        }
    }
  }

  lemma NewestFinished<T>(r: Registry<T>, keep: nat, id: string)
    requires Consistent(r)
    ensures var n := Excess(r.finished, keep);
            id in r.finished[n..] <==> id in r.entries && r.entries[id].stamped && id !in r.finished[..n]
  {
    var n := Excess(r.finished, keep);
    assert r.finished == r.finished[..n] + r.finished[n..];
    if id in r.finished[..n] {
      var i :| 0 <= i < n && r.finished[..n][i] == id;
      assert forall j | 0 <= j < |r.finished| - n :: r.finished[n..][j] == r.finished[n + j] != r.finished[i];
    }
  }

  lemma NewestIsConsistent<T>(r: Registry<T>, keep: nat)
    requires Consistent(r)
    ensures Consistent(Newest(r, keep)) && |Newest(r, keep).finished| <= keep
  {
    var n, t := Excess(r.finished, keep), Newest(r, keep);
    assert forall j | 0 <= j < |t.finished| :: t.finished[j] == r.finished[n + j];
    forall id
      ensures id in t.finished <==> id in t.entries && t.entries[id].stamped
    {
      NewestFinished(r, keep, id);
    }
  }

  /** So the list of finished entries is short and without duplicates, and an entry can be looked up
      exactly if it was created and is not among the finished ones that `keep` newer ones displaced. */
  lemma LookupIsExact<T>(commands: seq<Command<T>>, running: T -> bool, keep: nat, id: string)
    requires FreshIds(commands)
    ensures var r, ideal := Run(commands, running, keep), Ideal(commands, running);
            && |r.finished| == (if |ideal.finished| > keep then keep else |ideal.finished|) && Consistent(r)
            && r.finished == ideal.finished[|ideal.finished| - |r.finished|..]
            && (id in r.entries <==> id in ideal.entries && id !in ideal.finished[..Excess(ideal.finished, keep)])
            && (id in r.entries ==> r.entries[id] == ideal.entries[id])
            && (id in ideal.entries && !ideal.entries[id].stamped ==> id in r.entries)
  {
    RetentionIsExact(commands, running, keep);
    IdealIsConsistent(commands, running);
    NewestIsConsistent(Ideal(commands, running), keep);
  }

  lemma NewIdIsUnused<T>(commands: seq<Command<T>>, i: nat, running: T -> bool, keep: nat)
    requires i < |commands| && commands[i].Create? && FreshIds(commands)
    ensures commands[i].id !in Run(commands[..i], running, keep).entries
  {
    var before := commands[..i];
    assert forall j | 0 <= j < i :: before[j] == commands[j];
    IdealIsConsistent(before, running);
    LookupIsExact(before, running, keep, commands[i].id);
  }
}
