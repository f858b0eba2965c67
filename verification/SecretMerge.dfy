/** Phase 1 of a sync cycle (syncOnce in internal/secretsync/syncer.go): every item is read and
    applied, and per deployment the data of the items that name it is merged. */
module SecretMerge {
  import opened Wrappers
  import opened SecretHash
  import opened SyncTargets

  type Data = map<string, string>

  /** An item with the answers of its two requests: what was read, and whether applying the
      Kubernetes secret was confirmed. */
  datatype Attempt = Attempt(item: Item, read: Result<Data, string>, applied: bool)

  predicate Synced(a: Attempt) {
    a.read.Ok? && a.applied
  }

  /** The item names `d`, as far as its targets could be resolved. */
  predicate Names(listing: Listing, a: Attempt, d: string) {
    Targets(a.item, listing).Ok? && d in Targets(a.item, listing).value
  }

  predicate Contributes(listing: Listing, a: Attempt, d: string) {
    Names(listing, a, d) && Synced(a)
  }

  ghost predicate Touched(listing: Listing, attempts: seq<Attempt>, d: string) {
    exists i | 0 <= i < |attempts| :: Contributes(listing, attempts[i], d)
  }

  /** Some item that names `d` was not read or not applied. */
  ghost predicate Failed(listing: Listing, attempts: seq<Attempt>, d: string) {
    exists i | 0 <= i < |attempts| :: Names(listing, attempts[i], d) && !Synced(attempts[i])
  }

  /** Who is named, said of the items themselves. */
  lemma NamesExactly(listing: Listing, a: Attempt, d: string)
    ensures Names(listing, a, d) <==> IsAbout(a.item, listing, d)
  {
    TargetsExactly(a.item, listing);
    ModesDiffer();
  }

  // ---------- the merged map ----------

  function Key(name: string, k: string): string {
    name + "/" + k
  }

  /** The data of one secret under keys that carry its name. */
  function Overlay(name: string, data: Data): Data {
    map s | s in (set k | k in data :: Key(name, k)) :: Unprefixed(name, data, s)
  }

  function Unprefixed(name: string, data: Data, s: string): string
    requires exists k :: k in data && s == Key(name, k)
  {
    SuffixOfKeys(name);
    data[s[|name| + 1..]]
  }

  lemma SuffixOfKey(name: string, k: string)
    ensures Key(name, k)[|name| + 1..] == k
  {
  }

  lemma SuffixOfKeys(name: string)
    ensures forall k :: |Key(name, k)| > |name| && Key(name, k)[|name| + 1..] == k
  {
    forall k
      ensures Key(name, k)[|name| + 1..] == k
    {
      SuffixOfKey(name, k);
    }
  }

  lemma OverlayAt(name: string, data: Data, k: string)
    requires k in data
    ensures Key(name, k) in Overlay(name, data) && Overlay(name, data)[Key(name, k)] == data[k]
  {
    SuffixOfKey(name, k);
  }

  lemma OverlayInsert(name: string, data: Data, k: string, v: string)
    ensures Overlay(name, data[k := v]) == Overlay(name, data)[Key(name, k) := v]
  {
    SuffixOfKeys(name);
    var data' := data[k := v];
    assert forall j :: j in data' && Key(name, j) != Key(name, k) ==> j in data;
    assert forall j :: j in data ==> j in data';
  }

  /** The data merged for `d`, where a later item wins over an earlier one. */
  function Merged(listing: Listing, attempts: seq<Attempt>, d: string): Data {
    if attempts == [] then map[]
    else
      var n := |attempts| - 1;
      var before := Merged(listing, attempts[..n], d);
      if Contributes(listing, attempts[n], d) then before + Overlay(attempts[n].item.secretName, attempts[n].read.value)
      else before
  }

  lemma PlusUpdate(m: Data, o: Data, s: string, v: string)
    ensures m + o[s := v] == (m + o)[s := v]
  {
  }

  lemma AddNext(m: Data, name: string, data: Data, rest: set<string>, k: string)
    requires k in rest && k in data
    ensures m + Overlay(name, data - (rest - {k})) == (m + Overlay(name, data - rest))[Key(name, k) := data[k]]
  {
    var part := data - rest;
    OverlayInsert(name, part, k, data[k]);
    PlusUpdate(m, Overlay(name, part), Key(name, k), data[k]);
    assert data - (rest - {k}) == part[k := data[k]];
  }

  /** The entries of one secret are written in any order. */
  method AddEntries(m: Data, name: string, data: Data) returns (r: Data)
    ensures r == m + Overlay(name, data)
  {
    r := m;
    var rest := data.Keys;
    assert data - rest == map[];
    assert Overlay(name, map[]) == map[];
    while rest != {}
      invariant rest <= data.Keys && r == m + Overlay(name, data - rest)
      decreases |rest|
    {
      var k :| k in rest;
      AddNext(m, name, data, rest, k);
      r := r[Key(name, k) := data[k]];
      rest := rest - {k};
    }
    assert data - {} == data;
  }

  /** Phase 1 as the loop over the items: the merged maps and the set of failed deployments. */
  method Accumulate(attempts: seq<Attempt>, cache: DeploymentCache)
    returns (merged: map<string, Data>, failed: set<string>)
    requires cache.Valid()
    modifies cache
    ensures cache.Valid()
    ensures forall d :: d in merged <==> Touched(cache.answers(0), attempts, d)
    ensures forall d | d in merged :: merged[d] == Merged(cache.answers(0), attempts, d)
    ensures forall d :: d in failed <==> Failed(cache.answers(0), attempts, d)
  {
    ghost var listing := cache.answers(0);
    merged, failed := map[], {};
    assert attempts[..0] == [];
    for i := 0 to |attempts|
      invariant cache.Valid()
      invariant MergedUpTo(listing, attempts[..i], merged) && FailedUpTo(listing, attempts[..i], failed)
    {
      ghost var merged0, failed0 := merged, failed;
      merged, failed := Absorb(attempts[i], cache, merged, failed);
      AbsorbNext(listing, attempts, i, merged0, failed0, merged, failed);
    }
    assert attempts[..|attempts|] == attempts;
    assert forall d | d in merged :: merged[d] == At(merged, d);
  }

  /** One item changes the merged maps and the failed deployments as it should. */
  ghost predicate Absorbed(listing: Listing, a: Attempt, merged: map<string, Data>, failed: set<string>,
                           merged': map<string, Data>, failed': set<string>) {
    && (forall d :: d in merged' <==> d in merged || Contributes(listing, a, d))
    && (forall d ::
        At(merged', d) == if Contributes(listing, a, d) then At(merged, d) + Overlay(a.item.secretName, a.read.value)
                                      else At(merged, d))
    && (forall d :: d in failed' <==> d in failed || (Names(listing, a, d) && !Synced(a)))
  }

  /** One item of the loop; an item whose targets cannot be resolved is passed over. */
  method Absorb(a: Attempt, cache: DeploymentCache, merged: map<string, Data>, failed: set<string>)
    returns (merged': map<string, Data>, failed': set<string>)
    requires cache.Valid()
    modifies cache
    ensures cache.Valid()
    ensures Absorbed(cache.answers(0), a, merged, failed, merged', failed')
  {
    merged', failed' := merged, failed;
    var targets := RestartTargets(a.item, cache);
    if targets.Err? {
      return;
    }
    TargetsAreNames(cache.answers(0), a, targets.value);
    if !Synced(a) {
      failed' := MarkFailed(failed, targets.value);
    } else {
      merged' := MergeTargets(merged, targets.value, a.item.secretName, a.read.value);
      MergeAbsorbs(cache.answers(0), a, targets.value, merged, failed, merged');
    }
  }

  lemma MergeAbsorbs(listing: Listing, a: Attempt, names: seq<string>, merged: map<string, Data>, failed: set<string>,
                     merged': map<string, Data>)
    requires Synced(a) && (forall d :: d in names <==> Names(listing, a, d))
    requires MergedInto(merged, names, a.item.secretName, a.read.value, merged')
    ensures Absorbed(listing, a, merged, failed, merged', failed)
  {
  }

  lemma TargetsAreNames(listing: Listing, a: Attempt, names: seq<string>)
    requires Targets(a.item, listing).Ok? && names == KeyList(Targets(a.item, listing).value)
    ensures NoDuplicates(names) && forall d :: d in names <==> Names(listing, a, d)
  {
  }

  method MarkFailed(failed: set<string>, deps: seq<string>) returns (failed': set<string>)
    ensures forall d :: d in failed' <==> d in failed || d in deps
  {
    failed' := failed;
    for i := 0 to |deps|
      invariant forall d :: d in failed' <==> d in failed || d in deps[..i]
    {
      assert deps[..i + 1] == deps[..i] + [deps[i]];
      failed' := failed' + {deps[i]};
    }
    assert deps[..|deps|] == deps;
  }

  lemma AbsorbNext(listing: Listing, attempts: seq<Attempt>, i: nat, merged: map<string, Data>, failed: set<string>,
                   merged': map<string, Data>, failed': set<string>)
    requires i < |attempts| && MergedUpTo(listing, attempts[..i], merged) && FailedUpTo(listing, attempts[..i], failed)
    requires Absorbed(listing, attempts[i], merged, failed, merged', failed')
    ensures MergedUpTo(listing, attempts[..i + 1], merged') && FailedUpTo(listing, attempts[..i + 1], failed')
  {
    StepPrefix(listing, attempts, i);
    MergedPrefix(listing, attempts, i);
  }

  ghost predicate MergedUpTo(listing: Listing, attempts: seq<Attempt>, merged: map<string, Data>) {
    && (forall d :: d in merged <==> Touched(listing, attempts, d))
    && (forall d :: At(merged, d) == Merged(listing, attempts, d))
  }

  ghost predicate FailedUpTo(listing: Listing, attempts: seq<Attempt>, failed: set<string>) {
    forall d :: d in failed <==> Failed(listing, attempts, d)
  }

  function At(merged: map<string, Data>, d: string): Data {
    if d in merged then merged[d] else map[]
  }

  ghost predicate MergedInto(merged: map<string, Data>, targets: seq<string>, name: string, data: Data, r: map<string,
                             Data>) {
    && (forall d :: d in r <==> d in merged || d in targets)
    && (forall d :: At(r, d) == if d in targets then At(merged, d) + Overlay(name, data) else At(merged, d))
  }

  lemma MergedIntoNext(merged: map<string, Data>, targets: seq<string>, i: nat, name: string, data: Data,
                       r: map<string, Data>)
    requires NoDuplicates(targets) && i < |targets| && MergedInto(merged, targets[..i], name, data, r)
    ensures MergedInto(merged, targets[..i + 1], name, data, r[targets[i] := At(r, targets[i]) + Overlay(name, data)])
  {
    assert targets[i] !in targets[..i];
    assert targets[..i + 1] == targets[..i] + [targets[i]];
  }

  /** One item adds its data to every deployment it names. */
  method MergeTargets(merged: map<string, Data>, targets: seq<string>, name: string, data: Data)
    returns (r: map<string, Data>)
    requires NoDuplicates(targets)
    ensures MergedInto(merged, targets, name, data, r)
  {
    r := merged;
    for i := 0 to |targets|
      invariant MergedInto(merged, targets[..i], name, data, r)
    {
      var dep := targets[i];
      var m := AddEntries(if dep in r then r[dep] else map[], name, data);
      MergedIntoNext(merged, targets, i, name, data, r);
      r := r[dep := m];
    }
    assert targets[..|targets|] == targets;
  }

  lemma StepPrefix(listing: Listing, attempts: seq<Attempt>, i: nat)
    requires i < |attempts|
    ensures forall d :: Touched(listing, attempts[..i + 1], d)
                        <==> Touched(listing, attempts[..i], d) || Contributes(listing, attempts[i], d)
    ensures forall d :: Failed(listing, attempts[..i + 1], d)
                        <==> (Failed(listing, attempts[..i], d)
                              || (Names(listing, attempts[i], d) && !Synced(attempts[i])))
  {
    var p := attempts[..i + 1];
    assert forall j | 0 <= j < i :: attempts[..i][j] == p[j];
    assert p[i] == attempts[i];
  }

  lemma MergedPrefix(listing: Listing, attempts: seq<Attempt>, i: nat)
    requires i < |attempts|
    ensures forall d :: Merged(listing, attempts[..i + 1], d)
                        == if Contributes(listing, attempts[i], d)
                           then Merged(listing, attempts[..i], d) +
                             Overlay(attempts[i].item.secretName, attempts[i].read.value)
                           else Merged(listing, attempts[..i], d)
  {
    var p := attempts[..i + 1];
    assert p[..i] == attempts[..i] && p[i] == attempts[i];
  }

  /** Under the key of its secret, every entry of the last item that has it is merged. */
  lemma {:induction false} LastItemWins(listing: Listing, attempts: seq<Attempt>, d: string, i: nat, k: string)
    requires i < |attempts| && Contributes(listing, attempts[i], d) && k in attempts[i].read.value
    requires forall j | i < j < |attempts| && Contributes(listing, attempts[j], d) ::
               attempts[i].item.secretName + "/" + k !in Overlay(attempts[j].item.secretName, attempts[j].read.value)
    ensures var s := attempts[i].item.secretName + "/" + k;
            s in Merged(listing, attempts, d) && Merged(listing, attempts, d)[s] == attempts[i].read.value[k]
  {
    var n := |attempts| - 1;
    OverlayAt(attempts[i].item.secretName, attempts[i].read.value, k);
    if i < n {
      var before := attempts[..n];
      assert forall j | 0 <= j < n :: before[j] == attempts[j];
      LastItemWins(listing, before, d, i, k);
    }
  }
}
