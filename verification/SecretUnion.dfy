/** What the merged map of a deployment holds, whatever the order of the items. */
module SecretUnion {
  import opened SecretHash
  import opened SyncTargets
  import opened SecretMerge

  /** Item `i` contributes `v` under the key `s`. */
  ghost predicate EntryOf(listing: Listing, a: Attempt, d: string, s: string, v: string) {
    Contributes(listing, a, d) && exists k ::
      k in a.read.value && s == Key(a.item.secretName, k) && v == a.read.value[k]
  }

  ghost predicate Entry(listing: Listing, attempts: seq<Attempt>, d: string, s: string, v: string) {
    exists i | 0 <= i < |attempts| :: EntryOf(listing, attempts[i], d, s, v)
  }

  /** No two items that name `d` disagree about a key. */
  ghost predicate Consistent(listing: Listing, attempts: seq<Attempt>, d: string) {
    forall s, v, w :: Entry(listing, attempts, d, s, v) && Entry(listing, attempts, d, s, w) ==> v == w
  }

  /** `m` is the union of the data of the items that name `d`: it has every entry and nothing else. */
  ghost predicate IsUnion(listing: Listing, attempts: seq<Attempt>, d: string, m: Data) {
    forall s, v :: Entry(listing, attempts, d, s, v) <==> s in m && m[s] == v
  }

  lemma OverlayEntry(listing: Listing, a: Attempt, d: string, s: string)
    requires Contributes(listing, a, d)
    ensures s in Overlay(a.item.secretName, a.read.value) ==>
            EntryOf(listing, a, d, s, Overlay(a.item.secretName, a.read.value)[s])
    ensures forall v :: EntryOf(listing, a, d, s, v) ==> s in Overlay(a.item.secretName, a.read.value)
  {
    var name, data := a.item.secretName, a.read.value;
    if s in Overlay(name, data) {
      var k :| k in data && s == Key(name, k);
      OverlayAt(name, data, k);
    }
    forall v | EntryOf(listing, a, d, s, v)
      ensures s in Overlay(name, data)
    {
      var k :| k in data && s == Key(name, k) && v == data[k];
      OverlayAt(name, data, k);
    }
  }

  /** Every merged entry comes from an item, and every key of an item is merged. */
  lemma {:induction false} MergedEntries(listing: Listing, attempts: seq<Attempt>, d: string, s: string)
    ensures s in Merged(listing, attempts, d) ==> Entry(listing, attempts, d, s, Merged(listing, attempts, d)[s])
    ensures forall v :: Entry(listing, attempts, d, s, v) ==> s in Merged(listing, attempts, d)
  {
    if attempts != [] {
      var n := |attempts| - 1;
      var before := attempts[..n];
      MergedEntries(listing, before, d, s);
      EntryOfPrefix(listing, attempts, d, s);
      if Contributes(listing, attempts[n], d) {
        OverlayEntry(listing, attempts[n], d, s);
      }
    }
  }

  lemma EntryOfPrefix(listing: Listing, attempts: seq<Attempt>, d: string, s: string)
    requires attempts != []
    ensures var n := |attempts| - 1;
            forall v :: Entry(listing, attempts, d, s, v)
                        <==> Entry(listing, attempts[..n], d, s, v) || EntryOf(listing, attempts[n], d, s, v)
  {
    var n := |attempts| - 1;
    assert forall i | 0 <= i < n :: attempts[..n][i] == attempts[i];
  }

  /** The merged map is the union exactly when the items agree on the keys they share. */
  lemma UnionExactlyWhenConsistent(listing: Listing, attempts: seq<Attempt>, d: string)
    ensures IsUnion(listing, attempts, d, Merged(listing, attempts, d)) <==> Consistent(listing, attempts, d)
  {
    var m := Merged(listing, attempts, d);
    if Consistent(listing, attempts, d) {
      forall s, v
        ensures Entry(listing, attempts, d, s, v) <==> s in m && m[s] == v
      {
        MergedEntries(listing, attempts, d, s);
      }
    }
  }

  // ---------- distinct secret names ----------

  predicate DistinctNames(attempts: seq<Attempt>) {
    && (forall i | 0 <= i < |attempts| :: Without(attempts[i].item.secretName, '/'))
    && (forall i, j | 0 <= i < j < |attempts| :: attempts[i].item.secretName != attempts[j].item.secretName)
  }

  /** With distinct names that have no slash no key is shared, so nothing is lost. */
  lemma DistinctNamesAreConsistent(listing: Listing, attempts: seq<Attempt>, d: string)
    requires DistinctNames(attempts)
    ensures Consistent(listing, attempts, d)
  {
    forall s, v, w | Entry(listing, attempts, d, s, v) && Entry(listing, attempts, d, s, w)
      ensures v == w
    {
      var i :| 0 <= i < |attempts| && EntryOf(listing, attempts[i], d, s, v);
      var j :| 0 <= j < |attempts| && EntryOf(listing, attempts[j], d, s, w);
      SameKeySameItem(listing, attempts[i], attempts[j], d, s, v, w);
    }
  }

  lemma SameKeySameItem(listing: Listing, a: Attempt, b: Attempt, d: string, s: string, v: string, w: string)
    requires Without(a.item.secretName, '/') && Without(b.item.secretName, '/')
    requires EntryOf(listing, a, d, s, v) && EntryOf(listing, b, d, s, w)
    ensures a.item.secretName == b.item.secretName
    ensures a == b ==> v == w
  {
    var k :| k in a.read.value && s == Key(a.item.secretName, k) && v == a.read.value[k];
    var l :| l in b.read.value && s == Key(b.item.secretName, l) && w == b.read.value[l];
    SplitAt('/', a.item.secretName, k, b.item.secretName, l);
  }

  // ---------- the order of the items ----------

  ghost predicate Permutation(a: seq<Attempt>, b: seq<Attempt>) {
    multiset(a) == multiset(b)
  }

  lemma PermutationKeepsEntries(listing: Listing, a: seq<Attempt>, b: seq<Attempt>, d: string, s: string, v: string)
    requires Permutation(a, b) && Entry(listing, a, d, s, v)
    ensures Entry(listing, b, d, s, v)
  {
    var i :| 0 <= i < |a| && EntryOf(listing, a[i], d, s, v);
    assert a[i] in multiset(b);
    var j :| 0 <= j < |b| && b[j] == a[i];
  }

  ghost predicate OrderFree(listing: Listing, attempts: seq<Attempt>, d: string) {
    forall other | Permutation(attempts, other) :: Merged(listing, other, d) == Merged(listing, attempts, d)
  }

  lemma OneOrderAsGoodAsAnother(listing: Listing, a: seq<Attempt>, b: seq<Attempt>, d: string)
    requires Permutation(a, b) && Consistent(listing, a, d)
    ensures Merged(listing, b, d) == Merged(listing, a, d)
  {
    var m, n := Merged(listing, a, d), Merged(listing, b, d);
    forall s
      ensures (s in m <==> s in n) && (s in m ==> m[s] == n[s])
    {
      MergedEntries(listing, a, d, s);
      MergedEntries(listing, b, d, s);
      if s in m {
        PermutationKeepsEntries(listing, a, b, d, s, m[s]);
      }
      if s in n {
        PermutationKeepsEntries(listing, b, a, d, s, n[s]);
      }
    }
  }

  function MoveLast(attempts: seq<Attempt>, i: nat): seq<Attempt>
    requires i < |attempts|
  {
    attempts[..i] + attempts[i + 1..] + [attempts[i]]
  }

  /** An item moved to the end has the last word on its keys. */
  lemma LastWins(listing: Listing, attempts: seq<Attempt>, d: string, i: nat, s: string, v: string)
    requires i < |attempts| && EntryOf(listing, attempts[i], d, s, v)
    ensures Permutation(attempts, MoveLast(attempts, i))
    ensures var m := Merged(listing, MoveLast(attempts, i), d); s in m && m[s] == v
  {
    var a, other := attempts[i], MoveLast(attempts, i);
    assert attempts == attempts[..i] + [a] + attempts[i + 1..];
    assert other[..|other| - 1] == attempts[..i] + attempts[i + 1..] && other[|other| - 1] == a;
    var k :| k in a.read.value && s == Key(a.item.secretName, k) && v == a.read.value[k];
    OverlayAt(a.item.secretName, a.read.value, k);
  }

  /** The order of the items is immaterial exactly when they agree on the keys they share. */
  lemma OrderFreeExactlyWhenConsistent(listing: Listing, attempts: seq<Attempt>, d: string)
    ensures OrderFree(listing, attempts, d) <==> Consistent(listing, attempts, d)
  {
    if Consistent(listing, attempts, d) {
      forall other | Permutation(attempts, other)
        ensures Merged(listing, other, d) == Merged(listing, attempts, d)
      {
        OneOrderAsGoodAsAnother(listing, attempts, other, d);
      }
    }
    if OrderFree(listing, attempts, d) {
      forall s, v, w | Entry(listing, attempts, d, s, v) && Entry(listing, attempts, d, s, w)
        ensures v == w
      {
        var i :| 0 <= i < |attempts| && EntryOf(listing, attempts[i], d, s, v);
        var j :| 0 <= j < |attempts| && EntryOf(listing, attempts[j], d, s, w);
        LastWins(listing, attempts, d, i, s, v);
        LastWins(listing, attempts, d, j, s, w);
      }
    }
  }
}
