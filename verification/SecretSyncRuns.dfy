/** What the sync cycle guarantees: which secrets a restart has seen, and how often it happens. */
module SecretSyncRuns {
  import opened Wrappers
  import opened SecretHash
  import opened SyncTargets
  import opened SecretMerge
  import opened SecretUnion
  import opened SecretSync

  function Restarts(v: View): nat {
    if v.dep.Some? then v.dep.value.restarts else 0
  }

  // ---------- completeness ----------

  /** The item was read and its secret applied. */
  predicate Arrived(a: Attempt) {
    a.read.Ok? && a.applied
  }

  /** When a cycle looks at a deployment: after a login, if some item is about it and all that are have
      arrived; it then brings it to the hash of what was merged for it. */
  lemma PlanExactly(digest: Digest, c: Cycle, d: string)
    ensures Plan(digest, c, d).Some?
            <==> c.login
                 && (exists i | 0 <= i < |c.attempts| :: IsAbout(c.attempts[i].item, c.listing, d))
                 && (forall i | 0 <= i < |c.attempts| :: IsAbout(c.attempts[i].item, c.listing, d) ==>
                       Arrived(c.attempts[i]))
    ensures Plan(digest, c, d).Some? ==>
              Plan(digest, c, d).value == digest(HashInput(Merged(c.listing, c.attempts, d)))
  {
    forall i | 0 <= i < |c.attempts|
      ensures Names(c.listing, c.attempts[i], d) <==> IsAbout(c.attempts[i].item, c.listing, d)
    {
      NamesExactly(c.listing, c.attempts[i], d);
    }
  }

  /** A cycle restarts a deployment at most once, and only when it is allowed to: everything that
      names the deployment was read and applied, and the recorded hash is that of the union. */
  lemma RestartMeansComplete(digest: Digest, c: Cycle, d: string, v: View, t: Try)
    requires Consistent(c.listing, c.attempts, d)
    requires Restarts(Cycled(v, Plan(digest, c, d), t)) != Restarts(v)
    ensures v.dep.Some? && v.dep.value.replay != "true" && t.safe && c.login
    ensures forall i | 0 <= i < |c.attempts| ::
              IsAbout(c.attempts[i].item, c.listing, d) ==> c.attempts[i].read.Ok? && c.attempts[i].applied
    ensures exists m: Data :: IsUnion(c.listing, c.attempts, d, m) && v.dep.value.recorded != digest(HashInput(m))
              && Cycled(v, Plan(digest, c, d), t).dep
                 == Some(Meanwhile(v, t).dep.value.(recorded := digest(HashInput(m)),
                                                    restarts := v.dep.value.restarts + 1))
  {
    var m := Merged(c.listing, c.attempts, d);
    UnionExactlyWhenConsistent(c.listing, c.attempts, d);
    assert IsUnion(c.listing, c.attempts, d, m);
    PlanExactly(digest, c, d);
  }

  /** Item order does not matter to a cycle whose items agree on the keys they share. */
  lemma PlanIgnoresOrder(digest: Digest, c: Cycle, c': Cycle, d: string)
    requires c'.login == c.login && c'.listing == c.listing && Permutation(c.attempts, c'.attempts)
    requires Consistent(c.listing, c.attempts, d)
    ensures Plan(digest, c', d) == Plan(digest, c, d)
  {
    SameItems(c, c', d);
    SameItems(c', c, d);
    OneOrderAsGoodAsAnother(c.listing, c.attempts, c'.attempts, d);
  }

  lemma SameItems(c: Cycle, c': Cycle, d: string)
    requires c'.listing == c.listing && Permutation(c.attempts, c'.attempts)
    ensures Touched(c.listing, c.attempts, d) ==> Touched(c.listing, c'.attempts, d)
    ensures Failed(c.listing, c.attempts, d) ==> Failed(c.listing, c'.attempts, d)
  {
    forall i | 0 <= i < |c.attempts|
      ensures exists j :: 0 <= j < |c'.attempts| && c'.attempts[j] == c.attempts[i]
    {
      assert c.attempts[i] in multiset(c'.attempts);
    }
  }

  /** The items that would name `d` if the deployments could be listed. */
  predicate Intended(truth: seq<Deployment>, a: Attempt, d: string) {
    Names(Ok(truth), a, d)
  }

  ghost predicate AllIntendedContribute(truth: seq<Deployment>, c: Cycle, d: string) {
    forall i | 0 <= i < |c.attempts| :: Intended(truth, c.attempts[i], d) ==> Contributes(c.listing, c.attempts[i], d)
  }

  /** A planned restart has seen every secret meant for the deployment, unless the listing failed
      and one of those items needed it: such an item is passed over without marking its targets. */
  lemma CompleteExactlyWhenListed(digest: Digest, c: Cycle, d: string, truth: seq<Deployment>)
    requires c.listing.Ok? ==> c.listing.value == truth
    requires Plan(digest, c, d).Some?
    ensures AllIntendedContribute(truth, c, d)
            <==> c.listing.Ok? || forall i | 0 <= i < |c.attempts| :: Intended(truth, c.attempts[i], d) ==>
              !NeedsListing(c.attempts[i].item)
  {
    forall i | 0 <= i < |c.attempts| && Intended(truth, c.attempts[i], d)
      ensures Contributes(c.listing, c.attempts[i], d) <==> c.listing.Ok? || !NeedsListing(c.attempts[i].item)
    {
      assert Names(c.listing, c.attempts[i], d) <==> c.listing.Ok? || !NeedsListing(c.attempts[i].item);
    }
  }

  /** Two items for one deployment: one lists it by name, the other finds it by reference. */
  function TwoItems(d: string, name: string, data: Data, name': string, data': Data): seq<Attempt> {
    [Attempt(Item(name, "", RestartSpec("", [d])), Ok(data), true),
     Attempt(Item(name', "", RestartSpec(MODE_REFERENCES, [])), Ok(data'), true)]
  }

  lemma TwoItemsMerged(listing: Listing, d: string, name: string, data: Data, name': string, data': Data)
    requires d != "" && (listing.Ok? ==> listing.value == [Deployment(d, {name'})])
    ensures var two := TwoItems(d, name, data, name', data');
            && Touched(listing, two, d) && !Failed(listing, two, d)
            && Merged(listing, two, d) == if listing.Ok? then Overlay(name, data) + Overlay(name', data')
               else Overlay(name, data)
  {
    var two := TwoItems(d, name, data, name', data');
    assert MODE_REFERENCES != MODE_NONE by { assert |MODE_REFERENCES| == 10; }
    assert MODE_REFERENCES != MODE_LIST by { assert |MODE_REFERENCES| == 10; }
    assert Contributes(listing, two[0], d);
    assert Contributes(listing, two[1], d) <==> listing.Ok? by {
      if listing.Ok? {
        var crs := listing.value;
        assert crs[0] in crs && Selects(two[1].item, crs[0]);
      }
    }
    assert two[..1] == [two[0]] && [two[0]][..0] == [];
    assert Merged(listing, [], d) == map[];
    assert map[] + Overlay(name, data) == Overlay(name, data);
    assert Merged(listing, two[..1], d) == Overlay(name, data);
  }

  lemma PlanOfTwoItems(digest: Digest, listing: Listing, d: string, name: string, data: Data, name': string,
                       data': Data)
    requires d != "" && (listing.Ok? ==> listing.value == [Deployment(d, {name'})])
    ensures var both := if listing.Ok? then Overlay(name, data) + Overlay(name', data') else Overlay(name, data);
            Plan(digest, Cycle(true, listing, TwoItems(d, name, data, name', data')), d)
            == Some(digest(HashInput(both)))
  {
    TwoItemsMerged(listing, d, name, data, name', data');
  }

  /** So a listing that fails once restarts the deployment twice although no secret has changed:
      once for the partial union and once more for the full one. */
  lemma FailedListingRestartsTwice(digest: Digest, d: string, name: string, data: Data, name': string, data': Data,
                                   e: string,
                                   v: View, t: Try)
    requires d != "" && t.readOk && t.safe && t.meanwhile == None && t.patch.Delivered?
    requires var full := digest(HashInput(Overlay(name, data) + Overlay(name', data')));
             && full != digest(HashInput(Overlay(name, data)))
             && v.dep.Some? && v.dep.value.recorded == full && v.dep.value.replay != "true"
    ensures var two := TwoItems(d, name, data, name', data');
            var listed := Cycle(true, Ok([Deployment(d, {name'})]), two);
            var unlisted := Cycle(true, Err(e), two);
            && Cycled(v, Plan(digest, listed, d), t) == v
            && var w := Cycled(v, Plan(digest, unlisted, d), t);
            && w.dep.Some? && w.dep.value.restarts == v.dep.value.restarts + 1
            && Cycled(w, Plan(digest, listed, d), t).dep == Some(v.dep.value.(restarts := v.dep.value.restarts + 2))
  {
    PlanOfTwoItems(digest, Ok([Deployment(d, {name'})]), d, name, data, name', data');
    PlanOfTwoItems(digest, Err(e), d, name, data, name', data');
  }

  // ---------- convergence ----------

  /** One cycle as one deployment meets it; others may have set its replay annotation before. */
  datatype Round = Round(replay: string, cycle: Cycle, t: Try)

  ghost function Next(digest: Digest, v: View, r: Round, d: string): View {
    Cycled(WithReplay(v, r.replay), Plan(digest, r.cycle, d), r.t)
  }

  ghost function Run(digest: Digest, v: View, rounds: seq<Round>, d: string): View {
    if rounds == [] then v
    else Next(digest, Run(digest, v, rounds[..|rounds| - 1], d), rounds[|rounds| - 1], d)
  }

  /** Nothing stands in the way of a restart: the items succeed, no replay is active, the guard
      agrees, and the two requests get through. */
  ghost predicate Clear(digest: Digest, r: Round, d: string) {
    Plan(digest, r.cycle, d).Some? && r.replay != "true" && r.t.readOk && r.t.safe && !r.t.patch.Lost?
  }

  /** The secrets meant for `d` keep the hash `h`, as far as the cycles could read them. */
  ghost predicate Constant(digest: Digest, rounds: seq<Round>, d: string, h: string) {
    forall i | 0 <= i < |rounds| ::
      Plan(digest, rounds[i].cycle, d) == None || Plan(digest, rounds[i].cycle, d) == Some(h)
  }

  ghost predicate SomeClear(digest: Digest, rounds: seq<Round>, d: string) {
    exists i | 0 <= i < |rounds| :: Clear(digest, rounds[i], d)
  }

  /** `w` is `v` after one restart to `h` or after none. */
  predicate RestartedIf(v: View, w: View, h: string, due: bool) {
    && v.dep.Some? && w.dep.Some?
    && w.dep.value.recorded == (if due then h else v.dep.value.recorded)
    && w.dep.value.restarts == v.dep.value.restarts + (if due then 1 else 0)
  }

  lemma OneRound(digest: Digest, v: View, r: Round, d: string, h: string)
    requires v.dep.Some? && (Plan(digest, r.cycle, d) == None || Plan(digest, r.cycle, d) == Some(h))
    ensures RestartedIf(v, Next(digest, v, r, d), h, v.dep.value.recorded != h && Clear(digest, r, d))
  {
  }

  lemma SomeClearSplit(digest: Digest, rounds: seq<Round>, d: string)
    requires rounds != []
    ensures SomeClear(digest, rounds, d)
            <==> SomeClear(digest, rounds[..|rounds| - 1], d) || Clear(digest, rounds[|rounds| - 1], d)
  {
    assert forall i | 0 <= i < |rounds| - 1 :: rounds[..|rounds| - 1][i] == rounds[i];
  }

  /** However long it is vetoed, deferred or failing, a pending change restarts the deployment
      exactly once, and repeating the cycle restarts nothing. */
  lemma {:induction false} RestartsOnce(digest: Digest, v: View, rounds: seq<Round>, d: string, h: string)
    requires v.dep.Some? && Constant(digest, rounds, d, h)
    ensures RestartedIf(v, Run(digest, v, rounds, d), h, v.dep.value.recorded != h && SomeClear(digest, rounds, d))
  {
    if rounds != [] {
      var n := |rounds| - 1;
      var before := rounds[..n];
      assert Constant(digest, before, d, h) by {
        assert forall i | 0 <= i < n :: before[i] == rounds[i];
      }
      RestartsOnce(digest, v, before, d, h);
      OneRound(digest, Run(digest, v, before, d), rounds[n], d, h);
      SomeClearSplit(digest, rounds, d);
    }
  }

  /** The restart happens in the first clear round: none before it, none after it. */
  lemma RestartsAtFirstClearRound(digest: Digest, v: View, rounds: seq<Round>, d: string, h: string, first: nat, k: nat)
    requires v.dep.Some? && v.dep.value.recorded != h && Constant(digest, rounds, d, h)
    requires first < |rounds| && Clear(digest, rounds[first], d)
    requires forall i | 0 <= i < first :: !Clear(digest, rounds[i], d)
    requires k <= |rounds|
    ensures RestartedIf(v, Run(digest, v, rounds[..k], d), h, first < k)
  {
    var part := rounds[..k];
    assert forall i | 0 <= i < k :: part[i] == rounds[i];
    RestartsOnce(digest, v, part, d, h);
    if k > first {
      assert Clear(digest, part[first], d);
    }
  }

  /** With a digest that tells the two texts apart, a clear cycle restarts exactly when the merged
      secrets differ from those of the recorded hash. */
  lemma RestartsExactlyOnChange(digest: Digest, c: Cycle, d: string, v: View, t: Try, recorded: Data)
    requires v.dep.Some? && v.dep.value.recorded == digest(HashInput(recorded))
    requires Clear(digest, Round(v.dep.value.replay, c, t), d)
    requires NulFreeMap(recorded) && NulFreeMap(Merged(c.listing, c.attempts, d))
    requires var m := Merged(c.listing, c.attempts, d); digest(HashInput(m)) == digest(HashInput(recorded)) ==>
             HashInput(m) == HashInput(recorded)
    ensures Restarts(Cycled(v, Plan(digest, c, d), t)) != Restarts(v) <==> Merged(c.listing, c.attempts, d) != recorded
  {
    var m := Merged(c.listing, c.attempts, d);
    if HashInput(m) == HashInput(recorded) {
      HashInputInjective(m, recorded);
    }
  }
}
