/** The sync cycle (syncOnce and maybeRestart in internal/secretsync/syncer.go): after the merge,
    at most one restart per deployment, when the hash of its merged secrets has changed. */
module SecretSync {
  import opened Wrappers
  import opened SecretHash
  import opened SyncTargets
  import opened SecretMerge

  const REPLAY_REASON := "replay in progress; restart deferred"

  /** A deployment's two annotations, and how many patches it has accepted; each of them carries a
      fresh restart nonce, so each is a restart. */
  datatype Dep = Dep(recorded: string, replay: string, restarts: nat)

  /** One deployment as the syncer sees it: the object, the acknowledged restarts and the reason of
      the last skipped one. */
  datatype View = View(dep: Option<Dep>, acknowledged: nat, skipped: Option<string>)

  /** What happens to one restart: the answers to the read, to the guard and to the patch, and the
      replay annotation that another operation sets between the read and the patch, if it does.
      Without a guard every restart is safe. */
  datatype Try = Try(readOk: bool, safe: bool, reason: string, meanwhile: Option<string>, patch: Delivery)

  /** One cycle: the login, the listing of the deployments and the items with their answers. */
  datatype Cycle = Cycle(login: bool, listing: Listing, attempts: seq<Attempt>)

  type Digest = string -> string

  // ---------- what a cycle does to one deployment ----------

  /** The hash to bring a deployment to, if this cycle is to look at it at all. */
  ghost function Plan(digest: Digest, c: Cycle, d: string): Option<string> {
    if c.login && Touched(c.listing, c.attempts, d) && !Failed(c.listing, c.attempts, d)
    then Some(digest(HashInput(Merged(c.listing, c.attempts, d))))
    else None
  }

  function WithReplay(v: View, replay: string): View {
    if v.dep.Some? then v.(dep := Some(v.dep.value.(replay := replay))) else v
  }

  /** The deployment when the patch arrives. */
  function Meanwhile(v: View, t: Try): View {
    if t.meanwhile.Some? then WithReplay(v, t.meanwhile.value) else v
  }

  function Restarted(v: View, h: string, t: Try): View
    requires v.dep.Some?
  {
    var now := Meanwhile(v, t);
    var patched := now.(dep := Some(now.dep.value.(recorded := h, restarts := now.dep.value.restarts + 1)));
    match t.patch
    case Lost => now
    case ReplyLost => patched
    case Delivered => patched.(acknowledged := v.acknowledged + 1, skipped := None)
  }

  /** maybeRestart on one deployment. */
  function Tried(v: View, h: string, t: Try): View {
    if v.dep.None? || !t.readOk || v.dep.value.recorded == h then v
    else if v.dep.value.replay == "true" then v.(skipped := Some(REPLAY_REASON))
    else if !t.safe then v.(skipped := Some(t.reason))
    else Restarted(v, h, t)
  }

  /** A restart attempt, item by item: when it restarts, what it records, and what it tells. */
  lemma TriedExactly(v: View, h: string, t: Try)
    requires v.dep.Some?
    ensures var dep, w := v.dep.value, Tried(v, h, t);
            var changed := t.readOk && dep.recorded != h;
            var sent := changed && dep.replay != "true" && t.safe;
            && w.dep.Some?
            && w.dep.value.restarts == dep.restarts + (if sent && !t.patch.Lost? then 1 else 0)
            && w.dep.value.recorded == (if sent && !t.patch.Lost? then h else dep.recorded)
            && w.acknowledged == v.acknowledged + (if sent && t.patch.Delivered? then 1 else 0)
            && w.skipped
               == if sent && t.patch.Delivered? then None
                  else if changed && dep.replay == "true" then Some("replay in progress; restart deferred")
                  else if changed && !t.safe then Some(t.reason)
                  else v.skipped
  {
  }

  function Cycled(v: View, plan: Option<string>, t: Try): View {
    if plan.Some? then Tried(v, plan.value, t) else v
  }

  // ---------- the syncer ----------

  /** The FlinkDeployments of the namespace, the acknowledged restarts and the skipped ones. */
  datatype State = State(deployments: map<string, Dep>, restarts: map<string, nat>, skipped: map<string, string>)

  function ViewOf(s: State, d: string): View {
    View(if d in s.deployments then Some(s.deployments[d]) else None,
         if d in s.restarts then s.restarts[d] else 0,
         if d in s.skipped then Some(s.skipped[d]) else None)
  }

  /** From `before` to `after`, one deployment was tried and nothing else changed. */
  ghost predicate OneTried(before: State, after: State, dep: string, h: string, t: Try) {
    forall d :: ViewOf(after, d) == if d == dep then Tried(ViewOf(before, d), h, t) else ViewOf(before, d)
  }

  /** From `before` to `after`, the cycle `c` was carried out for all deployments but those in `rest`. */
  ghost predicate Swept(before: State, after: State, digest: Digest, c: Cycle, tries: string -> Try,
                        rest: set<string>) {
    forall d :: ViewOf(after, d) == if d !in rest then Cycled(ViewOf(before, d), Plan(digest, c, d), tries(d))
      else ViewOf(before, d)
  }

  lemma SweepNext(before: State, mid: State, after: State, digest: Digest, c: Cycle, tries: string -> Try,
                  rest: set<string>, dep: string)
    requires Swept(before, mid, digest, c, tries, rest) && dep in rest
    requires var plan := Plan(digest, c, dep);
             if plan.Some? then OneTried(mid, after, dep, plan.value, tries(dep)) else after == mid
    ensures Swept(before, after, digest, c, tries, rest - {dep})
  {
    var plan := Plan(digest, c, dep);
    forall d
      ensures ViewOf(after, d) == if d !in rest - {dep} then Cycled(ViewOf(before, d), Plan(digest, c, d), tries(d))
                                  else ViewOf(before, d)
    {
      assert ViewOf(mid, d) == if d !in rest then Cycled(ViewOf(before, d), Plan(digest, c, d), tries(d))
        else ViewOf(before, d);
      assert plan.Some? ==>
        ViewOf(after, d) == if d == dep then Tried(ViewOf(mid, d), plan.value, tries(dep)) else ViewOf(mid, d);
    }
  }

  /** No item is about the deployment. */
  ghost predicate NobodyNames(listing: Listing, attempts: seq<Attempt>, d: string) {
    forall i | 0 <= i < |attempts| :: !IsAbout(attempts[i].item, listing, d)
  }

  lemma NoPlanForUnnamed(digest: Digest, c: Cycle, d: string)
    requires !c.login || NobodyNames(c.listing, c.attempts, d)
    ensures Plan(digest, c, d) == None
  {
    if c.login {
      forall i | 0 <= i < |c.attempts|
        ensures !Names(c.listing, c.attempts[i], d)
      {
        NamesExactly(c.listing, c.attempts[i], d);
      }
    }
  }

  /** What the loops of phase 1 collected says which deployments to bring to which hash. */
  ghost predicate Planned(digest: Digest, c: Cycle, merged: map<string, Data>, failed: set<string>) {
    forall d :: Plan(digest, c, d) == if d in merged && d !in failed then Some(digest(HashInput(merged[d]))) else None
  }

  lemma SweepStart(before: State, digest: Digest, c: Cycle, tries: string -> Try, merged: map<string, Data>,
                   failed: set<string>)
    requires Planned(digest, c, merged, failed)
    ensures Swept(before, before, digest, c, tries, merged.Keys)
  {
    forall d | d !in merged.Keys
      ensures Cycled(ViewOf(before, d), Plan(digest, c, d), tries(d)) == ViewOf(before, d)
    {
      assert Plan(digest, c, d) == None;
    }
  }

  class Syncer {
    const digest: Digest
    var deployments: map<string, Dep>
    var restarts: map<string, nat>
    var skipped: map<string, string>

    function Now(): State
      reads this
    {
      State(deployments, restarts, skipped)
    }

    constructor (digest: Digest, deployments: map<string, Dep>)
      ensures this.digest == digest && Now() == State(deployments, map[], map[])
    {
      this.digest := digest;
      this.deployments := deployments;
      restarts, skipped := map[], map[];
    }

    method HashData(data: Data) returns (h: string)
      ensures h == digest(HashInput(data))
    {
      var text := HashText(data);
      h := digest(text);
    }

    /** Another operation sets the replay annotation. */
    method Interfere(dep: string, replay: Option<string>)
      requires dep in deployments
      modifies this`deployments
      ensures deployments == if replay.Some? then
              old(deployments)[dep := old(deployments)[dep].(replay := replay.value)]
                             else old(deployments)
    {
      if replay.Some? {
        deployments := deployments[dep := deployments[dep].(replay := replay.value)];
      }
    }

    method MaybeRestart(dep: string, h: string, t: Try) returns (ok: bool)
      modifies this`deployments, this`restarts, this`skipped
      ensures OneTried(old(Now()), Now(), dep, h, t)
      ensures ok <==> dep in old(deployments) && t.readOk
                      && (old(deployments)[dep].recorded == h || old(deployments)[dep].replay == "true" || !t.safe
                          || t.patch.Delivered?)
    {
      if dep !in deployments || !t.readOk {
        return false;
      }
      var u := deployments[dep];
      if u.recorded == h {
        return true;
      }
      if u.replay == "true" {
        skipped := skipped[dep := REPLAY_REASON];
        return true;
      }
      if !t.safe {
        skipped := skipped[dep := t.reason];
        return true;
      }
      Interfere(dep, t.meanwhile);
      if !t.patch.Lost? {
        var now := deployments[dep];
        deployments := deployments[dep := now.(recorded := h, restarts := now.restarts + 1)];
      }
      if !t.patch.Delivered? {
        return false;
      }
      restarts := restarts[dep := (if dep in restarts then restarts[dep] else 0) + 1];
      skipped := skipped - {dep};
      return true;
    }

    /** Whatever the order in which the merged maps are walked, every deployment ends up as one
        restart attempt with the planned hash leaves it, and all others are left alone. */
    method SyncOnce(login: bool, attempts: seq<Attempt>, cache: DeploymentCache, tries: string -> Try)
      requires cache.Valid() && cache.calls == 0
      modifies this`deployments, this`restarts, this`skipped, cache
      ensures cache.calls <= 1
      ensures Swept(old(Now()), Now(), digest, Cycle(login, cache.answers(0), attempts), tries, {})
      ensures forall d :: !login || NobodyNames(cache.answers(0), attempts, d) ==>
                            ViewOf(Now(), d) == ViewOf(old(Now()), d)
    {
      ghost var c := Cycle(login, cache.answers(0), attempts);
      forall d | !login || NobodyNames(cache.answers(0), attempts, d)
        ensures Plan(digest, c, d) == None
      {
        NoPlanForUnnamed(digest, c, d);
      }
      if !login {
        return;
      }
      var merged, failed := Accumulate(attempts, cache);
      RestartChanged(merged, failed, tries, Cycle(login, cache.answers(0), attempts));
    }

    /** Phase 2: the merged maps in any order. */
    method RestartChanged(merged: map<string, Data>, failed: set<string>, tries: string -> Try, ghost c: Cycle)
      requires Planned(digest, c, merged, failed)
      modifies this`deployments, this`restarts, this`skipped
      ensures Swept(old(Now()), Now(), digest, c, tries, {})
    {
      ghost var before := Now();
      SweepStart(before, digest, c, tries, merged, failed);
      var rest := merged.Keys;
      while rest != {}
        invariant rest <= merged.Keys
        invariant Swept(before, Now(), digest, c, tries, rest)
        decreases |rest|
      {
        var dep :| dep in rest;
        ghost var mid := Now();
        assert Plan(digest, c, dep) == if dep !in failed then Some(digest(HashInput(merged[dep]))) else None;
        if dep !in failed {
          var h := HashData(merged[dep]);
          var _ := MaybeRestart(dep, h, tries(dep));
        }
        SweepNext(before, mid, Now(), digest, c, tries, rest, dep);
        rest := rest - {dep};
      }
    }
  }
}
