/** Which FlinkDeployments a synced secret restarts (internal/secretsync/targets.go and the restart
    modes of internal/config/config.go). */
module SyncTargets {
  import opened Wrappers
  import opened SecretHash

  const MODE_NONE := "none"
  const MODE_ALL := "all"
  const MODE_REFERENCES := "references"
  const MODE_LIST := "list"

  datatype RestartSpec = RestartSpec(mode: string, deployments: seq<string>)

  datatype Item = Item(secretName: string, kvPath: string, restart: RestartSpec)

  /** A FlinkDeployment and the secrets its pod template consumes. */
  datatype Deployment = Deployment(name: string, secrets: set<string>)

  datatype TargetError = ListingFailed(text: string) | UnknownMode(mode: string)

  type Listing = Result<seq<Deployment>, string>

  /** A list of deployments wins over the mode; no mode means no restart. */
  function ResolvedMode(r: RestartSpec): string {
    if r.deployments != [] then MODE_LIST
    else if r.mode == "" then MODE_NONE
    else r.mode
  }

  /** Must the deployments be listed to resolve this item? */
  predicate NeedsListing(item: Item) {
    ResolvedMode(item.restart) == MODE_ALL || ResolvedMode(item.restart) == MODE_REFERENCES
  }

  predicate Selects(item: Item, d: Deployment) {
    ResolvedMode(item.restart) == MODE_ALL || item.secretName in d.secrets
  }

  function NonEmpty(names: seq<string>): set<string> {
    set s | s in names && s != ""
  }

  /** The names an item restarts. */
  function Targets(item: Item, listing: Listing): Result<set<string>, TargetError> {
    var mode := ResolvedMode(item.restart);
    if mode == MODE_LIST then Ok(NonEmpty(item.restart.deployments))
    else if mode == MODE_NONE then Ok({})
    else if !NeedsListing(item) then Err(UnknownMode(item.restart.mode))
    else
      match listing
      case Err(text) => Err(ListingFailed(text))
      case Ok(crs) => Ok(set d | d in crs && Selects(item, d) && d.name != "" :: d.name)
  }

  /** The item is about `name`: it is in the list if there is one; else the deployment is listed and the
      mode takes all of them, or those that use the secret. */
  ghost predicate IsAbout(item: Item, listing: Listing, name: string) {
    && name != ""
    && if item.restart.deployments != [] then name in item.restart.deployments
       else listing.Ok? && exists d ::
         && d in listing.value && d.name == name
         && (item.restart.mode == "all" || (item.restart.mode == "references" && item.secretName in d.secrets))
  }

  lemma ModesDiffer()
    ensures NoDuplicates(["", "none", "all", "references", "list"])
  {
    var none, all, references, list := "none", "all", "references", "list";
    assert |none| == 4 && |all| == 3 && |references| == 10 && |list| == 4;
    assert none[0] == 'n' && list[0] == 'l';
  }

  /** When the deployments have to be listed. */
  lemma ListingExactly(item: Item)
    ensures NeedsListing(item)
            <==> item.restart.deployments == [] && (item.restart.mode == "all" || item.restart.mode == "references")
  {
    ModesDiffer();
  }

  /** The targets, case by case: a list wins over the mode, even over an unknown one; without a list
      neither "none" nor no mode at all restarts anything or needs the listing (nor does "list", which
      then is empty), "all" and "references" do, and any other mode is an error. */
  lemma TargetsExactly(item: Item, listing: Listing)
    ensures var r, mode := Targets(item, listing), item.restart.mode;
            if item.restart.deployments != [] || mode == "" || mode == "none" || mode == "list" then r.Ok?
            else if mode != "all" && mode != "references" then r == Err(UnknownMode(mode))
            else if listing.Err? then r == Err(ListingFailed(listing.error))
            else r.Ok?
    ensures Targets(item, listing).Ok? ==>
              forall name :: name in Targets(item, listing).value <==> IsAbout(item, listing, name)
  {
    ModesDiffer();
    ListingExactly(item);
  }

  /** The names in byte order, once each and without the empty one. */
  method DedupeSorted(names: seq<string>) returns (out: seq<string>)
    ensures out == KeyList(NonEmpty(names))
  {
    var seen: set<string> := {};
    out := [];
    for i := 0 to |names|
      invariant NoDuplicates(out) && forall k :: k in out <==> k in seen
      invariant seen == NonEmpty(names[..i])
    {
      assert names[..i + 1] == names[..i] + [names[i]];
      if names[i] != "" && names[i] !in seen {
        seen := seen + {names[i]};
        out := out + [names[i]];
      }
    }
    assert names[..|names|] == names;
    out := SortStrings(out);
    KeyListUnique(out, KeyList(seen), seen);
  }

  /** Lists the deployments at most once in a cycle, and keeps the answer or the error. */
  class DeploymentCache {
    /** What the k-th listing of the cycle answers. */
    const answers: nat -> Listing
    var calls: nat
    var loaded: bool
    var items: seq<Deployment>
    var err: Option<string>

    predicate Valid()
      reads this
    {
      && calls == (if loaded then 1 else 0)
      && (!loaded ==> items == [] && err == None)
      && (loaded ==> if err.Some? then answers(0) == Err(err.value) else answers(0) == Ok(items))
    }

    constructor (answers: nat -> Listing)
      ensures Valid() && calls == 0 && this.answers == answers
    {
      this.answers := answers;
      calls, loaded, items, err := 0, false, [], None;
    }

    /** However often it is called, every caller gets the first answer. */
    method List() returns (r: Listing)
      requires Valid()
      modifies this
      ensures Valid() && calls == 1 && r == answers(0)
    {
      if !loaded {
        loaded := true;
        var answer := answers(calls);
        calls := calls + 1;
        match answer
        case Err(text) => err := Some(text);
        case Ok(list) => items := list;
      }
      return if err.Some? then Err(err.value) else Ok(items);
    }
  }

  method RestartTargets(item: Item, cache: DeploymentCache) returns (r: Result<seq<string>, TargetError>)
    requires cache.Valid()
    modifies cache
    ensures cache.Valid()
    ensures match Targets(item, cache.answers(0))
            case Ok(names) => r == Ok(KeyList(names))
            case Err(e) => r == Err(e)
    ensures r.Ok? ==> NoDuplicates(r.value) && Sorted(r.value)
    ensures r.Ok? ==> forall name :: name in r.value <==> IsAbout(item, cache.answers(0), name)
    ensures var asks := item.restart.deployments == []
                        && (item.restart.mode == "all" || item.restart.mode == "references");
            cache.calls == if asks then 1 else old(cache.calls)
  {
    TargetsExactly(item, cache.answers(0));
    ListingExactly(item);
    var mode := ResolvedMode(item.restart);
    if mode == MODE_LIST {
      var out := DedupeSorted(item.restart.deployments);
      return Ok(out);
    }
    if mode == MODE_NONE {
      assert IsKeyList([], {});
      KeyListUnique([], KeyList({}), {});
      return Ok([]);
    }
    if mode != MODE_ALL && mode != MODE_REFERENCES {
      return Err(UnknownMode(item.restart.mode));
    }
    var listing := cache.List();
    if listing.Err? {
      return Err(ListingFailed(listing.error));
    }
    var crs := listing.value;
    var names: seq<string> := [];
    for i := 0 to |crs|
      invariant forall s :: s in names <==> exists j | 0 <= j < i :: Selects(item, crs[j]) && crs[j].name == s
    {
      if mode == MODE_ALL || item.secretName in crs[i].secrets {
        names := names + [crs[i].name];
      }
    }
    assert NonEmpty(names) == set d | d in crs && Selects(item, d) && d.name != "" :: d.name;
    var out := DedupeSorted(names);
    return Ok(out);
  }
}
