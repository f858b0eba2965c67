/** JSON Merge Patch, section 2 of RFC 7386: what the Kubernetes API server does with the patches
    that the console sends. */
module MergePatch {
  import opened Wrappers

  datatype Json =
    | Null
    | Bool(b: bool)
    | Num(n: int)
    | Str(s: string)
    | Arr(items: seq<Json>)
    | Obj(fields: map<string, Json>)

  /** The fields of an object; other values have none. */
  function Fields(j: Json): map<string, Json> {
    if j.Obj? then j.fields else map[]
  }

  function Field(j: Json, key: string): Json {
    if key in Fields(j) then Fields(j)[key] else Null
  }

  function Merge(target: Json, patch: Json): Json
    decreases patch
  {
    if !patch.Obj? then patch
    else
      Obj(map key | key in Fields(target).Keys + patch.fields.Keys
          && !(key in patch.fields && patch.fields[key].Null?) ::
            if key in patch.fields then Merge(Field(target, key), patch.fields[key]) else Fields(target)[key])
  }

  type Path = seq<string>

  function Get(j: Json, path: Path): Option<Json> {
    if path == [] then Some(j)
    else if path[0] in Fields(j) then Get(Fields(j)[path[0]], path[1..])
    else None
  }

  /** The patch says nothing about `path`: following the path leaves the patch at an object without
      the next key. */
  predicate Unnamed(patch: Json, path: Path)
    decreases |path|
  {
    path != [] && patch.Obj? && (path[0] in patch.fields ==> Unnamed(patch.fields[path[0]], path[1..]))
  }

  /** A patch leaves everything alone that it does not name. */
  lemma {:induction false} MergeFrame(target: Json, patch: Json, path: Path)
    requires Unnamed(patch, path)
    ensures Get(Merge(target, patch), path) == Get(target, path)
    decreases |path|
  {
    if path[0] in patch.fields {
      MergeFrame(Field(target, path[0]), patch.fields[path[0]], path[1..]);
    }
  }

  /** A null in the patch removes, any other plain value is stored. */
  lemma {:induction false} MergeSets(target: Json, patch: Json, path: Path)
    requires Get(patch, path).Some? && !Get(patch, path).value.Obj? && path != []
    ensures Get(Merge(target, patch), path)
            == if Get(patch, path).value.Null? then None else Get(patch, path)
    decreases |path|
  {
    if |path| > 1 {
      MergeSets(Field(target, path[0]), patch.fields[path[0]], path[1..]);
    } else {
      assert path[1..] == [];
    }
  }

  /** Where the patch has an object there is one afterwards, whatever was there before. */
  lemma {:induction false} MergeNests(target: Json, patch: Json, path: Path)
    requires Get(patch, path).Some? && Get(patch, path).value.Obj?
    ensures Get(Merge(target, patch), path).Some? && Get(Merge(target, patch), path).value.Obj?
    decreases |path|
  {
    if path != [] {
      MergeNests(Field(target, path[0]), patch.fields[path[0]], path[1..]);
    }
  }

  /** Sending a patch again, after a lost answer, changes nothing. */
  lemma {:induction false} MergeIdempotent(target: Json, patch: Json)
    ensures Merge(Merge(target, patch), patch) == Merge(target, patch)
    decreases patch
  {
    if patch.Obj? {
      var once := Merge(target, patch);
      var twice := Merge(once, patch);
      forall key | key in once.fields && key in patch.fields
        ensures twice.fields[key] == once.fields[key]
      {
        MergeIdempotent(Field(target, key), patch.fields[key]);
      }
      assert twice.fields == once.fields;
    }
  }

  /** The two patches name different things. */
  predicate Apart(p: Json, p': Json) {
    p.Obj? && p'.Obj? && forall key | key in p.fields && key in p'.fields :: Apart(p.fields[key], p'.fields[key])
  }

  /** The order of two such patches is immaterial. */
  lemma {:induction false} MergeCommutes(target: Json, p: Json, p': Json)
    requires Apart(p, p')
    ensures Merge(Merge(target, p), p') == Merge(Merge(target, p'), p)
    decreases p
  {
    var left, right := Merge(Merge(target, p), p'), Merge(Merge(target, p'), p);
    forall key | key in p.fields && key in p'.fields
      ensures key in left.fields && key in right.fields && left.fields[key] == right.fields[key]
    {
      MergeCommutes(Field(target, key), p.fields[key], p'.fields[key]);
    }
    assert left.fields == right.fields;
  }
}
