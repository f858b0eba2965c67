/** A replay and a sync cycle on one deployment (runReplay in internal/flink/replay.go, maybeRestart in
    internal/secretsync/syncer.go). The replay holds the lock of the deployment, which the cycle does
    not take; the cycle looks for the replay annotation instead, and that is what the replay writes
    last. Here both act on the cluster of module Replay. */
module ReplayInterlock {
  import opened Wrappers
  import opened MergePatch
  import opened Replay
  import opened SecretSync
  import SqlOptions
  import SqlRewrite

  const HASH_ANNOTATION := "flinkui.fko-demo.io/openbao-value-hash"

  // ---------- the replay, write by write ----------

  /** The same replay, stopped after its first `k` writes. */
  function Cut(net: ReplayNet, k: nat): ReplayNet {
    ReplayNet(net.readOk, if k < 1 then Lost else net.backup, if k < 2 then Lost else net.sql,
              if k < 3 then Lost else net.patch)
  }

  function Stage(cfg: Config, c: Cluster, q: Request, net: ReplayNet, k: nat): Cluster {
    AfterReplay(cfg, c, q, Cut(net, k)).0
  }

  /** Within `k` writes the replay has edited the SQL. */
  predicate Edited(cfg: Config, c: Cluster, net: ReplayNet, k: nat) {
    k >= 2 && (HasBackup(cfg, c) || net.backup.Delivered?) && !net.sql.Lost?
  }

  /** ... and marked the deployment. */
  predicate Marked(cfg: Config, c: Cluster, net: ReplayNet, k: nat) {
    k >= 3 && (HasBackup(cfg, c) || net.backup.Delivered?) && net.sql.Delivered? && !net.patch.Lost?
  }

  predicate NoSession(cr: Json) {
    AnnotationFields(cr).Keys !! REPLAY_ANNOTATIONS
  }

  /** The deployment after the forward patch. */
  function Forwarded(cfg: Config, cr: Json, q: Request, newSql: string, table: string): Json {
    Merge(cr, ForwardPatch(cfg, newSql, SessionAnnotations(q, table, OrLastState(UpgradeMode(cr)))))
  }

  /** A replay that changes the SQL. */
  predicate Changes(sql: string, q: Request) {
    var r := SqlRewrite.Rewrite(sql, q.tables, q.sourceTable, q.millis, q.autoOffsetReset);
    r.Ok? && r.value.0 != sql
  }

  /** What the three writes leave behind. */
  lemma WritesOf(cfg: Config, c: Cluster, q: Request, newSql: string, table: string, net: ReplayNet)
    ensures var after := AfterRewrite(cfg, c, q, newSql, table, net).0;
            && Sql(cfg, after) == (if Edited(cfg, c, net, 3) then newSql else Sql(cfg, c))
            && after.cr == if Marked(cfg, c, net, 3) then Forwarded(cfg, c.cr, q, newSql, table) else c.cr
  {
  }

  lemma StageOf(cfg: Config, c: Cluster, q: Request, net: ReplayNet, k: nat, newSql: string, table: string)
    requires net.readOk && NoSession(c.cr)
    requires SqlRewrite.Rewrite(Sql(cfg, c), q.tables, q.sourceTable, q.millis, q.autoOffsetReset)
             == Ok((newSql, table))
    ensures var now := Stage(cfg, c, q, net, k);
            && Sql(cfg, now) == (if Edited(cfg, c, net, k) then newSql else Sql(cfg, c))
            && now.cr == if Marked(cfg, c, net, k) then Forwarded(cfg, c.cr, q, newSql, table) else c.cr
  {
    assert ANN_ACTIVE in REPLAY_ANNOTATIONS;
    InactiveWithout(c.cr);
    CutCounts(cfg, c, net, k);
    WritesOf(cfg, c, q, newSql, table, Cut(net, k));
  }

  lemma CutCounts(cfg: Config, c: Cluster, net: ReplayNet, k: nat)
    ensures Edited(cfg, c, Cut(net, k), 3) <==> Edited(cfg, c, net, k)
    ensures Marked(cfg, c, Cut(net, k), 3) <==> Marked(cfg, c, net, k)
  {
  }

  // ---------- the restart ----------

  /** The deployment as the syncer reads it. */
  function Seen(cr: Json): Dep {
    Dep(Annotation(cr, HASH_ANNOTATION), Annotation(cr, ANN_ACTIVE), 0)
  }

  /** The syncer, having read `seen`, restarts the job. */
  predicate Restarts(seen: Cluster, h: string, t: Try) {
    var v := View(Some(Seen(seen.cr)), 0, None);
    Tried(v, h, t).dep.value.restarts != v.dep.value.restarts
  }

  function SyncPatch(h: string, nonce: int): Json {
    Obj(map["metadata" := Obj(map["annotations" := Obj(map[HASH_ANNOTATION := Str(h)])]),
            "spec" := Obj(map["restartNonce" := Num(nonce)])])
  }

  /** The cycle reads `seen`; the cluster is `now` when its patch arrives. */
  function AfterSync(seen: Cluster, now: Cluster, h: string, nonce: int, t: Try): Cluster {
    if Restarts(seen, h, t) then now.(cr := Merge(now.cr, SyncPatch(h, nonce))) else now
  }

  /** Nothing but a replay keeps the cycle from restarting the job. */
  predicate Due(seen: Cluster, h: string, t: Try) {
    t.readOk && t.safe && !t.patch.Lost? && Annotation(seen.cr, HASH_ANNOTATION) != h
  }

  lemma RestartsWhenDue(seen: Cluster, h: string, t: Try)
    ensures Restarts(seen, h, t) <==> Due(seen, h, t) && !Active(seen.cr)
  {
  }

  lemma SyncPatchedFields(cr: Json, h: string, nonce: int)
    ensures var cr' := Merge(cr, SyncPatch(h, nonce));
            && AnnotationFields(cr') == AnnotationFields(cr)[HASH_ANNOTATION := Str(h)]
            && UpgradeMode(cr') == UpgradeMode(cr)
  {
    var metadata, spec := "metadata", "spec";
    assert |metadata| == 8 && |spec| == 4;
    var notes := Obj(map["annotations" := Obj(map[HASH_ANNOTATION := Str(h)])]);
    var nonces := Obj(map["restartNonce" := Num(nonce)]);
    FieldOfMerge(cr, map[metadata := notes, spec := nonces], metadata);
    FieldOfMerge(cr, map[metadata := notes, spec := nonces], spec);
    NotesOfMerge(Field(cr, metadata), HASH_ANNOTATION, h);
    JobOfMerge(Field(cr, spec), nonce);
  }

  lemma NotesOfMerge(metadata: Json, key: string, h: string)
    ensures Fields(Field(Merge(metadata, Obj(map["annotations" := Obj(map[key := Str(h)])])), "annotations"))
            == Fields(Field(metadata, "annotations"))[key := Str(h)]
  {
    var a := "annotations";
    FieldOfMerge(metadata, map[a := Obj(map[key := Str(h)])], a);
    MergeAnnotations(Field(metadata, a), map[key := Str(h)]);
  }

  lemma JobOfMerge(spec: Json, nonce: int)
    ensures Field(Merge(spec, Obj(map["restartNonce" := Num(nonce)])), "job") == Field(spec, "job")
  {
    var n, job := "restartNonce", "job";
    assert |n| == 12 && |job| == 3;
    OtherFieldOfMerge(spec, map[n := Num(nonce)], job);
  }

  lemma OtherFieldOfMerge(target: Json, fields: map<string, Json>, key: string)
    requires key !in fields
    ensures Field(Merge(target, Obj(fields)), key) == Field(target, key)
  {
  }

  lemma HashIsNoSessionKey()
    ensures HASH_ANNOTATION !in REPLAY_ANNOTATIONS
  {
    assert |HASH_ANNOTATION| == 38;
    assert forall key | key in REPLAY_ANNOTATIONS :: |key| < 38;
  }

  /** After the patch, read back from any deployment: the hash is recorded, and the nonce makes the
      operator restart the job. */
  lemma SyncedDeployment(cr: Json, h: string, nonce: int)
    ensures var cr' := Merge(cr, SyncPatch(h, nonce));
            && Get(cr', ["metadata", "annotations", "flinkui.fko-demo.io/openbao-value-hash"]) == Some(Str(h))
            && Get(cr', ["spec", "restartNonce"]) == Some(Num(nonce))
  {
    var patch := SyncPatch(h, nonce);
    var metadata, spec, anns, key, n := "metadata", "spec", "annotations", HASH_ANNOTATION, "restartNonce";
    assert |metadata| == 8 && |spec| == 4;
    GetThree(patch, metadata, anns, key);
    GetTwo(patch, spec, n);
    MergeSets(cr, patch, [metadata, anns, key]);
    MergeSets(cr, patch, [spec, n]);
  }

  // ---------- where the interlock holds ----------

  /** The cycle reads the deployment after `r` writes of a replay, and its patch arrives after `p` of
      them. It restarts the job onto edited SQL if and only if the SQL is edited by then and it read
      the deployment unmarked (or could not read the mark, because some annotation is no string). */
  lemma RestartsEditedExactly(cfg: Config, c: Cluster, q: Request, net: ReplayNet, r: nat, p: nat, h: string, t: Try)
    requires net.readOk && NoSession(c.cr) && Changes(Sql(cfg, c), q)
    requires r <= p
    ensures var seen, now := Stage(cfg, c, q, net, r), Stage(cfg, c, q, net, p);
            Restarts(seen, h, t) && Sql(cfg, now) != Sql(cfg, c)
            <==> Due(seen, h, t) && Edited(cfg, c, net, p)
                 && !(Marked(cfg, c, net, r) && AllStrings(AnnotationFields(c.cr)))
  {
    var (newSql, table) := SqlRewrite.Rewrite(Sql(cfg, c), q.tables, q.sourceTable, q.millis, q.autoOffsetReset).value;
    StageOf(cfg, c, q, net, r, newSql, table);
    StageOf(cfg, c, q, net, p, newSql, table);
    RestartsWhenDue(Stage(cfg, c, q, net, r), h, t);
    SessionStarts(cfg, c.cr, newSql, q, table, OrLastState(UpgradeMode(c.cr)));
    assert ANN_ACTIVE in REPLAY_ANNOTATIONS;
    InactiveWithout(c.cr);
  }

  /** What the forward patch is made to avoid, a restart onto the edited SQL that keeps the old state,
      happens if and only if the restart falls between the edit and the mark. */
  lemma RestartsWithStateExactly(cfg: Config, c: Cluster, q: Request, net: ReplayNet, r: nat, p: nat, h: string,
                                 nonce: int, t: Try)
    requires net.readOk && NoSession(c.cr) && Changes(Sql(cfg, c), q)
    requires r <= p
    ensures var seen, now := Stage(cfg, c, q, net, r), Stage(cfg, c, q, net, p);
            var after := AfterSync(seen, now, h, nonce, t);
            Restarts(seen, h, t) && Sql(cfg, after) != Sql(cfg, c) && UpgradeMode(after.cr) != "stateless"
            <==> Due(seen, h, t) && Edited(cfg, c, net, p) && !Marked(cfg, c, net, p)
                 && UpgradeMode(c.cr) != "stateless"
  {
    var (newSql, table) := SqlRewrite.Rewrite(Sql(cfg, c), q.tables, q.sourceTable, q.millis, q.autoOffsetReset).value;
    RestartsEditedExactly(cfg, c, q, net, r, p, h, t);
    StageOf(cfg, c, q, net, p, newSql, table);
    SyncPatchedFields(Stage(cfg, c, q, net, p).cr, h, nonce);
    SessionStarts(cfg, c.cr, newSql, q, table, OrLastState(UpgradeMode(c.cr)));
  }

  // ---------- a replay that stopped between the edit and the mark ----------

  /** A cycle that finds the cluster at rest. */
  datatype Sync = Sync(h: string, nonce: int, t: Try)

  function AfterSyncs(c: Cluster, syncs: seq<Sync>): Cluster {
    if syncs == [] then c
    else
      var before := AfterSyncs(c, syncs[..|syncs| - 1]);
      var last := syncs[|syncs| - 1];
      AfterSync(before, before, last.h, last.nonce, last.t)
  }

  lemma {:induction false} SyncsKeep(c: Cluster, syncs: seq<Sync>)
    requires NoSession(c.cr)
    ensures var now := AfterSyncs(c, syncs);
            now.data == c.data && NoSession(now.cr) && UpgradeMode(now.cr) == UpgradeMode(c.cr)
  {
    if syncs != [] {
      var before, last := AfterSyncs(c, syncs[..|syncs| - 1]), syncs[|syncs| - 1];
      SyncsKeep(c, syncs[..|syncs| - 1]);
      SyncPatchedFields(before.cr, last.h, last.nonce);
      HashIsNoSessionKey();
    }
  }

  /** No race is needed when the forward patch never arrives: from then on the job keeps its old
      upgrade mode and the edited SQL, and every cycle that finds a new hash restarts it. */
  lemma LeftEditIsRestarted(cfg: Config, c: Cluster, q: Request, net: ReplayNet, syncs: seq<Sync>, h: string, t: Try)
    requires net.readOk && NoSession(c.cr) && Changes(Sql(cfg, c), q)
    requires Edited(cfg, c, net, 3) && !Marked(cfg, c, net, 3)
    ensures var now := AfterSyncs(AfterReplay(cfg, c, q, net).0, syncs);
            && Sql(cfg, now) != Sql(cfg, c) && UpgradeMode(now.cr) == UpgradeMode(c.cr)
            && (Restarts(now, h, t) <==> Due(now, h, t))
  {
    var (newSql, table) := SqlRewrite.Rewrite(Sql(cfg, c), q.tables, q.sourceTable, q.millis, q.autoOffsetReset).value;
    var left := AfterReplay(cfg, c, q, net).0;
    assert Cut(net, 3) == net;
    StageOf(cfg, c, q, net, 3, newSql, table);
    SyncsKeep(left, syncs);
    assert ANN_ACTIVE in REPLAY_ANNOTATIONS;
    InactiveWithout(AfterSyncs(left, syncs).cr);
    RestartsWhenDue(AfterSyncs(left, syncs), h, t);
  }

  lemma LostMarkRestarts(cfg: Config, sql: string, q: Request, h: string, nonce: int)
    requires Changes(sql, q) && h != ""
    ensures BringsInEdit(cfg, sql, q, h, nonce)
  {
    var c := Cluster(map[cfg.file := sql], Obj(map[]));
    var net, t := ReplayNet(true, Delivered, Delivered, Lost), Try(true, true, "", None, Delivered);
    assert Sql(cfg, c) == sql;
    assert Cut(net, 3) == net;
    RestartsWithStateExactly(cfg, c, q, net, 3, 3, h, nonce, t);
    LeftHash(cfg, c, q, net);
  }

  lemma LeftHash(cfg: Config, c: Cluster, q: Request, net: ReplayNet)
    requires c.cr == Obj(map[]) && net.readOk && Changes(Sql(cfg, c), q) && !Marked(cfg, c, net, 3)
    ensures Annotation(AfterReplay(cfg, c, q, net).0.cr, HASH_ANNOTATION) == "" && UpgradeMode(c.cr) == ""
  {
    var (newSql, table) := SqlRewrite.Rewrite(Sql(cfg, c), q.tables, q.sourceTable, q.millis, q.autoOffsetReset).value;
    assert Cut(net, 3) == net;
    StageOf(cfg, c, q, net, 3, newSql, table);
  }

  /** From a deployment without annotations: the forward patch of the replay is lost, and the next
      cycle restarts the job, which is to keep its state, onto the SQL of the replay. */
  predicate BringsInEdit(cfg: Config, sql: string, q: Request, h: string, nonce: int) {
    var c := Cluster(map[cfg.file := sql], Obj(map[]));
    var left := AfterReplay(cfg, c, q, ReplayNet(true, Delivered, Delivered, Lost)).0;
    var t := Try(true, true, "", None, Delivered);
    var after := AfterSync(left, left, h, nonce, t);
    Restarts(left, h, t) && Sql(cfg, after) != sql && UpgradeMode(after.cr) != "stateless"
  }

  /** A concrete case. */
  lemma LostMarkRestartsSource(cfg: Config, topic: string, millis: int, h: string, nonce: int)
    requires SqlOptions.WellQuoted(topic) && h != ""
    ensures BringsInEdit(cfg, SqlRewrite.SourceSql(topic), Request("", millis, "", "", "", [SqlRewrite.SOURCE]), h,
                         nonce)
  {
    var q := Request("", millis, "", "", "", [SqlRewrite.SOURCE]);
    SqlRewrite.SourceIsChanged(topic, millis, "");
    LostMarkRestarts(cfg, SqlRewrite.SourceSql(topic), q, h, nonce);
  }

  // ---------- what a race does not do ----------

  lemma PatchesAreApart(cfg: Config, newSql: string, q: Request, table: string, mode: string, h: string, nonce: int)
    ensures Apart(ForwardPatch(cfg, newSql, SessionAnnotations(q, table, mode)), SyncPatch(h, nonce))
  {
    SessionKeys(q, table, mode);
    HashIsNoSessionKey();
    var anns := SessionAnnotations(q, table, mode);
    assert Apart(Obj(anns), Obj(map[HASH_ANNOTATION := Str(h)]));
    assert Apart(Obj(map["annotations" := Obj(anns)]), Obj(map["annotations" := Obj(map[HASH_ANNOTATION := Str(h)])]));
  }

  lemma AnnotationSet(cr: Json, cr': Json, key: string, value: string, other: string)
    requires AnnotationFields(cr') == AnnotationFields(cr)[key := Str(value)] && AllStrings(AnnotationFields(cr))
    requires other != key
    ensures Annotation(cr', key) == value && Annotation(cr', other) == Annotation(cr, other)
  {
  }

  lemma SyncedReads(cr: Json, h: string, nonce: int)
    requires AllStrings(AnnotationFields(cr))
    ensures var cr' := Merge(cr, SyncPatch(h, nonce));
            && Annotation(cr', HASH_ANNOTATION) == h && (Active(cr') <==> Active(cr))
            && UpgradeMode(cr') == UpgradeMode(cr)
  {
    SyncPatchedFields(cr, h, nonce);
    HashIsNoSessionKey();
    assert ANN_ACTIVE in REPLAY_ANNOTATIONS;
    AnnotationSet(cr, Merge(cr, SyncPatch(h, nonce)), HASH_ANNOTATION, h, ANN_ACTIVE);
  }

  lemma BothStrings(a: map<string, Json>, b: map<string, Json>)
    requires AllStrings(a) && AllStrings(b)
    ensures AllStrings(a + b)
  {
  }

  /** Neither write is lost: whichever of the two patches arrives first, the deployment ends up the
      same, with the session marked and the hash recorded. */
  lemma BothPatchesLast(cfg: Config, cr: Json, newSql: string, q: Request, table: string, mode: string, h: string,
                        nonce: int)
    requires NoSession(cr) && AllStrings(AnnotationFields(cr))
    ensures var forward, sync := ForwardPatch(cfg, newSql, SessionAnnotations(q, table, mode)), SyncPatch(h, nonce);
            var end := Merge(Merge(cr, forward), sync);
            && Merge(Merge(cr, sync), forward) == end
            && Active(end) && Annotation(end, HASH_ANNOTATION) == h && UpgradeMode(end) == "stateless"
  {
    var forward := ForwardPatch(cfg, newSql, SessionAnnotations(q, table, mode));
    PatchesAreApart(cfg, newSql, q, table, mode, h, nonce);
    MergeCommutes(cr, forward, SyncPatch(h, nonce));
    SessionStarts(cfg, cr, newSql, q, table, mode);
    SessionKeys(q, table, mode);
    BothStrings(AnnotationFields(cr), SessionAnnotations(q, table, mode));
    SyncedReads(Merge(cr, forward), h, nonce);
  }
}
