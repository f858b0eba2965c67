/** Replay from a timestamp and its revert (runReplay and runRevert in internal/flink/replay.go):
    a backup, edit and restore protocol over two Kubernetes objects, the SQL ConfigMap and the
    FlinkDeployment. Both run under the lock of the deployment, so attempts follow one another;
    an attempt may end after any of its requests. */
module Replay {
  import opened Wrappers
  import opened MergePatch
  import SqlOptions
  import SqlRewrite

  const ANN_ACTIVE := "flinkui.io/replay-active"
  const ANN_FROM := "flinkui.io/replay-from-millis"
  const ANN_STARTED_AT := "flinkui.io/replay-started-at"
  const ANN_STARTED_BY := "flinkui.io/replay-started-by"
  const ANN_PREV_MODE := "flinkui.io/replay-prev-upgrade-mode"
  const ANN_TABLE := "flinkui.io/replay-source-table"
  const REPLAY_ANNOTATIONS: set<string> := {ANN_ACTIVE, ANN_FROM, ANN_STARTED_AT, ANN_STARTED_BY, ANN_PREV_MODE,
                                            ANN_TABLE}

  const BACKUP_SUFFIX := ".flinkui-prereplay-backup"
  const CHECKSUM_KEY := "flinkui.sql-checksum"

  /** The data of the SQL ConfigMap and the FlinkDeployment. */
  datatype Cluster = Cluster(data: map<string, string>, cr: Json)

  /** The configured SQL key and the digest, which is left open. */
  datatype Config = Config(file: string, md5: string -> string)

  function BackupKey(cfg: Config): (r: string)
    ensures r != cfg.file
  {
    assert |cfg.file + BACKUP_SUFFIX| > |cfg.file|;
    cfg.file + BACKUP_SUFFIX
  }

  /** A key that is missing reads as the empty string. */
  function Sql(cfg: Config, c: Cluster): string {
    if cfg.file in c.data then c.data[cfg.file] else ""
  }

  predicate HasBackup(cfg: Config, c: Cluster) {
    BackupKey(cfg) in c.data
  }

  // ---------- reading the deployment ----------

  function AnnotationFields(cr: Json): map<string, Json> {
    Fields(Field(Field(cr, "metadata"), "annotations"))
  }

  predicate AllStrings(fields: map<string, Json>) {
    forall key | key in fields :: fields[key].Str?
  }

  /** The annotations as the client reads them: none at all if one of them is not a string. */
  function Annotation(cr: Json, key: string): string {
    var fields := AnnotationFields(cr);
    if AllStrings(fields) && key in fields then fields[key].s else ""
  }

  predicate Active(cr: Json) {
    Annotation(cr, ANN_ACTIVE) == "true"
  }

  /** spec.job.upgradeMode, where anything but a string reads as empty. */
  function UpgradeMode(cr: Json): string {
    var mode := Field(Field(Field(cr, "spec"), "job"), "upgradeMode");
    if mode.Str? then mode.s else ""
  }

  function OrLastState(mode: string): string {
    if mode == "" then "last-state" else mode
  }

  // ---------- the patches ----------

  datatype Request = Request(sourceTable: string, millis: int, autoOffsetReset: string, startedAt: string,
                             startedBy: string, tables: seq<SqlRewrite.TableMatch>)

  function SessionAnnotations(q: Request, table: string, prevMode: string): map<string, Json> {
    map[ANN_FROM := Str(SqlRewrite.FormatInt(q.millis)), ANN_STARTED_AT := Str(q.startedAt),
        ANN_STARTED_BY := Str(q.startedBy),
        ANN_TABLE := Str(table), ANN_ACTIVE := Str("true"), ANN_PREV_MODE := Str(prevMode)]
  }

  function ClearedAnnotations(): map<string, Json> {
    map key | key in REPLAY_ANNOTATIONS :: Null
  }

  function DeploymentPatch(annotations: map<string, Json>, job: map<string, Json>, checksum: string): Json {
    Obj(map["metadata" := Obj(map["annotations" := Obj(annotations)]),
            "spec" := Obj(map["job" := Obj(job), "flinkConfiguration" := Obj(map[CHECKSUM_KEY := Str(checksum)])])])
  }

  function ForwardPatch(cfg: Config, sql: string, annotations: map<string, Json>): Json {
    DeploymentPatch(annotations, map["upgradeMode" := Str("stateless")], cfg.md5(sql))
  }

  function RevertJob(mode: string, savepoint: string, nonce: int): map<string, Json> {
    map["state" := Str("running"), "upgradeMode" := Str(mode), "initialSavepointPath" := Str(savepoint),
        "savepointRedeployNonce" := Num(nonce)]
  }

  function RevertPatch(cfg: Config, mode: string, savepoint: string, nonce: int, sql: string): Json {
    DeploymentPatch(ClearedAnnotations(), RevertJob(mode, savepoint, nonce), cfg.md5(sql))
  }

  // ---------- the two operations, as functions of the state ----------

  function PutKey(c: Cluster, key: string, value: string, d: Delivery): Cluster {
    if d.Lost? then c else c.(data := c.data[key := value])
  }

  function DropKey(c: Cluster, key: string, d: Delivery): Cluster {
    if d.Lost? then c else c.(data := c.data - {key})
  }

  function Patch(c: Cluster, patch: Json, d: Delivery): Cluster {
    if d.Lost? then c else c.(cr := Merge(c.cr, patch))
  }

  /** How the requests of a replay fare: the reads together, then the three writes. */
  datatype ReplayNet = ReplayNet(readOk: bool, backup: Delivery, sql: Delivery, patch: Delivery)

  function AfterReplay(cfg: Config, c: Cluster, q: Request, net: ReplayNet): (Cluster, bool) {
    if !net.readOk || Active(c.cr) then (c, false)
    else
      match SqlRewrite.Rewrite(Sql(cfg, c), q.tables, q.sourceTable, q.millis, q.autoOffsetReset)
      case Err(_) => (c, false)
      case Ok((newSql, table)) => AfterRewrite(cfg, c, q, newSql, table, net)
  }

  /** The writes of a replay: back up unless a backup exists, edit the SQL, start the session. */
  function AfterRewrite(cfg: Config, c: Cluster, q: Request, newSql: string, table: string, net: ReplayNet): (Cluster,
                        bool) {
    var backedUp := if HasBackup(cfg, c) then c else PutKey(c, BackupKey(cfg), Sql(cfg, c), net.backup);
    if !HasBackup(cfg, c) && !net.backup.Delivered? then (backedUp, false)
    else
      var edited := PutKey(backedUp, cfg.file, newSql, net.sql);
      if !net.sql.Delivered? then (edited, false)
      else
        var anns := SessionAnnotations(q, table, OrLastState(UpgradeMode(c.cr)));
        (Patch(edited, ForwardPatch(cfg, newSql, anns), net.patch), net.patch.Delivered?)
  }

  /** How the requests of a revert fare; `savepoint` is None when none could be taken. */
  datatype RevertNet = RevertNet(readOk: bool, healthy: bool, savepoint: Option<string>, nonce: int,
                                 sql: Delivery, patch: Delivery, cleanup: Delivery)

  function AfterRevert(cfg: Config, c: Cluster, net: RevertNet): (Cluster, bool) {
    if !net.readOk || !net.healthy || !HasBackup(cfg, c) || net.savepoint.None? then (c, false)
    else
      var backup := c.data[BackupKey(cfg)];
      var restored := PutKey(c, cfg.file, backup, net.sql);
      if !net.sql.Delivered? then (restored, false)
      else
        var mode := OrLastState(Annotation(c.cr, ANN_PREV_MODE));
        var redeployed := Patch(restored, RevertPatch(cfg, mode, net.savepoint.value, net.nonce, backup), net.patch);
        if !net.patch.Delivered? then (redeployed, false)
        else (DropKey(redeployed, BackupKey(cfg), net.cleanup), true)
  }

  // ---------- the program ----------

  /** The cluster as the service writes it, request by request. */
  class Service {
    const cfg: Config
    var data: map<string, string>
    var cr: Json

    constructor (cfg: Config, data: map<string, string>, cr: Json)
      ensures this.cfg == cfg && View() == Cluster(data, cr)
    {
      this.cfg, this.data, this.cr := cfg, data, cr;
    }

    function View(): Cluster
      reads this
    {
      Cluster(data, cr)
    }

    method PatchConfigMapKey(key: string, value: string, d: Delivery) returns (ok: bool)
      modifies this`data
      ensures View() == PutKey(old(View()), key, value, d) && ok == d.Delivered?
    {
      if !d.Lost? {
        data := data[key := value];
      }
      ok := d.Delivered?;
    }

    method DeleteConfigMapKey(key: string, d: Delivery) returns (ok: bool)
      modifies this`data
      ensures View() == DropKey(old(View()), key, d) && ok == d.Delivered?
    {
      if !d.Lost? {
        data := data - {key};
      }
      ok := d.Delivered?;
    }

    method PatchFlinkDeployment(patch: Json, d: Delivery) returns (ok: bool)
      modifies this`cr
      ensures View() == Patch(old(View()), patch, d) && ok == d.Delivered?
    {
      if !d.Lost? {
        cr := Merge(cr, patch);
      }
      ok := d.Delivered?;
    }

    method RunReplay(q: Request, net: ReplayNet) returns (ok: bool)
      modifies this
      ensures (View(), ok) == AfterReplay(cfg, old(View()), q, net)
      ensures old(Annotation(cr, "flinkui.io/replay-active")) == "true" ==> !ok && View() == old(View())
    {
      if !net.readOk || Annotation(cr, ANN_ACTIVE) == "true" {
        return false;
      }
      var rewritten := SqlRewrite.RewriteForReplay(Sql(cfg, View()), q.tables, q.sourceTable, q.millis,
                                                   q.autoOffsetReset);
      if rewritten.Err? {
        return false;
      }
      ok := StartSession(q, rewritten.value.0, rewritten.value.1, net);
    }

    /** Back up, edit, and start the session. */
    method StartSession(q: Request, newSql: string, table: string, net: ReplayNet) returns (ok: bool)
      modifies this
      ensures (View(), ok) == AfterRewrite(cfg, old(View()), q, newSql, table, net)
    {
      var prevMode := UpgradeMode(cr);
      if prevMode == "" {
        prevMode := "last-state";
      }
      if BackupKey(cfg) !in data {
        var saved := PatchConfigMapKey(BackupKey(cfg), Sql(cfg, View()), net.backup);
        if !saved {
          return false;
        }
      }
      var written := PatchConfigMapKey(cfg.file, newSql, net.sql);
      if !written {
        return false;
      }
      ok := PatchFlinkDeployment(ForwardPatch(cfg, newSql, SessionAnnotations(q, table, prevMode)), net.patch);
    }

    method RunRevert(net: RevertNet) returns (ok: bool)
      modifies this
      ensures (View(), ok) == AfterRevert(cfg, old(View()), net)
    {
      if !net.readOk || !net.healthy {
        return false;
      }
      var prevMode := Annotation(cr, ANN_PREV_MODE);
      if prevMode == "" {
        prevMode := "last-state";
      }
      if BackupKey(cfg) !in data || net.savepoint.None? {
        return false;
      }
      var backup := data[BackupKey(cfg)];
      var restored := PatchConfigMapKey(cfg.file, backup, net.sql);
      if !restored {
        return false;
      }
      var redeployed := PatchFlinkDeployment(RevertPatch(cfg, prevMode, net.savepoint.value, net.nonce, backup),
                                             net.patch);
      if !redeployed {
        return false;
      }
      var _ := DeleteConfigMapKey(BackupKey(cfg), net.cleanup);
      return true;
    }
  }

  // ---------- crash safety over any sequence of attempts ----------

  /** An attempt of one of the two, or anything else that writes the deployment meanwhile (suspend,
      resume, rollback, a change of the upgrade mode, a failover, a restart by the secret sync), as
      long as it does not start a session. */
  datatype Attempt =
    | TryReplay(q: Request, net: ReplayNet)
    | TryRevert(rnet: RevertNet)
    | OtherWrite(cr: Json)

  function AfterAttempt(cfg: Config, c: Cluster, a: Attempt): (Cluster, bool) {
    match a
    case TryReplay(q, net) => AfterReplay(cfg, c, q, net)
    case TryRevert(net) => AfterRevert(cfg, c, net)
    case OtherWrite(cr) => if Active(cr) && !Active(c.cr) then (c, false) else (c.(cr := cr), true)
  }

  function AfterAttempts(cfg: Config, c: Cluster, attempts: seq<Attempt>): Cluster {
    if attempts == [] then c
    else AfterAttempt(cfg, AfterAttempts(cfg, c, attempts[..|attempts| - 1]), attempts[|attempts| - 1]).0
  }

  /** `original` is safe: whatever is not the original SQL any more is backed up. */
  predicate Safe(cfg: Config, c: Cluster, original: string) {
    && (HasBackup(cfg, c) ==> c.data[BackupKey(cfg)] == original)
    && (Active(c.cr) ==> HasBackup(cfg, c))
    && (Sql(cfg, c) != original ==> HasBackup(cfg, c))
  }

  /** Where a deployment patch puts its parts. */
  lemma PatchedFields(cr: Json, annotations: map<string, Json>, job: map<string, Json>, checksum: string)
    ensures var cr' := Merge(cr, DeploymentPatch(annotations, job, checksum));
            && AnnotationFields(cr') == Fields(Merge(Field(Field(cr, "metadata"), "annotations"), Obj(annotations)))
            && Field(Field(cr', "spec"), "job") == Merge(Field(Field(cr, "spec"), "job"), Obj(job))
            && Field(Field(Field(cr', "spec"), "flinkConfiguration"), CHECKSUM_KEY) == Str(checksum)
  {
    var metadata, spec := "metadata", "spec";
    assert |metadata| == 8 && |spec| == 4;
    FieldOfMerge(cr, map[metadata := Obj(map["annotations" := Obj(annotations)]),
                         spec := Obj(map["job" := Obj(job),
                                         "flinkConfiguration" := Obj(map[CHECKSUM_KEY := Str(checksum)])])], metadata);
    FieldOfMerge(cr, map[metadata := Obj(map["annotations" := Obj(annotations)]),
                         spec := Obj(map["job" := Obj(job),
                                         "flinkConfiguration" := Obj(map[CHECKSUM_KEY := Str(checksum)])])], spec);
    FieldOfMerge(Field(cr, metadata), map["annotations" := Obj(annotations)], "annotations");
    SpecOfMerge(Field(cr, spec), job, checksum);
  }

  lemma SpecOfMerge(spec: Json, job: map<string, Json>, checksum: string)
    ensures var spec' := Merge(spec,
                               Obj(map["job" := Obj(job),
                                       "flinkConfiguration" := Obj(map[CHECKSUM_KEY := Str(checksum)])]));
            && Field(spec', "job") == Merge(Field(spec, "job"), Obj(job))
            && Field(Field(spec', "flinkConfiguration"), CHECKSUM_KEY) == Str(checksum)
  {
    var j, f := "job", "flinkConfiguration";
    assert |j| == 3 && |f| == 18;
    FieldOfMerge(spec, map[j := Obj(job), f := Obj(map[CHECKSUM_KEY := Str(checksum)])], j);
    FieldOfMerge(spec, map[j := Obj(job), f := Obj(map[CHECKSUM_KEY := Str(checksum)])], f);
    FieldOfMerge(Field(spec, f), map[CHECKSUM_KEY := Str(checksum)], CHECKSUM_KEY);
  }

  lemma FieldOfMerge(target: Json, fields: map<string, Json>, key: string)
    requires key in fields && !fields[key].Null?
    ensures Field(Merge(target, Obj(fields)), key) == Merge(Field(target, key), fields[key])
  {
  }

  lemma MergeClears(target: Json)
    ensures Fields(Merge(target, Obj(ClearedAnnotations()))) == Fields(target) - REPLAY_ANNOTATIONS
  {
  }

  lemma InactiveWithout(cr: Json)
    requires ANN_ACTIVE !in AnnotationFields(cr)
    ensures !Active(cr)
  {
    assert |"true"| == 4;
  }

  /** Clearing the session annotations keeps all others, and ends the session, whatever else the
      deployment holds. */
  lemma RevertPatchClears(cfg: Config, cr: Json, mode: string, savepoint: string, nonce: int, sql: string)
    ensures var cr' := Merge(cr, RevertPatch(cfg, mode, savepoint, nonce, sql));
            && AnnotationFields(cr') == AnnotationFields(cr) - REPLAY_ANNOTATIONS
            && !Active(cr')
  {
    PatchedFields(cr, ClearedAnnotations(), RevertJob(mode, savepoint, nonce), cfg.md5(sql));
    MergeClears(Field(Field(cr, "metadata"), "annotations"));
    assert ANN_ACTIVE in REPLAY_ANNOTATIONS;
    InactiveWithout(Merge(cr, RevertPatch(cfg, mode, savepoint, nonce, sql)));
  }

  lemma RewriteKeepsSafe(cfg: Config, c: Cluster, original: string, q: Request, newSql: string, table: string,
                         net: ReplayNet)
    requires Safe(cfg, c, original)
    ensures Safe(cfg, AfterRewrite(cfg, c, q, newSql, table, net).0, original)
  {
    var key := BackupKey(cfg);
    var backedUp := if HasBackup(cfg, c) then c else PutKey(c, key, Sql(cfg, c), net.backup);
    assert Safe(cfg, backedUp, original);
    if HasBackup(cfg, c) || net.backup.Delivered? {
      assert key in backedUp.data && backedUp.data[key] == original;
      var c' := AfterRewrite(cfg, c, q, newSql, table, net).0;
      assert key in c'.data && c'.data[key] == original;
    }
  }

  lemma RevertKeepsSafe(cfg: Config, c: Cluster, original: string, net: RevertNet)
    requires Safe(cfg, c, original)
    ensures Safe(cfg, AfterRevert(cfg, c, net).0, original)
  {
    if HasBackup(cfg, c) && net.savepoint.Some? {
      RevertPatchClears(cfg, c.cr, OrLastState(Annotation(c.cr, ANN_PREV_MODE)), net.savepoint.value, net.nonce,
                        c.data[BackupKey(cfg)]);
    }
  }

  lemma AttemptKeepsSafe(cfg: Config, c: Cluster, original: string, a: Attempt)
    requires Safe(cfg, c, original)
    ensures Safe(cfg, AfterAttempt(cfg, c, a).0, original)
  {
    match a
    case TryReplay(q, net) =>
      var rewritten := SqlRewrite.Rewrite(Sql(cfg, c), q.tables, q.sourceTable, q.millis, q.autoOffsetReset);
      if rewritten.Ok? {
        RewriteKeepsSafe(cfg, c, original, q, rewritten.value.0, rewritten.value.1, net);
      }
    case TryRevert(net) => RevertKeepsSafe(cfg, c, original, net);
    case OtherWrite(_) =>
  }

  /** Crash safety: however replay and revert attempts and other writes of the deployment follow one
      another, and wherever each attempt stops, a backup is always the first original SQL, and there
      is one whenever a session is active or the SQL has been altered. */
  lemma {:induction false} CrashSafety(cfg: Config, c: Cluster, attempts: seq<Attempt>)
    requires !HasBackup(cfg, c) && !Active(c.cr)
    ensures Safe(cfg, AfterAttempts(cfg, c, attempts), Sql(cfg, c))
  {
    if attempts != [] {
      var before := attempts[..|attempts| - 1];
      CrashSafety(cfg, c, before);
      AttemptKeepsSafe(cfg, AfterAttempts(cfg, c, before), Sql(cfg, c), attempts[|attempts| - 1]);
    }
  }

  /** So a revert can always bring the original back: from every state that attempts can lead to, a
      revert that reports success leaves the original SQL and no session, and one is possible
      whenever the SQL is altered or a session is active. */
  lemma RevertRestoresOriginal(cfg: Config, c: Cluster, attempts: seq<Attempt>, net: RevertNet)
    requires !HasBackup(cfg, c) && !Active(c.cr)
    ensures var now := AfterAttempts(cfg, c, attempts);
            var (after, ok) := AfterRevert(cfg, now, net);
            && (ok ==> Sql(cfg, after) == Sql(cfg, c) && !Active(after.cr))
            && (Active(now.cr) || Sql(cfg, now) != Sql(cfg, c) ==>
                  (ok <==> (net.readOk && net.healthy && net.savepoint.Some? && net.sql.Delivered?
                            && net.patch.Delivered?)))
  {
    CrashSafety(cfg, c, attempts);
    var now := AfterAttempts(cfg, c, attempts);
    if HasBackup(cfg, now) && net.savepoint.Some? {
      RevertPatchClears(cfg, now.cr, OrLastState(Annotation(now.cr, ANN_PREV_MODE)), net.savepoint.value, net.nonce,
                        now.data[BackupKey(cfg)]);
    }
  }

  // ---------- one session, from any state ----------

  /** The backup that a failed clean-up leaves behind is taken for the original by the next session:
      a successful replay followed by a successful revert restores the SQL it started from exactly
      when no backup was left, or the one left is that very SQL. */
  lemma SessionRestoresExactly(cfg: Config, c: Cluster, q: Request, net: ReplayNet, rnet: RevertNet)
    requires AfterReplay(cfg, c, q, net).1 && AfterRevert(cfg, AfterReplay(cfg, c, q, net).0, rnet).1
    ensures Sql(cfg, AfterRevert(cfg, AfterReplay(cfg, c, q, net).0, rnet).0) == Sql(cfg, c)
            <==> (HasBackup(cfg, c) ==> c.data[BackupKey(cfg)] == Sql(cfg, c))
  {
    var (newSql, table) := SqlRewrite.Rewrite(Sql(cfg, c), q.tables, q.sourceTable, q.millis, q.autoOffsetReset).value;
    SessionBackup(cfg, c, q, newSql, table, net);
    RevertWritesBackup(cfg, AfterReplay(cfg, c, q, net).0, rnet);
  }

  lemma SessionBackup(cfg: Config, c: Cluster, q: Request, newSql: string, table: string, net: ReplayNet)
    requires AfterRewrite(cfg, c, q, newSql, table, net).1
    ensures var c' := AfterRewrite(cfg, c, q, newSql, table, net).0;
            && HasBackup(cfg, c') && Sql(cfg, c') == newSql
            && c'.data[BackupKey(cfg)] == (if HasBackup(cfg, c) then c.data[BackupKey(cfg)] else Sql(cfg, c))
            && c'.cr == Merge(c.cr,
                              ForwardPatch(cfg, newSql, SessionAnnotations(q, table, OrLastState(UpgradeMode(c.cr)))))
  {
  }

  lemma RevertWritesBackup(cfg: Config, c: Cluster, net: RevertNet)
    requires AfterRevert(cfg, c, net).1
    ensures HasBackup(cfg, c) && Sql(cfg, AfterRevert(cfg, c, net).0) == c.data[BackupKey(cfg)] && net.savepoint.Some?
    ensures AfterRevert(cfg, c, net).0.cr
            == Merge(c.cr,
                     RevertPatch(cfg, OrLastState(Annotation(c.cr, ANN_PREV_MODE)), net.savepoint.value, net.nonce,
                                 c.data[BackupKey(cfg)]))
  {
  }

  function Granted(): ReplayNet {
    ReplayNet(true, Delivered, Delivered, Delivered)
  }

  /** Every request of the revert gets through, but for the removal of the backup maybe. */
  function GrantedRevert(savepoint: string, nonce: int, cleanup: Delivery): RevertNet {
    RevertNet(true, true, Some(savepoint), nonce, Delivered, Delivered, cleanup)
  }

  predicate Rewritable(sql: string, q: Request) {
    SqlRewrite.Rewrite(sql, q.tables, q.sourceTable, q.millis, q.autoOffsetReset).Ok?
  }

  /** A replay that starts from a state without a session, and gets through. */
  lemma ReplayGranted(cfg: Config, c: Cluster, q: Request)
    requires !Active(c.cr) && Rewritable(Sql(cfg, c), q)
    ensures var (after, ok) := AfterReplay(cfg, c, q, Granted());
            && ok && HasBackup(cfg, after)
            && after.data[BackupKey(cfg)] == (if HasBackup(cfg, c) then c.data[BackupKey(cfg)] else Sql(cfg, c))
  {
    var (newSql, table) := SqlRewrite.Rewrite(Sql(cfg, c), q.tables, q.sourceTable, q.millis, q.autoOffsetReset).value;
    SessionBackup(cfg, c, q, newSql, table, Granted());
  }

  lemma RevertGranted(cfg: Config, c: Cluster, savepoint: string, nonce: int, cleanup: Delivery)
    requires HasBackup(cfg, c)
    ensures var (after, ok) := AfterRevert(cfg, c, GrantedRevert(savepoint, nonce, cleanup));
            && ok && Sql(cfg, after) == c.data[BackupKey(cfg)] && !Active(after.cr)
            && (cleanup.Lost? ==> HasBackup(cfg, after) && after.data[BackupKey(cfg)] == c.data[BackupKey(cfg)])
  {
    var net := GrantedRevert(savepoint, nonce, cleanup);
    RevertWritesBackup(cfg, c, net);
    RevertPatchClears(cfg, c.cr, OrLastState(Annotation(c.cr, ANN_PREV_MODE)), savepoint, nonce,
                      c.data[BackupKey(cfg)]);
  }

  /** Five events: a replay, a revert whose clean-up is lost, an edit of the SQL by someone else, and
      another replay and revert. */
  function StaleRun(cfg: Config, c: Cluster, q: Request, savepoint: string, nonce: int, edited: string)
    : (Cluster, Cluster, Cluster)
  {
    var c1 := AfterReplay(cfg, c, q, Granted()).0;
    var c2 := AfterRevert(cfg, c1, GrantedRevert(savepoint, nonce, Lost)).0;
    var c3 := PutKey(c2, cfg.file, edited, Delivered);
    var c4 := AfterReplay(cfg, c3, q, Granted()).0;
    (c1, c3, c4)
  }

  lemma EditKeepsBackup(cfg: Config, c: Cluster, edited: string)
    requires HasBackup(cfg, c)
    ensures var after := PutKey(c, cfg.file, edited, Delivered);
            && after.cr == c.cr && Sql(cfg, after) == edited
            && HasBackup(cfg, after) && after.data[BackupKey(cfg)] == c.data[BackupKey(cfg)]
  {
  }

  /** All of them succeed, and yet the last revert does not restore the edited SQL but the one from
      before the first replay. */
  lemma StaleBackupWins(cfg: Config, c: Cluster, q: Request, savepoint: string, nonce: int, edited: string)
    requires !HasBackup(cfg, c) && !Active(c.cr) && Rewritable(Sql(cfg, c), q) && Rewritable(edited, q)
    ensures var (c1, c3, c4) := StaleRun(cfg, c, q, savepoint, nonce, edited);
            var (after, ok) := AfterRevert(cfg, c4, GrantedRevert(savepoint, nonce, Delivered));
            && AfterReplay(cfg, c, q, Granted()).1 && AfterRevert(cfg, c1, GrantedRevert(savepoint, nonce, Lost)).1
            && AfterReplay(cfg, c3, q, Granted()).1 && ok
            && Sql(cfg, c3) == edited && Sql(cfg, after) == Sql(cfg, c)
  {
    var (c1, c3, c4) := StaleRun(cfg, c, q, savepoint, nonce, edited);
    ReplayGranted(cfg, c, q);
    RevertGranted(cfg, c1, savepoint, nonce, Lost);
    EditKeepsBackup(cfg, AfterRevert(cfg, c1, GrantedRevert(savepoint, nonce, Lost)).0, edited);
    ReplayGranted(cfg, c3, q);
    RevertGranted(cfg, c4, savepoint, nonce, Delivered);
  }

  /** In that run, from a deployment without annotations, the last revert succeeds and puts `sql` back
      in the place of `edited`. */
  predicate BringsBackOld(cfg: Config, sql: string, edited: string, q: Request, savepoint: string, nonce: int) {
    var (_, c3, c4) := StaleRun(cfg, Cluster(map[cfg.file := sql], Obj(map[])), q, savepoint, nonce, edited);
    var (after, ok) := AfterRevert(cfg, c4, GrantedRevert(savepoint, nonce, Delivered));
    ok && Sql(cfg, c3) == edited && Sql(cfg, after) == sql
  }

  lemma BringsBack(cfg: Config, c: Cluster, edited: string, q: Request, savepoint: string, nonce: int)
    requires !HasBackup(cfg, c) && !Active(c.cr) && Rewritable(Sql(cfg, c), q) && Rewritable(edited, q)
    ensures var (_, c3, c4) := StaleRun(cfg, c, q, savepoint, nonce, edited);
            var (after, ok) := AfterRevert(cfg, c4, GrantedRevert(savepoint, nonce, Delivered));
            ok && Sql(cfg, c3) == edited && Sql(cfg, after) == Sql(cfg, c)
  {
    StaleBackupWins(cfg, c, q, savepoint, nonce, edited);
  }

  lemma PlainState(cfg: Config, sql: string)
    ensures var c := Cluster(map[cfg.file := sql], Obj(map[]));
            Sql(cfg, c) == sql && !HasBackup(cfg, c) && !Active(c.cr)
  {
    InactiveWithout(Obj(map[]));
  }

  lemma PlainDeployment(cfg: Config, sql: string, edited: string, q: Request, savepoint: string, nonce: int)
    requires Rewritable(sql, q) && Rewritable(edited, q)
    ensures BringsBackOld(cfg, sql, edited, q, savepoint, nonce)
  {
    PlainState(cfg, sql);
    BringsBack(cfg, Cluster(map[cfg.file := sql], Obj(map[])), edited, q, savepoint, nonce);
  }

  /** A concrete case: the topic of the source is changed between the two sessions, and the second
      revert brings the old topic back. */
  lemma StaleBackupRestoresOldTopic(cfg: Config, topic: string, topic': string, millis: int, savepoint: string,
                                    nonce: int)
    requires SqlOptions.WellQuoted(topic) && SqlOptions.WellQuoted(topic') && topic != topic'
    ensures SqlRewrite.SourceSql(topic) != SqlRewrite.SourceSql(topic')
    ensures BringsBackOld(cfg, SqlRewrite.SourceSql(topic), SqlRewrite.SourceSql(topic'),
                          Request("", millis, "", "", "", [SqlRewrite.SOURCE]), savepoint, nonce)
  {
    var q := Request("", millis, "", "", "", [SqlRewrite.SOURCE]);
    SqlRewrite.SourceIsRewritten(topic, millis, "");
    SqlRewrite.SourceIsRewritten(topic', millis, "");
    PlainDeployment(cfg, SqlRewrite.SourceSql(topic), SqlRewrite.SourceSql(topic'), q, savepoint, nonce);
    if SqlRewrite.SourceSql(topic) == SqlRewrite.SourceSql(topic') {
      SqlRewrite.SourcesDiffer(topic, topic');
    }
  }

  /** A path that neither patch names. */
  predicate Elsewhere(path: Path) {
    && path != []
    && (path[0] == "metadata" ==>
        |path| > 1 && (path[1] == "annotations" ==> |path| > 2 && path[2] !in REPLAY_ANNOTATIONS))
    && (path[0] == "spec" ==>
          && |path| > 1
          && (path[1] == "job" ==>
              |path| > 2 && path[2] !in {"state", "upgradeMode", "initialSavepointPath", "savepointRedeployNonce"})
          && (path[1] == "flinkConfiguration" ==> |path| > 2 && path[2] != CHECKSUM_KEY))
  }

  lemma ElsewhereIsUnnamed(annotations: map<string, Json>, job: map<string, Json>, checksum: string, path: Path)
    requires annotations.Keys == REPLAY_ANNOTATIONS
    requires job.Keys <= {"state", "upgradeMode", "initialSavepointPath", "savepointRedeployNonce"}
    requires Elsewhere(path)
    ensures Unnamed(DeploymentPatch(annotations, job, checksum), path)
  {
    var patch := DeploymentPatch(annotations, job, checksum);
    if path[0] in patch.fields {
      var inner, rest := patch.fields[path[0]], path[1..];
      assert Unnamed(inner, rest) by {
        if rest[0] in inner.fields {
          var leaf, last := inner.fields[rest[0]], rest[1..];
          assert last[0] == path[2] && last[0] !in leaf.fields;
          assert Unnamed(leaf, last);
        }
      }
    }
  }

  lemma SessionKeys(q: Request, table: string, prevMode: string)
    ensures SessionAnnotations(q, table, prevMode).Keys == REPLAY_ANNOTATIONS
    ensures AllStrings(SessionAnnotations(q, table, prevMode))
    ensures SessionAnnotations(q, table, prevMode)[ANN_PREV_MODE] == Str(prevMode)
    ensures SessionAnnotations(q, table, prevMode)[ANN_ACTIVE] == Str("true")
  {
    assert |ANN_PREV_MODE| == 35 && |ANN_ACTIVE| == 24;
  }

  lemma MergeAnnotations(old_: Json, annotations: map<string, Json>)
    requires AllStrings(annotations)
    ensures Fields(Merge(old_, Obj(annotations))) == Fields(old_) + annotations
  {
  }

  lemma AnnotationAfter(cr: Json, before: map<string, Json>, annotations: map<string, Json>, key: string)
    requires AllStrings(annotations) && before.Keys !! annotations.Keys && AnnotationFields(cr) == before + annotations
    requires key in annotations
    ensures Annotation(cr, key) == if AllStrings(before) then annotations[key].s else ""
  {
    assert forall k | k in before :: (before + annotations)[k] == before[k];
  }

  lemma ForwardMode(cfg: Config, cr: Json, newSql: string, anns: map<string, Json>)
    ensures UpgradeMode(Merge(cr, ForwardPatch(cfg, newSql, anns))) == "stateless"
  {
    var m := "upgradeMode";
    PatchedFields(cr, anns, map[m := Str("stateless")], cfg.md5(newSql));
    FieldOfMerge(Field(Field(cr, "spec"), "job"), map[m := Str("stateless")], m);
  }

  /** What the deployment shows after the forward patch: the session is seen as active unless some
      annotation is not a string, because then the client reads none of them. */
  lemma SessionStarts(cfg: Config, cr: Json, newSql: string, q: Request, table: string, mode: string)
    requires AnnotationFields(cr).Keys !! REPLAY_ANNOTATIONS
    ensures var anns := SessionAnnotations(q, table, mode);
            var active := Merge(cr, ForwardPatch(cfg, newSql, anns));
            && AnnotationFields(active) == AnnotationFields(cr) + anns
            && (Active(active) <==> AllStrings(AnnotationFields(cr)))
            && Annotation(active, ANN_PREV_MODE) == (if Active(active) then mode else "")
            && UpgradeMode(active) == "stateless"
  {
    var anns := SessionAnnotations(q, table, mode);
    SessionKeys(q, table, mode);
    PatchedFields(cr, anns, map["upgradeMode" := Str("stateless")], cfg.md5(newSql));
    MergeAnnotations(Field(Field(cr, "metadata"), "annotations"), anns);
    var active := Merge(cr, ForwardPatch(cfg, newSql, anns));
    AnnotationAfter(active, AnnotationFields(cr), anns, ANN_ACTIVE);
    AnnotationAfter(active, AnnotationFields(cr), anns, ANN_PREV_MODE);
    assert |"true"| == 4;
    ForwardMode(cfg, cr, newSql, anns);
  }

  lemma RevertedSpec(cfg: Config, cr: Json, mode: string, savepoint: string, nonce: int, sql: string)
    ensures var after := Merge(cr, RevertPatch(cfg, mode, savepoint, nonce, sql));
            && UpgradeMode(after) == mode
            && Field(Field(Field(after, "spec"), "flinkConfiguration"), CHECKSUM_KEY) == Str(cfg.md5(sql))
  {
    var m := "upgradeMode";
    assert |m| == 11;
    PatchedFields(cr, ClearedAnnotations(), RevertJob(mode, savepoint, nonce), cfg.md5(sql));
    FieldOfMerge(Field(Field(cr, "spec"), "job"), RevertJob(mode, savepoint, nonce), m);
  }

  lemma SessionLeavesElsewhere(cfg: Config, cr: Json, newSql: string, q: Request, table: string, mode: string,
                               mode': string, savepoint: string, nonce: int, sql: string, path: Path)
    requires Elsewhere(path)
    ensures var active := Merge(cr, ForwardPatch(cfg, newSql, SessionAnnotations(q, table, mode)));
            Get(Merge(active, RevertPatch(cfg, mode', savepoint, nonce, sql)), path) == Get(cr, path)
  {
    var anns, job := SessionAnnotations(q, table, mode), map["upgradeMode" := Str("stateless")];
    SessionKeys(q, table, mode);
    ElsewhereIsUnnamed(anns, job, cfg.md5(newSql), path);
    ElsewhereIsUnnamed(ClearedAnnotations(), RevertJob(mode', savepoint, nonce), cfg.md5(sql), path);
    MergeFrame(cr, ForwardPatch(cfg, newSql, anns), path);
    MergeFrame(Merge(cr, ForwardPatch(cfg, newSql, anns)), RevertPatch(cfg, mode', savepoint, nonce, sql), path);
  }

  /** A successful replay followed by a successful revert leaves no trace of the session: the
      annotations are those from before, the checksum is that of the restored SQL, and no other path
      has changed; the upgrade mode is the one from before (last-state if there was none), provided
      that the revert saw the session as active. */
  lemma SessionRoundTrip(cfg: Config, c: Cluster, q: Request, net: ReplayNet, rnet: RevertNet)
    requires AnnotationFields(c.cr).Keys !! REPLAY_ANNOTATIONS
    requires AfterReplay(cfg, c, q, net).1 && AfterRevert(cfg, AfterReplay(cfg, c, q, net).0, rnet).1
    ensures Active(AfterReplay(cfg, c, q, net).0.cr) <==> AllStrings(AnnotationFields(c.cr))
    ensures var active := Active(AfterReplay(cfg, c, q, net).0.cr);
            var after := AfterRevert(cfg, AfterReplay(cfg, c, q, net).0, rnet).0;
            && AnnotationFields(after.cr) == AnnotationFields(c.cr)
            && UpgradeMode(after.cr) == (if active then OrLastState(UpgradeMode(c.cr)) else "last-state")
            && Field(Field(Field(after.cr, "spec"), "flinkConfiguration"), CHECKSUM_KEY)
               == Str(cfg.md5(Sql(cfg, after)))
            && forall path :: Elsewhere(path) ==> Get(after.cr, path) == Get(c.cr, path)
  {
    var (newSql, table) := SqlRewrite.Rewrite(Sql(cfg, c), q.tables, q.sourceTable, q.millis, q.autoOffsetReset).value;
    var c1 := AfterReplay(cfg, c, q, net).0;
    SessionBackup(cfg, c, q, newSql, table, net);
    RevertWritesBackup(cfg, c1, rnet);
    SessionOfPatches(cfg, c.cr, newSql, q, table, rnet.savepoint.value, rnet.nonce, c1.data[BackupKey(cfg)]);
  }

  lemma SessionOfPatches(cfg: Config, cr: Json, newSql: string, q: Request, table: string, savepoint: string,
                         nonce: int, sql: string)
    requires AnnotationFields(cr).Keys !! REPLAY_ANNOTATIONS
    ensures var mode := OrLastState(UpgradeMode(cr));
            var active := Merge(cr, ForwardPatch(cfg, newSql, SessionAnnotations(q, table, mode)));
            var after := Merge(active,
                               RevertPatch(cfg, OrLastState(Annotation(active, ANN_PREV_MODE)), savepoint, nonce, sql));
            && (Active(active) <==> AllStrings(AnnotationFields(cr)))
            && AnnotationFields(after) == AnnotationFields(cr)
            && UpgradeMode(after) == (if Active(active) then mode else "last-state")
            && Field(Field(Field(after, "spec"), "flinkConfiguration"), CHECKSUM_KEY) == Str(cfg.md5(sql))
            && forall path :: Elsewhere(path) ==> Get(after, path) == Get(cr, path)
  {
    var mode := OrLastState(UpgradeMode(cr));
    var anns := SessionAnnotations(q, table, mode);
    var active := Merge(cr, ForwardPatch(cfg, newSql, anns));
    SessionStarts(cfg, cr, newSql, q, table, mode);
    SessionKeys(q, table, mode);
    var mode' := OrLastState(Annotation(active, ANN_PREV_MODE));
    assert mode != "";
    assert mode' == if Active(active) then mode else "last-state";
    RevertPatchClears(cfg, active, mode', savepoint, nonce, sql);
    assert AnnotationFields(cr) + anns - REPLAY_ANNOTATIONS == AnnotationFields(cr);
    RevertedSpec(cfg, active, mode', savepoint, nonce, sql);
    forall path | Elsewhere(path)
      ensures Get(Merge(active, RevertPatch(cfg, mode', savepoint, nonce, sql)), path) == Get(cr, path)
    {
      SessionLeavesElsewhere(cfg, cr, newSql, q, table, mode, mode', savepoint, nonce, sql, path);
    }
  }

  // ---------- what is written where ----------

  lemma GetTwo(j: Json, a: string, b: string)
    requires a in Fields(j) && b in Fields(Fields(j)[a])
    ensures Get(j, [a, b]) == Some(Fields(Fields(j)[a])[b])
  {
    var inner := Fields(j)[a];
    assert [a, b][1..] == [b] && [b][1..] == [];
    assert Get(inner, [b]) == Get(Fields(inner)[b], []) == Some(Fields(inner)[b]);
  }

  lemma GetThree(j: Json, a: string, b: string, c: string)
    requires a in Fields(j) && b in Fields(Fields(j)[a]) && c in Fields(Fields(Fields(j)[a])[b])
    ensures Get(j, [a, b, c]) == Some(Fields(Fields(Fields(j)[a])[b])[c])
  {
    assert [a, b, c][1..] == [b, c];
    GetTwo(Fields(j)[a], b, c);
  }

  lemma InDeploymentPatch(annotations: map<string, Json>, job: map<string, Json>, checksum: string, key: string)
    ensures var patch := DeploymentPatch(annotations, job, checksum);
            && (key in annotations ==> Get(patch, ["metadata", "annotations", key]) == Some(annotations[key]))
            && (key in job ==> Get(patch, ["spec", "job", key]) == Some(job[key]))
            && Get(patch, ["spec", "flinkConfiguration", CHECKSUM_KEY]) == Some(Str(checksum))
  {
    var patch := DeploymentPatch(annotations, job, checksum);
    var metadata, spec, anns, jobs, conf := "metadata", "spec", "annotations", "job", "flinkConfiguration";
    assert |metadata| == 8 && |spec| == 4 && |jobs| == 3 && |conf| == 18;
    if key in annotations {
      GetThree(patch, metadata, anns, key);
    }
    if key in job {
      GetThree(patch, spec, jobs, key);
    }
    GetThree(patch, spec, conf, CHECKSUM_KEY);
  }

  /** A deployment after a patch, read back: what the patch says of a job field or of an annotation is
      there, and what it sets to null is gone. */
  lemma AfterPatch(cr: Json, annotations: map<string, Json>, job: map<string, Json>, checksum: string, key: string)
    ensures var cr' := Merge(cr, DeploymentPatch(annotations, job, checksum));
            && (key in job && (job[key].Str? || job[key].Num?) ==>
                  Get(cr', ["spec", "job", key]) == Some(job[key]))
            && (key in annotations && annotations[key].Str? ==>
                  Get(cr', ["metadata", "annotations", key]) == Some(annotations[key]))
            && (key in annotations && annotations[key].Null? ==> Get(cr', ["metadata", "annotations", key]) == None)
            && Get(cr', ["spec", "flinkConfiguration", CHECKSUM_KEY]) == Some(Str(checksum))
  {
    var patch := DeploymentPatch(annotations, job, checksum);
    InDeploymentPatch(annotations, job, checksum, key);
    if key in job && !job[key].Obj? {
      MergeSets(cr, patch, ["spec", "job", key]);
    }
    if key in annotations && !annotations[key].Obj? {
      MergeSets(cr, patch, ["metadata", "annotations", key]);
    }
    MergeSets(cr, patch, ["spec", "flinkConfiguration", CHECKSUM_KEY]);
  }

  lemma RevertFields(mode: string, savepoint: string, nonce: int)
    ensures var job := RevertJob(mode, savepoint, nonce);
            && "state" in job && job["state"] == Str("running")
            && "upgradeMode" in job && job["upgradeMode"] == Str(mode)
            && "initialSavepointPath" in job && job["initialSavepointPath"] == Str(savepoint)
            && "savepointRedeployNonce" in job && job["savepointRedeployNonce"] == Num(nonce)
  {
    var a, b, c, d := "state", "upgradeMode", "initialSavepointPath", "savepointRedeployNonce";
    assert |a| == 5 && |b| == 11 && |c| == 20 && |d| == 22;
  }

  /** After a revert that reports success the job is to run again, from the savepoint just taken, in the
      mode that was recorded (last-state if none was), under a new nonce, with the checksum of the SQL
      that is there now. */
  lemma RevertedJob(cfg: Config, c: Cluster, net: RevertNet)
    requires AfterRevert(cfg, c, net).1
    ensures var (after, _) := AfterRevert(cfg, c, net);
            var mode := Annotation(c.cr, "flinkui.io/replay-prev-upgrade-mode");
            && net.savepoint.Some?
            && Get(after.cr, ["spec", "job", "state"]) == Some(Str("running"))
            && Get(after.cr, ["spec", "job", "upgradeMode"]) == Some(Str(if mode == "" then "last-state" else mode))
            && Get(after.cr, ["spec", "job", "initialSavepointPath"]) == Some(Str(net.savepoint.value))
            && Get(after.cr, ["spec", "job", "savepointRedeployNonce"]) == Some(Num(net.nonce))
            && Get(after.cr, ["spec", "flinkConfiguration", "flinkui.sql-checksum"])
               == Some(Str(cfg.md5(Sql(cfg, after))))
  {
    RevertWritesBackup(cfg, c, net);
    JobAfterRevert(cfg, c.cr, OrLastState(Annotation(c.cr, ANN_PREV_MODE)), net.savepoint.value, net.nonce,
                   c.data[BackupKey(cfg)]);
  }

  lemma JobAfterRevert(cfg: Config, cr: Json, mode: string, savepoint: string, nonce: int, sql: string)
    ensures var cr' := Merge(cr, RevertPatch(cfg, mode, savepoint, nonce, sql));
            && Get(cr', ["spec", "job", "state"]) == Some(Str("running"))
            && Get(cr', ["spec", "job", "upgradeMode"]) == Some(Str(mode))
            && Get(cr', ["spec", "job", "initialSavepointPath"]) == Some(Str(savepoint))
            && Get(cr', ["spec", "job", "savepointRedeployNonce"]) == Some(Num(nonce))
            && Get(cr', ["spec", "flinkConfiguration", CHECKSUM_KEY]) == Some(Str(cfg.md5(sql)))
  {
    var job := RevertJob(mode, savepoint, nonce);
    RevertFields(mode, savepoint, nonce);
    AfterPatch(cr, ClearedAnnotations(), job, cfg.md5(sql), "state");
    AfterPatch(cr, ClearedAnnotations(), job, cfg.md5(sql), "upgradeMode");
    AfterPatch(cr, ClearedAnnotations(), job, cfg.md5(sql), "initialSavepointPath");
    AfterPatch(cr, ClearedAnnotations(), job, cfg.md5(sql), "savepointRedeployNonce");
  }

  lemma SessionFields(q: Request, table: string, prevMode: string)
    ensures var anns := SessionAnnotations(q, table, prevMode);
            && "flinkui.io/replay-active" in anns && anns["flinkui.io/replay-active"] == Str("true")
            && "flinkui.io/replay-from-millis" in anns
            && anns["flinkui.io/replay-from-millis"] == Str(SqlRewrite.FormatInt(q.millis))
            && "flinkui.io/replay-started-at" in anns && anns["flinkui.io/replay-started-at"] == Str(q.startedAt)
            && "flinkui.io/replay-started-by" in anns && anns["flinkui.io/replay-started-by"] == Str(q.startedBy)
            && "flinkui.io/replay-source-table" in anns && anns["flinkui.io/replay-source-table"] == Str(table)
            && "flinkui.io/replay-prev-upgrade-mode" in anns
            && anns["flinkui.io/replay-prev-upgrade-mode"] == Str(prevMode)
  {
    KeysDiffer(ANN_ACTIVE, ANN_FROM, ANN_STARTED_AT, ANN_STARTED_BY, ANN_PREV_MODE, ANN_TABLE);
  }

  lemma KeysDiffer(active: string, from: string, at: string, who: string, mode: string, table: string)
    requires active == ANN_ACTIVE && from == ANN_FROM && at == ANN_STARTED_AT && who == ANN_STARTED_BY
             && mode == ANN_PREV_MODE && table == ANN_TABLE
    ensures NoDuplicates([active, from, at, who, mode, table])
  {
    assert |active| == 24 && |from| == 29 && |at| == 28 && |who| == 28 && |mode| == 35 && |table| == 30;
    assert at[26] == 'a' && who[26] == 'b';
  }

  /** After a replay that reports success the deployment tells what is going on: the time and the table
      that were asked for, who started it and when, and the mode it had; it is to be upgraded without
      state, with the checksum of the SQL that is there now. */
  lemma ReplayedDeployment(cfg: Config, c: Cluster, q: Request, net: ReplayNet)
    requires AfterReplay(cfg, c, q, net).1
    ensures var (after, _) := AfterReplay(cfg, c, q, net);
            var r := SqlRewrite.Rewrite(Sql(cfg, c), q.tables, q.sourceTable, q.millis, q.autoOffsetReset);
            var mode := UpgradeMode(c.cr);
            && r.Ok? && Sql(cfg, after) == r.value.0
            && Get(after.cr, ["metadata", "annotations", "flinkui.io/replay-active"]) == Some(Str("true"))
            && Get(after.cr, ["metadata", "annotations", "flinkui.io/replay-from-millis"])
               == Some(Str(SqlRewrite.FormatInt(q.millis)))
            && Get(after.cr, ["metadata", "annotations", "flinkui.io/replay-started-at"]) == Some(Str(q.startedAt))
            && Get(after.cr, ["metadata", "annotations", "flinkui.io/replay-started-by"]) == Some(Str(q.startedBy))
            && Get(after.cr, ["metadata", "annotations", "flinkui.io/replay-source-table"]) == Some(Str(r.value.1))
            && Get(after.cr, ["metadata", "annotations", "flinkui.io/replay-prev-upgrade-mode"])
               == Some(Str(if mode == "" then "last-state" else mode))
            && Get(after.cr, ["spec", "job", "upgradeMode"]) == Some(Str("stateless"))
            && Get(after.cr, ["spec", "flinkConfiguration", "flinkui.sql-checksum"])
               == Some(Str(cfg.md5(Sql(cfg, after))))
  {
    var (newSql, table) := SqlRewrite.Rewrite(Sql(cfg, c), q.tables, q.sourceTable, q.millis, q.autoOffsetReset).value;
    SessionBackup(cfg, c, q, newSql, table, net);
    DeploymentAfterForward(cfg, c.cr, newSql, q, table, OrLastState(UpgradeMode(c.cr)));
  }

  lemma DeploymentAfterForward(cfg: Config, cr: Json, sql: string, q: Request, table: string, mode: string)
    ensures var cr' := Merge(cr, ForwardPatch(cfg, sql, SessionAnnotations(q, table, mode)));
            && Get(cr', ["metadata", "annotations", "flinkui.io/replay-active"]) == Some(Str("true"))
            && Get(cr', ["metadata", "annotations", "flinkui.io/replay-from-millis"])
               == Some(Str(SqlRewrite.FormatInt(q.millis)))
            && Get(cr', ["metadata", "annotations", "flinkui.io/replay-started-at"]) == Some(Str(q.startedAt))
            && Get(cr', ["metadata", "annotations", "flinkui.io/replay-started-by"]) == Some(Str(q.startedBy))
            && Get(cr', ["metadata", "annotations", "flinkui.io/replay-source-table"]) == Some(Str(table))
            && Get(cr', ["metadata", "annotations", "flinkui.io/replay-prev-upgrade-mode"]) == Some(Str(mode))
            && Get(cr', ["spec", "job", "upgradeMode"]) == Some(Str("stateless"))
            && Get(cr', ["spec", "flinkConfiguration", CHECKSUM_KEY]) == Some(Str(cfg.md5(sql)))
  {
    var anns, job := SessionAnnotations(q, table, mode), map["upgradeMode" := Str("stateless")];
    SessionFields(q, table, mode);
    AfterPatch(cr, anns, job, cfg.md5(sql), "flinkui.io/replay-active");
    AfterPatch(cr, anns, job, cfg.md5(sql), "flinkui.io/replay-from-millis");
    AfterPatch(cr, anns, job, cfg.md5(sql), "flinkui.io/replay-started-at");
    AfterPatch(cr, anns, job, cfg.md5(sql), "flinkui.io/replay-started-by");
    AfterPatch(cr, anns, job, cfg.md5(sql), "flinkui.io/replay-source-table");
    AfterPatch(cr, anns, job, cfg.md5(sql), "flinkui.io/replay-prev-upgrade-mode");
    AfterPatch(cr, anns, job, cfg.md5(sql), "upgradeMode");
  }

  // ---------- what is not done ----------

  /** A second replay is refused, and so is any attempt whose preflight fails: nothing is changed. */
  lemma RefusalsChangeNothing(cfg: Config, c: Cluster, q: Request, net: ReplayNet, rnet: RevertNet)
    ensures !net.readOk || Annotation(c.cr, "flinkui.io/replay-active") == "true" || !Rewritable(Sql(cfg, c), q) ==>
              AfterReplay(cfg, c, q, net) == (c, false)
    ensures !rnet.readOk || !rnet.healthy || !HasBackup(cfg, c) || rnet.savepoint.None? ==>
              AfterRevert(cfg, c, rnet) == (c, false)
  {
  }

  /** The ConfigMap holds the same under `key`. */
  predicate SameKey(c: Cluster, c': Cluster, key: string) {
    (key in c'.data <==> key in c.data) && (key in c.data ==> c'.data[key] == c.data[key])
  }

  lemma RewriteInOrder(cfg: Config, c: Cluster, q: Request, newSql: string, table: string, net: ReplayNet)
    ensures var after := AfterRewrite(cfg, c, q, newSql, table, net).0;
            && (after.cr == c.cr
                || after.cr == Merge(c.cr, ForwardPatch(cfg, newSql,
                                                        SessionAnnotations(q, table, OrLastState(UpgradeMode(c.cr))))))
            && (after.cr != c.cr ==> Sql(cfg, after) == newSql)
            && (after.cr != c.cr || Sql(cfg, after) != Sql(cfg, c) ==> HasBackup(cfg, after))
            && (HasBackup(cfg, c) ==> HasBackup(cfg, after))
            && (forall key :: key != cfg.file && key != BackupKey(cfg) ==> SameKey(c, after, key))
  {
    var kept := if HasBackup(cfg, c) then c else PutKey(c, BackupKey(cfg), Sql(cfg, c), net.backup);
    assert kept.cr == c.cr && Sql(cfg, kept) == Sql(cfg, c);
    if HasBackup(cfg, c) || net.backup.Delivered? {
      assert HasBackup(cfg, kept);
    }
  }

  /** The order of the writes of a replay, seen from their effects: when the SQL has changed there is a
      backup, and when the deployment has changed the SQL is already the one that its checksum is for.
      No other key of the ConfigMap is touched. */
  lemma ReplayWritesInOrder(cfg: Config, c: Cluster, q: Request, net: ReplayNet)
    ensures var after := AfterReplay(cfg, c, q, net).0;
            var r := SqlRewrite.Rewrite(Sql(cfg, c), q.tables, q.sourceTable, q.millis, q.autoOffsetReset);
            && (after.cr != c.cr ==> r.Ok? && Sql(cfg, after) == r.value.0)
            && (after.cr != c.cr || Sql(cfg, after) != Sql(cfg, c) ==>
                  cfg.file + ".flinkui-prereplay-backup" in after.data)
            && (HasBackup(cfg, c) ==> HasBackup(cfg, after))
            && (forall key :: key != cfg.file && key != BackupKey(cfg) ==> SameKey(c, after, key))
  {
    var r := SqlRewrite.Rewrite(Sql(cfg, c), q.tables, q.sourceTable, q.millis, q.autoOffsetReset);
    if r.Ok? {
      RewriteInOrder(cfg, c, q, r.value.0, r.value.1, net);
    }
  }

  /** Those of a revert: the deployment changes only when the SQL is restored, and the backup goes at
      the end of a successful revert, unless its removal is lost, and not before. */
  lemma RevertWritesInOrder(cfg: Config, c: Cluster, net: RevertNet)
    ensures var (after, ok) := AfterRevert(cfg, c, net);
            && (after.cr != c.cr ==> HasBackup(cfg, c) && Sql(cfg, after) == c.data[BackupKey(cfg)])
            && (HasBackup(cfg, after) <==> HasBackup(cfg, c) && !(ok && !net.cleanup.Lost?))
            && (forall key :: key != cfg.file && key != BackupKey(cfg) ==> SameKey(c, after, key))
  {
    if HasBackup(cfg, c) {
      var restored := PutKey(c, cfg.file, c.data[BackupKey(cfg)], net.sql);
      assert HasBackup(cfg, restored) && restored.cr == c.cr;
    }
  }

  // ---------- the mode that a session remembers ----------

  /** The session annotations read the same in both. */
  predicate SameSession(cr: Json, cr': Json) {
    forall key | key in REPLAY_ANNOTATIONS :: Annotation(cr', key) == Annotation(cr, key)
  }

  /** Nobody but replay and revert changes the session annotations. */
  ghost predicate OthersKeepSession(cfg: Config, c: Cluster, attempts: seq<Attempt>) {
    forall n | 0 <= n < |attempts| && attempts[n].OtherWrite? ::
      SameSession(AfterAttempts(cfg, c, attempts[..n]).cr, attempts[n].cr)
  }

  /** The session that is active after the attempts began with attempt `n`: there was none before it,
      and one after it and ever since. */
  ghost predicate BeganWith(cfg: Config, c: Cluster, attempts: seq<Attempt>, n: nat) {
    && n < |attempts|
    && !Active(AfterAttempts(cfg, c, attempts[..n]).cr)
    && forall k | n < k <= |attempts| :: Active(AfterAttempts(cfg, c, attempts[..k]).cr)
  }

  /** A replay that makes the session active records the mode of the deployment. */
  lemma ReplayRecordsMode(cfg: Config, c: Cluster, q: Request, net: ReplayNet)
    requires !Active(c.cr) && Active(AfterReplay(cfg, c, q, net).0.cr)
    ensures Annotation(AfterReplay(cfg, c, q, net).0.cr, ANN_PREV_MODE) == OrLastState(UpgradeMode(c.cr))
  {
    var (newSql, table) := SqlRewrite.Rewrite(Sql(cfg, c), q.tables, q.sourceTable, q.millis, q.autoOffsetReset).value;
    RewriteInOrder(cfg, c, q, newSql, table, net);
    ForwardRecordsMode(cfg, c.cr, newSql, q, table, OrLastState(UpgradeMode(c.cr)));
  }

  lemma ForwardRecordsMode(cfg: Config, cr: Json, newSql: string, q: Request, table: string, mode: string)
    ensures var cr' := Merge(cr, ForwardPatch(cfg, newSql, SessionAnnotations(q, table, mode)));
            Active(cr') ==> Annotation(cr', ANN_PREV_MODE) == mode
  {
    var anns := SessionAnnotations(q, table, mode);
    var cr' := Merge(cr, ForwardPatch(cfg, newSql, anns));
    SessionKeys(q, table, mode);
    PatchedFields(cr, anns, map["upgradeMode" := Str("stateless")], cfg.md5(newSql));
    MergeAnnotations(Field(Field(cr, "metadata"), "annotations"), anns);
    if Active(cr') {
      ReadsOf(cr', AnnotationFields(cr), anns, mode);
    }
  }

  lemma ReadsOf(cr: Json, before: map<string, Json>, anns: map<string, Json>, mode: string)
    requires AnnotationFields(cr) == before + anns && Active(cr)
    requires ANN_PREV_MODE in anns && anns[ANN_PREV_MODE] == Str(mode)
    ensures Annotation(cr, ANN_PREV_MODE) == mode
  {
    assert |"true"| == 4;
  }

  lemma AttemptKeepsMode(cfg: Config, c: Cluster, a: Attempt)
    requires a.OtherWrite? ==> SameSession(c.cr, a.cr)
    requires Active(AfterAttempt(cfg, c, a).0.cr)
    ensures if Active(c.cr) then
              Annotation(AfterAttempt(cfg, c, a).0.cr, ANN_PREV_MODE) == Annotation(c.cr, ANN_PREV_MODE)
            else
              Annotation(AfterAttempt(cfg, c, a).0.cr, ANN_PREV_MODE) == OrLastState(UpgradeMode(c.cr))
  {
    match a
    case TryReplay(q, net) =>
      if !Active(c.cr) {
        ReplayRecordsMode(cfg, c, q, net);
      }
    case TryRevert(net) => RevertKeepsMode(cfg, c, net);
    case OtherWrite(cr) =>
      assert ANN_PREV_MODE in REPLAY_ANNOTATIONS && ANN_ACTIVE in REPLAY_ANNOTATIONS;
  }

  /** A revert leaves the deployment alone or ends the session. */
  lemma RevertKeepsMode(cfg: Config, c: Cluster, net: RevertNet)
    requires Active(AfterRevert(cfg, c, net).0.cr)
    ensures AfterRevert(cfg, c, net).0.cr == c.cr
  {
    if HasBackup(cfg, c) && net.savepoint.Some? {
      RevertPatchClears(cfg, c.cr, OrLastState(Annotation(c.cr, ANN_PREV_MODE)), net.savepoint.value, net.nonce,
                        c.data[BackupKey(cfg)]);
    }
  }

  lemma PrefixKeepsSession(cfg: Config, c: Cluster, attempts: seq<Attempt>, m: nat)
    requires OthersKeepSession(cfg, c, attempts) && m <= |attempts|
    ensures OthersKeepSession(cfg, c, attempts[..m])
  {
    forall n | 0 <= n < m && attempts[..m][n].OtherWrite?
      ensures SameSession(AfterAttempts(cfg, c, attempts[..m][..n]).cr, attempts[..m][n].cr)
    {
      assert attempts[..m][..n] == attempts[..n];
    }
  }

  lemma StillActive(cfg: Config, c: Cluster, attempts: seq<Attempt>, m: nat, n: nat)
    requires |attempts| == m + 1 && BeganWith(cfg, c, attempts[..m], n) && Active(AfterAttempts(cfg, c, attempts).cr)
    ensures BeganWith(cfg, c, attempts, n) && attempts[..m][..n] == attempts[..n]
  {
    assert attempts[..m][..n] == attempts[..n];
    forall k | n < k <= |attempts|
      ensures Active(AfterAttempts(cfg, c, attempts[..k]).cr)
    {
      if k <= m {
        assert attempts[..m][..k] == attempts[..k];
      } else {
        assert attempts[..k] == attempts;
      }
    }
  }

  lemma JustBegan(cfg: Config, c: Cluster, attempts: seq<Attempt>, m: nat)
    requires |attempts| == m + 1 && !Active(AfterAttempts(cfg, c, attempts[..m]).cr)
    requires Active(AfterAttempts(cfg, c, attempts).cr)
    ensures BeganWith(cfg, c, attempts, m)
  {
    forall k | m < k <= |attempts|
      ensures Active(AfterAttempts(cfg, c, attempts[..k]).cr)
    {
      assert k == |attempts|;
      assert attempts[..k] == attempts;
    }
  }

  /** Whatever attempts and other writes there have been: while a session is active, the recorded mode
      is the one that the deployment had when this session began. */
  lemma {:induction false} SessionRemembersMode(cfg: Config, c: Cluster, attempts: seq<Attempt>) returns (n: nat)
    requires !Active(c.cr) && OthersKeepSession(cfg, c, attempts)
    requires Active(AfterAttempts(cfg, c, attempts).cr)
    ensures BeganWith(cfg, c, attempts, n)
    ensures Annotation(AfterAttempts(cfg, c, attempts).cr, ANN_PREV_MODE)
            == OrLastState(UpgradeMode(AfterAttempts(cfg, c, attempts[..n]).cr))
  {
    var m := |attempts| - 1;
    var before := AfterAttempts(cfg, c, attempts[..m]);
    AttemptKeepsMode(cfg, before, attempts[m]);
    if Active(before.cr) {
      PrefixKeepsSession(cfg, c, attempts, m);
      n := SessionRemembersMode(cfg, c, attempts[..m]);
      StillActive(cfg, c, attempts, m, n);
    } else {
      n := m;
      JustBegan(cfg, c, attempts, m);
    }
  }

  /** So a revert of an active session that reports success brings back the mode from before it,
      last-state if there was none. */
  lemma RevertBringsModeBack(cfg: Config, c: Cluster, attempts: seq<Attempt>, net: RevertNet) returns (n: nat)
    requires !Active(c.cr) && OthersKeepSession(cfg, c, attempts)
    requires var now := AfterAttempts(cfg, c, attempts); Active(now.cr) && AfterRevert(cfg, now, net).1
    ensures BeganWith(cfg, c, attempts, n)
    ensures var mode := UpgradeMode(AfterAttempts(cfg, c, attempts[..n]).cr);
            UpgradeMode(AfterRevert(cfg, AfterAttempts(cfg, c, attempts), net).0.cr)
            == if mode == "" then "last-state" else mode
  {
    n := SessionRemembersMode(cfg, c, attempts);
    var now := AfterAttempts(cfg, c, attempts);
    RevertWritesBackup(cfg, now, net);
    RevertedSpec(cfg, now.cr, OrLastState(Annotation(now.cr, ANN_PREV_MODE)), net.savepoint.value, net.nonce,
                 now.data[BackupKey(cfg)]);
    assert |"last-state"| == 10;
  }
}
