# Verified model of the Flink console's hard core

This project models five parts of a console that operates Flink jobs on Kubernetes, and proves what
each of them is for. Verify with `dafny verify dfyconfig.toml`.

**Failover** (`Coord`, `Failover`, `SwitchTasks`, `FailoverSafety`, `FailoverLimits`, `FailoverStall`,
`FailoverHistory`).
Consoles of several clusters share two S3 objects: a fencing token that is overwritten and a handoff
record that is replaced by compare-and-swap on its ETag. Release and Promote are sequences of requests
that interleave with those of other consoles, fail, or stop half-way. `SwitchTasks` has the two
operations as programs over a store that is changed in place, and shows that they take the steps of
the transition system in `Failover`; the other modules are about all its runs. Mutual exclusion needs
five rules that the code itself does not enforce: no forced Promote, one task per side at a time,
Release only by a side whose job runs, no other lifecycle operation meanwhile, and a wait that ended
because no pod was left. It is proved under them, and for each of them there is a run that breaks it
without. The backend is taken to honour If-Match and If-None-Match (sections 13.1.1 and 13.1.2 of
RFC 9110) and to give every write a fresh ETag.

**Line diff** (`LineDiff`). The table, the walk and the pairing of the replay dialog, with a proof that
the result is optimal and that this is why no replacement pairs a line with itself.

**SQL rewriting** (`SqlScanner`, `SqlOptions`, `SqlPrinter`, `SqlRewrite`). A scanner that skips literals
and comments, an option matcher and a printer. A reference tokenizer says what code is; the scan loops
agree with it exactly on texts without adjacent tokens, and printed blocks are such texts.

**Replay and revert** (`MergePatch`, `Replay`, `ReplayInterlock`). Back up, edit, restore
over two Kubernetes objects, with JSON Merge Patch (section 2 of RFC 7386), under attempts that may stop
after any request; and what a sync cycle does to a job that is being replayed.

**Secret sync and small stores** (`SecretHash`, `SyncTargets`, `SecretMerge`, `SecretUnion`, `SecretSync`,
`SecretSyncRuns`, `Nonce`, `Retention`, `TaskStore`, `OperationStore`). The cycle that restarts a
deployment when its merged secrets change, the compare-and-swap nonce counters, and the two bounded
registries of background work.

Where the source changes things in place the model does too: classes for the store, the console, the
two replay objects, the listing cache, the syncer, the nonce counter and the two registries with their
entries. Every such method is tied to a function of the old state, and the theorems are about those
functions; what a function computes is also said without it, in terms of positions, fields and literals. A request has three fates: it is carried out and answered, it is never carried out, or it is
carried out and the answer is lost.

## What turned out to be false

- The failover design says that a Promote that stops between its compare-and-swap and its token write
  can be repaired by running Promote again. The code refuses a Promote unless the record is released,
  so no number of plain Promotes gets the group out of it. What does is a forced Promote, or a Release of
  a side that does not run, which only the user interface withholds, or a resume from outside that the
  token lets through; nothing else in the model does (`FailoverStall.StallEndsExactly`). The same happens when the
  answer to the claim is lost or the token write fails (`FailoverStall.PromoteStallsExactly`). Nothing
  runs meanwhile, as the design says.
- The scanner is called quote- and comment-aware. After skipping one literal or comment it takes the
  next character for code, so it is right exactly on texts without adjacent tokens
  (`SqlScanner.ScannerSeesCodeExactly`, `SqlScanner.AdjacentCommentMisleads`). Comment stripping is right
  on every text.
- If a key occurs twice in a WITH block, the last pair is updated and the first one is read
  (`SqlOptions.UpsertReadsBack`, `SqlRewrite.DuplicateDefeatsRewrite`).
- The removal of the SQL backup may fail unnoticed, and the next session takes a backup that was left for
  the original. As long as only replay and revert touch the SQL, a backup that was left is the original
  (`Replay.CrashSafety`). In general replay and revert restore the SQL they started from exactly when no
  backup was left or the one left is that SQL (`Replay.SessionRestoresExactly`); after an edit in between
  it is not, and the edit is lost (`Replay.StaleBackupRestoresOldTopic`).
- The sync cycle is not to restart a job in a replay. It looks for the mark that the replay writes last, and
  takes no lock: it restarts the job onto the edited SQL exactly when it has read the deployment unmarked and
  the SQL is edited when its patch arrives (`ReplayInterlock.RestartsEditedExactly`). If that is before the
  mark, or the mark never arrives, the job keeps its old upgrade mode, which the forward patch is made to
  avoid (`ReplayInterlock.RestartsWithStateExactly`, `ReplayInterlock.LostMarkRestartsSource`).
- The nonce counters are said to keep increasing across process restarts. They do exactly if the clock has
  reached the last nonce by then (`Nonce.RestartIncreasesExactly`); a counter of seconds can be ahead of it
  (`Nonce.RestartRepeats`).
- An item whose targets cannot be resolved does not mark them as failed, so a deployment that another
  item lists by name is restarted for a partial union (`SecretSyncRuns.CompleteExactlyWhenListed`,
  `SecretSyncRuns.FailedListingRestartsTwice`).
- The comments on restart specifications call `references` the default mode; the code resolves an empty
  mode to `none`, and the model follows the code.
- The start of a Promote is said to force a redeploy by a nonce. Path and nonce are sent together, and only if
  there is a path (`SwitchTasks.Console.DoPromote`).
- Epochs and nonces are int64 and wrap around; the theorems about their order say exactly when.

## Model

| member | source | states |
|---|---|---|
| Coord.WrapInt64 | internal/failover/switch.go:307-310 | Epochs are int64: a value in range is kept, and one above the largest becomes the smallest. |
| Coord.Backend.PutObjectCond | internal/store/coord.go:119-137 | A write takes effect exactly if it reaches the store, the current ETag is the demanded one and, for create-only, nothing is stored; a failed condition is a conflict, a lost reply an error. |
| Coord.Backend.WriteHandoffCAS | internal/store/coord.go:205-224 | The empty ETag creates, any other ETag replaces what it names; either way the record changes exactly when the ETag is still current. |
| Coord.Backend.WriteToken | internal/store/coord.go:163-168 | The token is overwritten whatever it was; an error does not say that it was not. |
| Coord.Backend.ReadHandoffWithETag | internal/store/coord.go:179-192 | A read gives the record with its ETag, the empty ETag if there is none, and nothing at all on an error. |
| Failover.PickRecoveryPoint | internal/failover/switch.go:353-373 | The record's savepoint; else the first checkpoint in the listing; only if it holds none, the first savepoint in it; nothing if it holds neither or there is no listing. |
| Failover.ChoiceIsNewestCheckpoint | internal/store/s3.go:110 | With the newest-first listing, that is the newest checkpoint; a savepoint only if there is no checkpoint; none only if there is neither. |
| SwitchTasks.Console.TryWriteReleased | internal/failover/switch.go:222-242 | One try of the release write, with other consoles writing the record or the token before its read and before its compare-and-swap, takes the steps of the transition system; on success the record says that this side has released with its recovery point. |
| SwitchTasks.Console.WriteReleasedHandoff | internal/failover/switch.go:220-244 | It succeeds exactly if one of the first three tries is undisturbed and those before it were only overtaken by another write of the record; success means that the released record with this recovery point is in the store. |
| SwitchTasks.Console.DoRelease | internal/failover/switch.go:156-215 | The program is a run of the transition system's Release steps, whatever other consoles write in between. It succeeds exactly if the job is asked to stop, the token write and the record write get through; then the record says released with the savepoint taken, or with none if none was taken. |
| SwitchTasks.Console.DoPromote | internal/failover/switch.go:267-339 | The program is a run of the Promote steps, with other consoles writing before the claim, the token write and the start. It succeeds exactly if it is forced or read a released record, read what was there, nobody replaced that before its claim, and its three writes get through; then its claim replaced the record it began with, its token and its start took effect, what others wrote afterwards is still there, and the job is to run from the chosen path under a new nonce (without a path, from the old one under the old nonce). |
| SwitchTasks.UndisturbedIsFenced | internal/failover/switch.go:304-339 | So after a success record and token name this side, unless others wrote the record after its claim or anything after its token write. |
| SwitchTasks.Console.ClaimAndStart | internal/failover/switch.go:304-339 | The record is claimed before the token is taken and the token before the job is started; a lost claim stops before either; the claim succeeds only if the ETag that was read is still current. |
| FailoverSafety.StepKeepsInv | internal/failover/switch.go:156-350 | Every step of every task, failed requests and crashes included, keeps the invariant. |
| FailoverSafety.MutualExclusion | internal/failover/switch.go:156-350 | In every state of every run that keeps the five rules, no two sides' jobs run together, for any number of sides. |
| FailoverSafety.FencingFailsClosed | internal/failover/switch.go:198-212 | Whenever the token names a cluster, the stored record is stable and names the same cluster. |
| FailoverStall.PromoteStallsExactly | internal/failover/switch.go:304-339 | However a Promote ends, it leaves the group stalled (record stable, nobody running or asked to run, no claim pending) if and only if it was stalled before, or the Promote stopped after its claim was accepted and before a start request took effect: lost answer to the claim, failed or unanswered token write, failed start request, or a crash in between; the token names the promoter exactly if its token write took effect. |
| FailoverStall.AbandonedClaimStalls | docs/failover-decentralized-design.md:124-133 | A crash between the compare-and-swap and the token write leaves the group stalled with a token that does not name the promoter. |
| FailoverStall.StallIsReachable | internal/failover/switch.go:156-329 | A disciplined run leads from one running owner to a stalled group without tasks. |
| FailoverStall.StalledForever | internal/failover/switch.go:282-296 | Under the five rules a stalled group keeps record and token for ever and never starts a job: every Promote is refused because the record is stable. |
| FailoverStall.StallEndsBySwitch | internal/api/failover_handlers.go:55-70 | With a forced Promote, or with a Release of a side that does not run (which the API accepts) and then a plain Promote, any side takes over from a stalled group and record and token name it. |
| FailoverStall.StallEndsExactly | internal/failover/switch.go:140-339 | A stalled group can come to run again if and only if a forced Promote is allowed, or a Release of a side that does not run, or a resume from outside that the pods' check of the token lets through. |
| FailoverLimits.FullRelease | internal/failover/switch.go:140-215 | A Release whose requests succeed ends with the job down, the neutral token, and a stored record that keeps owner and epoch, says released, and carries the savepoint taken, or none if none was. |
| FailoverLimits.FullPromote | internal/failover/switch.go:248-350 | A Promote whose requests succeed ends with the job up, the token naming the promoter, and a stable record that names it with the next epoch and its recovery point. |
| FailoverLimits.PlannedSwitch | docs/failover-decentralized-design.md:95-104 | From every initial state a Release and then a Promote move the job to the other side with the next epoch: from the savepoint of the Release, or, if it took none, from the newest checkpoint that is listed. |
| FailoverLimits.ForcedPromoteBreaks | docs/failover-decentralized-design.md:111-115 | With forced Promotes a run reaches two running jobs. |
| FailoverLimits.WaitTimeoutBreaks | internal/failover/switch.go:389-409 | With a wait that ends by timeout a run reaches two running jobs. |
| FailoverLimits.IdleReleaseBreaks | internal/failover/switch.go:140-154 | With a Release by a side that does not run, a run reaches two running jobs. |
| FailoverLimits.OverlappingTasksBreak | internal/failover/switch.go:140-154 | With two tasks of one side at a time, a run reaches two running jobs. |
| FailoverLimits.OtherLifecycleBreaks | internal/failover/switch.go:183-196 | With a resume from outside during a Release, a run reaches two running jobs. |
| FailoverLimits.ExclusiveExactlyWhenDisciplined | internal/failover/switch.go:140-350 | All runs are exclusive if and only if none of the five rules is dropped; the fencing check at pod start makes no difference. |
| FailoverHistory.StepKeepsHistory | internal/failover/switch.go:220-339 | Under any rules, every step keeps the accepted writes a chain: each names the ETag and record it replaced, and each start names the claim it belongs to. |
| FailoverHistory.OneWinnerPerTag | internal/store/coord.go:199-210 | Of all writes that expected one ETag, the empty one included, at most one was ever accepted. |
| FailoverHistory.EpochOrder | internal/failover/switch.go:307-325 | Over any interleaving, forced Promotes and failed reads included: accepted Promotes raise the epoch by exactly one, Releases keep it and it never decreases, if and only if no Promote replaced a record with the largest epoch. |
| FailoverHistory.EpochsAreDistinct | internal/failover/switch.go:307-325 | Then the stored epoch is monotone over the states of the run and no two accepted Promotes share one. |
| FailoverHistory.RunKeepsAnswered | internal/failover/switch.go:298-302 | The listing that a Promote chose from is the answer that it got in this run while it held the record and ETag of its claim. |
| FailoverHistory.RunKeepsSaved | internal/failover/switch.go:165-215 | What a Release carries along and publishes is what it was answered when it asked for a savepoint, in this run and by this very Release. |
| FailoverHistory.RecoveryPointHandover | internal/failover/switch.go:181-233 | A non-forced Promote that starts the job consumed the record of one Release. If that Release was answered a savepoint in this run, the job starts from it; if it was answered none, from the choice out of the listing that the Promote was answered: the newest checkpoint (else the newest savepoint, else none) if the listing is newest first, none without a listing. The installed record carries the same. |
| FailoverHistory.AcceptedRecords | internal/failover/switch.go:220-325 | Every accepted record, field by field: a Release keeps owner and epoch of what it replaced, a Promote names its side with the next epoch, and both start from nothing if there was no record. |
| LineDiff.LcsIsUpperBound | frontend/components/replay-dialog.tsx:221-226 | No common subsequence is longer than the recurrence of the table says. |
| LineDiff.LcsIsLongest | frontend/components/replay-dialog.tsx:221-226 | A table entry is the length of a longest common subsequence: one that long exists, none is longer. |
| LineDiff.ScriptKeepsLcs | frontend/components/replay-dialog.tsx:227-244 | The walked script turns one text into the other and keeps as many lines as the table's first entry says. |
| LineDiff.ScriptIsMinimal | frontend/components/replay-dialog.tsx:227-244 | No other edit script for the two texts has fewer deletions plus additions. |
| LineDiff.ScriptPrefersDeletion | frontend/components/replay-dialog.tsx:229-242 | Of all best scripts it is the one that keeps a common first line and deletes the left one of two different lines first whenever some best script begins so. |
| LineDiff.RunIsDisjoint | frontend/components/replay-dialog.tsx:227-251 | In any script that keeps the most lines, no run of changes deletes a line that it also adds. |
| LineDiff.CoalescedRows | frontend/components/replay-dialog.tsx:246-270 | The rows show both texts in order, the kind of a row says which cells it has, and there is one equal row per kept line. |
| LineDiff.ChangedRowsAreDisjoint | frontend/components/replay-dialog.tsx:246-270 | Between two equal rows no line is shown both as removed and as added. |
| LineDiff.ReplacementsDiffer | frontend/components/replay-dialog.tsx:262-268 | A replacement row never pairs two identical lines. |
| LineDiff.FillRow | frontend/components/replay-dialog.tsx:222-226 | The inner loop fills one row from the row below it and changes no other. |
| LineDiff.FillTable | frontend/components/replay-dialog.tsx:221-226 | The table filled in place holds the longest-common-subsequence length of every pair of suffixes. |
| LineDiff.WalkTable | frontend/components/replay-dialog.tsx:227-244 | The walking loops emit the script that the lemmas are about. |
| LineDiff.Drain | frontend/components/replay-dialog.tsx:243-244 | The last two loops emit what the script has for the rest of one text. |
| LineDiff.CollectRun | frontend/components/replay-dialog.tsx:255-261 | A run is collected up to the next kept line, deletions and additions each in order. |
| LineDiff.PairRun | frontend/components/replay-dialog.tsx:262-269 | Replacements first, then what is left over on one side. |
| LineDiff.DiffRows | frontend/components/replay-dialog.tsx:217-272 | The result is faithful to both texts, well formed, paired up, and has the largest possible number of equal rows. |
| SqlScanner.SkipQuotesAndComments | internal/flink/sqlrewrite.go:114-145 | The three inner loops end where the literal or comment ends, past the end of the text for an unterminated block comment. |
| SqlScanner.ScannerSeesCodeExactly | internal/flink/sqlrewrite.go:87-145 | A scan loop looks at exactly the characters outside literals and comments if and only if no literal or comment directly follows another. |
| SqlScanner.MatchFromIsMatch | internal/flink/sqlrewrite.go:89-109 | The scan returns the first closing parenthesis, among the characters it looks at, that brings the depth to zero, or -1. |
| SqlScanner.MatchParen | internal/flink/sqlrewrite.go:89-109 | On text without adjacent tokens that is the first such parenthesis among those a tokenizer calls code; on any text the loop ends within bounds. |
| SqlScanner.AdjacentCommentMisleads | internal/flink/sqlrewrite.go:87-89 | A comment right after a literal is scanned as code: a parenthesis in it closes the block. |
| SqlScanner.FindWithOpenParen | internal/flink/sqlrewrite.go:60-85 | The loop computes the search that the lemmas are about, and never leaves the text. |
| SqlScanner.FindOpenAmongVisited | internal/flink/sqlrewrite.go:58-85 | On any text the search returns the parenthesis of the first WITH that opens a block before a semicolon, among the characters that the scanner looks at, and nothing exactly if there is none. |
| SqlScanner.FindOpenIsFirst | internal/flink/sqlrewrite.go:58-85 | So on text without adjacent tokens it is the first block of the statement as a reader sees it: keyword and parenthesis are code, no semicolon of code comes before, and nothing is returned exactly if there is none. |
| SqlScanner.OpensBlockInLiterals | internal/flink/sqlrewrite.go:58-85 | What opens a block: the letters of WITH, each in either case, no letter, digit or underscore next to them, then only blanks, tabs and line ends, then the parenthesis. |
| SqlScanner.FindOpenAnyCase | internal/flink/sqlrewrite.go:71 | Changing the case of letters anywhere in the text does not change which parenthesis is found. |
| SqlScanner.MatchAnyCase | internal/flink/sqlrewrite.go:87-109 | ... nor which one closes it. |
| SqlScanner.FindOpenLocal | internal/flink/sqlrewrite.go:58-85 | The search depends on nothing behind the parenthesis it returns. |
| SqlScanner.FindOpenMoved | internal/flink/sqlrewrite.go:58-85 | The search depends on nothing in front of its start but one character: it moves with the text. |
| SqlOptions.StripComments | internal/flink/sqlrewrite.go:185-204 | The loop computes the stripping that the lemmas are about. |
| SqlOptions.StripDropsComments | internal/flink/sqlrewrite.go:183-204 | Stripping removes exactly the comments, on every text, and keeps every literal. |
| SqlOptions.CommentedLineIsIgnored | internal/flink/sqlrewrite.go:183-204 | A line that is commented out counts as an empty one, whatever option it holds. |
| SqlOptions.MatchAtIsLongestMatch | internal/flink/sqlrewrite.go:169-171 | The matcher succeeds at a position exactly if the option pattern matches there, and takes the match with the longest value. |
| SqlOptions.FindAllFindsAll | internal/flink/sqlrewrite.go:174-181 | On any text the pairs found are those of successive spans, each the longest match at its start, and every position at which the pattern matches lies in one of them: none is missed. |
| SqlOptions.FoundPairsAreValid | internal/flink/sqlrewrite.go:169-181 | Every pair found has a key without quotes, not empty, and a value in which quotes are doubled. |
| SqlOptions.OptionValue | internal/flink/sqlrewrite.go:174-181 | The value of the first pair with the key; empty if and only if no pair has it or that value is empty. |
| SqlOptions.UpsertMeaning | internal/flink/sqlrewrite.go:262-276 | With distinct new keys, duplicates in the body allowed: order kept, the last pair of each upserted key changed, new keys appended in order. |
| SqlOptions.UpsertInPlace | internal/flink/sqlrewrite.go:262-276 | Position by position: every old pair keeps its place, the last one of each upserted key is the upsert now, every other one is as it was, and behind them stand the upserts with new keys, in order and once each. |
| SqlOptions.UpsertReadsBack | internal/flink/sqlrewrite.go:174-181 | An upserted key reads back with its new value if and only if its first pair was also its last (or held the value already); every other key reads as before. |
| SqlOptions.UpsertIdempotent | internal/flink/sqlrewrite.go:259-276 | Upserting the same values again changes no pair. |
| SqlPrinter.DetectIndent | internal/flink/sqlrewrite.go:297-306 | The loop computes the indent that the lemmas are about. |
| SqlPrinter.IndentIsMargin | internal/flink/sqlrewrite.go:297-306 | It is the blanks and tabs at the beginning of the first line that holds anything but white space; two spaces if there is no such line. |
| SqlPrinter.CollectPairs | internal/flink/sqlrewrite.go:262-268 | The index map points every key at its last pair. |
| SqlPrinter.UpsertPairs | internal/flink/sqlrewrite.go:269-276 | The loop over the index map computes the upsert that the lemmas are about. |
| SqlPrinter.Render | internal/flink/sqlrewrite.go:278-292 | The builder prints the pairs one per line, with a comma after all but the last. |
| SqlPrinter.PrintedLines | internal/flink/sqlrewrite.go:278-292 | Pair by pair: a line break first, every pair on its own line behind the indent, a comma behind all but the last. |
| SqlPrinter.UpsertWithOptions | internal/flink/sqlrewrite.go:259-293 | Parse, upsert and print are composed in this order, with the indent of the old body. |
| SqlPrinter.PrintParseRoundTrip | internal/flink/sqlrewrite.go:169-293 | Parsing a printed body gives back the printed pairs if and only if the pattern can capture each of them; then stripping leaves the body unchanged and no two of its tokens are adjacent. |
| SqlPrinter.RescanFindsClose | internal/flink/sqlrewrite.go:89-109 | Scanning from the open parenthesis in front of a printed body finds the closing parenthesis behind it. |
| SqlPrinter.IndentOfPrinted | internal/flink/sqlrewrite.go:297-306 | A printed body has the indent it was printed with. |
| SqlPrinter.UpsertBodyIdempotent | internal/flink/sqlrewrite.go:259-306 | Upserting the same values into the new body reproduces it character by character. |
| SqlRewrite.FindWithBlocks | internal/flink/sqlrewrite.go:34-56 | The blocks of the CREATE TABLE matches, in order, without those that have no block or no closing parenthesis. |
| SqlRewrite.BlockIsFound | internal/flink/sqlrewrite.go:34-56 | The block of a match goes from the parenthesis that the search finds to the one that closes it, its connector is the option of that name, and there is none exactly if a parenthesis is missing. |
| SqlRewrite.BlocksOfEach | internal/flink/sqlrewrite.go:34-56 | Every CREATE TABLE match contributes on its own: those before and behind it make no difference. |
| SqlRewrite.SelectTarget | internal/flink/sqlrewrite.go:213-244 | The named Kafka source, or the only one; an error if there is none, none of that name, or several without a name. |
| SqlRewrite.IsKafkaInLiterals | internal/flink/sqlrewrite.go:216 | A connector counts as Kafka exactly if it begins with the letters of kafka, each in either case. |
| SqlRewrite.TargetExactly | internal/flink/sqlrewrite.go:213-244 | Which answer is given, each exactly when: no Kafka source at all; none of that name; several and no name; else the first one of that name, or the only one. |
| SqlRewrite.RewriteForReplay | internal/flink/sqlrewrite.go:209-253 | The program computes the rewrite that the lemmas are about, error cases included. |
| SqlRewrite.RewriteFails | internal/flink/sqlrewrite.go:213-244 | The whole rewrite fails in the same three ways, exactly then. |
| SqlRewrite.RewriteTakesWanted | internal/flink/sqlrewrite.go:246-252 | Otherwise it answers the text with a new body in the block of the first wanted Kafka source, and the name of its table. |
| SqlRewrite.RewrittenBlock | internal/flink/sqlrewrite.go:246-252 | In the new text the same table leads to the same open parenthesis and to the parenthesis behind the new body; everything outside the block is untouched. |
| SqlRewrite.RewrittenPairs | internal/flink/sqlrewrite.go:259-293 | For every body and all quote-free new values, the new body parses as exactly the upserted pairs. |
| SqlRewrite.RewriteBlockIdempotent | internal/flink/sqlrewrite.go:246-252 | Rewriting the block again with the same values changes nothing. |
| SqlRewrite.RewriteBlockIsRewrite | internal/flink/sqlrewrite.go:246-252 | A rewrite splices one block, keeps its connector, and changes what is read for the upserted keys only. |
| SqlRewrite.RewriteIsRight | internal/flink/sqlrewrite.go:206-253 | A successful rewrite touches exactly one block, that of a Kafka source with the wanted name, and sets the three startup options in it. |
| SqlRewrite.StartupReadsBack | internal/flink/sqlrewrite.go:247-251 | After a rewrite each of the three startup options that did not occur twice in the old block reads back as set: timestamp mode, the requested time, and the given offset reset or earliest. |
| SqlRewrite.FormatIntReadsBack | internal/flink/sqlrewrite.go:249 | The numeral that is written stands for the requested time, negative ones included. |
| SqlRewrite.FormatIntIsPlain | internal/flink/sqlrewrite.go:249 | It consists of digits, with a sign only for negative numbers and without leading zeros. |
| SqlRewrite.OtherBlocksMove | internal/flink/sqlrewrite.go:34-56 | After a rewrite every CREATE TABLE match behind the block leads, moved by the change of length, to the same block with the same body and connector. |
| SqlRewrite.DuplicateDefeatsRewrite | internal/flink/sqlrewrite.go:262-276 | A body that sets the startup mode twice still reads the first of the two values after the rewrite. |
| MergePatch.MergeFrame | internal/flink/replay.go:494-503 | A patch leaves every path alone that it does not name. |
| MergePatch.MergeSets | internal/flink/replay.go:527-538 | A null in a patch removes what it names, another plain value is stored. |
| MergePatch.MergeNests | internal/flink/replay.go:494-503 | Where a patch has an object there is one afterwards, whatever was there before. |
| SqlRewrite.FrontBlocksStay | internal/flink/sqlrewrite.go:34-56 | A CREATE TABLE match whose block lies in front of the rewritten one, or that is found to have none before that one begins, leads to the same block with the same body and connector. |
| SqlRewrite.RewriteIdempotent | internal/flink/sqlrewrite.go:206-253 | The whole rewrite, run on its own result with the CREATE TABLE matches where they are now, selects the same table and returns the same text, if every match has its block apart from the rewritten one or in common with it. |
| MergePatch.MergeCommutes | internal/secretsync/syncer.go:325-331 | Two patches that name different things may arrive in either order. |
| MergePatch.MergeIdempotent | internal/flink/replay.go:487-503 | A patch sent twice does what it does once. |
| Replay.Service.RunReplay | internal/flink/replay.go:296-366 | The requests in order, ending at the first that fails; a second replay during a session is refused and changes nothing. |
| Replay.Service.RunRevert | internal/flink/replay.go:383-465 | The requests in order, ending at the first that fails; the outcome of the backup removal is ignored. |
| Replay.RefusalsChangeNothing | internal/flink/replay.go:305-428 | A replay during a session, and any replay or revert whose preflight fails, changes nothing at all. |
| Replay.ReplayedDeployment | internal/flink/replay.go:354-361 | After a successful replay, read back from the deployment: the requested time, the table, who started it and when, the mode it had; upgradeMode stateless, and the checksum of the SQL that is there now. |
| Replay.RevertedJob | internal/flink/replay.go:511-525 | After a successful revert, read back from any deployment: the job is to run, from the savepoint just taken, in the recorded mode, under the new nonce, with the checksum of the SQL that is there now. |
| Replay.ReplayWritesInOrder | internal/flink/replay.go:334-361 | Wherever a replay stops: if the SQL has changed there is a backup, if the deployment has changed the SQL has, and no other key of the ConfigMap has. |
| Replay.RevertWritesInOrder | internal/flink/replay.go:442-463 | Wherever a revert stops: if the deployment has changed the SQL is restored, and the backup is gone exactly if the revert succeeded and its removal was not lost. |
| Replay.SessionRemembersMode | internal/flink/replay.go:313-316 | Over any sequence of attempts and other writes, the mode that an active session has recorded is the one that the deployment had when that session began. |
| Replay.RevertBringsModeBack | internal/flink/replay.go:407-411 | So a successful revert of an active session brings back the mode from before it, last-state if there was none. |
| Replay.RevertPatchClears | internal/flink/replay.go:511-538 | The revert patch removes the six session annotations, keeps all others, and ends the session. |
| Replay.AttemptKeepsSafe | internal/flink/replay.go:296-465 | A replay or revert that stops after any of its requests keeps the backup invariant, and so does any other write of the deployment that starts no session. |
| Replay.CrashSafety | internal/flink/replay.go:334-363 | After any sequence of such attempts and writes a present backup is the first original SQL, and there is one whenever a session is active or the SQL is altered. |
| Replay.RevertRestoresOriginal | internal/flink/replay.go:423-463 | So a revert that reports success leaves the original SQL and no session, and it succeeds exactly if its requests do. |
| Replay.SessionRestoresExactly | internal/flink/replay.go:334-341 | From an arbitrary state, replay then revert restores the SQL it started from if and only if no backup was left over, or the left-over one is that SQL. |
| Replay.StaleBackupWins | internal/flink/replay.go:461-463 | Replay, revert with a lost clean-up, edit by someone else, replay, revert: all succeed, and the last revert brings back the SQL from before the first replay. |
| Replay.StaleBackupRestoresOldTopic | internal/flink/replay.go:461-463 | The same on concrete SQL, where the edit changed the topic of the source. |
| Replay.SessionStarts | internal/flink/replay.go:354-361 | The forward patch adds the session annotations; the session is seen as active if and only if all annotations are strings. |
| Replay.SessionRoundTrip | internal/flink/replay.go:313-538 | Replay then revert: annotations as before, checksum of the restored SQL, no other path changed, upgrade mode as before (last-state if empty) if the session was seen as active. |
| ReplayInterlock.RestartsEditedExactly | internal/flink/replay.go:334-361 | A sync cycle that reads the deployment after r writes of a replay and patches it after p restarts the job onto edited SQL if and only if a restart is due, the SQL is edited within p writes, and the deployment was not marked within r (or the mark is unreadable because some annotation is no string). |
| ReplayInterlock.RestartsWithStateExactly | internal/flink/replay.go:484-493 | It does so without the stateless mode if and only if the SQL is edited within p writes, the deployment is not marked within p, and its mode was not stateless before. |
| ReplayInterlock.LeftEditIsRestarted | internal/flink/replay.go:344-361 | After a replay that edited the SQL and did not get its forward patch through, every later cycle that is due restarts the job onto the edited SQL in its old mode, whatever cycles came before. |
| ReplayInterlock.LostMarkRestartsSource | internal/secretsync/syncer.go:299-337 | The same on concrete SQL: the forward patch is lost and the next cycle restarts the job. |
| ReplayInterlock.SyncedDeployment | internal/secretsync/syncer.go:325-331 | After a restart patch, read back from any deployment: the hash is recorded and the restart nonce is the new one. |
| ReplayInterlock.BothPatchesLast | internal/secretsync/syncer.go:325-331 | The forward patch and the restart patch lose nothing to each other: in either order the deployment ends up the same, marked, stateless and with the new hash. |
| SecretHash.SortStrings | internal/secretsync/syncer.go:345 | Sorted, without duplicates, same elements. |
| SecretHash.LeqIsByteOrder | internal/secretsync/syncer.go:345 | The order is that of the bytes: a prefix comes first, else the smaller character at the first difference. |
| SecretHash.KeyListUnique | internal/secretsync/syncer.go:341-345 | A set of keys has only one such list. |
| SecretHash.HashText | internal/secretsync/syncer.go:340-354 | In whatever order the map is walked, the hashed text depends on its contents only. |
| SecretHash.HashInputInLiterals | internal/secretsync/syncer.go:340-354 | The text itself: keys in order, each key and each value followed by a NUL character. |
| SecretHash.HashInputInjective | internal/secretsync/syncer.go:340-354 | Maps without NULs in keys and values have the same text only if they are equal. |
| SecretHash.NulIsAmbiguous | internal/secretsync/syncer.go:346-352 | With a NUL in a value, two different maps have the same text. |
| SecretHash.AmbiguousExactly | internal/secretsync/syncer.go:346-352 | Another map has the same text if and only if the text has more than two NULs. |
| SyncTargets.DedupeSorted | internal/secretsync/targets.go:150-165 | The non-empty names in byte order, once each. |
| SyncTargets.DeploymentCache.List | internal/secretsync/targets.go:28-39 | The API is asked at most once in a cycle, and every caller gets that answer or that error. |
| SyncTargets.RestartTargets | internal/secretsync/targets.go:44-76 | In order and once each, exactly the names the item is about; the deployments are listed only for the modes all and references, and only without an explicit list. |
| SyncTargets.TargetsExactly | internal/secretsync/targets.go:44-76 | Case by case: a list wins over the mode; no mode and none restart nothing; all takes every named deployment, references those that use the secret; any other mode is an error, and so is a failed listing for those two. |
| SyncTargets.ListingExactly | internal/secretsync/targets.go:46-70 | The listing is needed exactly for all and references without an explicit list. |
| SecretMerge.AddEntries | internal/secretsync/syncer.go:222-224 | The entries of a secret are added under keys that carry its name, in any order of the walk. |
| SecretMerge.MergeTargets | internal/secretsync/syncer.go:216-225 | The data goes to exactly the named deployments. |
| SecretMerge.MarkFailed | internal/secretsync/syncer.go:241-245 | Exactly the named deployments are marked. |
| SecretMerge.Accumulate | internal/secretsync/syncer.go:177-226 | After the loop over the items a deployment has a merged map exactly if some item that names it was read and applied, and is marked failed exactly if one that names it was not. |
| SecretMerge.NamesExactly | internal/secretsync/syncer.go:182-190 | An item names a deployment exactly if it is about it: by the list, or by mode and listing. |
| SecretMerge.LastItemWins | internal/secretsync/syncer.go:216-225 | Under the name of its secret, a slash and its own key, every entry of the last item that has that key is merged. |
| SecretUnion.MergedEntries | internal/secretsync/syncer.go:216-225 | Every merged entry comes from an item, and every key of an item is merged. |
| SecretUnion.UnionExactlyWhenConsistent | internal/secretsync/syncer.go:172-176 | The merged map is the union of the items' data if and only if no two items disagree about a key. |
| SecretUnion.DistinctNamesAreConsistent | internal/secretsync/syncer.go:172-176 | Distinct secret names without a slash never share a key. |
| SecretUnion.OrderFreeExactlyWhenConsistent | internal/secretsync/syncer.go:172-225 | The order of the items is immaterial to the merged map under the same condition, and only under it. |
| SecretSync.Syncer.MaybeRestart | internal/secretsync/syncer.go:294-338 | One deployment is looked at; it is patched only if the hash that was read differs, no replay was active then and the guard agrees; a veto leaves the recorded hash alone and is no error; the replay annotation may change between the read and the patch; no other deployment is touched. |
| SecretSync.Syncer.RestartChanged | internal/secretsync/syncer.go:228-237 | In whatever order the merged maps are walked, every deployment gets at most one attempt, and none if it is marked failed. |
| SecretSync.Syncer.SyncOnce | internal/secretsync/syncer.go:150-239 | A whole cycle does to each deployment what its plan says and nothing else; a deployment that no item is about keeps object and counters; nothing at all without a login; at most one listing. |
| SecretSyncRuns.PlanExactly | internal/secretsync/syncer.go:177-237 | A cycle looks at a deployment exactly if it has logged in, some item is about it, and all items that are were read and applied; then it brings it to the hash of what was merged for it. |
| SecretSyncRuns.RestartMeansComplete | internal/secretsync/syncer.go:228-237 | A cycle restarts a deployment at most once, only if every item that names it was read and applied, and records the hash of exactly their union. |
| SecretSyncRuns.PlanIgnoresOrder | internal/secretsync/syncer.go:172-237 | Item order does not change what a cycle does. |
| SecretSyncRuns.CompleteExactlyWhenListed | internal/secretsync/syncer.go:182-190 | A planned restart has seen every secret meant for the deployment if and only if the listing worked or no item meant for it needed the listing. |
| SecretSyncRuns.FailedListingRestartsTwice | internal/secretsync/syncer.go:182-190 | One failed listing restarts a deployment twice although no secret has changed. |
| SecretSyncRuns.RestartsOnce | internal/secretsync/syncer.go:299-324 | Over any sequence of vetoed, deferred, failed and clear cycles, a pending change restarts the deployment exactly once, if there is a clear cycle, and an unchanged hash never. |
| SecretSyncRuns.RestartsAtFirstClearRound | internal/secretsync/syncer.go:299-324 | The restart comes in the first clear cycle. |
| SecretSyncRuns.RestartsExactlyOnChange | internal/secretsync/syncer.go:299-301 | A clear cycle restarts exactly when the merged secrets differ from those recorded, given a digest that tells the two texts apart. |
| Nonce.Counter.Next | internal/flink/nonce.go:18-29 | The retry loop installs and returns a value that follows the one the counter holds at its first undisturbed try and keeps up with the clock of that try. |
| Nonce.StepKeepsInv | internal/flink/nonce.go:18-29 | Every step of any number of callers keeps the chain of counter values. |
| Nonce.NoncesIncreaseExactly | internal/secretsync/syncer.go:54-65 | In every interleaving and for all clock readings the nonces increase in the order they are won, if and only if the counter is never advanced from the largest int64. |
| Nonce.RetryMeansProgress | internal/flink/nonce.go:25-27 | A caller that has to retry was overtaken by a call that returned. |
| Nonce.RestartIncreasesExactly | internal/flink/nonce.go:8-10 | All nonces of a process are larger than the last one of the process before it, whatever it does, if and only if its seed is at least that nonce. |
| Nonce.NoncesIncreaseAcrossRestart | internal/flink/nonce.go:8-29 | Then the nonces of both processes together increase. |
| Nonce.RestartRepeats | internal/secretsync/syncer.go:50-65 | A process that draws a nonce and is restarted while the clock shows the same second may draw the same nonce again. |
| Retention.PrunedIsNewest | internal/flink/operations.go:94-100 | Eviction leaves the newest entries up to the limit. |
| Retention.IdealIsConsistent | internal/flink/operations.go:77-91 | The list of finished entries has no duplicates and holds exactly the entries with a finishing time. |
| Retention.IdealIsHistory | internal/flink/operations.go:60-91 | An entry holds its creation value with all its updates, in order, and has a finishing time exactly if some update left it not running. |
| Retention.FinishedInOrder | internal/flink/operations.go:85-90 | Entries are listed in the order in which they finished. |
| Retention.RetentionIsExact | internal/failover/switch.go:40-58 | After any sequence of calls the bounded registry is the unbounded one without all but the newest finished entries: eviction is oldest first, and nothing unfinished is lost. |
| Retention.LookupIsExact | internal/flink/operations.go:103-111 | An entry is found exactly if it was created and not displaced, with all updates applied; the finished list holds the newest ones, as many as the limit allows, without duplicates. |
| TaskStore.FirstNamed | internal/failover/switch.go:70-82 | The first step with the given name. |
| TaskStore.HATask.ApplyStep | internal/failover/switch.go:70-82 | Only the first step of that name changes, and an empty message keeps the old one. |
| TaskStore.EditsInLiterals | internal/failover/switch.go:115-121 | Which field each edit of a task changes and to what; only success and failure end it. |
| TaskStore.StepInLiterals | internal/failover/switch.go:70-82 | Position by position: the first step of the name gets the status, and the message unless it is empty; every other step stays. |
| TaskStore.HATask.Clone | internal/failover/switch.go:84-92 | A copy with equal contents that shares neither the object nor the array of steps. |
| TaskStore.TaskStore.Create | internal/failover/switch.go:28-38 | One new running task with pending steps; what is returned is a copy. |
| TaskStore.TaskStore.Update | internal/failover/switch.go:40-58 | The edit is applied in place, a task finishes at most once, and eviction follows; an unknown id changes nothing. |
| TaskStore.TaskStore.Get | internal/failover/switch.go:60-68 | A fresh copy of the stored task, or nothing. |
| TaskStore.Serve | internal/failover/switch.go:28-58 | After any sequence of calls a store holds exactly what the retention rule says. |
| TaskStore.SnapshotIsIndependent | internal/failover/switch.go:60-92 | Later updates do not reach a snapshot, and edits of the snapshot do not reach the store. |
| OperationStore.OperationStore.Create | internal/flink/operations.go:60-74 | One new running operation; what is returned is a copy. |
| OperationStore.OperationStore.Update | internal/flink/operations.go:77-91 | The edit is applied in place, the operation finishes at most once, and eviction follows; an unknown id changes nothing. |
| OperationStore.EditsInLiterals | internal/flink/operations.go:127-143 | Which field each edit of an operation changes and to what; only success and failure end it. |
| OperationStore.OperationStore.PruneLocked | internal/flink/operations.go:94-100 | The loop evicts from the front until the limit is met. |
| OperationStore.OperationStore.Get | internal/flink/operations.go:103-120 | A fresh copy of the stored operation, or nothing. |
| OperationStore.Serve | internal/flink/operations.go:60-100 | After any sequence of calls a store holds exactly what the retention rule says. |
| OperationStore.SnapshotIsIndependent | internal/flink/operations.go:103-120 | Later updates do not reach a snapshot, and edits of the snapshot do not reach the store. |

## Left out

- The S3, Kubernetes, OpenBao and LDAP clients: requests are writes to maps and objects whose fate is a parameter; reads that fail or do not decode are one outcome.
- A write that takes effect only after its sender was told that it failed: a lost reply means that it took effect at once.
- Backends that ignore conditional headers, and ETags that repeat for equal contents: every accepted write gets a fresh ETag.
- Claim: it appears only as the initial state of the runs; its unconditional overwrite can lower the epoch when it races a Promote, and before a resume it can end a stall.
- Time limits, poll intervals and progress texts: waits end in an arbitrary outcome, and the pods polled are those of the JobManager only.
- The group name and the time stamps of records, tasks and operations: a finishing time is reduced to whether it is set.
- Local errors before the first request of a switch: they end a switch like any abandonment.
- The CREATE TABLE pattern: its matches are an input, because it is not comment-aware and the scan starts at its end.
- Bytes: texts are sequences of characters, and case folding and white space outside ASCII are as for the characters that the source tests for; invalid UTF-8 is not modelled.
- MD5 and SHA-256: functions left open; injectivity is assumed only where a theorem names it.
- How a pod template refers to a secret: the set of names it refers to is an input.
- The Kubernetes secrets themselves and the per-item status list of a sync cycle: only whether an item was read and applied.
- SqlRewrite.RewriteIdempotent: says nothing of CREATE TABLE matches inside the rewritten block, or whose own block reaches across it.
- Locks: operations that the source serializes follow one another in the model. The sync cycle takes no lock of the deployment; of what others may do between its read and its patch, the writes of a replay are modelled (`ReplayInterlock`), and in the cycle itself a change of the replay annotation.
- Pods that appear after spec.job.state has left "running": a pod comes up only while it is, so a pod count that touches zero before the operator has seen the suspension is not covered.
- A conflict answer to an own write that had already taken effect, as after a retry inside the S3 client.
- Savepoint, restart and rollback operations, the log-based verdict on a replay, the kubectl plan text, HTTP routes, WebSocket push and the rest of the user interface.
