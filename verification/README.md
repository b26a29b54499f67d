# jcc-mirror, modelled and proved in Dafny

jcc-mirror keeps a one-way copy of a publisher's collection. Everything it knows lives in tables and on the disk, it can be
killed between any two writes, and it must still never corrupt, lose or wrongly delete a file. This project models that core -
tables as maps of rows, the disk as maps from path to bytes and timestamp, every write that survives a process as one step, and
death as a step of its own - and proves what the design promises over every run, every interleaving and every input.

Each component comes in up to three layers: specification functions on values, a machine whose steps are the persisted effects
(with run-level theorems), and classes or methods in the form of the program, each proved to compute the specification or to be a
run of the machine. Clocks, the network, I/O errors and cancellation are parameters or nondeterministic choices.

| files | component |
|---|---|
| Base, Sums, Text, PathOrder, Histories | shared values, sums over maps, string operations, path order, recorded histories |
| Jobs, JobTable, Machine, Resume, Hole, Accounting, Engine | transfer queue, crash-safe resume and its one gap, retry budget |
| Filter, Walk, Scanner | globs, the resumable walk and its sweep |
| Plan, Convergence, Cycle | the diff, the queue it becomes, and that a full round leaves nothing to do |
| Approvals, Deletion, Reaper | guarded deletion, its approvals, and paging over rows being deleted |
| Gate, Tear, GateTear, Gatekeeper, Backups, BackupStore | the database lock gate, when its copy tears, kept copies, rollback |
| Sizes, Schedule, SchedulePrint, ScheduleRoundTrip, ScheduleString, ScheduleMeaning | the 7x24 schedule: parsed, printed, and what its texts mean |
| Update, Updater | self-update and its supervisor |
| LogRing, LogPaging | the log ring and cursor paging |
| Bandwidth, BandwidthTable | the bandwidth series and its rollup |

## Hypotheses

- Transfer: of the versions the publisher had, sizes are true and two of one size whose times are within the tolerance of each other
  have the same content; a file that is here at first and matches a version of his holds it; queued versions are ones he had, and so
  are the files of a walked tree; his file is the job's version while it is fetched; chunks, tolerance and budget stay the same. A file replaced by one of the same size is covered (`Resume.VersionChangeResets` says why it then loses its
  watermark). Once a process may die during an attempt, an attempt must also start with a matching destination, with a partial file
  no shorter than the stored watermark, or with a first round of a single stream; `Resume.SurvivesExactly` says that exactly this is
  needed.
- One run works on a pair at a time (app/runner.go:148-152), and one install or rollback on the binary directory.
- Gate: a jClipCorn writes its database only while its lock exists; one that crashed never releases it.
- Backups: no row names a free backup path, which is what the time stamp in the name is for; hashes are injective; at first the
  newest few rows have their copies, which every step then keeps; the number kept may change, and the theorems speak of the least
  there was.
- Convergence: a mirror pair without a gated database, names without slashes, nothing open that the plan does not want, failed rows
  from before the plan.
- Update: a size the server tells is that of the release, and a download is a front part of it.
- Log paging: two processes start at different milliseconds.

## Where the code does less than its documentation says

- A partial file shortened below the stored watermark, at least two chunks in the round and a death leave a hole that the watermark
  vouches for, and the file ends done with a byte nobody wrote (`HoleUnderWatermark`, `CorruptedFile`); harmless exactly when the
  file reaches the watermark or the round is one stream (`SurvivesExactly`), and whole runs are safe under that condition
  (`CrashSafeResume`).
- A publisher session between the two remote probes can tear the copy unnoticed (`ContainedSessionTears`): for contents of one size
  the copy is one of them, whatever they are, exactly when no write lies between two pieces that brought something
  (`TearsExactly`, and for runs of the gate `UntornReplacement` and `TornReplacement`).
- An unforced replacement meets a local session (`LateLocalSession`) exactly when one was started after the last probe and is still on
  (`MeetsLocalSessionExactly`).
- A database that jClipCorn writes here between its copy and the rename is displaced and in no copy, whatever it is
  (`LateWriteIsLost`). What a replacement displaces is held exactly when nobody wrote since the copy, or the last to write put the
  same database back (`DisplacedIsHeldExactly`); then it stays held over every run (`DisplacedIsHeld`).
- A rate whose 64-bit product overflows is accepted as another limit: it is read as what it says exactly when the product fits, and
  what it is read as reads back exactly when that is not below closed (`CapReadsExactly`; `OverflowIsAccepted` has one rate that
  becomes a cell no text denotes and one that becomes unlimited). The round trip of a grid holds exactly without a cell below closed
  (`ScheduleRoundTrip`).
- A rolled-back binary is installed again unattended after a forced downgrade (`DowngradeReopens`) or when its install died before
  the state file was written (`UnrecordedInstallReturns`); otherwise never, and exactly when the record fell below it
  (`ReinstalledExactly`).
- A download cut short passes the checks when the server did not tell the size and the part that arrived runs; every accepted one is
  whole exactly when the size was told or no shorter part passes (`AcceptsOnlyWhole`).
- A jcc pair's refusals are by name alone and also prune directories, hiding files that are not refused (`RefusalsPruneMore`): the walk
  finds a file exactly when the filter allows it and no directory above it is refused (`PrunedWalkFindsExactly`).
- `ExcessDBBackups` is documented as oldest first; the query orders newest first, and so does the model.

## Model

| member | source | states |
|---|---|---|
| Jobs.EnqueueLeavesOneOpenRow | store/jobs.go:55-148 | queueing a file leaves exactly one open row for it, of the wanted version, no failed one, and keeps a watermark only where the version stayed |
| Jobs.SettledClaimSpendsBudget | store/jobs.go:176-258 | a claim that ends done, given up or to be retried strictly lowers the summed remaining budget of the pending rows |
| JobTable.BackoffFor | store/jobs.go:263-275 | the loop that stops doubling at an hour gives what doubling to the end and capping would |
| JobTable.BackoffDoubles | store/jobs.go:263-275 | half a minute where none is set, the base at first, twice as long after each further attempt, and never more than an hour |
| JobTable.JobTable.EnqueueJob | store/jobs.go:55-148 | works on the open row, else the newest failed one, else a new id; the row is then open and of the wanted version, an open row of that version is left as it is, a version that changed starts from zero, a failed row gets a fresh budget |
| JobTable.JobTable.FindRows | store/jobs.go:55-148 | finds the open row of a file, its newest failed row and an unused id, or says there is none |
| JobTable.JobTable.DropFailedJobs | store/jobs.go:154-163 | exactly the failed rows last updated before the moment go, and are counted; every other row, finished ones among them, stays as it is |
| JobTable.JobTable.ClaimJob | store/jobs.go:176-190 | takes the first runnable row by retry time and id, marks it running and counts the attempt; nothing changes when nothing is due |
| JobTable.JobTable.JobProgress | store/jobs.go:194-201 | only the watermark and the update time of one row change |
| JobTable.JobTable.SetJobState | store/jobs.go:204-211 | only the state and the update time of one row change |
| JobTable.JobTable.ReleaseJob | store/jobs.go:217-224 | the row is pending again with its watermark and retry time, and its attempt is given back, never below zero |
| JobTable.JobTable.FailJob | store/jobs.go:231-258 | pending again at now plus the backoff while the budget lasts, failed once it is used up; watermark and attempts stay; a missing row is reported and nothing changes |
| JobTable.JobTable.RequeueRunning | store/jobs.go:279-297 | afterwards no row is running or being verified; each that was is pending with file, watermark, attempts and retry time kept; every other row is unchanged |
| JobTable.JobTable.NextAttempt | engine/transfer.go:191-201 | the earliest time a backing-off row becomes runnable, or that there is none |
| Machine.RoundBounds | engine/transfer.go:421-451 | the chunks of a round tile the bytes from the watermark to its end without gap or overlap |
| Machine.RoundReaches | engine/transfer.go:421-451 | a round ends after chunks times chunk size bytes, or with the file |
| Resume.StepKeeps | engine/transfer.go:206-324 | every step of the transfer machine keeps the relation between watermark, partial file, destination and publisher's version |
| Resume.CrashSafeResume | engine/transfer.go:206-324 | over every run of queueing, claims, rounds, failures, releases, deaths, requeues and version changes in which each download starts as SurvivesExactly asks, every unfinished row stays resumable and every job that reaches done leaves the publisher's exact bytes; without deaths even if partial files are shortened from outside |
| Resume.UndisturbedResume | engine/transfer.go:385-451 | when nobody outside touches partial files or destinations, the first bytes_done bytes of each idle unfinished row's partial file are the publisher's, or the destination already is that version |
| Resume.VersionChangeResets | store/jobs.go:55-148 | for every tolerance there are two versions of one size such that a row that took the second and kept its watermark would vouch for bytes of the first; the row that queueing leaves does not |
| Resume.SurvivesExactly | engine/transfer.go:385-451 | a death in the first round is harmless for every content and every order of arrival if and only if the partial file reaches the watermark or the round is a single stream |
| Resume.HoleUnderWatermark | engine/transfer.go:385-451 | otherwise a second chunk that arrives first and a death leave a row that vouches for a byte nobody wrote |
| Hole.CorruptedFile | engine/transfer.go:206-451 | for every three-byte file that does not begin with a zero there is a run from an empty queue - an interrupted round, a lost partial file, a death in a round of two streams, a third attempt - that ends done with a zero in place of its first byte |
| Accounting.StepAccounts | store/jobs.go:176-288 | every step keeps attempts equal to failures plus deaths since the last revival plus the one in flight |
| Accounting.RunAccounts | store/jobs.go:120-148 | over every run attempts are so accounted for, and a row is failed only when the budget is used up |
| Accounting.SettleAccounts | store/jobs.go:217-258 | an interruption gives its attempt back, and a failure marks the row failed exactly when its attempts reach the maximum |
| Engine.PlanRound | engine/transfer.go:421-451 | the loop lays out exactly the chunks of the round |
| Engine.RoundLaidOut | engine/transfer.go:421-451 | those are no more chunks than allowed, each whole but for the last, one behind the other from the mark to the end of the round |
| Engine.ResumeOffset | engine/transfer.go:385-412 | the watermark where the file reaches it, else the file's length, and the start when it is out of range |
| Engine.TraceIsRun | engine/transfer.go:45-158 | what one process did is a run of the transfer machine from what it found, without a death and without planning |
| Engine.Engine.OpenPart | engine/transfer.go:385-412 | where a job resumes: its watermark, never past what the partial file reaches, zero when out of range, and a cut file then |
| Engine.Engine.FetchRound | engine/transfer.go:455-511 | parallel chunks received piece by piece in any order, each step one of the machine's; done when every chunk is full |
| Engine.Engine.NextRound | engine/transfer.go:421-451 | the watermark advances over a whole round or not at all |
| Engine.Engine.Download | engine/transfer.go:421-451 | rounds until the last byte; the returned mark is the watermark the machine vouches for |
| Engine.Engine.CheckAndMove | engine/transfer.go:206-324 | verifying, cut to size, stamped and renamed, in that order; a failure in between leaves the attempt to be settled |
| Engine.Engine.RecordFile | engine/transfer.go:328-369 | local truth gets the job's size and mtime, as a step of the machine |
| Engine.Engine.RunJob | engine/transfer.go:206-324 | ends done with the publisher's bytes in place and on record, or leaves only its own row to be settled; it moved nothing exactly when a file of that size and a time within the tolerance was there already |
| Engine.Engine.RunAndSettle | engine/transfer.go:45-158 | a claimed job ends done, released with its attempt back, pending again, or failed with the budget used up |
| Engine.Engine.RunNext | engine/transfer.go:45-158 | claims the next due row if there is one, and unless the run is stopping spends budget |
| Engine.Engine.Turn | engine/transfer.go:45-158 | one turn of the queue spends budget, waits until a row is due, or ends the run; drained means nothing is due |
| Engine.AwaitRetry | engine/transfer.go:191-201 | called when nothing is due; it waits exactly when the earliest retry lies ahead, no more than two minutes off, and then until some row is due |
| Engine.Engine.Sync | engine/transfer.go:45-158 | the tally counts what reached done and failed; a drained run leaves nothing due; no row is left running or being verified; a run stops for failing exactly when five attempts failed in a row; the loop ends |
| Filter.MatchSegments | engine/filter.go:99-124 | agrees with the declarative meaning in which a double star spans any number of segments |
| Filter.MatchesAny | engine/filter.go:77-97 | true exactly when some pattern matches the path or a directory above it |
| Filter.SubtreeSuffix | engine/filter.go:77-124 | a pattern and the same pattern followed by a double star select the same paths |
| Filter.Allows | engine/filter.go:45-56 | a file belongs exactly when it is not refused, no exclude covers it and, where there are includes, one of them does |
| Filter.AllowsDir | engine/filter.go:61-73 | a directory is descended into exactly when it is the root or neither refused nor covered by an exclude |
| Filter.RefusedExactly | engine/jcc.go:101-118 | the refused names spelled out: the two databases of one's own, every name ending as a lock, journal, wal or shm, and dotted names ending as a database on its way in |
| Filter.PruningIsExact | engine/filter.go:45-73 | the directories above an allowed file are descended into, except those whose own name is refused |
| Filter.RefusalsPruneMore | engine/jcc.go:104-117 | a refused directory name hides a file that is allowed |
| Walk.StepKeeps | engine/scan.go:146-265 | every begin, resume, listing, stop, finish and death keeps the walk invariant |
| Walk.WalkCompleteness | engine/scan.go:38-265 | whatever the order of listings, interruptions, deaths and resumes, a walk that ends done leaves exactly the reachable kept paths with the tree's sizes and times, and counters equal to the rows |
| Walk.ListingProgress | engine/scan.go:221-265 | each committed listing takes exactly its directory off the unlisted reachable ones |
| Walk.SweepSafety | store/manifest.go:178-216 | a path that left the manifest did so in the finish of a walk that drained its frontier and counted a file, and that walk had not seen it |
| Walk.StepSweepsOnlyWhenDone | engine/scan.go:71-169 | no other step removes a row: interrupted, failed, superseded and empty walks delete nothing |
| Walk.PrunedWalkFindsExactly | engine/scan.go:221-265 | for every filter the walk reaches a file exactly when the filter allows it and no directory above it has a refused name |
| Walk.PrunedWalkFindsAllowedFiles | engine/scan.go:221-265 | for a raw pair the pruned walk reaches exactly the files the filter allows on the whole tree |
| Scanner.ManifestTable.RunningScan | store/manifest.go:94-103 | the newest unfinished scan, if there is one |
| Scanner.ManifestTable.BeginScan | store/manifest.go:49-91 | resumes exactly when asked and a scan is running or interrupted, under the newest such id with nothing changed; else what was unfinished has failed, a new scan runs from zero and the root is its frontier |
| Scanner.ManifestTable.PendingDirs | store/manifest.go:106-128 | distinct pending directories, at most the limit, all of them when fewer; none exactly when the frontier is drained |
| Scanner.ManifestTable.PutListing | store/manifest.go:133-172 | one directory's children, the mark on it and the counters, as one write |
| Scanner.ManifestTable.FinishScan | store/manifest.go:178-216 | the state is set, exactly the rows of other scans go when it is done, and what went is counted |
| Scanner.ListDir | engine/scan.go:221-265 | the kept children of a directory, files by the one rule and directories by the other |
| Scanner.ListBatch | engine/scan.go:174-216 | a batch in any order keeps the invariant and, when it succeeds, leaves fewer directories unlisted |
| Scanner.WalkAll | engine/scan.go:146-169 | ends, and drained means that no directory of this scan is pending |
| Scanner.RunScan | engine/scan.go:38-144 | done means that the manifest holds exactly what should be found and at least one file; failed means a drained walk without one; otherwise it is interrupted; nothing is swept unless done; a resuming walk takes up the unfinished scan under its id, any other walk fails it, and none but its own is left unfinished |
| Plan.CountTransfers | store/diff.go:20-59 | the number and the bytes of exactly the allowed files that are new here, and of those held with another size or a time further off than the tolerance either way |
| Plan.CountVanished | store/diff.go:78-109 | the number and the bytes of exactly the allowed files held here that the walk did not find, the gated database excepted |
| Plan.PlanPair | engine/diff.go:149-256 | adds, replaces and deletions counted by sets written out with size and time; the plan is empty exactly when the mirror is in step |
| Plan.WantsNothingExactly | store/diff.go:20-109 | a plan wants nothing if and only if every allowed file of the walk is held with its size and a time within the tolerance, either way, and every allowed file held, but the gated one, was found |
| Plan.Enqueue | engine/diff.go:99-137 | every allowed ungated file that is missing here or differs in size or time has an open row of the walk's version afterwards; a row that was written replaces where something is held and adds where not; finished rows stay; no other row is touched but failures from before the plan, which go; with nothing unwanted open the queue is exactly the plan; and every row stays resumable |
| Convergence.StepStaysOnTheWay | engine/transfer.go:328-369 | every transfer step keeps that each wanted file has landed in local truth or still has its row, and nothing else in local truth moves |
| Convergence.Converges | engine/diff.go:99-256 | a queue that is the plan, any run of transfers after which every job is done and local truth without the files to delete leave a plan that queues and deletes nothing, and for a pair without a gated database wants nothing at all |
| Convergence.PassDeletesThePlan | engine/reap.go:240-276 | what the deletion pass is after is what the plan counts as vanished |
| Cycle.TextInjective | engine/scan.go:320-331 | two files of a tree have two texts |
| Cycle.ReadManifest | store/diff.go:144-168 | the file rows that a done walk left are exactly the reachable files of the tree with their sizes and times |
| Cycle.ManifestIsServed | store/diff.go:144-168 | every version that a done walk leaves in the manifest is one the publisher had |
| Cycle.WalksAgree | engine/scan.go:38-144 | any two walks of one tree that end done leave the same files |
| Cycle.QueueAndSync | engine/diff.go:99-137 | the queue it ran was exactly the plan, and what ran is a trace from there |
| Cycle.AfterSync | engine/transfer.go:45-158 | once every job is done, local truth without the files to delete makes the next plan empty |
| Cycle.Delete | engine/reap.go:51-150 | a deletion phase that removed all it was after leaves local truth without exactly the files to delete |
| Cycle.Round | app/runner.go:281-372 | walk, plan, queue, sync and deletion of a raw mirror pair on a fixed tree: when the walk is done, every job is done and the deletion removed all it was after, what is held of the allowed paths are exactly the files the walk reaches, each with its size and a time within the tolerance, and the next plan wants nothing, on this manifest and on that of any later done walk |
| Approvals.ApprovalTable.OpenApproval | store/deletions.go:109-119 | the open request is the newest row, or there is none |
| Approvals.ApprovalTable.RequestDeleteApproval | store/deletions.go:68-106 | keeps an approval for this walk and at least as many files, takes any other open row back to pending with the new numbers, else adds a pending row; earlier rows stay |
| Approvals.ApprovalTable.DecideDeletion | store/deletions.go:138-154 | a yes makes the pending request approved and a no rejected, with its walk and count kept and all earlier rows unchanged; fails exactly when nothing is pending |
| Approvals.ApprovalTable.UseApproval | store/deletions.go:159-167 | an approved row becomes used; any other row stays |
| Approvals.TripsExactly | engine/reap.go:220-230 | a guard trips exactly when the files exceed the pair's number or their share of the files held here exceeds the percentage, each off at zero; more files never trip less |
| Approvals.StepKeeps | engine/reap.go:51-230 | every count, guard, hold, removal, finish, stop, walk and decision keeps one open newest row and a clearance that still stands |
| Approvals.RemovalIsCleared | engine/reap.go:51-230 | a run that removes a file is unguarded, within both limits it started under, or holds an approval for exactly the current walk and at least as many files as it counted |
| Approvals.ApprovedIsAnswered | store/deletions.go:138-154 | over every run an approved row was said yes to while it was pending for the same walk and as many files, and nothing was said to it since |
| Approvals.RemovalWasApproved | engine/reap.go:51-207 | a removal that rests on an approval rests on a yes to that row while it was pending for this walk and at least as many files as were counted, and on no answer after that |
| Approvals.OpenRequests | store/deletions.go:61-133 | over every run at most one request is open and it is the newest; a row whose walk or count changes is pending again |
| Approvals.SpentOnce | store/deletions.go:156-167 | over every run each approval is spent by at most one finished run |
| Approvals.ExtendRemovals | engine/reap.go:283-333 | as many removals as files were visited, when those are no more than were counted, never go beyond the count and are those of a run under its own limits |
| PathOrder.OrderIsUnique | store/diff.go:118-142 | there is one way to list a set of paths in order, so two passes over the same set visit the same list |
| PathOrder.LessExactly | store/diff.go:118-142 | one path comes before another if and only if it ends first or has the smaller character at the first place where they differ |
| Deletion.LeastAfter | store/diff.go:118-142 | the least path behind the cursor, or that there is none |
| Deletion.VanishedPage | store/diff.go:118-142 | the paths next behind the cursor in order, at most a page, none left out in between; empty only at the end |
| Deletion.NextInPage | store/diff.go:111-142 | moving the cursor to the next entry of a page passes over exactly that entry |
| Reaper.RestUnchanged | engine/reap.go:240-333 | forgetting visited rows does not change what lies behind the cursor |
| Reaper.PageMoves | engine/reap.go:240-276 | each page leaves strictly less ahead, so the pass ends |
| Reaper.NoMoreThan | engine/reap.go:240-333 | a pass visits no more files than the one that counted listed |
| Reaper.Reaper.Pass | engine/reap.go:240-333 | for any page size each vanished, allowed, ungated row is visited exactly once in path order, while visited rows are forgotten and some will not go; counts and bytes are those of the visited list, and the freed bytes those of the files that went |
| Reaper.Reaper.RemoveOne | engine/reap.go:283-333 | a file that goes or is missing loses its row; one that will not go keeps file and row; a row that will not go ends the pass with the file gone |
| Reaper.Reaper.Hold | engine/reap.go:162-207 | goes ahead exactly when the newest request is approved for this walk and at least as many files, stays quiet exactly when it was rejected for them, and else asks with a pending request; one step of the approval machine |
| Reaper.Reaper.Clear | engine/reap.go:112-122 | free where no guard is in the way, else what hold decides; count and decision are steps of the approval machine |
| Reaper.Reaper.RemoveAll | engine/reap.go:124-135 | one removal of the approval machine per visited file, never beyond what was counted; a pass that nothing stopped visits the counted list and spends the approval |
| Reaper.Reaper.Reap | engine/reap.go:51-230 | nothing is touched for an additive pair, before a walk, on an empty manifest or with open transfers; a guarded pair beyond its limits needs a covering approval, spent by a finished run; done removes exactly what the counting pass counted, but for what would not go; and all of it is a run of the approval machine whose removals stay within the count |
| Gate.UnforcedReplacement | engine/jcc.go:256-401 | in every interleaving an unforced replacement found no lock at any of its four probes, and every publisher session that met the copy lies wholly between the two remote probes |
| Gate.ReplacementIsWhole | engine/jcc.go:256-385 | a replacement has the reported size and timestamp, and is what the publisher had at every instant of the copy if no session overlapped it |
| Gate.WhollyOldOrNew | engine/jcc.go:256-385 | at every instant the local database is wholly the first one, or one that a single step put there: the rename of a whole replacement with the reported size and time, or jClipCorn here |
| Gate.ProbesAre | engine/jcc.go:661-720 | the four probes and the copy happen in order, and a lock found by an unforced attempt ends it |
| Gate.LateLocalSession | engine/jcc.go:333-367 | a session started here after the last probe has its database replaced under it |
| Gate.MeetsLocalSessionExactly | engine/jcc.go:333-367 | an unforced replacement meets a local lock exactly when one was taken after the last probe and not let go of |
| Tear.TearsExactly | engine/jcc.go:426-456 | for an order of pieces and writes that brings the reported size, the copy is one of the publisher's contents whatever they are if and only if no write lies between two pieces that brought something |
| GateTear.UntornReplacement | engine/jcc.go:294-367 | in every run, when the contents during the copy had the reported size and no write came between two pieces, what is put in place is what the publisher had at an instant of the copy |
| GateTear.TornReplacement | engine/jcc.go:294-367 | for every other order there is an unforced run in that order that puts a database in place which the publisher never had |
| GateTear.ContainedSessionTears | engine/jcc.go:294-367 | the smallest of them: one session between two bytes |
| Gatekeeper.Gatekeeper.AskBoth | engine/jcc.go:663-675 | clear and unforced means that both locks were asked for in order and free; held means unforced and a lock was there |
| Gatekeeper.Gatekeeper.Fetch | engine/jcc.go:426-456 | the copy runs to the end of the file and has the reported size, or is discarded |
| Gatekeeper.Gatekeeper.SyncDatabase | engine/jcc.go:256-385 | skips exactly when the publisher has none or the copies agree in size and, within the tolerance, in time; an unforced pass defers exactly when one of its pairs of probes found a lock; replaces at most once, at its last step, and then what it put in place is whole and unforced probes had found everything clear |
| Gatekeeper.RecordedIsRun | engine/jcc.go:256-385 | what a pass did is a run of the gate machine, so the theorems apply to it |
| Gatekeeper.ReplacedSoundly | engine/jcc.go:256-385 | of what a pass recorded, the run theorems hold |
| Backups.StepKeeps | engine/jcc.go:462-518 | every copy, row, rename, prune step and death keeps distinct paths, the held copies and a verified file under each of the newest few rows |
| Backups.DropKeepsNewer | store/backups.go:92-125 | pruning a row past the newest few leaves as many newer ones beside every key that had them |
| Backups.ExcessWritten | store/backups.go:92-125 | a copy is past the newest few exactly when so many are of a later time, or of the same time with a higher id |
| Backups.DisplacedIsHeldExactly | engine/jcc.go:333-385 | with fewer newer copies than are kept, what a rename displaces is held if and only if nobody wrote here since the copy was taken or the last to write put the same database back |
| Backups.LateWriteIsLost | engine/jcc.go:333-385 | for every database, every other one written between the copy and the rename and every replacement there is a run after which no copy holds what was displaced |
| Backups.RowsAreCopies | store/backups.go:92-125 | where so many newer rows exist, as many newer rows with their verified files exist |
| Backups.DisplacedIsHeld | engine/jcc.go:462-518 | over every run a database displaced with no write since its copy is held ever after in a recorded copy with its size, hash, bytes and timestamp unless at least the kept number of newer copies exist |
| Backups.DisplacedIsRestored | engine/jcc.go:538-659 | rolling back to that copy restores its bytes exactly and its timestamp to the millisecond |
| BackupStore.Listing | store/backups.go:57-80 | all rows, newest first by time and id |
| BackupStore.PlaceIsRank | store/backups.go:92-117 | a row's place in the listing is the number of newer rows |
| BackupStore.DBBackups | store/backups.go:59-80 | exactly the newest rows up to the limit, 25 without one, in order |
| BackupStore.ExcessDBBackups | store/backups.go:96-117 | exactly the rows with at least that many newer ones, of which at least one is kept, newest first |
| BackupStore.Keeper.BackupName | engine/jcc.go:784-800 | the first free candidate, none exactly when all are taken |
| BackupStore.Keeper.BackupDatabase | engine/jcc.go:462-498 | succeeds exactly when there is nothing to keep or a free name and no fault; what is in place is then held in a recorded copy, and an error recorded nothing |
| BackupStore.Keeper.AddDBBackup | store/backups.go:36-55 | the row carries the copy's size, hash and timestamp to the millisecond, and the copy is then intact under it |
| BackupStore.Keeper.PruneBackups | engine/jcc.go:503-518 | whatever fails, none of the newest few rows or their files is touched, and a clean pass leaves exactly those rows; all that was displaced so far is held |
| BackupStore.RecordHolds | engine/jcc.go:462-518 | every database a keeper displaced with no write since its copy is held, unless that many newer copies exist |
| BackupStore.Keeper.PickBackup | engine/jcc.go:613-633 | the named copy or the newest one, or that there is none |
| BackupStore.Keeper.RollbackDatabase | engine/jcc.go:538-659 | succeeds exactly when the named or newest copy is there with its recorded size and hash, the lock is free or forced, a name is free for what is displaced and no fault intervenes; then the copy's bytes are in place under its time and what they displaced is restorable; otherwise the database stays |
| BackupStore.Keeper.RollbackTo | engine/jcc.go:538-607 | the same for one copy, with its size, hash and time written out |
| Sizes.Size | format/format.go:94-107 | the loop gives the canonical text |
| Sizes.UnitsAre | format/format.go:118-143 | the four units are powers of 1024, each read by its letter |
| Sizes.SizeRoundTrip | format/format.go:94-145 | ParseSize inverts Size on every positive 64-bit count without overflow, in either case of letters, and refuses every negative one |
| Sizes.ParseScaled | format/format.go:112-145 | a number and a unit read back as their 64-bit product, wrap-around included, or not at all when not positive |
| Schedule.LastRuleWins | schedule/schedule.go:78-93 | each cell is the limit of the last rule that covers it, open without limit where none does |
| Schedule.DayRangeHolds | schedule/schedule.go:140-170 | a day range holds exactly the days from start to end around the week |
| Schedule.HourRangeHolds | schedule/schedule.go:186-221 | an hour range holds exactly the hours from start to its exclusive end around midnight, and 0-24 all of them |
| Schedule.WalkDays | schedule/schedule.go:140-170 | the loop around the week gives the range |
| Schedule.WalkHours | schedule/schedule.go:186-221 | the loop around midnight gives the range |
| Schedule.ParseDays | schedule/schedule.go:140-184 | every part in turn, a bad part refuses them all |
| Schedule.ParseHours | schedule/schedule.go:186-238 | every part in turn, a bad part refuses them all |
| Schedule.FillRule | schedule/schedule.go:78-93 | the cells of exactly the days the rule names, Sunday's first, and of its hours get its limit |
| Schedule.Parse | schedule/schedule.go:78-138 | rules in order over an open grid, an error for a bad one; every hour since a Sunday's midnight then has the limit of the last rule that names its day and holds its hour |
| Schedule.ParsedMeans | schedule/schedule.go:76-138 | for every text that parses and every hour since a Sunday's midnight, what is read there is the limit of the last rule whose days hold that day's name and whose hours hold that hour, and no limit where none does |
| ScheduleMeaning.DayRangeIs | schedule/schedule.go:140-171 | a range of days, Monday first, holds what lies between its ends, or outside of them when it goes around the week |
| ScheduleMeaning.HourRangeIs | schedule/schedule.go:186-221 | a range of hours holds start up to but not including end, around midnight when the end comes first |
| ScheduleMeaning.CapWords | schedule/schedule.go:240-252 | the five words that close, the six that lift the limit, and that nothing is refused |
| ScheduleMeaning.WishesMean | schedule/schedule.go:76-261 | a text of any number of rules from day to day, from hour to hour and a limit parses, and gives at every hour what the last rule in force there asks for |
| ScheduleMeaning.LongNames | schedule/schedule.go:173-184 | days are known by their first three letters in either case |
| ScheduleMeaning.MinutesDoNotMatter | schedule/schedule.go:223-238 | what follows a colon in an hour is not looked at |
| ScheduleMeaning.CommentsDoNotMatter | schedule/schedule.go:95-103 | a comment on a line of its own changes nothing |
| ScheduleMeaning.GateTakesNoRate | schedule/schedule.go:240-261 | a schedule that only opens and closes takes no rate |
| ScheduleMeaning.TransferWindow | app/scheduler.go:85-90 | the window of a setting is that of the last rule in force at the hour; a setting that does not parse is closed at every hour |
| Schedule.At | schedule/schedule.go:264-279 | the answer now, unchanged until the hour it reports, and changed then for every grid that is not uniform |
| Schedule.NextOpen | schedule/schedule.go:283-295 | the earliest open hour from now on; fails exactly when the whole week is closed |
| SchedulePrint.PrintedRulesAreTheGrid | schedule/schedule.go:344-393 | the printed rules never contradict the grid and leave no cell out |
| ScheduleRoundTrip.DaysRoundTrip | schedule/schedule.go:405-425 | printed days read back as themselves |
| ScheduleRoundTrip.HoursRoundTrip | schedule/schedule.go:427-446 | printed hours read back as themselves |
| ScheduleRoundTrip.CapRoundTrip | schedule/schedule.go:240-261 | every limit reads back as printed, except that no negative one but closed reads at all |
| ScheduleRoundTrip.ScheduleRoundTrip | schedule/schedule.go:344-457 | parsing the printed form of a 64-bit grid returns the grid if and only if every cell is closed, unlimited or a positive rate |
| ScheduleRoundTrip.PrintIsCanonical | schedule/schedule.go:321-393 | two such grids print alike exactly when they are equal |
| ScheduleRoundTrip.CapReadsExactly | format/format.go:112-145 | every positive rate in every unit is accepted; it is read as what it says if and only if the product fits 64 bits, and what it is read as reads back if and only if it is not below closed |
| ScheduleRoundTrip.OverflowIsAccepted | format/format.go:112-145 | one overflowing rate is read as a cell that no text denotes, twice that rate as unlimited |
| ScheduleString.FindRuns | schedule/schedule.go:405-446 | the two-index loop finds the runs of consecutive entries that the printed form is made of |
| ScheduleString.GroupOf | schedule/schedule.go:360-371 | a day's group is the days from it on that read alike, each done once |
| ScheduleString.RowText | schedule/schedule.go:373-390 | one rule per distinct limit, in the order the day first reaches it |
| ScheduleString.String | schedule/schedule.go:344-393 | the loops print the canonical form |
| Update.AdmitsExactly | app/update.go:183-193 | an unattended install is admitted exactly when the release is newer than the running build and than the release on record, whatever became of that |
| Update.StepKeeps | update/install.go:181-296 | every rename, write, rollback, confirmation and death keeps verified binaries in place and an unforced install above the record |
| Update.StartTargetIsWhole | update/install.go:181-279 | after a stop at any point what would be started, and what would be gone back to, is a verified binary, the whole release wherever the server told its size, or the image's |
| Update.AcceptsOnlyWhole | update/update.go:182-210 | every accepted download is the whole release if and only if the server told the size or no shorter part passes for a binary |
| Update.ConfirmsItsOwn | update/install.go:289-296 | a confirmation signs off on the install it was told of, which was recorded last, and on no other |
| Update.UnforcedInstallsRise | update/install.go:140-279 | without a forced downgrade in between, the releases recorded by unforced installs strictly increase |
| Update.ReinstalledExactly | app/update.go:163-263 | a release once recorded is admitted again exactly when the record has fallen below it, which takes a forced downgrade |
| Update.DowngradeReopens | app/update.go:226-263 | with a forced downgrade a rolled-back release is admitted again |
| Update.UnrecordedInstallReturns | update/install.go:219-241 | so is one whose install died before it was written down |
| Updater.Manager.Fetch | update/install.go:181-206 | a download that may end anywhere goes on only when size, magic and a run accept it, and is the release where the size was told; nothing in place changes |
| Updater.Manager.Check | update/update.go:182-210 | size if it was told, magic, and that it runs |
| Updater.Manager.Install | update/install.go:208-241 | the new binary in place, the old one kept as previous and the release on record; an error in between leaves the record |
| Updater.Manager.CheckUpdate | app/update.go:163-203 | newer than the baseline and not blocked comes to newer than the build and than the record |
| Updater.Manager.ApplyUpdate | app/update.go:226-288 | unforced, only what the check admits is installed, and unforced installs on record rise |
| Updater.Manager.Rollback | update/install.go:247-279 | succeeds exactly when there is a previous or a managed binary and neither the move nor the state file fails; the previous one or the image's is then back and the record keeps its release |
| Updater.Manager.ConfirmUpdate | update/install.go:289-296 | the applied update written down at the given moment becomes confirmed, any other is left alone |
| Updater.RecordRises | update/install.go:140-279 | of what a manager recorded, unforced installs rise but for forced downgrades in between |
| Updater.Act | update/supervise.go:49-95 | a child that installs nothing never adds a rollback to the directory |
| Updater.After | update/supervise.go:49-113 | rolls back exactly when a managed binary could not be started, or an applied update exited non-zero neither for a restart nor stopped, there is something to go back to and the file system goes along; another child is started exactly then or when one asked to be restarted |
| Updater.Supervise | update/supervise.go:49-113 | the first child runs what was in place; another is started exactly after one that was recovered from, on the binary that had been put aside, or that asked for a restart, on what was there; at most two rollbacks, one of them for an exit, and one child per rollback or request and one more |
| LogRing.Logger.Remember | logs/logs.go:62-75 | the ring stays the last 500 lines of the history, numbered without reuse |
| LogRing.Logger.Tail | logs/logs.go:80-96 | exactly the held lines above the number, oldest first, and the newest number |
| LogRing.TailIs | logs/logs.go:80-96 | those are, of the last 500 lines, the ones with a higher number, each under its place in the history |
| LogPaging.CursorRoundTrip | app/remote_api.go:233-249 | a cursor that was handed out reads back as itself |
| LogPaging.HandleLogs | app/remote_api.go:183-231 | an error for a limit that is no positive number or a cursor that is none, the newest lines without a cursor, else the page behind it; 200 lines without a limit and never more than 2000 |
| LogPaging.LimitRoundTrip | app/remote_api.go:253-263 | a limit within the ceiling is taken as it was written, a higher one as the ceiling, one that is not positive or no number is refused, and nothing is the default |
| LogPaging.NextPage | app/remote_api.go:198-231 | the loop over the ring gives the page |
| LogPaging.PageContinues | app/remote_api.go:207-231 | without a reset a page starts right behind the cursor of the same process, with one at the oldest line held; it is full or reaches the newest line |
| LogPaging.PagesAreContiguous | app/remote_api.go:183-249 | under any interleaving of writes, restarts and reads the pages since the client last started over are a contiguous stretch of one process's history without repetition |
| LogPaging.ResetExactly | app/remote_api.go:207-212 | a reset is raised exactly when the process changed or lines behind the cursor are gone |
| Bandwidth.TruncateIs | store/bandwidth.go:31-43 | a bucket starts less than a width before its moments and lies within one UTC day |
| Bandwidth.BucketStarts | store/bandwidth.go:28-43 | buckets start on whole minutes, hours and days, less than one of them before their moments |
| Bandwidth.SampleCounts | store/bandwidth.go:61-79 | a sample adds its bytes to the day it was taken on and to no other |
| Bandwidth.RollupConserves | store/bandwidth.go:122-190 | a rollup leaves each day's bytes in and out over all resolutions as they were |
| Bandwidth.RollupIsIdempotent | store/bandwidth.go:119-190 | repeating a rollup with the same cut-off changes nothing |
| Bandwidth.BytesAreConserved | store/bandwidth.go:61-190 | under any sequence of samples and rollups each UTC day's total is what was added for that day |
| BandwidthTable.Series.AddBandwidth | store/bandwidth.go:61-79 | the row of the minute gains the bytes in and out, no other row changes, and nothing is written for nothing |
| BandwidthTable.Gather | store/bandwidth.go:139-165 | each bucket holds the sum of exactly the old rows that truncate to it, and the rows are counted |
| BandwidthTable.Series.Upsert | store/bandwidth.go:173-181 | each bucket is added to its row or becomes one, no other row changes |
| BandwidthTable.Series.RollupBandwidth | store/bandwidth.go:122-190 | each bucket gains exactly what its old rows come to; no row of the folded resolution from before the moment is left, and every other stays |

## Left out

- SMB, WireGuard, sockets and the HTTP download: the remote is a tree, a range reader and a prober.
- SQLite, its schema and migrations: a transaction is one step on maps; an error while writing to the database is a death.
- Several pairs: every table is that of one pair.
- Columns that decide nothing: error texts, reasons, who decided, creation times, hashes of transferred files.
- PruneJobs, adoption counters, events, notifications, the scheduler's choice of pair, dashboard, command line, login and keys.
- Quarantine: naming and expiry of quarantined files, and the pruning of empty directories after a removal.
- Free-space checks, ownership, modes and the rate limiter: a refusal is a nondeterministic outcome.
- Unicode: paths are normalized and distinct, case folding covers ASCII letters; the per-segment match is an uninterpreted predicate.
- Daylight saving: schedule hours run on a fixed-offset clock.
- Overflow of counters, of files times 100 in the guard and of line numbers; only the size product of the schedule wraps.
- Scanner.ManifestTable.PendingDirs: which directories come first is not stated, because any order is proved correct.
- Plan.PlanPair: the sample of entries, the guard preview and the free-space picture are not modelled.
- Engine.Engine.RecordFile: the provenance column and the change history are not modelled, because they decide nothing.
- Hole.CorruptedFile: one size of file and of chunk stands for the failing family, whose exact condition is SurvivesExactly.
- Gate: the status reads publisher's and local file in one step, and adopting an equal copy into local truth is not modelled.
- Gatekeeper.Gatekeeper.SyncDatabase: the kept copy and the pruning of this pass are in BackupStore.
- BackupStore.Keeper.PruneBackups: which of the old copies stay behind after an error is not stated.
- Reaper.Reaper.Pass: no row has the empty path, which the cursor starts on and would never reach.
- Update: a state file that cannot be read, and a rollback or confirmation that overlaps the write of an install.
- Bandwidth reads and the heatmap.
