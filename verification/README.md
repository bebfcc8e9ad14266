# Verification of paur

paur is a daemon that builds Arch Linux packages from the AUR in containers and publishes them in
signed pacman repositories. This project models its hard parts in Dafny and proves what they promise.

| file | models |
|---|---|
| `Schema.dfy`, `Database.dfy` | the tables `packages`, `builds`, `build_logs`; each SQL statement as a function on table values, and as a method of a class that updates the tables in place |
| `Protocol.dfy` | the daemon as a state machine: handlers, poller, worker, container and the two log readers, every await a point where any other task may act, crashes included |
| `Invariants.dfy`, `Steps.dfy`, `Theorems.dfy`, `Recovery.dfy` | the inductive invariant, what one step may do, what follows for every run, and a start-up carried through to the end |
| `Completeness.dfy` | completeness: every active variant has a build; what storing variants and queueing builds does to it |
| `Daemon.dfy` | `AppState` as a class: the worker, start-up and the package handlers, whose statements the database may refuse |
| `Handlers.dfy` | completeness over the interleavings of the protocol, and the handlers as paths of it |
| `Refinement.dfy` | the sequential worker is a path of the protocol; a path on which a granted cancel is lost |
| `Cancellation.dfy`, `Polling.dfy` | which granted cancels stand; what one pass of the poller queues |
| `Witnesses.dfy` | runs from a fresh database on which the code misses what its comments say |
| `SrcInfo.dfy`, `SrcInfoLines.dfy` | the `.SRCINFO` parser against a meaning of its blocks; the forms of its lines |
| `RepoStore.dfy` | publish and remove over a file system of named contents |
| `S3Retry.dfy`, `S3Url.dfy` | the S3 client's retry loops and URLs |
| `Follower.dfy`, `Utf8.dfy`, `FollowerBytes.dfy` | the line loop of `paur-cli logs --follow` on text; lossy decoding; what cutting the bytes does to the printed lines |
| `Variants.dfy`, `Text.dfy`, `Options.dfy` | variant sets; Rust's string functions; `Option` and `Result` |

Check everything with `dafny verify dfyconfig.toml`.

## How the parts fit

A run of the protocol is a sequence of states from a fresh database, each reached from the one before by
one action. `Invariants.InvHolds` proves the invariant for every state of every run; the results in
`Theorems` follow from it and from `Steps.Evolve`. `History` records what happened and guards nothing.
Clocks, container exits, git, gpg, file I/O failures and crashes are parameters of actions or of methods.

An `enqueue_build` transaction reads the database and can insert only while nothing has been committed
since, to whatever table: SQLite refuses the write of a transaction whose snapshot is stale. The model counts
the commits, those to tables it does not hold included (`WriteElsewhere`); a statement that affects no row
commits nothing. So it lets through no insert that SQLite would refuse for that reason, tables that change and
change back included (`Theorems.ChangedBackIsStale`), and may abort one that SQLite would accept.

What comes from outside is not restricted: in every state any request, any crash, any line, exit code or failure
of publishing is possible (`Theorems.AnyRequestMayCome`, `Theorems.AnyOutcomeMayCome`).

What the daemon does "by itself" (`Theorems.IsInternal`) is what its tasks do once containers end and their
output ends: these two, and the result of publishing, come from outside.

## Where the code differs from its own prose

The model follows the code. Each point is a proved statement.

- A cancel can be granted and then overwritten: `finish_build` updates unconditionally, and the comment in
  `cancel_build` ("the next claim attempt will skip it") does not cover a claim that has already happened.
  `Cancellation.GrantedCancelStands` is the equivalence: when the request is answered, the cancel stands in
  every continuation unless the row has been stamped by then, or the worker holds the build and has not yet
  registered its token, or has already seen its container exit. `Witnesses.BothWindowsOnARun` and
  `Witnesses.StampedBeforeAnswered` reach all three, and `Witnesses.CancelLostOnARun` is a whole run on which
  the cancelled build is published.
- `add_package` stores the package before it looks at the variant tags, and both it and `set_package_variants`
  store the variants before they queue builds. A request that stops in between, at an unknown tag or at a
  statement the database refuses, leaves an active variant without a build, and repeating the change of variants
  does not help, since the variant is active already (`Daemon.AppState.AddPackage` and
  `Daemon.AppState.SetPackageVariants` are equivalences; `Witnesses.RefusedVariantStaysUnbuilt` is a run).
  `set_package_variants` also compares with a row it read before its own write; when the package is deleted and
  added again in between, no build is queued although nothing was refused
  (`Daemon.AppState.ApplyVariants`, an equivalence; `Witnesses.StaleVariantsStayUnbuilt` is a run).
  `Handlers.UnbuiltIff` says over all interleavings which variants are left without a build.
- `enqueue_all_variants` wakes only its first build and the poller wakes none, so that the builds of the other
  variants are not built before other work, but wait: once everything sent has been handled, a build is still
  queued exactly when its id was neither read by the start-up scan nor sent by a handler
  (`Theorems.StillQueuedIff`), and `Witnesses.SecondVariantWaits` is a run on which a second variant waits
  in a daemon at rest. The next start takes it (`Theorems.CrashRecoveryDrains`).
- A build whose package is deleted between its claim and the look-up of the package can only end with an
  error, its row still running (`Recovery.ComesToRest` says so of exactly these builds).
- Poll deduplication holds while live builds fit the 1000-row snapshots (`Theorems.OnePollBuildPerPackage`).
  A pass queues a package again exactly when the snapshots hold none of its live builds
  (`Polling.MissedBuildIsQueuedAgain`), and `Witnesses.PolledTwice` is a run that gets there.
- The unique index alone does not keep build numbers dense (`Schema.UniqueIndexIsNotEnough`); the transaction does.
- Network errors end an upload at once, however early they come (`S3Retry.FollowsMeans`).
- `truncate` panics on a response body with a character across byte 512, so that a put or delete keeps its retry
  policy exactly when no such body is read (`S3Retry.PromiseKeptIff`); a 503 that should be retried can end it
  (`S3Retry.PanicInsteadOfRetry`).
- A '#' in a key is signed as part of the path, and the client does not send it (`S3Url.FragmentIff`, an equivalence).
- "Nothing needs encoding" in the signed path is true exactly of unreserved characters and slashes, and not of
  the ':' of an epoch or a '+' (`S3Url.CanonicalPathIff`, `S3Url.EpochIsNotEncoded`).
- A prefix that starts with a slash makes `put` return a public URL that does not name the stored key
  (`S3Url.PublicUrlNamesTheObject`, an equivalence).
- The clean-up of `.stage` after a publish deletes the files of another variant when the configured
  architecture puts that variant's directory there (`RepoStore.IsolatedIff`, `RepoStore.InStageIff`).
- A failing `repo-remove` leaves the database without a signature (`RepoStore.Disk.RemoveWith`, an equivalence),
  and a publish that stops after its copies, or in signing, can leave a listed file without a fitting one
  (`RepoStore.Disk.PublishWith`, two equivalences).
- The follower decodes every chunk on its own, so a cut inside a character can change what is printed
  (`FollowerBytes.PrintedSameIff`, an equivalence), and it strips its markers from log text that starts with one
  (`Follower.PrintedIntactIff`).
- A value that looks like an array does not survive the `.SRCINFO` parser
  (`SrcInfo.CanonicalLineTokenises`, an equivalence).

## Model

| member | source | states |
|---|---|---|
| Theorems.RowsMoveForward | crates/paur-db/src/queries.rs:302-421 | along every run, crashes included, a row's status only moves queued, running, final or queued, cancelled; package, number, variant and trigger never change |
| Theorems.ClaimedAtMostOnce | crates/paur-db/src/queries.rs:302-336 | each build id is claimed at most once in its whole life, however often it is woken and across restarts |
| Theorems.RowsWellFormed | crates/paur-daemon/src/worker.rs:258-297 | in every reachable database each row has exactly the columns its status allows (exit 0 iff success, none if cancelled, a file only on success), belongs to a package, and numbers are 1..n ordered like ids |
| Theorems.StaleReadsFail | crates/paur-db/src/queries.rs:218-253 | a transaction that read at one state of a run can insert at a later state iff nothing was committed in between and its package exists; the number it read is then still the next one and free |
| Theorems.CommitsCount | crates/paur-db/src/queries.rs:218-253 | along every run, as long as no step commits, the tables stay as they are |
| Theorems.CommitsIff | crates/paur-db/src/queries.rs:218-575 | an action commits iff its statement changes a row, and then once: a reap with nothing running, a cancel of a final row and a delete of no row commit nothing |
| Theorems.ChangedBackIsStale | crates/paur-db/src/queries.rs:218-253 | tables that changed and changed back are equal to the snapshot, and the insert is still refused |
| Theorems.NeverReturns | crates/paur-db/migrations/0001_init.sql:17-32 | ids are never reused: a deleted build never comes back |
| Theorems.CancelledInQueueNeverRuns | crates/paur-daemon/src/api.rs:558-589 | a build cancelled while queued is never claimed, started or published, and stays cancelled, in every continuation |
| Theorems.FiredTokenWins | crates/paur-builder/src/lib.rs:240-273 | a token fired before the container's exit wins the biased select: the row ends cancelled without exit code and nothing is ever published |
| Cancellation.GrantedCancelStands | crates/paur-daemon/src/api.rs:558-589 | from any reachable state in which a granted cancel fires its token and the build's row exists: the token is fired if it was registered and the request is over; the row stays cancelled and the build unpublished in every continuation iff the row is still cancelled and the worker is not holding the build before its token is registered or after the container exited by itself |
| Witnesses.BothWindowsOnARun | crates/paur-daemon/src/worker.rs:191-264 | both windows are reached from a fresh database with a cancel granted in them |
| Witnesses.StampedBeforeAnswered | crates/paur-daemon/src/api.rs:564-585 | so is a state in which the worker has stamped and published between the granted change of the row and the token: the cancel does not stand although the worker no longer holds the build |
| Theorems.LogIsDense | crates/paur-db/src/queries.rs:548-575 | a stored log is numbered exactly 1..n, with two unsynchronised writers |
| Theorems.LogsGrowAtTheEnd | crates/paur-db/src/queries.rs:548-595 | between any two states of a run a stored log only grows at its end |
| Theorems.StoredInOrder | crates/paur-builder/src/lib.rs:215-232 | the stored lines of each reader are an in-order subsequence of the lines it produced; lines may be lost, none is invented, repeated or moved; a line without carriage returns and line feeds is stored exactly as produced, any other without these; all are stored as standard output |
| Protocol.StrippedIs | crates/paur-daemon/src/worker.rs:464 | what is stored of a line has no carriage return and no line feed and every other character as often; it is the line itself iff that has neither |
| Protocol.StrippedConcat | crates/paur-daemon/src/worker.rs:464 | and in the same order: stripping two texts in a row is stripping both |
| Theorems.NothingLeftOver | crates/paur-daemon/src/worker.rs:221-256 | between builds no token, channel, open reader or running row is left, except for builds whose processing returned an error |
| Theorems.OneBuildRuns | crates/paur-daemon/src/worker.rs:168-181 | every running row is the worker's current build or one whose processing returned an error |
| Theorems.CrashRecoveryDrains | crates/paur-daemon/src/worker.rs:102-181 | after a start with at most 10,000 queued rows, once the scanned ids are consumed no build from before is queued or running unless its processing returned an error |
| Theorems.FailedScanIsFinal | crates/paur-daemon/src/worker.rs:149-165 | after an error of the start-up scan nothing more is read from the queue until the next start |
| Theorems.WorkIsUsedUp | crates/paur-daemon/src/worker.rs:168-335 | each action of the worker and of the scan's sender lowers a bound on the remaining work, so that consumption terminates |
| Theorems.NeverStuck | crates/paur-daemon/src/worker.rs:168-335 | while work remains, and provided containers and their output end, the scan, the worker or a reader of its build can act; an error is needed only for a claimed build whose package is gone, and a line is dropped only when the table refuses it |
| Recovery.ComesToRest | crates/paur-daemon/src/worker.rs:168-335 | from every serving state of a run such actions alone lead to an empty channel, a finished scan and an idle worker; the builds that returned an error are those that had before and the one, if any, that was claimed and had lost its package |
| Recovery.RecoversCompletely | crates/paur-daemon/src/worker.rs:102-181 | every reachable just-started state with at most 10,000 queued rows has a crash-free, error-free continuation, by the three steps of the start and the daemon's own actions, after which no build is queued or running |
| Theorems.OnePollBuildPerPackage | crates/paur-daemon/src/poller.rs:38-95 | no package ever has two live poll builds while live rows fit the snapshots, whatever comes between snapshot and insert |
| Polling.MissedBuildIsQueuedAgain | crates/paur-daemon/src/poller.rs:43-95 | a pass in which every ref advanced queues a build for a package iff none of its live builds is among the newest 1000 of its status; no other row changes |
| Polling.SecondPollBuildIff | crates/paur-daemon/src/poller.rs:43-65 | a package whose one live build came from the poller gets a second one iff that build is not among the newest 1000 of its status |
| Polling.PassIsAPath | crates/paur-daemon/src/poller.rs:38-95 | the pass is a path of the protocol with exactly these tables at its end |
| Witnesses.PolledTwice | crates/paur-daemon/src/poller.rs:43-95 | a complete run (a poll build, a thousand newer builds, a pass) to two live poll builds of one package |
| Theorems.StillQueuedIff | crates/paur-daemon/src/worker.rs:149-181 | when everything sent is handled, a build that was queued since the start and was neither cancelled there nor in error is still queued iff its id was neither scanned nor sent by a handler |
| Witnesses.SecondVariantWaits | crates/paur-daemon/src/api.rs:260-282 | a complete run on which the second of two active variants is still queued in a daemon at rest, whatever the first build did |
| Invariants.InvStep | crates/paur-daemon/src/worker.rs:184-335 | every action of every task keeps the whole invariant |
| Invariants.InvHolds | crates/paur-daemon/src/worker.rs:91-335 | every state of every run satisfies the invariant |
| Refinement.ProcessOneIsAPath | crates/paur-daemon/src/worker.rs:184-335 | from every invariant state with a queued build in hand, actions about that build alone lead to the tables, tokens and channels of the sequential method, for every outcome of the container and of publishing |
| Refinement.GrantedCancelCanBeLost | crates/paur-daemon/src/worker.rs:191-225 | from each such state some continuation grants a cancel and still ends in success and publication |
| Witnesses.CancelLostOnARun | crates/paur-daemon/src/worker.rs:191-225 | a complete run from a fresh database on which that happens |
| Schema.RankedIsDense | crates/paur-db/migrations/0003_build_seq.sql:28-31 | carrying one's rank means that each package's numbers are exactly 1..n and ordered like the ids |
| Schema.BackfillRanks | crates/paur-db/migrations/0003_build_seq.sql:15-26 | the backfill establishes this from any rows with any id gaps |
| Schema.InsertKeepsOk | crates/paur-db/src/queries.rs:218-253 | max+1 never collides and keeps numbers dense and tables well-formed |
| Schema.ReapKeepsOk | crates/paur-db/src/queries.rs:531-542 | after the reap nothing runs and the tables are well-formed |
| Schema.DeleteKeepsOk | crates/paur-db/src/queries.rs:127-134 | a cascading delete keeps the other packages' numbers dense and changes no surviving row |
| Schema.UniqueIndexIsNotEnough | crates/paur-db/src/queries.rs:218-253 | a number read before the package id was reused passes the index and breaks density: the transaction is what guarantees it |
| Schema.ListBuildsSpec | crates/paur-db/src/queries.rs:486-527 | the listing holds the newest rows of a status, newest first, all of them when they fit the limit |
| Schema.NewestIsUnique | crates/paur-db/src/queries.rs:486-527 | that description admits one list only |
| Database.Db.BackfillNumbers | crates/paur-db/migrations/0003_build_seq.sql:18-26 | one pass with a counter per package computes the window function and makes numbers dense |
| Database.Db.EnqueueBuild | crates/paur-db/src/queries.rs:218-253 | fails iff the package is missing or the database refuses, changing nothing; else adds one queued row with a fresh id, the caller's package, trigger, variant and time, and the package's new count as number |
| Database.Db.ClaimNextQueued | crates/paur-db/src/queries.rs:257-294 | claims the queued build with the least time, and of these the least id, if there is one, and only that |
| Database.Db.ClaimBuildById | crates/paur-db/src/queries.rs:302-336 | succeeds iff the build is queued, and then sets status, worker and start time; nothing else changes |
| Database.Db.FinishBuild | crates/paur-db/src/queries.rs:339-358 | stamps the row whatever its status and no other one; the tables stay well-formed iff status, exit code and row fit |
| Database.Db.CancelBuild | crates/paur-db/src/queries.rs:371-421 | not found iff there is no such row, already final with that row's status, else cancelled at the given time; only a live row changes |
| Database.Db.RecordPkg | crates/paur-db/src/queries.rs:424-433 | the row gets file and version, nothing else changes; the tables stay well-formed iff the recorded build is a success |
| Database.Db.ReapStaleRunning | crates/paur-db/src/queries.rs:531-542 | every running row becomes failed with exit code -1, no other row changes |
| Database.Db.ListBuildsBy | crates/paur-db/src/queries.rs:486-527 | a selection loop yields exactly the newest rows in order |
| Database.Db.DeletePackage | crates/paur-db/src/queries.rs:127-134 | removes the package, exactly its builds and their logs; unique names stay unique |
| Database.Db.UpsertPackage | crates/paur-db/src/queries.rs:72-99 | finds the package by name or adds it under a fresh id with the default variant; auto-rebuild is sticky; names stay unique |
| Database.Db.SetVariants | crates/paur-db/src/queries.rs:193-209 | stores the set with the default forced on, or reports that no package has the name |
| Database.Db.AppendLog | crates/paur-db/src/queries.rs:548-575 | adds the line after the last one iff the build exists |
| Daemon.AfterBuildFacts | crates/paur-daemon/src/worker.rs:252-297 | a completed build ends cancelled without a code, or with its container's code, as success iff that is 0, with the published file and version iff both are known; an incomplete one stays running; no other row or log is touched |
| Daemon.AfterAllFacts | crates/paur-daemon/src/worker.rs:168-181 | for any list of ids, repetitions included, exactly the listed queued builds end, each like its own container |
| Daemon.AppState.WriteLine | crates/paur-daemon/src/worker.rs:457-481 | the line goes behind the last one if the build exists, without line ends and otherwise unchanged, and the build gets a channel; nothing else changes |
| Daemon.OutputIsStored | crates/paur-daemon/src/worker.rs:457-481 | a build's output is stored behind what its log had, line by line and in order |
| Daemon.AppState.ProcessOne | crates/paur-daemon/src/worker.rs:184-335 | skips a build that is not queued; else the row ends like its container, no other row changes, and after an ok return neither token nor channel of the build is left, after an error the token is |
| Daemon.AppState.Recover | crates/paur-daemon/src/worker.rs:102-181 | start-up after a crash ends what ran as failed and drains up to 10,000 queued builds; of more it takes exactly 10,000 and leaves only older ones |
| Daemon.AppState.CancelRequest | crates/paur-daemon/src/api.rs:558-589 | a granted cancel takes and fires the registered token; a refused one changes nothing |
| Daemon.AppState.EnqueueAllVariants | crates/paur-daemon/src/api.rs:264-282 | one build per active variant in build order up to the first refusal; the first is woken iff none was refused |
| Daemon.AppState.AddPackage | crates/paur-daemon/src/api.rs:284-311 | ok iff all tags are known and no statement is refused, else the first unknown tag or a database error; completeness is kept iff nothing or only a known package's row was stored, or each desired variant has a build or got one before the first refusal |
| Daemon.AppState.FinishAdd | crates/paur-daemon/src/api.rs:299-311 | the part from `set_variants` on, for any id read earlier: the exact tables, and complete afterwards iff each desired variant of the package of that name has a build or one was queued for that very package |
| Daemon.AppState.SetPackageVariants | crates/paur-daemon/src/api.rs:397-431 | ok iff tags and package are known and no statement is refused, else the error that comes first; newly active variants get a build each, in order and woken, up to the first refusal; completeness is kept iff each of them has a build or gets one before that |
| Daemon.AppState.ApplyVariants | crates/paur-daemon/src/api.rs:413-431 | the part from `set_variants` on, for any row read earlier: the exact tables, and complete afterwards iff each desired variant has a build or is newly active against the row read and queued for that very package |
| Daemon.AppState.RebuildPackage | crates/paur-daemon/src/api.rs:470-492 | ok iff the package is known and nothing is refused; queues its active variants up to the first refusal, after which a complete answer means a complete package; never loses completeness |
| Daemon.AppState.RemovePackage | crates/paur-daemon/src/api.rs:441-468 | ok iff the package is known and nothing is refused; then it is gone with its builds, else nothing changed; the other packages stay complete |
| Daemon.AppState.Serve | crates/paur-daemon/src/api.rs:284-492 | over any run of package requests, whatever is refused, completeness is kept unless an addition was answered with an error or a change of variants with a database error |
| Completeness.CompleteIff | crates/paur-daemon/src/api.rs:405-431 | after storing variants for one package and queueing builds for a maybe different one, all packages are complete iff each desired variant had a build or was queued for that package |
| Handlers.UnbuiltIff | crates/paur-daemon/src/api.rs:284-492 | in any state of any run an active variant has no build iff some step stored it active without one and no step since has queued one, stored the package without it, or deleted the package |
| Handlers.UnbuiltStep | crates/paur-daemon/src/api.rs:264-492 | exactly what each action of every task does to that; worker, readers and start-up never help |
| Handlers.HandlerIsAPath | crates/paur-daemon/src/api.rs:299-431 | what the two handlers do to the tables, with and without a refusal, is a path of the protocol |
| Witnesses.RefusedVariantStaysUnbuilt | crates/paur-daemon/src/api.rs:284-311 | a complete run on which a refused insert leaves an active variant unbuilt in a daemon at rest, and a change of variants to the same set finds nothing newly active |
| Witnesses.StaleVariantsStayUnbuilt | crates/paur-daemon/src/api.rs:397-431 | reachable states, complete before each request, from which a change of variants with a stale row leaves an active variant unbuilt |
| Variants.PackageVariants.TurnOff | crates/paur-core/src/build_flags.rs:254-262 | no variant but the named one changes, and the default cannot be turned off |
| Variants.PackageVariants.Active | crates/paur-core/src/build_flags.rs:223-233 | exactly the active variants, each once, in build order |
| Variants.ToggleAll | crates/paur-cli/src/cmd.rs:344-351 | V3 and V4 end active iff initially active xor named an odd number of times; the default is only ever turned on |
| Variants.ToggleIgnoresOrder | crates/paur-cli/src/cmd.rs:344-351 | the order of the names does not matter |
| Variants.ParseVariantsField | crates/paur-daemon/src/api.rs:250-258 | ok iff every tag is known, with exactly the named variants plus the default; else the first unknown tag |
| Variants.WireRoundTrip | crates/paur-core/src/build_flags.rs:130-166 | sending the active tags and decoding them gives the same set with the default forced on |
| Variants.ToggleOverTheWire | crates/paur-cli/src/cmd.rs:344-369 | toggle, send, decode stores the toggled set up to the default |
| SrcInfo.Parse | crates/paur-aur/src/srcinfo.rs:141-188 | succeeds iff every line can be read; then each package has, field by field, what its own blocks set, and otherwise what the base has; else reports the first malformed line's number and raw text |
| SrcInfo.ApplyKey | crates/paur-aur/src/srcinfo.rs:197-253 | one line keeps the records equal to what the entries so far mean, each field under its own key: last value, concatenation, block by last name |
| SrcInfo.MeaningIsUnique | crates/paur-aur/src/srcinfo.rs:141-188 | the meaning determines all nineteen fields of every record |
| SrcInfo.MalformedIff | crates/paur-aur/src/srcinfo.rs:146-177 | a line is malformed iff something is left after comment cut and trim and it has no '=' |
| SrcInfo.BlankLinesDoNotMatter | crates/paur-aur/src/srcinfo.rs:146-150 | inserting a blank or comment line anywhere changes neither readability nor entries |
| SrcInfo.CanonicalLineTokenises | crates/paur-aur/src/srcinfo.rs:151-171 | "key = value" tokenises back to exactly its parts iff the value is not array-shaped |
| SrcInfo.CanonicalFile | crates/paur-aur/src/srcinfo.rs:146-171 | a file of such lines is readable and its entries are the keys and values written |
| SrcInfoLines.ArrayTokenises | crates/paur-aur/src/srcinfo.rs:151-163 | an array comes back as its words in order, however they are spaced |
| SrcInfoLines.QuotedTokenises | crates/paur-aur/src/srcinfo.rs:164-170 | a quoted value comes back without the quotes around it and with the spaces inside them |
| SrcInfoLines.MarginsDoNotMatter | crates/paur-aur/src/srcinfo.rs:146-150 | blanks around a line and a comment after it change nothing |
| Text.LastLine | crates/paur-aur/src/srcinfo.rs:146 | a line may end with "\n" or "\r\n", and the last one without |
| SrcInfo.MergeByField | crates/paur-aur/src/srcinfo.rs:79-137 | whichever of the nineteen fields: the override's value if it is set, else the base's |
| SrcInfo.MergeLaws | crates/paur-aur/src/srcinfo.rs:79-137 | merging is associative and idempotent with the default record as two-sided identity |
| SrcInfo.KeysAreFields | crates/paur-aur/src/srcinfo.rs:225-252 | each of the eighteen fields is written under its own key and reached by no other |
| SrcInfo.PropagatedAlready | crates/paur-aur/src/srcinfo.rs:179-185 | propagating the base over a parsed file a second time changes nothing |
| SrcInfo.VersionByBlocks | crates/paur-aur/src/srcinfo.rs:57-74 | the full version of any name: version, dash, release from the last lines of its own blocks, else the base's, with a non-empty epoch and a colon in front; none iff version or release is missing |
| RepoStore.VariantsAreDisjoint | crates/paur-repo/src/lib.rs:147-154 | for any architecture string no path is a file of two variants |
| RepoStore.Layout | crates/paur-repo/src/lib.rs:139-185 | the directory, database and signature of each variant, spelled out |
| RepoStore.InStageIff | crates/paur-repo/src/lib.rs:147-154 | a relative architecture puts a variant's directory into the staging space iff its first part is ".stage" |
| RepoStore.IsolatedIff | crates/paur-repo/src/lib.rs:194-245 | a publish leaves all files of another variant unchanged iff that variant is not in the staging space or has no files |
| RepoStore.PublishDeletesDefault | crates/paur-repo/src/lib.rs:242-245 | a concrete configuration in which a publish of v3 deletes the default variant |
| RepoStore.PublishedSpec | crates/paur-repo/src/lib.rs:194-245 | artifacts present and signed; each package among them listed with the name of its last archive, every other one as before or not at all; the database signed; every other file of the variant as before except the list of files, links, old copies and lock that repo-add writes |
| RepoStore.RemovedSpec | crates/paur-repo/src/lib.rs:334-347 | the database loses just the entry and is signed again; only the files that repo-remove writes beside it may differ otherwise |
| RepoStore.PublishKeepsConsistent | crates/paur-repo/src/lib.rs:194-240 | every database entry keeps its file and a signature of the file's present content |
| RepoStore.RemoveKeepsConsistent | crates/paur-repo/src/lib.rs:334-347 | likewise for a removal |
| RepoStore.Disk.PublishWith | crates/paur-repo/src/lib.rs:194-303 | ok iff there are artifacts and nothing interrupts the call, else the error of what goes wrong first; then `IsPublished`; one that ends before the script leaves a consistent variant consistent iff no copy changed a listed file, one that ends in signing iff each listed artifact is signed by then or keeps a fitting signature; files of other variants outside the staging space are never touched |
| RepoStore.Disk.RemoveWith | crates/paur-repo/src/lib.rs:334-347 | afterwards the database's signature is fresh iff the call succeeded or changed nothing |
| RepoStore.Disk.Sign | crates/paur-repo/src/lib.rs:506-545 | a signature of the present content iff there is something to sign and gpg does not fail; else the old one is gone |
| RepoStore.Disk.Serve | crates/paur-repo/src/lib.rs:194-347 | over any run of calls, a variant whose own calls succeed stays consistent, and signed once touched, whatever happens to the others |
| S3Retry.Put | crates/paur-s3/src/lib.rs:171-225 | for any stream of responses and bodies: at most five requests; each one before the last answered 408, 429 or 500 to 599; done on 200 to 299, permanent on a status in none of these with the body cut at byte 512, exhausted after five, a transport error or a panic else; as the statuses promise iff it does not panic; the sleep before each request within the bounds of its delays |
| S3Retry.Delete | crates/paur-s3/src/lib.rs:230-274 | the same with 404 accepted |
| S3Retry.PromiseKeptIff | crates/paur-s3/src/lib.rs:189-213 | the outcome is what the statuses promise iff no response that is read and not accepted has a body with a character across byte 512; otherwise the request panics |
| S3Retry.TruncatePanicsIff | crates/paur-s3/src/lib.rs:456-462 | cutting a text at a byte panics iff the text is longer and that byte is inside a character |
| S3Retry.PanicInsteadOfRetry | crates/paur-s3/src/lib.rs:199-205 | a concrete 503 whose body ends a put that the following 200 would have completed |
| S3Retry.FollowsMeans | crates/paur-s3/src/lib.rs:189-213 | exhausted iff all five responses are retried; success iff the first one that is not retried comes within five and is accepted; a transport error ends the request at once |
| S3Retry.SleepBounds | crates/paur-s3/src/lib.rs:53-58 | before the second to fifth request the jittered, truncated delays add up to 700 to 1299, 2100 to 3898, 5600 to 10,397 and 16,100 to 29,896 ms |
| S3Retry.BoundsAreTight | crates/paur-s3/src/lib.rs:464-470 | both bounds are reached |
| S3Url.SigningSeesTheUrl | crates/paur-s3/src/lib.rs:136-155 | for every endpoint with a scheme, in both styles, the signed host is the lower-cased host of the URL sent and the canonical path is its path, and together they are the URL |
| S3Url.ReassemblesIff | crates/paur-s3/src/lib.rs:375-413 | host, path and query of any signable URL reassemble to it iff no '?' comes before the first '/' |
| S3Url.PartsExist | crates/paur-s3/src/lib.rs:136-155 | every endpoint with a scheme has a host and a path in this sense |
| S3Url.CannotSignIff | crates/paur-s3/src/lib.rs:375-413 | signing fails iff there is no scheme, or no slash after it |
| S3Url.FragmentIff | crates/paur-s3/src/lib.rs:136-155 | the signed path is the requested one iff it has no '#' |
| S3Url.CanonicalPathIff | crates/paur-s3/src/lib.rs:387-413 | the signed path is the percent-encoded one iff every character of endpoint path, bucket and key is unreserved (RFC 3986, section 2.3) or a slash |
| S3Url.EncodedStandsFor | crates/paur-s3/src/lib.rs:387-413 | percent-decoding the encoded path gives the UTF-8 form of the path |
| S3Url.PublicUrlNamesTheObject | crates/paur-s3/src/lib.rs:279-288 | put returns the URL it sent to without a public URL; with one, it names the stored key (p/k, by `S3Url.PrefixOnce`) iff the prefix has no leading slash |
| S3Url.PrefixOnlyOnce | crates/paur-s3/src/lib.rs:158-166 | prefixing twice differs from once iff the prefix is more than slashes, so the raw key has to be passed on |
| S3Url.PrefixOnce | crates/paur-s3/src/lib.rs:158-166 | with a prefix p and a key k, whatever slashes follow the one and lead the other, the stored key is p/k |
| S3Url.NoPrefix | crates/paur-s3/src/lib.rs:158-166 | without a prefix, or with one of slashes only, it is k |
| S3Url.PrefixOnceInUrls | crates/paur-s3/src/lib.rs:136-166 | the URL sent to is endpoint, bucket and p/k in either style, and the URL returned is that one or the public URL and p/k: the prefix is in each once |
| Follower.Follow | crates/paur-cli/src/cmd.rs:189-215 | the incremental buffer loop prints what the whole text means, so only the concatenation of the chunks matters |
| Utf8.DecodesApartIff | crates/paur-cli/src/cmd.rs:195 | two chunks decode apart as together iff the cut splits no UTF-8 sequence (RFC 3629, section 4) |
| Utf8.BytesDoNotMatterIff | crates/paur-cli/src/cmd.rs:193-195 | the buffered text is the decoding of all bytes iff no cut splits a sequence; else it is longer |
| Utf8.DecodeEncoded | crates/paur-cli/src/cmd.rs:195 | the lossy decoder gives back every text from its UTF-8 form (RFC 3629, section 3) |
| FollowerBytes.BufferedIsGrown | crates/paur-cli/src/cmd.rs:193-195 | the buffered text differs from the decoded one only by characters beyond ASCII that became several replacement characters |
| FollowerBytes.PrintedSameIff | crates/paur-cli/src/cmd.rs:189-215 | what is printed depends only on all bytes together iff no cut splits a sequence before the end of the last complete line ahead of the done event |
| FollowerBytes.FollowBytes | crates/paur-cli/src/cmd.rs:189-215 | the command on bytes, with the same equivalence |
| FollowerBytes.CutEuroSign | crates/paur-cli/src/cmd.rs:193-195 | a concrete cut that changes the text |

## Left out

- Docker/podman, git, gpg, `repo-add`, makepkg, clocks and file I/O: parameters of actions and methods; a failing container may leave any database behind.
- `latest_build_for` and the other read-only queries, which would only add easy members.
- SQL text, sqlx, the connection pool, the other migrations and 64-bit overflow of ids and numbers.
- HTTP routing, JSON, authentication, sessions, the path-traversal and loopback checks, SigV4 hashing, the web UI and service files.
- `PkgName` validation: package names are arbitrary strings, and an invalid name is one of the worker's error returns.
- `set_last_ref` and the comparison of AUR refs: the poller's decision to enqueue is a free choice of the model.
- The order of the wake channels, which are bags, and their capacity of 32: a handler sends after its insert, so a full channel delays no row.
- The broadcast of log lines to live listeners and the event framing of `stream_logs`.
- The uploads of `publish` to S3: errors are logged and ignored, but the panic of `S3Retry.PromiseKeptIff` reaches the worker task and ends it, and the protocol has no state of a serving daemon without a worker.
- Liveness of a queued build without a restart: the code does not give it.
- Daemon.AppState.FinishAdd: other requests may come between the read and the write of a handler, here and in `ApplyVariants`; between its later statements they may in `Handlers.UnbuiltIff` only, where a handler's steps are free actions.
- Cancellation.GrantedCancelStands: a build whose row was deleted with its package before the request is answered has no status left to stand.
- `PackageBuildFlags`, `human_bytes`, `run_cleanup_work`, `Config`, `Paths`: correct by reading.
- S3Retry.Put: the signing error for a URL without a scheme, which comes before the first request, is not part of the loop; jitter factors are reals in [0.7, 1.3), not floating point.
- RepoStore.IsolatedIff: paths are compared as strings, so ".." and "." inside the configured directory or architecture are not resolved; the repository name has no '/'.
- RepoStore.Disk.PublishWith: artifact names are file names that do not end in `.sig` and are not the repository's own, as the builder's listing gives them unless makepkg signs; the caller's list is not checked for this in the source either.
- S3Url.SigningSeesTheUrl: endpoint, bucket and key contain no '?', and in host style the bucket contains no '/'.
- RepoStore.InStageIff: for a relative architecture only; an absolute one replaces the repository directory and is covered by `IsolatedIff`.
- Daemon.AppState.ProcessOne: file removal of the work directory is not modelled; a cancel during the build is the container's outcome here and an action of its own in `Protocol`.
