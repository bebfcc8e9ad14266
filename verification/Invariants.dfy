/** The inductive invariants of `Protocol`, and their preservation by every action. */
module Invariants {
  import opened Options
  import opened Variants
  import opened Schema
  import opened Protocol

  // -------- claims and the worker's row --------

  /** The stages between the claim and `finish_build`. */
  predicate BeforeStamp(at: Stage) {
    at.Claimed? || at.PackageFound? || at.Registered? || at.Inside? || at.Exited? || at.Drained? || at.Unregistered?
  }

  predicate BeforeSpawn(at: Stage) {
    at.Claimed? || at.PackageFound? || at.Registered?
  }

  /** No build is claimed twice, and what was claimed is not queued any more. */
  ghost predicate ClaimsInv(s: State) {
    && (forall i, j | 0 <= i < j < |s.h.claims| :: s.h.claims[i] != s.h.claims[j])
    && (forall b | b in s.h.claims :: b < s.t.nextBuildId && !IsQueued(s.t, b))
    && (s.worker.Off? <==> !s.phase.Serving?)
    && (s.worker.Busy? ==> s.worker.b in s.h.claims)
  }

  /** What the row of the worker's build can be at each stage. */
  predicate WorkerRow(r: BuildRow, at: Stage) {
    && (at.Claimed? ==> r.pkg == at.pkg)
    && (BeforeStamp(at) ==> r.startedAt.Some? && (r.status.Running? || r.status.Cancelled?))
    && (at.Stamped? ==> r.status == FinalStatus(at.out))
    && (at.Published? ==> r.status.Success?)
    && (at.Cleaning? ==> !r.status.Live())
  }

  ghost predicate WorkerInv(s: State) {
    s.worker.Busy? && s.worker.b in s.t.builds ==> WorkerRow(s.t.builds[s.worker.b], s.worker.at)
  }

  // -------- cancellation --------

  ghost predicate HistoryInv(s: State) {
    && (forall b | b in s.h.cancelOk :: b < s.t.nextBuildId)
    && s.h.cancelledQueued <= s.h.cancelOk
    && s.cancelling <= s.h.cancelOk
    && s.fired <= s.h.cancelOk
    && s.h.published <= s.h.stamped * s.h.lost
    && (forall b | b in s.tokens :: b in s.h.claims)
    && (forall b | b in s.h.started :: b in s.h.claims)
    && (forall b | b in s.h.lost :: b in s.h.claims)
    && (forall b | b in s.h.stamped :: b in s.h.claims)
    && (s.worker.Busy? && BeforeSpawn(s.worker.at) ==> s.worker.b !in s.h.started)
  }

  ghost predicate CancelInv(s: State) {
    // A granted cancel stands until `finish_build` runs for the build.
    && (forall b | b in s.h.cancelOk && b in s.t.builds && b !in s.h.stamped :: s.t.builds[b].status.Cancelled?)
    // `finish_build` stamps `cancelled` exactly when the token won.
    && (forall b | b in s.h.stamped && b in s.t.builds ::
          !s.t.builds[b].status.Live() && (s.t.builds[b].status.Cancelled? <==> b !in s.h.lost))
    // A build cancelled in the queue is never claimed.
    && (forall b | b in s.h.cancelledQueued :: b !in s.h.claims && (b in s.t.builds ==> s.t.builds[b].startedAt.None?))
    && (s.worker.Busy? ==>
          && (BeforeStamp(s.worker.at) ==> s.worker.b !in s.h.stamped)
          && (BeforeSpawn(s.worker.at) || s.worker.at.Inside? ==> s.worker.b !in s.h.lost)
          && (s.worker.at.Exited? || s.worker.at.Drained? || s.worker.at.Unregistered? || s.worker.at.Stamped? ==>
                && (s.worker.at.out.cancelled <==> s.worker.b !in s.h.lost)
                && (s.worker.at.out.cancelled ==> s.worker.b in s.fired))
          && (s.worker.at.Stamped? ==> s.worker.b in s.h.stamped))
    // Until the container wins, a fired token belongs to a cancelled build.
    && (forall b | b in s.h.stamped && b !in s.h.lost :: b in s.fired)
  }

  /** A build registers one token, between its claim and its container; only cancel handlers take it away. */
  ghost predicate TokenInv(s: State) {
    && (forall b | b in s.fired :: b in s.h.claims)
    && (s.worker.Busy? ==>
          && (s.worker.at.Claimed? || s.worker.at.PackageFound? ==> s.worker.b !in s.fired && s.worker.b !in s.tokens)
          && (s.worker.at.Registered? || s.worker.at.Inside? ==> s.worker.b in s.tokens || s.worker.b in s.fired))
  }

  // -------- transactions --------

  /** A transaction that saw the latest commit saw the present tables. */
  ghost predicate CommitInv(s: State) {
    forall task | task in s.txs ::
      s.txs[task].at <= s.commits && (s.txs[task].at == s.commits ==> s.txs[task].seen == s.t)
  }

  // -------- the registries --------

  predicate Holds(s: State, b: BuildId) {
    s.worker.Busy? && s.worker.b == b
  }

  ghost predicate RegistryInv(s: State) {
    && (forall b | b in s.tokens :: b in s.h.errored
          || (Holds(s, b) && (s.worker.at.Registered? || s.worker.at.Inside? || s.worker.at.Exited? || s.worker.at.Drained?)))
    && (forall b | b in s.channels :: b in s.h.errored || (Holds(s, b) && !BeforeSpawn(s.worker.at)))
    && (forall key | key in s.readers :: s.readers[key].Closed? || key.0 in s.h.errored
          || (Holds(s, key.0) && (s.worker.at.Inside? || s.worker.at.Exited?)))
    && (!s.phase.Starting? ==> forall b | b in s.t.builds && s.t.builds[b].status.Running? ::
          b in s.h.errored || (Holds(s, b) && BeforeStamp(s.worker.at)))
  }

  // -------- logs --------

  /** The keys of a log are exactly 1..n. */
  ghost predicate DenseLog(lines: map<nat, LogLine>) {
    forall k :: k in lines <==> 1 <= k <= |lines|
  }

  type Produce = map<(BuildId, Reader), seq<string>>

  /** The stored line k + 1 is a line that the reader it is ascribed to has produced. */
  ghost predicate OriginOk(b: BuildId, lines: map<nat, LogLine>, o: Origin, k: nat, produced: Produce) {
    && (b, o.reader) in produced
    && o.index < |produced[(b, o.reader)]|
    && k + 1 in lines
    && lines[k + 1].line == Stripped(produced[(b, o.reader)][o.index])
    && lines[k + 1].stream.Stdout?
  }

  /** Each stored line comes from a reader, and the lines of one reader are stored in order. */
  ghost predicate LogOk(b: BuildId, lines: map<nat, LogLine>, origins: seq<Origin>, produced: Produce) {
    && DenseLog(lines)
    && |origins| == |lines|
    && (forall k | 0 <= k < |origins| :: OriginOk(b, lines, origins[k], k, produced))
    && (forall k, l | 0 <= k < l < |origins| && origins[k].reader == origins[l].reader :: origins[k].index < origins[l].index)
  }

  /** All stored lines of reader `r` come before the line it is working on. */
  ghost predicate OlderThanCurrent(origins: seq<Origin>, r: Reader, taken: nat) {
    forall k | 0 <= k < |origins| && origins[k].reader == r :: origins[k].index < taken - 1
  }

  ghost predicate ReaderOk(s: State, b: BuildId, r: Reader)
    requires (b, r) in s.readers
  {
    var pc := s.readers[(b, r)];
    && b in s.h.started
    && (b, r) in s.h.produced
    && (pc.Have? || pc.AtMax? ==>
          && |s.h.produced[(b, r)]| > 0
          && s.h.produced[(b, r)][|s.h.produced[(b, r)]| - 1] == pc.line
          && (b in s.t.logs && b in s.h.origins ==> OlderThanCurrent(s.h.origins[b], r, |s.h.produced[(b, r)]|)))
    && (pc.AtMax? ==> 1 <= pc.k && (b in s.t.logs ==> pc.k <= |s.t.logs[b]| + 1))
  }

  ghost predicate LogInv(s: State) {
    && (forall b | b in s.t.logs ::
          && b in s.h.origins && LogOk(b, s.t.logs[b], s.h.origins[b], s.h.produced)
          && (b !in s.h.started ==> |s.t.logs[b]| == 0))
    && (forall b, r | (b, r) in s.readers :: ReaderOk(s, b, r))
  }

  // -------- what the worker is told --------

  /** The ids that were sent to the worker, or are about to be, since the daemon started. */
  ghost function Sent(s: State): set<BuildId> {
    s.h.scanned + s.h.woken
  }

  /** Whether a build is still on its way to the worker. */
  ghost predicate OnItsWay(s: State, b: BuildId) {
    || (s.scan.Sending? && b in s.scan.todo)
    || b in s.wake
    || s.worker == Woken(b)
    || b in s.h.errored
  }

  ghost predicate RecoveryInv(s: State) {
    && s.h.scanMark <= s.t.nextBuildId
    && (s.phase.Serving? || (s.scan.NotScanned? && s.h.woken == {}))
    && (s.scan.NotScanned? || s.scan.ScanFailed? ==> s.h.scanned == {} && !s.h.scanWhole)
    && (forall b | b in Sent(s) && IsQueued(s.t, b) :: OnItsWay(s, b))
    && (forall b | b in s.h.scanned :: b < s.h.scanMark)
    && (forall b | b in s.h.woken :: b < s.t.nextBuildId)
    && (s.h.scanWhole ==> forall b: BuildId | b < s.h.scanMark && IsQueued(s.t, b) :: b in s.h.scanned)
  }

  /** The worker receives nothing but what was sent. */
  ghost predicate SentInv(s: State) {
    && (forall b | b in s.wake :: b in Sent(s))
    && (s.worker.Woken? ==> s.worker.id in Sent(s))
    && (s.scan.Sending? ==> forall b | b in s.scan.todo :: b in Sent(s))
  }

  /** Errors are counted per incarnation, and none happens before the worker runs. */
  ghost predicate ErrorInv(s: State) {
    !s.phase.Serving? ==> s.h.errored == {}
  }

  // -------- polling --------

  predicate LivePoll(builds: Builds, b: BuildId) {
    b in builds && builds[b].trigger.Poll? && builds[b].status.Live()
  }

  ghost predicate OneLivePoll(builds: Builds) {
    forall a, b | LivePoll(builds, a) && LivePoll(builds, b) && builds[a].pkg == builds[b].pkg :: a == b
  }

  predicate DistinctPackages(todo: seq<Polled>) {
    forall i, j | 0 <= i < j < |todo| :: todo[i].pkg != todo[j].pkg
  }

  predicate Listed(todo: seq<Polled>, p: PkgId) {
    exists i :: 0 <= i < |todo| && todo[i].pkg == p
  }

  ghost predicate PollPcOk(s: State) {
    match s.poller
    case Sleeping => true
    case HavePackages(todo) => DistinctPackages(todo)
    case HaveQueued(todo, live) =>
      && DistinctPackages(todo)
      && forall b | LivePoll(s.t.builds, b) && s.t.builds[b].status.Queued? :: s.t.builds[b].pkg in live
    case Looping(todo, live) =>
      && DistinctPackages(todo)
      && forall b | LivePoll(s.t.builds, b) :: s.t.builds[b].pkg in live || !Listed(todo, s.t.builds[b].pkg)
    case Enqueuing(todo, live) =>
      && DistinctPackages(todo)
      && (forall b | LivePoll(s.t.builds, b) :: s.t.builds[b].pkg in live || !Listed(todo, s.t.builds[b].pkg))
      && PollTask in s.txs
      && !Listed(todo, s.txs[PollTask].pkg)
      && forall b | LivePoll(s.t.builds, b) :: s.t.builds[b].pkg != s.txs[PollTask].pkg
  }

  ghost predicate PollInv(s: State) {
    && (forall task | task in s.txs :: s.txs[task].trigger.Poll? <==> task.PollTask?)
    && (s.h.pollWhole ==> OneLivePoll(s.t.builds) && PollPcOk(s))
  }

  // -------- all of it --------

  ghost predicate Inv(s: State) {
    && TablesOk(s.t)
    && ClaimsInv(s)
    && WorkerInv(s)
    && HistoryInv(s)
    && CancelInv(s)
    && TokenInv(s)
    && CommitInv(s)
    && RegistryInv(s)
    && LogInv(s)
    && RecoveryInv(s)
    && SentInv(s)
    && ErrorInv(s)
    && PollInv(s)
  }

  lemma InitialInv()
    ensures Inv(INITIAL)
  {
  }

  // -------- what an action does to the rows --------

  /** Every row was there before, unchanged, or is new and waiting in the queue. */
  ghost predicate RowsCalm(s: State, s': State) {
    && s.t.nextBuildId <= s'.t.nextBuildId
    && forall b | b in s'.t.builds ::
         || (b in s.t.builds && s'.t.builds[b] == s.t.builds[b])
         || (b >= s.t.nextBuildId && s'.t.builds[b].status.Queued? && s'.t.builds[b].startedAt.None?)
  }

  /** The worker does not move, or stops. */
  predicate WorkerRests(s: State, s': State) {
    s'.worker == s.worker || !s'.worker.Busy?
  }

  lemma ClaimsFrame(s: State, s': State)
    requires ClaimsInv(s)
    requires RowsCalm(s, s')
    requires WorkerRests(s, s')
    requires s'.h.claims == s.h.claims
    requires s'.worker.Off? <==> !s'.phase.Serving?
    ensures ClaimsInv(s')
  {
  }

  lemma WorkerFrame(s: State, s': State)
    requires ClaimsInv(s) && WorkerInv(s)
    requires RowsCalm(s, s')
    requires WorkerRests(s, s')
    ensures WorkerInv(s')
  {
  }

  lemma CancelFrame(s: State, s': State)
    requires ClaimsInv(s) && HistoryInv(s) && CancelInv(s)
    requires RowsCalm(s, s')
    requires WorkerRests(s, s')
    requires s.fired <= s'.fired
    requires s'.h.claims == s.h.claims && s'.h.cancelOk == s.h.cancelOk && s'.h.cancelledQueued == s.h.cancelledQueued
    requires s'.h.stamped == s.h.stamped && s'.h.lost == s.h.lost
    ensures CancelInv(s')
  {
  }

  lemma RegistryFrame(s: State, s': State)
    requires RegistryInv(s)
    requires RowsCalm(s, s')
    requires s'.worker == s.worker && s'.phase == s.phase && s'.h.errored == s.h.errored
    requires s'.tokens <= s.tokens && s'.channels <= s.channels && s'.readers == s.readers
    ensures RegistryInv(s')
  {
  }

  // -------- the invariants about rows, claims, cancellation and tokens --------

  ghost predicate RowInv(s: State) {
    ClaimsInv(s) && WorkerInv(s) && HistoryInv(s) && CancelInv(s) && TokenInv(s)
  }

  lemma RowFrame(s: State, s': State)
    requires RowInv(s)
    requires RowsCalm(s, s') && WorkerRests(s, s')
    requires s'.worker.Off? <==> !s'.phase.Serving?
    requires s'.cancelling <= s.cancelling && s.fired <= s'.fired <= s.fired + s.cancelling * s.tokens && s'.tokens <= s.tokens
    requires s'.worker.Busy? ==> s.tokens <= s'.tokens + s'.fired
    requires s'.h.claims == s.h.claims && s'.h.cancelOk == s.h.cancelOk && s'.h.cancelledQueued == s.h.cancelledQueued
    requires s'.h.stamped == s.h.stamped && s'.h.lost == s.h.lost && s'.h.started == s.h.started && s'.h.published == s.h.published
    ensures RowInv(s')
  {
    ClaimsFrame(s, s');
    WorkerFrame(s, s');
    CancelFrame(s, s');
  }

  lemma RowBoot(s: State, a: BootAction)
    requires RowInv(s)
    requires CanBoot(s, a)
    ensures RowInv(DoBoot(s, a))
  {
    match a
    case ReapStale(now) =>
    case _ => RowFrame(s, DoBoot(s, a));
  }

  lemma RowApi(s: State, a: ApiAction)
    requires IdsBelow(s.t.builds, s.t.nextBuildId) && RowInv(s)
    requires forall i | i in s.t.builds :: RowOk(s.t.builds[i])
    requires CanApi(s, a)
    ensures RowInv(DoApi(s, a))
  {
    if a.CancelRow? {
      RowCancel(s, a.id, a.now);
    } else {
      RowFrame(s, DoApi(s, a));
    }
  }

  lemma RowCancel(s: State, id: BuildId, now: int)
    requires IdsBelow(s.t.builds, s.t.nextBuildId) && RowInv(s)
    requires forall i | i in s.t.builds :: RowOk(s.t.builds[i])
    ensures RowInv(DoApi(s, CancelRow(id, now)))
  {
  }

  lemma RowPoll(s: State, a: PollAction)
    requires IdsBelow(s.t.builds, s.t.nextBuildId) && RowInv(s)
    requires CanPoll(s, a)
    ensures RowInv(DoPoll(s, a))
  {
    RowFrame(s, DoPoll(s, a));
  }

  lemma RowClaim(s: State, now: int)
    requires IdsBelow(s.t.builds, s.t.nextBuildId) && RowInv(s)
    requires CanWorker(s, ClaimBuild(now))
    ensures RowInv(DoWorker(s, ClaimBuild(now)))
  {
  }

  lemma RowStamp(s: State, now: int)
    requires RowInv(s)
    requires CanWorker(s, Stamp(now))
    ensures RowInv(DoWorker(s, Stamp(now)))
  {
  }

  lemma RowRecord(s: State, file: string, version: string)
    requires RowInv(s)
    requires CanWorker(s, RecordFile(file, version))
    ensures RowInv(DoWorker(s, RecordFile(file, version)))
  {
  }

  lemma RowEnter(s: State, a: WorkerAction)
    requires RowInv(s)
    requires CanWorker(s, a) && (a.FindPackage? || a.RegisterToken? || a.Spawn? || a.SelectCancel? || a.SelectExit?)
    ensures RowInv(DoWorker(s, a))
  {
  }

  lemma RowLeave(s: State, a: WorkerAction)
    requires RowInv(s)
    requires CanWorker(s, a) && (a.JoinReaders? || a.RemoveToken? || a.SkipPublish? || a.SkipRecord?)
    ensures RowInv(DoWorker(s, a))
  {
  }

  lemma RowPublish(s: State, ok: bool)
    requires RowInv(s)
    requires CanWorker(s, Publish(ok))
    ensures RowInv(DoWorker(s, Publish(ok)))
  {
  }

  lemma RowIdle(s: State, a: WorkerAction)
    requires RowInv(s)
    requires CanWorker(s, a) && (a.Receive? || a.SkipBuild? || a.DropChannel? || a.ReturnError?)
    ensures RowInv(DoWorker(s, a))
  {
    RowFrame(s, DoWorker(s, a));
  }

  lemma RowWork(s: State, a: WorkerAction)
    requires IdsBelow(s.t.builds, s.t.nextBuildId) && RowInv(s)
    requires CanWorker(s, a)
    ensures RowInv(DoWorker(s, a))
  {
    match a
    case ClaimBuild(now) => RowClaim(s, now);
    case Stamp(now) => RowStamp(s, now);
    case RecordFile(file, version) => RowRecord(s, file, version);
    case FindPackage => RowEnter(s, a);
    case RegisterToken => RowEnter(s, a);
    case Spawn => RowEnter(s, a);
    case SelectCancel(code) => RowEnter(s, a);
    case SelectExit(code) => RowEnter(s, a);
    case JoinReaders => RowLeave(s, a);
    case RemoveToken => RowLeave(s, a);
    case Publish(ok) => RowPublish(s, ok);
    case SkipPublish => RowLeave(s, a);
    case SkipRecord => RowLeave(s, a);
    case _ => RowIdle(s, a);
  }

  // -------- the registries --------

  lemma RegistryBoot(s: State, a: BootAction)
    requires ClaimsInv(s) && RegistryInv(s)
    requires CanBoot(s, a)
    ensures RegistryInv(DoBoot(s, a))
  {
  }

  lemma RegistryApi(s: State, a: ApiAction)
    requires RegistryInv(s)
    requires CanApi(s, a)
    ensures RegistryInv(DoApi(s, a))
  {
    match a
    case CancelRow(id, now) => 
    case _ => RegistryFrame(s, DoApi(s, a));
  }

  lemma RegistryEnter(s: State, a: WorkerAction)
    requires RegistryInv(s)
    requires CanWorker(s, a)
    requires a.Receive? || a.ClaimBuild? || a.SkipBuild? || a.FindPackage? || a.RegisterToken? || a.Spawn?
    ensures RegistryInv(DoWorker(s, a))
  {
  }

  lemma RegistryLeave(s: State, a: WorkerAction)
    requires RegistryInv(s)
    requires CanWorker(s, a)
    requires !(a.Receive? || a.ClaimBuild? || a.SkipBuild? || a.FindPackage? || a.RegisterToken? || a.Spawn?)
    ensures RegistryInv(DoWorker(s, a))
  {
  }

  lemma RegistryWork(s: State, a: WorkerAction)
    requires RegistryInv(s)
    requires CanWorker(s, a)
    ensures RegistryInv(DoWorker(s, a))
  {
    if a.Receive? || a.ClaimBuild? || a.SkipBuild? || a.FindPackage? || a.RegisterToken? || a.Spawn? {
      RegistryEnter(s, a);
    } else {
      RegistryLeave(s, a);
    }
  }

  lemma RegistryRead(s: State, a: ReaderAction)
    requires RegistryInv(s)
    requires CanReader(s, a)
    ensures RegistryInv(DoReader(s, a))
  {
  }

  lemma RegistryPoll(s: State, a: PollAction)
    requires RegistryInv(s)
    requires CanPoll(s, a)
    ensures RegistryInv(DoPoll(s, a))
  {
    RegistryFrame(s, DoPoll(s, a));
  }

  // -------- logs --------

  /** Logs and their origins stay as they are, except that deleted builds lose theirs. */
  lemma LogFrame(s: State, s': State)
    requires LogInv(s)
    requires forall b | b in s'.t.logs :: b in s.t.logs && s'.t.logs[b] == s.t.logs[b]
    requires s'.h.origins == s.h.origins && s'.h.produced == s.h.produced && s'.h.started == s.h.started
    requires forall key | key in s'.readers :: key in s.readers && s'.readers[key] == s.readers[key]
    ensures LogInv(s')
  {
  }

  /** A new build starts with an empty log. */
  lemma LogInsert(s: State, tx: EnqueueTx, now: int)
    requires LogInv(s)
    requires forall b | b in s.h.started :: b < s.t.nextBuildId
    ensures LogInv(Inserted(s, tx, now))
  {
  }

  lemma LogBoot(s: State, a: BootAction)
    requires LogInv(s)
    requires CanBoot(s, a)
    ensures LogInv(DoBoot(s, a))
  {
    LogFrame(s, DoBoot(s, a));
  }

  lemma LogApi(s: State, a: ApiAction)
    requires LogInv(s)
    requires forall b | b in s.h.started :: b < s.t.nextBuildId
    requires CanApi(s, a)
    ensures LogInv(DoApi(s, a))
  {
    match a
    case InsertRow(task, now) => LogInsert(s, s.txs[task], now);
    case _ => LogFrame(s, DoApi(s, a));
  }

  lemma LogWork(s: State, a: WorkerAction)
    requires LogInv(s)
    requires s.worker.Busy? && BeforeSpawn(s.worker.at) ==> s.worker.b !in s.h.started
    requires CanWorker(s, a)
    ensures LogInv(DoWorker(s, a))
  {
    match a
    case Spawn => LogSpawn(s);
    case _ => LogFrame(s, DoWorker(s, a));
  }

  lemma LogPoll(s: State, a: PollAction)
    requires LogInv(s)
    requires forall b | b in s.h.started :: b < s.t.nextBuildId
    requires CanPoll(s, a)
    ensures LogInv(DoPoll(s, a))
  {
    match a
    case PollInsert(now) => LogInsert(s, s.txs[PollTask], now);
    case _ => LogFrame(s, DoPoll(s, a));
  }

  lemma LogSpawn(s: State)
    requires LogInv(s)
    requires CanWorker(s, Spawn) && s.worker.b !in s.h.started
    ensures LogInv(DoWorker(s, Spawn))
  {
  }

  lemma LogTake(s: State, b: BuildId, r: Reader, line: string)
    requires LogInv(s)
    requires CanReader(s, TakeLine(b, r, line))
    ensures LogInv(DoReader(s, TakeLine(b, r, line)))
  {
    var s' := DoReader(s, TakeLine(b, r, line));
    forall c | c in s'.t.logs
      ensures LogOk(c, s'.t.logs[c], s'.h.origins[c], s'.h.produced)
    {
      var origins := s.h.origins[c];
      forall k | 0 <= k < |origins|
        ensures OriginOk(c, s'.t.logs[c], origins[k], k, s'.h.produced)
      {
        assert OriginOk(c, s.t.logs[c], origins[k], k, s.h.produced);
      }
    }
    assert ReaderOk(s, b, r);
    forall c, q | (c, q) in s'.readers
      ensures ReaderOk(s', c, q)
    {
      assert ReaderOk(s, c, q);
    }
  }

  lemma LogOkAppend(b: BuildId, lines: map<nat, LogLine>, origins: seq<Origin>, produced: Produce, r: Reader, line: LogLine)
    requires LogOk(b, lines, origins, produced)
    requires (b, r) in produced && |produced[(b, r)]| > 0
    requires line.line == Stripped(produced[(b, r)][|produced[(b, r)]| - 1]) && line.stream.Stdout?
    requires OlderThanCurrent(origins, r, |produced[(b, r)]|)
    ensures LogOk(b, lines[|lines| + 1 := line], origins + [Origin(r, |produced[(b, r)]| - 1)], produced)
  {
    var more := origins + [Origin(r, |produced[(b, r)]| - 1)];
    forall k | 0 <= k < |more|
      ensures OriginOk(b, lines[|lines| + 1 := line], more[k], k, produced)
    {
      if k < |origins| {
        assert OriginOk(b, lines, origins[k], k, produced);
      }
    }
  }

  lemma ReadersAfterInsert(s: State, b: BuildId, r: Reader, now: int)
    requires LogInv(s)
    requires CanReader(s, InsertLine(b, r, now))
    ensures forall c, q | (c, q) in DoReader(s, InsertLine(b, r, now)).readers :: ReaderOk(DoReader(s, InsertLine(b, r, now)), c, q)
  {
    var s' := DoReader(s, InsertLine(b, r, now));
    assert s'.h.produced == s.h.produced && s'.h.started == s.h.started && s'.readers == s.readers[(b, r) := Stored];
    forall c, q | (c, q) in s'.readers
      ensures ReaderOk(s', c, q)
    {
      assert ReaderOk(s, c, q);
    }
  }

  /** The primary key admits only the next number, so the log grows at its end. */
  lemma LogsAfterInsert(s: State, b: BuildId, r: Reader, now: int)
    requires LogInv(s)
    requires CanReader(s, InsertLine(b, r, now))
    ensures s.readers[(b, r)].k == |s.t.logs[b]| + 1
    ensures var s' := DoReader(s, InsertLine(b, r, now));
            && b in s.h.started && s'.h.origins.Keys == s.h.origins.Keys && s'.t.logs.Keys == s.t.logs.Keys
            && LogOk(b, s'.t.logs[b], s'.h.origins[b], s.h.produced)
            && (forall c | c in s.t.logs && c != b :: s'.t.logs[c] == s.t.logs[c] && s'.h.origins[c] == s.h.origins[c])
  {
    var s' := DoReader(s, InsertLine(b, r, now));
    assert ReaderOk(s, b, r);
    LogOkAppend(b, s.t.logs[b], s.h.origins[b], s.h.produced, r, s'.t.logs[b][s.readers[(b, r)].k]);
  }

  lemma LogAppend(s: State, b: BuildId, r: Reader, now: int)
    requires LogInv(s)
    requires CanReader(s, InsertLine(b, r, now))
    ensures LogInv(DoReader(s, InsertLine(b, r, now)))
  {
    LogsAfterInsert(s, b, r, now);
    ReadersAfterInsert(s, b, r, now);
  }

  lemma LogReadMax(s: State, b: BuildId, r: Reader)
    requires LogInv(s)
    requires CanReader(s, ReadMax(b, r))
    ensures LogInv(DoReader(s, ReadMax(b, r)))
  {
    var s' := DoReader(s, ReadMax(b, r));
    if b in s.t.logs {
      assert LogOk(b, s.t.logs[b], s.h.origins[b], s.h.produced);
    }
    forall c, q | (c, q) in s'.readers
      ensures ReaderOk(s', c, q)
    {
      assert ReaderOk(s, c, q);
    }
  }

  /** A reader that gives up its line, or is done with it. */
  lemma LogRelease(s: State, b: BuildId, r: Reader, pc: ReaderPc)
    requires LogInv(s)
    requires (b, r) in s.readers && !pc.Have? && !pc.AtMax?
    ensures LogInv(SetReader(s, (b, r), pc))
  {
    assert ReaderOk(s, b, r);
    forall c, q | (c, q) in SetReader(s, (b, r), pc).readers
      ensures ReaderOk(SetReader(s, (b, r), pc), c, q)
    {
      if (c, q) != (b, r) {
        assert ReaderOk(s, c, q);
      }
    }
  }

  lemma LogRead(s: State, a: ReaderAction)
    requires LogInv(s)
    requires CanReader(s, a)
    ensures LogInv(DoReader(s, a))
  {
    match a
    case TakeLine(b, r, line) => LogTake(s, b, r, line);
    case ReadMax(b, r) => LogReadMax(s, b, r);
    case InsertLine(b, r, now) => LogAppend(s, b, r, now);
    case LoseLine(b, r) => LogRelease(s, b, r, Next);
    case FanOut(b, r) => LogRelease(s, b, r, Next);
    case Eof(b, r) => LogRelease(s, b, r, Closed);
  }

  // -------- what the worker is told --------

  ghost predicate DeliveryInv(s: State) {
    RecoveryInv(s) && SentInv(s) && ErrorInv(s)
  }

  lemma RecoveryFrame(s: State, s': State)
    requires DeliveryInv(s)
    requires s'.h.scanned == s.h.scanned && s'.h.woken == s.h.woken && s'.h.scanMark == s.h.scanMark && s'.h.scanWhole == s.h.scanWhole
    requires s'.phase == s.phase && s'.scan == s.scan && s.h.errored <= s'.h.errored
    requires s'.wake <= s.wake && (s'.worker.Woken? ==> s'.worker == s.worker || s'.worker.id in s.wake)
    requires !s'.phase.Serving? ==> s'.h.errored == {}
    requires s.t.nextBuildId <= s'.t.nextBuildId
    requires forall b: BuildId | b < s.t.nextBuildId && IsQueued(s'.t, b) :: IsQueued(s.t, b)
    requires forall b | b in s.wake && IsQueued(s'.t, b) :: OnItsWay(s', b)
    requires s.worker.Woken? && IsQueued(s'.t, s.worker.id) ==> OnItsWay(s', s.worker.id)
    ensures DeliveryInv(s')
  {
  }

  lemma RecoveryScan(s: State)
    requires DeliveryInv(s)
    requires IdsBelow(s.t.builds, s.t.nextBuildId)
    requires CanBoot(s, ReadQueue)
    ensures DeliveryInv(DoBoot(s, ReadQueue))
  {
    ListBuildsSpec(s.t.builds, Queued, SCAN_LIMIT);
    forall b | b in DoBoot(s, ReadQueue).scan.todo
      ensures b in Sent(DoBoot(s, ReadQueue))
    {
      assert b in DoBoot(s, ReadQueue).h.scanned;
    }
  }

  lemma RecoveryBoot(s: State, a: BootAction)
    requires DeliveryInv(s)
    requires IdsBelow(s.t.builds, s.t.nextBuildId)
    requires CanBoot(s, a)
    ensures DeliveryInv(DoBoot(s, a))
  {
    match a
    case ReadQueue => RecoveryScan(s);
    case SendScanned => assert forall b | b in s.scan.todo[1..] :: b in s.scan.todo;
    case _ =>
  }

  lemma RecoveryWake(s: State, id: BuildId)
    requires DeliveryInv(s)
    requires CanApi(s, SendWake(id))
    ensures DeliveryInv(DoApi(s, SendWake(id)))
  {
  }

  lemma RecoveryApi(s: State, a: ApiAction)
    requires DeliveryInv(s)
    requires IdsBelow(s.t.builds, s.t.nextBuildId)
    requires CanApi(s, a)
    ensures DeliveryInv(DoApi(s, a))
  {
    match a
    case SendWake(id) => RecoveryWake(s, id);
    case _ => RecoveryFrame(s, DoApi(s, a));
  }

  lemma RecoveryReceive(s: State, id: BuildId)
    requires DeliveryInv(s) && ClaimsInv(s)
    requires CanWorker(s, Receive(id))
    ensures DeliveryInv(DoWorker(s, Receive(id)))
  {
    RecoveryFrame(s, DoWorker(s, Receive(id)));
  }

  lemma RecoveryWork(s: State, a: WorkerAction)
    requires DeliveryInv(s) && ClaimsInv(s)
    requires CanWorker(s, a)
    ensures DeliveryInv(DoWorker(s, a))
  {
    if a.Receive? {
      RecoveryReceive(s, a.id);
    } else {
      var s' := DoWorker(s, a);
      assert s'.wake == s.wake && (s'.worker.Woken? ==> s'.worker == s.worker);
      RecoveryFrame(s, s');
    }
  }

  lemma RecoveryPoll(s: State, a: PollAction)
    requires DeliveryInv(s)
    requires CanPoll(s, a)
    ensures DeliveryInv(DoPoll(s, a))
  {
    RecoveryFrame(s, DoPoll(s, a));
  }

  // -------- polling --------

  /** Actions that put no poll build into the queue keep what the poller relies on. */
  lemma PollFrame(s: State, s': State)
    requires PollInv(s)
    requires s'.poller == s.poller && s'.h.pollWhole == s.h.pollWhole
    requires PollTask in s.txs ==> PollTask in s'.txs && s'.txs[PollTask] == s.txs[PollTask]
    requires forall task | task in s'.txs :: s'.txs[task].trigger.Poll? <==> task.PollTask?
    requires forall b | LivePoll(s'.t.builds, b) ::
               && LivePoll(s.t.builds, b) && s'.t.builds[b].pkg == s.t.builds[b].pkg
               && (s'.t.builds[b].status.Queued? ==> s.t.builds[b].status.Queued?)
    ensures PollInv(s')
  {
  }

  lemma PollBoot(s: State, a: BootAction)
    requires PollInv(s)
    requires CanBoot(s, a)
    ensures PollInv(DoBoot(s, a))
  {
    match a
    case Crash => 
    case _ => PollFrame(s, DoBoot(s, a));
  }

  lemma PollApi(s: State, a: ApiAction)
    requires PollInv(s)
    requires CanApi(s, a)
    ensures PollInv(DoApi(s, a))
  {
    PollFrame(s, DoApi(s, a));
  }

  lemma PollWork(s: State, a: WorkerAction)
    requires PollInv(s)
    requires CanWorker(s, a)
    ensures PollInv(DoWorker(s, a))
  {
    PollFrame(s, DoWorker(s, a));
  }

  lemma PollListQueued(s: State)
    requires PollInv(s) && CanPoll(s, ListQueued)
    ensures PollInv(DoPoll(s, ListQueued))
  {
    ListBuildsSpec(s.t.builds, Queued, POLL_LIMIT);
  }

  lemma PollListRunning(s: State)
    requires PollInv(s) && CanPoll(s, ListRunning)
    ensures PollInv(DoPoll(s, ListRunning))
  {
    ListBuildsSpec(s.t.builds, Running, POLL_LIMIT);
  }

  /** Dropping the head of the list leaves the other packages on it, and not the head. */
  lemma ListedTail(todo: seq<Polled>)
    requires todo != [] && DistinctPackages(todo)
    ensures DistinctPackages(todo[1..]) && !Listed(todo[1..], todo[0].pkg)
    ensures forall p | Listed(todo[1..], p) :: Listed(todo, p)
  {
    forall p | Listed(todo[1..], p)
      ensures Listed(todo, p) && p != todo[0].pkg
    {
      var i :| 0 <= i < |todo[1..]| && todo[1..][i].pkg == p;
      assert todo[i + 1].pkg == p;
    }
  }

  /** The poller queues a package it saw no live build of, and none has appeared since. */
  lemma PollQueues(s: State, now: int)
    requires PollInv(s) && IdsBelow(s.t.builds, s.t.nextBuildId)
    requires CanPoll(s, PollInsert(now))
    ensures PollInv(DoPoll(s, PollInsert(now)))
  {
  }

  lemma PollPoll(s: State, a: PollAction)
    requires PollInv(s)
    requires IdsBelow(s.t.builds, s.t.nextBuildId)
    requires CanPoll(s, a)
    ensures PollInv(DoPoll(s, a))
  {
    match a
    case ListQueued => PollListQueued(s);
    case ListRunning => PollListRunning(s);
    case SkipPackage => if s.h.pollWhole { ListedTail(s.poller.todo); }
    case PollRead => if s.h.pollWhole { ListedTail(s.poller.todo); }
    case PollInsert(now) => PollQueues(s, now);
    case _ =>
  }

  // -------- transactions --------

  /** Nothing was written, or it was committed. */
  predicate Recorded(s: State, s': State) {
    s'.commits > s.commits || (s'.commits == s.commits && s'.t == s.t)
  }

  /** Besides, a transaction is as it was, or has just read. */
  ghost predicate Transacts(s: State, s': State) {
    && Recorded(s, s')
    && forall task | task in s'.txs ::
         || (task in s.txs && s'.txs[task] == s.txs[task])
         || (s'.txs[task].seen == s.t == s'.t && s'.txs[task].at == s.commits == s'.commits)
  }

  lemma ReapTransacts(s: State, now: int)
    requires CanBoot(s, ReapStale(now))
    ensures Transacts(s, DoBoot(s, ReapStale(now)))
  {
    if WithStatus(s.t.builds, Running) == {} {
      forall i | i in s.t.builds
        ensures !s.t.builds[i].status.Running?
      {
        assert i !in WithStatus(s.t.builds, Running);
      }
      assert Reap(s.t, now).builds == s.t.builds;
    }
  }

  lemma ApiTransacts(s: State, a: ApiAction)
    requires TablesOk(s.t) && CanApi(s, a)
    ensures Transacts(s, DoApi(s, a))
  {
    if a.RemovePackage? && a.p !in s.t.packages {
      assert DropPackage(s.t, a.p).packages == s.t.packages;
      assert DropPackage(s.t, a.p).builds == s.t.builds;
      assert DropPackage(s.t, a.p).logs == s.t.logs;
    }
  }

  /** Whatever changes the tables commits. */
  lemma CommitStep(s: State, a: Action)
    requires TablesOk(s.t) && Can(s, a)
    ensures Transacts(s, Do(s, a))
  {
    match a
    case Boot(x) => if x.ReapStale? { ReapTransacts(s, x.now); } else { assert Transacts(s, DoBoot(s, x)); }
    case Api(x) => ApiTransacts(s, x);
    case Work(x) => assert Transacts(s, DoWorker(s, x));
    case Read(x) => assert Transacts(s, DoReader(s, x));
    case Polling(x) => assert Transacts(s, DoPoll(s, x));
  }

  lemma TransactionStep(s: State, a: Action)
    requires TablesOk(s.t) && CommitInv(s) && Can(s, a)
    ensures CommitInv(Do(s, a))
  {
    CommitStep(s, a);
  }

  // -------- tables --------

  lemma TablesApi(s: State, a: ApiAction)
    requires TablesOk(s.t) && CommitInv(s)
    requires CanApi(s, a)
    ensures TablesOk(DoApi(s, a).t)
  {
    match a
    case RemovePackage(p) => DeleteKeepsOk(s.t, p);
    case InsertRow(task, now) =>
      InsertKeepsOk(s.t, s.txs[task].pkg, s.txs[task].trigger, s.txs[task].variant, now);
    case CancelRow(id, now) =>
      if CancelOutcomeOf(s.t, id).WasCancelled? {
        UpdateKeepsOk(s.t, id, Cancel(s.t, id, now).builds[id]);
      }
    case _ =>
  }

  lemma TablesWork(s: State, a: WorkerAction)
    requires TablesOk(s.t) && WorkerInv(s)
    requires CanWorker(s, a)
    ensures TablesOk(DoWorker(s, a).t)
  {
    match a
    case ClaimBuild(now) =>
      UpdateKeepsOk(s.t, s.worker.id, Claim(s.t, s.worker.id, WORKER_ID, now).builds[s.worker.id]);
    case Stamp(now) =>
      if s.worker.b in s.t.builds {
        UpdateKeepsOk(s.t, s.worker.b, DoWorker(s, a).t.builds[s.worker.b]);
      }
    case RecordFile(file, version) =>
      if s.worker.b in s.t.builds {
        UpdateKeepsOk(s.t, s.worker.b, DoWorker(s, a).t.builds[s.worker.b]);
      }
    case _ =>
  }

  // -------- every action --------

  lemma TablesStep(s: State, a: Action)
    requires TablesOk(s.t) && WorkerInv(s) && CommitInv(s)
    requires Can(s, a)
    ensures TablesOk(Do(s, a).t)
  {
    match a
    case Boot(x) =>
      if x.ReapStale? {
        ReapKeepsOk(s.t, x.now);
      }
    case Api(x) => TablesApi(s, x);
    case Work(x) => TablesWork(s, x);
    case Read(x) =>
    case Polling(x) =>
      if x.PollInsert? {
        InsertKeepsOk(s.t, s.txs[PollTask].pkg, s.txs[PollTask].trigger, s.txs[PollTask].variant, x.now);
      }
  }

  /** A line that is read, stored or lost touches nothing but logs and readers. */
  lemma ReadStep(s: State, a: ReaderAction)
    requires RowInv(s) && DeliveryInv(s) && PollInv(s) && CanReader(s, a)
    ensures RowInv(DoReader(s, a)) && DeliveryInv(DoReader(s, a)) && PollInv(DoReader(s, a))
  {
    RowFrame(s, DoReader(s, a));
    RecoveryFrame(s, DoReader(s, a));
    PollFrame(s, DoReader(s, a));
  }

  lemma InvStep(s: State, a: Action)
    requires Inv(s) && Can(s, a)
    ensures Inv(Do(s, a))
  {
    TransactionStep(s, a);
    TablesStep(s, a);
    match a
    case Boot(x) => RowBoot(s, x); RegistryBoot(s, x); LogBoot(s, x); RecoveryBoot(s, x); PollBoot(s, x);
    case Api(x) => RowApi(s, x); RegistryApi(s, x); LogApi(s, x); RecoveryApi(s, x); PollApi(s, x);
    case Work(x) => RowWork(s, x); RegistryWork(s, x); LogWork(s, x); RecoveryWork(s, x); PollWork(s, x);
    case Read(x) => ReadStep(s, x); RegistryRead(s, x); LogRead(s, x);
    case Polling(x) => RowPoll(s, x); RegistryPoll(s, x); LogPoll(s, x); RecoveryPoll(s, x); PollPoll(s, x);
  }

  /** Every state of every run satisfies the invariants. */
  lemma {:induction false} InvHolds(run: seq<State>, i: nat)
    requires IsRun(run) && i < |run|
    ensures Inv(run[i])
  {
    if i == 0 {
      InitialInv();
    } else {
      InvHolds(run, i - 1);
      assert StepAt(run, i - 1);
      var a :| Can(run[i - 1], a) && run[i] == Do(run[i - 1], a);
      InvStep(run[i - 1], a);
    }
  }
}
