/** What one action does to the rows, the logs, the history and the start-up scan. */
module Steps {
  import opened Options
  import opened Variants
  import opened Schema
  import opened Protocol
  import opened Invariants

  // -------- the life of a build --------

  /** Where the status of a row can get in any number of steps. */
  predicate MayBecome(a: Status, b: Status) {
    match a
    case Queued => true
    case Running => b != Queued
    case Cancelled => !b.Live()
    case Success => b == Success
    case Failed => b == Failed
  }

  /** Each change of a status and the one action that makes it. */
  ghost predicate StatusChange(s: State, a: Action, b: BuildId, from: Status, to: Status) {
    || (a.Work? && a.work.ClaimBuild? && s.worker == Woken(b) && from == Queued && to == Running)
    || (a.Api? && a.api.CancelRow? && a.api.id == b && from.Live() && to == Cancelled)
    || (a.Boot? && a.boot.ReapStale? && s.worker.Off? && from == Running && to == Failed)
    || (a.Work? && a.work.Stamp? && Holds(s, b) && (from == Running || from == Cancelled)
        && s.worker.at.Unregistered? && to == FinalStatus(s.worker.at.out))
  }

  /** Rows keep their identity and only move forward; only an id never used before brings a new row. */
  ghost predicate RowsEvolve(s: State, a: Action, s': State) {
    && s.t.nextBuildId <= s'.t.nextBuildId
    && forall b | b in s'.t.builds ::
         || (b !in s.t.builds && b >= s.t.nextBuildId)
         || (b in s.t.builds && SameBuild(s.t.builds[b], s'.t.builds[b])
             && (s.t.builds[b].status == s'.t.builds[b].status
                 || StatusChange(s, a, b, s.t.builds[b].status, s'.t.builds[b].status)))
  }

  /** What has been recorded stays recorded; a build is lost only while its token has not fired. */
  ghost predicate HistoryEvolves(s: State, s': State) {
    && s.h.cancelledQueued <= s'.h.cancelledQueued
    && s.fired <= s'.fired
    && (forall b | b in s'.h.lost && b !in s.h.lost :: b !in s.fired)
    && (forall b | b in s'.t.builds && s'.t.builds[b].status.Cancelled? && IsQueued(s.t, b) :: b in s'.h.cancelledQueued)
  }

  /** Nothing is added to a log, or one line at its end. */
  ghost predicate LogGrows(before: map<nat, LogLine>, after: map<nat, LogLine>) {
    && |before| <= |after|
    && forall k | k in before :: k in after && after[k] == before[k]
  }

  ghost predicate LogsEvolve(s: State, s': State) {
    forall b | b in s.t.logs && b in s'.t.logs :: LogGrows(s.t.logs[b], s'.t.logs[b])
  }

  ghost predicate NoScanYet(s: State) {
    s.scan.NotScanned? || s.scan.ScanFailed?
  }

  /** A scan marks all ids given out so far, and its mark stays until the daemon stops. */
  ghost predicate ScanEvolves(s: State, s': State) {
    || (s'.phase.Starting? && !s.phase.Starting?)
    || NoScanYet(s')
    || (NoScanYet(s) && s'.h.scanMark == s.t.nextBuildId)
    || (!NoScanYet(s) && s'.h.scanMark == s.h.scanMark)
  }

  /** What has been sent to the worker counts as sent until the daemon stops. */
  ghost predicate SentEvolves(s: State, s': State) {
    (s'.phase.Starting? && !s.phase.Starting?) || Sent(s) <= Sent(s')
  }

  /** All of this together. */
  ghost predicate Evolves(s: State, a: Action, s': State) {
    RowsEvolve(s, a, s') && LogsEvolve(s, s') && HistoryEvolves(s, s') && ScanEvolves(s, s') && SentEvolves(s, s')
  }

  /** What the tables, the worker's row and the scan have to satisfy for it. */
  ghost predicate Sound(s: State) {
    && IdsBelow(s.t.builds, s.t.nextBuildId) && s.t.logs.Keys == s.t.builds.Keys
    && ClaimsInv(s) && WorkerInv(s) && RecoveryInv(s)
  }

  /** Tables that stay as they are, and one new row at the end. */
  lemma TablesStay(s: State, a: Action, s': State)
    requires s'.t == s.t
    ensures RowsEvolve(s, a, s') && LogsEvolve(s, s')
  {
  }

  lemma RowAdded(s: State, a: Action, tx: EnqueueTx, now: int, s': State)
    requires IdsBelow(s.t.builds, s.t.nextBuildId) && s.t.logs.Keys == s.t.builds.Keys
    requires s'.t == Inserted(s, tx, now).t
    ensures RowsEvolve(s, a, s') && LogsEvolve(s, s')
  {
  }

  lemma BootEvolves(s: State, a: BootAction)
    requires Sound(s) && CanBoot(s, a)
    ensures Evolves(s, Boot(a), DoBoot(s, a))
  {
  }

  lemma ApiTables(s: State, a: ApiAction)
    requires IdsBelow(s.t.builds, s.t.nextBuildId) && s.t.logs.Keys == s.t.builds.Keys
    requires CanApi(s, a)
    ensures RowsEvolve(s, Api(a), DoApi(s, a)) && LogsEvolve(s, DoApi(s, a))
  {
    match a
    case InsertRow(task, now) => RowAdded(s, Api(a), s.txs[task], now, DoApi(s, a));
    case StorePackage(p, pkg) =>
    case RemovePackage(p) =>
    case CancelRow(id, now) =>
    case _ => TablesStay(s, Api(a), DoApi(s, a));
  }

  lemma ApiEvolves(s: State, a: ApiAction)
    requires Sound(s) && CanApi(s, a)
    ensures Evolves(s, Api(a), DoApi(s, a))
  {
    ApiTables(s, a);
  }

  lemma WorkTables(s: State, a: WorkerAction)
    requires WorkerInv(s) && CanWorker(s, a)
    ensures RowsEvolve(s, Work(a), DoWorker(s, a)) && LogsEvolve(s, DoWorker(s, a))
  {
    match a
    case ClaimBuild(now) =>
    case Stamp(now) =>
    case RecordFile(file, version) =>
    case _ => TablesStay(s, Work(a), DoWorker(s, a));
  }

  lemma WorkHistory(s: State, a: WorkerAction)
    requires Sound(s) && CanWorker(s, a)
    ensures HistoryEvolves(s, DoWorker(s, a)) && ScanEvolves(s, DoWorker(s, a)) && SentEvolves(s, DoWorker(s, a))
  {
  }

  lemma ReadEvolves(s: State, a: ReaderAction)
    requires CanReader(s, a)
    ensures Evolves(s, Read(a), DoReader(s, a))
  {
    if !a.InsertLine? {
      TablesStay(s, Read(a), DoReader(s, a));
    }
  }

  lemma PollEvolves(s: State, a: PollAction)
    requires Sound(s) && CanPoll(s, a)
    ensures Evolves(s, Polling(a), DoPoll(s, a))
  {
    match a
    case PollInsert(now) => RowAdded(s, Polling(a), s.txs[PollTask], now, DoPoll(s, a));
    case _ => TablesStay(s, Polling(a), DoPoll(s, a));
  }

  lemma Evolve(s: State, a: Action)
    requires Inv(s) && Can(s, a)
    ensures Evolves(s, a, Do(s, a))
  {
    match a
    case Boot(x) => BootEvolves(s, x);
    case Api(x) => ApiEvolves(s, x);
    case Work(x) => WorkTables(s, x); WorkHistory(s, x);
    case Read(x) => ReadEvolves(s, x);
    case Polling(x) => PollEvolves(s, x);
  }

  /** The same for step `i` of a run. */
  lemma EvolveAt(run: seq<State>, i: nat) returns (a: Action)
    requires IsRun(run) && i + 1 < |run|
    ensures Evolves(run[i], a, run[i + 1])
  {
    InvHolds(run, i);
    assert StepAt(run, i);
    a :| Can(run[i], a) && run[i + 1] == Do(run[i], a);
    Evolve(run[i], a);
  }
}
