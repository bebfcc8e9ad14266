/** What holds of every run of the daemon: the guarantees its parts only give together. */
module Theorems {
  import opened Options
  import opened Variants
  import opened Schema
  import opened Protocol
  import opened Invariants
  import opened Steps

  // -------- the life of a build --------

  /** A build that is gone stays gone; one that is there was there ever since it was created. */
  lemma {:induction false} NeverReturns(run: seq<State>, i: nat, j: nat, b: BuildId)
    requires IsRun(run) && i <= j < |run|
    ensures run[i].t.nextBuildId <= run[j].t.nextBuildId
    ensures b < run[i].t.nextBuildId && b !in run[i].t.builds ==> b !in run[j].t.builds
  {
    if i < j {
      NeverReturns(run, i, j - 1, b);
      var a := EvolveAt(run, j - 1);
    }
  }

  lemma StaysThere(run: seq<State>, i: nat, k: nat, j: nat, b: BuildId)
    requires IsRun(run) && i <= k <= j < |run|
    requires b in run[i].t.builds && b in run[j].t.builds
    ensures b in run[k].t.builds
  {
    KnownId(run, i, b);
    NeverReturns(run, i, k, b);
    NeverReturns(run, k, j, b);
  }

  lemma KnownId(run: seq<State>, i: nat, b: BuildId)
    requires IsRun(run) && i < |run| && b in run[i].t.builds
    ensures b < run[i].t.nextBuildId && b in run[i].t.logs
  {
    InvHolds(run, i);
  }

  /**
   Along every run, through crashes, cancels and deletions, a row only moves forward: queued to
   running to a final status, or queued to cancelled. A final row is never queued or running again.
   */
  lemma {:induction false} RowsMoveForward(run: seq<State>, i: nat, j: nat, b: BuildId)
    requires IsRun(run) && i <= j < |run|
    requires b in run[i].t.builds && b in run[j].t.builds
    ensures SameBuild(run[i].t.builds[b], run[j].t.builds[b])
    ensures MayBecome(run[i].t.builds[b].status, run[j].t.builds[b].status)
  {
    if i < j {
      StaysThere(run, i, j - 1, j, b);
      RowsMoveForward(run, i, j - 1, b);
      var a := EvolveAt(run, j - 1);
    }
  }

  /** Step `i` of the run claims build `b`. */
  ghost predicate Claims(run: seq<State>, i: nat, b: BuildId)
    requires i + 1 < |run|
  {
    IsQueued(run[i].t, b) && b in run[i + 1].t.builds && run[i + 1].t.builds[b].status == Running
  }

  /** However often its id is woken, and whatever crashes in between, a build is claimed at most once. */
  lemma ClaimedAtMostOnce(run: seq<State>, i: nat, j: nat, b: BuildId)
    requires IsRun(run) && i + 1 < |run| && j + 1 < |run|
    requires Claims(run, i, b) && Claims(run, j, b)
    ensures i == j
  {
    if i < j {
      RowsMoveForward(run, i + 1, j, b);
    } else if j < i {
      RowsMoveForward(run, j + 1, i, b);
    }
  }

  /** Every row of every reachable database is well-formed, and its numbers are dense and ordered. */
  lemma RowsWellFormed(run: seq<State>, i: nat)
    requires IsRun(run) && i < |run|
    ensures forall b | b in run[i].t.builds :: RowOk(run[i].t.builds[b]) && run[i].t.builds[b].pkg in run[i].t.packages
    ensures forall p :: DenseAndOrdered(run[i].t.builds, p, CountBelow(run[i].t.builds, p, run[i].t.nextBuildId))
  {
    InvHolds(run, i);
    RankedIsDense(run[i].t.builds, run[i].t.nextBuildId);
  }

  // -------- enqueue transactions --------

  /** Step `k` of the run commits a transaction. */
  predicate Commits(run: seq<State>, k: nat)
    requires k + 1 < |run|
  {
    run[k + 1].commits != run[k].commits
  }

  predicate NoCommit(run: seq<State>, j: nat, i: nat)
    requires j <= i < |run|
  {
    forall k: nat | j <= k < i :: !Commits(run, k)
  }

  lemma CommitAt(run: seq<State>, k: nat)
    requires IsRun(run) && k + 1 < |run|
    ensures Recorded(run[k], run[k + 1])
  {
    InvHolds(run, k);
    assert StepAt(run, k);
    var a :| Can(run[k], a) && run[k + 1] == Do(run[k], a);
    CommitStep(run[k], a);
  }

  /** Commits are counted: the count stands still exactly while nothing commits, and then so do the tables. */
  lemma {:induction false} CommitsCount(run: seq<State>, j: nat, i: nat)
    requires IsRun(run) && j <= i < |run|
    ensures run[j].commits <= run[i].commits
    ensures run[j].commits == run[i].commits <==> NoCommit(run, j, i)
    ensures NoCommit(run, j, i) ==> run[i].t == run[j].t
  {
    if j < i {
      CommitsCount(run, j, i - 1);
      CommitAt(run, i - 1);
      assert NoCommit(run, j, i) <==> NoCommit(run, j, i - 1) && !Commits(run, i - 1);
    }
  }

  /** The statements that change a row, of the model's tables or of others. */
  ghost predicate ChangesARow(s: State, a: Action) {
    match a
    case Boot(ReapStale(now)) => exists i :: i in s.t.builds && s.t.builds[i].status.Running?
    case Api(StorePackage(p, pkg)) => true
    case Api(RemovePackage(p)) => p in s.t.packages
    case Api(WriteElsewhere) => true
    case Api(InsertRow(task, now)) => true
    case Api(CancelRow(id, now)) => id in s.t.builds && (s.t.builds[id].status.Queued? || s.t.builds[id].status.Running?)
    case Work(ClaimBuild(now)) => true
    case Work(Stamp(now)) => s.worker.Busy? && s.worker.b in s.t.builds
    case Work(RecordFile(file, version)) => s.worker.Busy? && s.worker.b in s.t.builds
    case Read(InsertLine(b, r, now)) => true
    case Polling(PollInsert(now)) => true
    case _ => false
  }

  /** Each of them commits once, and nothing else does. */
  lemma CommitsIff(s: State, a: Action)
    requires Can(s, a)
    ensures Do(s, a).commits == s.commits + if ChangesARow(s, a) then 1 else 0
  {
    match a
    case Boot(ReapStale(now)) =>
      assert ChangesARow(s, a) <==> WithStatus(s.t.builds, Running) != {} by {
        if i :| i in s.t.builds && s.t.builds[i].status.Running? {
          assert i in WithStatus(s.t.builds, Running);
        }
      }
    case _ =>
  }

  /**
   A transaction that read at state `j` of a run can insert at state `i` exactly when nothing was
   committed in between, by whomever and to whatever table, and its package exists. Then the
   number it read is still the next one, and the unique index does not get to object.
   */
  lemma StaleReadsFail(run: seq<State>, j: nat, i: nat, task: Task)
    requires IsRun(run) && j <= i < |run| && task in run[j].txs && task in run[i].txs
    requires run[i].txs[task] == run[j].txs[task] && run[j].txs[task].at == run[j].commits
    ensures var tx := run[i].txs[task];
            && (InsertGoes(run[i], tx) <==> NoCommit(run, j, i) && tx.pkg in run[i].t.packages)
            && (InsertGoes(run[i], tx) ==> NextNum(tx.seen, tx.pkg) == NextNum(run[i].t, tx.pkg))
  {
    InvHolds(run, i);
    CommitsCount(run, j, i);
    var tx := run[i].txs[task];
    if tx.at == run[i].commits && tx.pkg in run[i].t.packages {
      InsertKeepsOk(run[i].t, tx.pkg, tx.trigger, tx.variant, 0);
    }
  }

  /** Tables that change and change back do not help: they are what the transaction saw, and it fails. */
  lemma ChangedBackIsStale(s: State, task: Task, p: PkgId, pkg: Package)
    requires TablesOk(s.t) && CommitInv(s) && task in s.txs && p !in s.t.packages
    ensures var s' := DoApi(DoApi(s, StorePackage(p, pkg)), RemovePackage(p));
            s'.t == s.t && task in s'.txs && !InsertGoes(s', s'.txs[task])
  {
    var s' := DoApi(DoApi(s, StorePackage(p, pkg)), RemovePackage(p));
    assert s'.t.packages == s.t.packages;
    assert s'.t.builds == s.t.builds;
    assert s'.t.logs == s.t.logs;
  }

  // -------- cancellation --------

  lemma {:induction false} HistoryKept(run: seq<State>, i: nat, j: nat)
    requires IsRun(run) && i <= j < |run|
    ensures run[i].h.cancelledQueued <= run[j].h.cancelledQueued
    ensures run[i].fired <= run[j].fired
    ensures forall b | b in run[i].fired && b !in run[i].h.lost :: b !in run[j].h.lost
  {
    if i < j {
      HistoryKept(run, i, j - 1);
      var a := EvolveAt(run, j - 1);
    }
  }

  /** A build cancelled while queued never gets a container and stays cancelled for good. */
  lemma CancelledInQueueNeverRuns(run: seq<State>, i: nat, j: nat, b: BuildId)
    requires IsRun(run) && i + 1 <= j < |run|
    requires IsQueued(run[i].t, b)
    requires b in run[i + 1].t.builds && run[i + 1].t.builds[b].status == Cancelled
    ensures b !in run[j].h.started && b !in run[j].h.published && b !in run[j].h.claims
    ensures b in run[j].t.builds ==>
              && run[j].t.builds[b].status == Cancelled
              && run[j].t.builds[b].startedAt.None? && run[j].t.builds[b].exitCode.None?
  {
    var a := EvolveAt(run, i);
    HistoryKept(run, i + 1, j);
    InvHolds(run, j);
  }

  /**
   A token that fires before the container's exit wins the select: from then on the row stays
   cancelled, without an exit code, and nothing is published, in whatever order the worker, the
   cancel handler, the readers and a crash continue.
   */
  lemma FiredTokenWins(run: seq<State>, i: nat, j: nat, b: BuildId)
    requires IsRun(run) && i <= j < |run|
    requires b in run[i].fired
    requires Holds(run[i], b) && (run[i].worker.at.Registered? || run[i].worker.at.Inside?)
    ensures b !in run[j].h.published
    ensures b in run[j].t.builds ==> run[j].t.builds[b].status == Cancelled && run[j].t.builds[b].exitCode.None?
  {
    InvHolds(run, i);
    HistoryKept(run, i, j);
    InvHolds(run, j);
  }

  // -------- logs --------

  lemma LogIsDense(run: seq<State>, i: nat, b: BuildId)
    requires IsRun(run) && i < |run| && b in run[i].t.logs
    ensures b in run[i].t.builds && DenseLog(run[i].t.logs[b])
  {
    InvHolds(run, i);
    assert LogOk(b, run[i].t.logs[b], run[i].h.origins[b], run[i].h.produced);
  }

  /** The stored log of a build is numbered 1..n and only ever grows at its end. */
  lemma {:induction false} LogsGrowAtTheEnd(run: seq<State>, i: nat, j: nat, b: BuildId)
    requires IsRun(run) && i <= j < |run|
    requires b in run[i].t.logs && b in run[j].t.logs
    ensures DenseLog(run[i].t.logs[b]) && DenseLog(run[j].t.logs[b])
    ensures LogGrows(run[i].t.logs[b], run[j].t.logs[b])
  {
    LogIsDense(run, i, b);
    LogIsDense(run, j, b);
    if i < j {
      StaysThere(run, i, j - 1, j, b);
      KnownId(run, j - 1, b);
      LogsGrowAtTheEnd(run, i, j - 1, b);
      var a := EvolveAt(run, j - 1);
    }
  }

  /** The stored lines that came from reader `r`, in the order of their numbers. */
  ghost function StoredBy(lines: map<nat, LogLine>, origins: seq<Origin>, r: Reader): seq<string>
    requires DenseLog(lines) && |origins| <= |lines|
  {
    if origins == [] then []
    else
      var last := |origins| - 1;
      StoredBy(lines, origins[..last], r) + if origins[last].reader == r then [lines[last + 1].line] else []
  }

  /** The indices of those lines among the lines that reader `r` produced. */
  ghost function IndicesOf(origins: seq<Origin>, r: Reader): seq<nat> {
    if origins == [] then []
    else
      var last := |origins| - 1;
      IndicesOf(origins[..last], r) + if origins[last].reader == r then [origins[last].index] else []
  }

  predicate Increasing(at: seq<nat>) {
    forall k, l | 0 <= k < l < |at| :: at[k] < at[l]
  }

  /** What is stored of a line: the line itself, but for its line ends. */
  predicate StoredAs(stored: string, line: string) {
    && stored == Stripped(line) && NoLineEnds(stored)
    && (NoLineEnds(line) ==> stored == line)
  }

  /** `xs` holds the lines of `ys` at the places `at`. */
  predicate TakenFrom(xs: seq<string>, ys: seq<string>, at: seq<nat>) {
    |at| == |xs| && forall k | 0 <= k < |at| :: at[k] < |ys| && StoredAs(xs[k], ys[at[k]])
  }

  /** `xs` is the subsequence of `ys` at the strictly increasing places `at`. */
  predicate Embeds(xs: seq<string>, ys: seq<string>, at: seq<nat>) {
    Increasing(at) && TakenFrom(xs, ys, at)
  }

  function LinesOf(produced: Produce, b: BuildId, r: Reader): seq<string> {
    if (b, r) in produced then produced[(b, r)] else []
  }

  lemma {:induction false} IndicesIncrease(origins: seq<Origin>, r: Reader)
    requires forall k, l | 0 <= k < l < |origins| && origins[k].reader == origins[l].reader :: origins[k].index < origins[l].index
    ensures Increasing(IndicesOf(origins, r))
    ensures forall n | n in IndicesOf(origins, r) :: exists k :: 0 <= k < |origins| && origins[k] == Origin(r, n)
  {
    if origins != [] {
      var last := |origins| - 1;
      IndicesIncrease(origins[..last], r);
      var before := IndicesOf(origins[..last], r);
      forall n | n in IndicesOf(origins, r)
        ensures exists k :: 0 <= k < |origins| && origins[k] == Origin(r, n)
      {
        if n in before {
          var k :| 0 <= k < |origins[..last]| && origins[..last][k] == Origin(r, n);
          assert origins[k] == Origin(r, n);
        } else {
          assert origins[last] == Origin(r, n);
        }
      }
      forall k, l | 0 <= k < l < |IndicesOf(origins, r)|
        ensures IndicesOf(origins, r)[k] < IndicesOf(origins, r)[l]
      {
        if l == |before| {
          assert before[k] in before;
          var m :| 0 <= m < |origins[..last]| && origins[..last][m] == Origin(r, before[k]);
          assert origins[m] == Origin(r, before[k]);
        }
      }
    }
  }

  lemma {:induction false} StoredLinesMatch(b: BuildId, lines: map<nat, LogLine>, origins: seq<Origin>, r: Reader, produced: Produce)
    requires DenseLog(lines) && |origins| <= |lines|
    requires forall k | 0 <= k < |origins| :: OriginOk(b, lines, origins[k], k, produced)
    ensures TakenFrom(StoredBy(lines, origins, r), LinesOf(produced, b, r), IndicesOf(origins, r))
  {
    if origins != [] {
      var last := |origins| - 1;
      forall k | 0 <= k < last
        ensures OriginOk(b, lines, origins[..last][k], k, produced)
      {
        assert OriginOk(b, lines, origins[k], k, produced);
      }
      StoredLinesMatch(b, lines, origins[..last], r, produced);
      assert OriginOk(b, lines, origins[last], last, produced);
      if origins[last].reader == r {
        StrippedIs(LinesOf(produced, b, r)[origins[last].index]);
      }
    }
  }

  /**
   Whatever the two readers do to each other, the lines stored from one reader are an in-order
   subsequence of the lines it produced; lines may be lost, but none is invented, repeated or moved. A
   line without carriage returns and line feeds is stored exactly as it was produced. Whichever
   reader it came from, it is stored as standard output.
   */
  lemma StoredInOrder(run: seq<State>, i: nat, b: BuildId, r: Reader)
    requires IsRun(run) && i < |run| && b in run[i].t.logs
    ensures DenseLog(run[i].t.logs[b]) && |Origins(run[i], b)| == |run[i].t.logs[b]|
    ensures exists at :: Embeds(StoredBy(run[i].t.logs[b], Origins(run[i], b), r), Produced(run[i], (b, r)), at)
    ensures forall k | k in run[i].t.logs[b] :: run[i].t.logs[b][k].stream.Stdout?
  {
    InvHolds(run, i);
    var s := run[i];
    var origins := s.h.origins[b];
    assert LogOk(b, s.t.logs[b], origins, s.h.produced);
    forall k | k in s.t.logs[b]
      ensures s.t.logs[b][k].stream.Stdout?
    {
      assert OriginOk(b, s.t.logs[b], origins[k - 1], k - 1, s.h.produced);
    }
    IndicesIncrease(origins, r);
    StoredLinesMatch(b, s.t.logs[b], origins, r, s.h.produced);
    assert Embeds(StoredBy(s.t.logs[b], origins, r), Produced(s, (b, r)), IndicesOf(origins, r));
  }

  // -------- the registries --------

  /**
   Whenever the worker is between two builds, no token, no log channel, no open reader and no
   running row is left over, except for builds whose `process_one` returned an error.
   */
  lemma NothingLeftOver(run: seq<State>, i: nat)
    requires IsRun(run) && i < |run|
    requires run[i].phase.Serving? && !run[i].worker.Busy?
    ensures run[i].tokens <= run[i].h.errored && run[i].channels <= run[i].h.errored
    ensures forall key | key in run[i].readers && !run[i].readers[key].Closed? :: key.0 in run[i].h.errored
    ensures forall b | b in run[i].t.builds && run[i].t.builds[b].status == Running :: b in run[i].h.errored
  {
    InvHolds(run, i);
  }

  /** While the worker is busy, the only other running rows are those of builds with an error. */
  lemma OneBuildRuns(run: seq<State>, i: nat, b: BuildId)
    requires IsRun(run) && i < |run| && !run[i].phase.Starting?
    requires b in run[i].t.builds && run[i].t.builds[b].status == Running && b !in run[i].h.errored
    ensures Holds(run[i], b) && BeforeStamp(run[i].worker.at)
  {
    InvHolds(run, i);
  }

  // -------- recovery --------

  /** Between `c` and `i` the daemon starts at most once. */
  predicate NoRestart(run: seq<State>, c: nat, i: nat)
    requires c <= i < |run|
  {
    forall k | c <= k < i :: run[k + 1].phase.Starting? ==> run[k].phase.Starting?
  }

  lemma {:induction false} ScanComesAfter(run: seq<State>, c: nat, i: nat, b: BuildId)
    requires IsRun(run) && c <= i < |run| && NoRestart(run, c, i)
    requires run[c].phase.Starting? && b < run[c].t.nextBuildId
    ensures NoScanYet(run[i]) || b < run[i].h.scanMark
  {
    if c == i {
      InvHolds(run, c);
    } else {
      assert NoRestart(run, c, i - 1);
      ScanComesAfter(run, c, i - 1, b);
      NeverReturns(run, c, i - 1, b);
      var a := EvolveAt(run, i - 1);
      if run[i].phase.Starting? {
        InvHolds(run, i);
      }
    }
  }

  /** Everything sent has been received, and the worker is done with it. */
  predicate Rests(s: State) {
    s.scan.Scanned? && s.wake == multiset{} && s.worker.Idle?
  }

  lemma Recovered(run: seq<State>, i: nat, b: BuildId)
    requires IsRun(run) && i < |run| && b in run[i].t.builds && b < run[i].h.scanMark
    requires Rests(run[i]) && run[i].h.scanWhole
    ensures run[i].t.builds[b].status.Live() ==> b in run[i].h.errored
  {
    InvHolds(run, i);
    if run[i].t.builds[b].status.Queued? {
      assert IsQueued(run[i].t, b);
    }
  }

  /**
   Crash recovery. Let the database hold at most 10,000 queued builds when the start-up scan
   reads it. Once the scan's ids are sent and the worker has consumed every id it was sent, a
   build from before the start is neither queued nor running any more, unless its `process_one`
   returned an error. New builds, cancels and deletions may have come in between.
   */
  lemma CrashRecoveryDrains(run: seq<State>, c: nat, i: nat, b: BuildId)
    requires IsRun(run) && c <= i < |run| && NoRestart(run, c, i)
    requires run[c].phase.Starting? && b in run[c].t.builds
    requires Rests(run[i]) && run[i].h.scanWhole
    ensures b in run[i].t.builds && run[i].t.builds[b].status.Live() ==> b in run[i].h.errored
  {
    KnownId(run, c, b);
    ScanComesAfter(run, c, i, b);
    if b in run[i].t.builds {
      Recovered(run, i, b);
    }
  }

  predicate SameScan(s: State, s': State) {
    s'.scan == s.scan && s'.phase == s.phase && s'.h.scanned == s.h.scanned
  }

  lemma WorkKeepsScan(s: State, a: WorkerAction)
    requires CanWorker(s, a)
    ensures SameScan(s, DoWorker(s, a))
  {
  }

  lemma OthersKeepScan(s: State, a: Action)
    requires Can(s, a) && !a.Boot? && !a.Work?
    ensures SameScan(s, Do(s, a))
  {
    match a
    case Api(x) => assert SameScan(s, DoApi(s, x));
    case Read(x) => assert SameScan(s, DoReader(s, x));
    case Polling(x) => assert SameScan(s, DoPoll(s, x));
  }

  lemma FailedScanStep(s: State, a: Action)
    requires Can(s, a) && s.scan.ScanFailed? && !s.phase.Starting? && (Do(s, a).phase.Starting? ==> s.phase.Starting?)
    ensures Do(s, a).scan.ScanFailed? && Do(s, a).h.scanned == s.h.scanned && !Do(s, a).phase.Starting?
  {
    match a
    case Boot(x) =>
    case Work(x) => WorkKeepsScan(s, x);
    case _ => OthersKeepScan(s, a);
  }

  /** A scan that failed is not repeated: nothing more is read from the queue until the next start. */
  lemma {:induction false} FailedScanIsFinal(run: seq<State>, k: nat, i: nat)
    requires IsRun(run) && k < i < |run| && NoRestart(run, k, i)
    requires Can(run[k], Boot(ScanError)) && run[k + 1] == Do(run[k], Boot(ScanError))
    ensures run[i].scan.ScanFailed? && run[i].h.scanned == run[k].h.scanned && !run[i].phase.Starting?
  {
    if k + 1 < i {
      assert NoRestart(run, k, i - 1);
      FailedScanIsFinal(run, k, i - 1);
      assert StepAt(run, i - 1);
      var a :| Can(run[i - 1], a) && run[i] == Do(run[i - 1], a);
      FailedScanStep(run[i - 1], a);
    }
  }

  // -------- builds that wait --------

  /** Only a build whose id was sent to the worker is claimed. */
  ghost predicate ClaimsOnlySent(s: State, s': State, b: BuildId) {
    IsQueued(s.t, b) && b in s'.t.builds && b !in Sent(s') && b !in s'.h.cancelledQueued ==> IsQueued(s'.t, b)
  }

  lemma UnsentStep(s: State, a: Action, s': State, b: BuildId)
    requires RowsEvolve(s, a, s') && HistoryEvolves(s, s') && SentInv(s) && Sent(s) <= Sent(s')
    requires IdsBelow(s.t.builds, s.t.nextBuildId)
    ensures ClaimsOnlySent(s, s', b)
  {
  }

  lemma StepWithoutRestart(run: seq<State>, k: nat, b: BuildId)
    requires IsRun(run) && k + 1 < |run| && (run[k + 1].phase.Starting? ==> run[k].phase.Starting?)
    ensures Sent(run[k]) <= Sent(run[k + 1]) && run[k].h.cancelledQueued <= run[k + 1].h.cancelledQueued
    ensures ClaimsOnlySent(run[k], run[k + 1], b)
  {
    InvHolds(run, k);
    var a := EvolveAt(run, k);
    UnsentStep(run[k], a, run[k + 1], b);
  }

  lemma {:induction false} UnsentWaits(run: seq<State>, j: nat, i: nat, b: BuildId)
    requires IsRun(run) && j <= i < |run| && NoRestart(run, j, i)
    requires IsQueued(run[j].t, b) && b in run[i].t.builds
    requires b !in Sent(run[i]) && b !in run[i].h.cancelledQueued
    ensures IsQueued(run[i].t, b)
  {
    if j < i {
      assert NoRestart(run, j, i - 1);
      StaysThere(run, j, i - 1, i, b);
      StepWithoutRestart(run, i - 1, b);
      UnsentWaits(run, j, i - 1, b);
    }
  }

  /**
   When everything sent has been received and the worker is done, a build that was queued at some
   time since the start, and was neither cancelled there nor returned with an error, is still
   queued exactly when its id was never sent: not read by the scan, and not by a handler.
   */
  lemma StillQueuedIff(run: seq<State>, j: nat, i: nat, b: BuildId)
    requires IsRun(run) && j <= i < |run| && NoRestart(run, j, i) && Rests(run[i])
    requires IsQueued(run[j].t, b) && b in run[i].t.builds
    requires b !in run[i].h.cancelledQueued && b !in run[i].h.errored
    ensures IsQueued(run[i].t, b) <==> b !in run[i].h.scanned && b !in run[i].h.woken
  {
    InvHolds(run, i);
    if b !in Sent(run[i]) {
      UnsentWaits(run, j, i, b);
    }
  }

  /** How much the worker and the scan have left to do. */
  ghost function Remaining(s: State): nat {
    (match s.scan
     case Sending(todo) => 20 * |todo| + 1
     case _ => 0)
    + 19 * |s.wake| + Rank(s.worker)
  }

  function Rank(w: Worker): nat {
    match w
    case Off => 0
    case Idle => 0
    case Woken(id) => 15
    case Busy(b, at) => match at
      case Claimed(p) => 14
      case PackageFound => 13
      case Registered => 12
      case Inside => 11
      case Exited(out) => 10
      case Drained(out) => 9
      case Unregistered(out) => 8
      case Stamped(out) => 7
      case Published => 6
      case Cleaning => 5
  }

  /** Every action of the worker and of the scan's sender uses some of it up. */
  lemma WorkIsUsedUp(s: State, a: Action)
    requires Can(s, a)
    requires a.Work? || (a.Boot? && (a.boot.SendScanned? || a.boot.ScanDone?))
    ensures Remaining(Do(s, a)) < Remaining(s)
  {
    match a
    case Boot(x) =>
    case Work(x) => WorkerUsesUp(s, x);
  }

  lemma WorkerUsesUp(s: State, a: WorkerAction)
    requires CanWorker(s, a)
    ensures Remaining(DoWorker(s, a)) < Remaining(s)
  {
    match a
    case Receive(id) =>
    case _ =>
  }

  /** The worker has claimed a build whose package is gone: all it can do is return an error. */
  predicate PackageGone(s: State) {
    s.worker.Busy? && s.worker.at.Claimed? && s.worker.at.pkg !in s.t.packages
  }

  /**
   What goes on by itself once containers end and their output ends: the scanned ids are sent, the
   worker goes on, without an error unless its build's package is gone, and the readers of its
   build store their line and come to the end. A line is lost only when the table refuses it.
   */
  ghost predicate IsInternal(s: State, a: Action) {
    match a
    case Boot(x) => x.SendScanned? || x.ScanDone?
    case Work(x) => x.ReturnError? ==> PackageGone(s)
    case Read(x) => Holds(s, x.b) && (x.ReadMax? || x.InsertLine? || x.FanOut? || x.Eof? || (x.LoseLine? && Refused(s, (x.b, x.r))))
    case _ => false
  }

  /** The reader's line would collide with another one, or its build is gone. */
  ghost predicate Refused(s: State, key: (BuildId, Reader)) {
    key in s.readers && s.readers[key].AtMax? && !LogInsertAllowed(s.t, key.0, s.readers[key].k)
  }

  /**
   The queue never gets stuck: as long as something remains, the scan, the worker or a reader of
   the worker's build can act, and the worker has to return an error only if the package of the
   build it claimed is gone.
   */
  lemma NeverStuck(run: seq<State>, i: nat) returns (a: Action)
    requires IsRun(run) && i < |run|
    requires run[i].phase.Serving? && Remaining(run[i]) > 0
    ensures Can(run[i], a) && IsInternal(run[i], a)
  {
    InvHolds(run, i);
    var s := run[i];
    if s.scan.Sending? {
      a := Boot(if s.scan.todo == [] then ScanDone else SendScanned);
    } else if s.worker.Idle? {
      var id :| id in s.wake;
      a := Work(Receive(id));
    } else if s.worker.Woken? {
      a := Work(if IsQueued(s.t, s.worker.id) then ClaimBuild(0) else SkipBuild);
    } else {
      a := WorkerCanMove(s);
    }
  }

  lemma WorkerCanMove(s: State) returns (a: Action)
    requires Inv(s) && s.worker.Busy?
    ensures Can(s, a) && IsInternal(s, a)
  {
    var b := s.worker.b;
    match s.worker.at
    case Claimed(p) => a := Work(if p in s.t.packages then FindPackage else ReturnError);
    case PackageFound => a := Work(RegisterToken);
    case Registered => a := Work(Spawn);
    case Inside => a := Work(if b in s.fired then SelectCancel(0) else SelectExit(0));
    case Exited(out) =>
      if r: Reader :| (b, r) in s.readers && !s.readers[(b, r)].Closed? {
        a := Read(ReaderCanMove(s, b, r));
      } else {
        a := Work(JoinReaders);
      }
    case Drained(out) => a := Work(RemoveToken);
    case Unregistered(out) => a := Work(Stamp(0));
    case Stamped(out) => a := Work(if FinalStatus(out).Success? then Publish(true) else SkipPublish);
    case Published => a := Work(SkipRecord);
    case Cleaning => a := Work(DropChannel);
  }

  /** An open reader's next action. */
  ghost function ReaderCanMove(s: State, b: BuildId, r: Reader): (a: ReaderAction)
    requires Holds(s, b) && (b, r) in s.readers && !s.readers[(b, r)].Closed?
    ensures CanReader(s, a) && IsInternal(s, Read(a))
  {
    match s.readers[(b, r)]
    case Next => Eof(b, r)
    case Have(line) => ReadMax(b, r)
    case AtMax(line, k) => if LogInsertAllowed(s.t, b, k) then InsertLine(b, r, 0) else LoseLine(b, r)
    case Stored => FanOut(b, r)
    case Closed => assert false; Eof(b, r)
  }

  // -------- what comes from outside --------

  /**
   The model forbids nothing that comes from outside. In every state the daemon may crash, the
   poller may give up, and any request may run any of its statements.
   */
  lemma AnyRequestMayCome(s: State)
    ensures Can(s, Boot(Crash)) && Can(s, Polling(PollError)) && Can(s, Api(WriteElsewhere))
    ensures forall p, pkg :: Can(s, Api(StorePackage(p, pkg)))
    ensures forall p :: Can(s, Api(RemovePackage(p)))
    ensures forall id, now :: Can(s, Api(CancelRow(id, now)))
    ensures forall id: BuildId | id < s.t.nextBuildId :: Can(s, Api(SendWake(id)))
    ensures forall id | id in s.cancelling :: Can(s, Api(FireToken(id)))
    ensures forall n, p, trigger, variant | Handler(n) !in s.txs && trigger != Poll ::
              Can(s, Api(ReadNum(Handler(n), p, trigger, variant)))
    ensures forall n | Handler(n) in s.txs :: Can(s, Api(AbortTx(Handler(n))))
  {
  }

  /**
   Nor what comes from the container and from the disk: it exits with any code unless its token
   has fired, prints any lines, goes on printing when one of them is lost, publishing may fail, and so may every call before the final status
   is written, and every statement of the log and of the scan.
   */
  lemma AnyOutcomeMayCome(s: State, b: BuildId)
    requires s.worker.Busy? && s.worker.b == b
    ensures s.worker.at.Inside? ==>
              forall code :: (b in s.fired <==> Can(s, Work(SelectCancel(code)))) && (b !in s.fired <==> Can(s, Work(SelectExit(code))))
    ensures forall r | (b, r) in s.readers && s.readers[(b, r)].Next? ::
              Can(s, Read(Eof(b, r))) && forall line :: Can(s, Read(TakeLine(b, r, line)))
    ensures forall r | (b, r) in s.readers && (s.readers[(b, r)].Have? || s.readers[(b, r)].AtMax?) :: Can(s, Read(LoseLine(b, r)))
    ensures forall r | (b, r) in s.readers && (s.readers[(b, r)].Have? || s.readers[(b, r)].AtMax?) ::
              forall line :: Can(Do(s, Read(LoseLine(b, r))), Read(TakeLine(b, r, line)))
    ensures s.worker.at.Stamped? && !s.worker.at.out.cancelled && s.worker.at.out.code == 0 ==>
              Can(s, Work(Publish(true))) && Can(s, Work(Publish(false)))
    ensures s.worker.at.Published? ==>
              Can(s, Work(SkipRecord)) && forall file, version :: Can(s, Work(RecordFile(file, version)))
    ensures Can(s, Work(ReturnError)) <==>
              !(s.worker.at.Exited? || s.worker.at.Stamped? || s.worker.at.Published? || s.worker.at.Cleaning?)
  {
  }

  // -------- polling --------

  /**
   As long as every poll saw all live builds (at most 1000 of each kind), a package never has two
   live builds from the poller, whatever handlers, claims, cancels and finishes come in between
   the snapshot and the insert.
   */
  lemma OnePollBuildPerPackage(run: seq<State>, i: nat, a: BuildId, b: BuildId)
    requires IsRun(run) && i < |run| && run[i].h.pollWhole
    requires LivePoll(run[i].t.builds, a) && LivePoll(run[i].t.builds, b)
    requires run[i].t.builds[a].pkg == run[i].t.builds[b].pkg
    ensures a == b
  {
    InvHolds(run, i);
  }
}
